/** Bytes, the fixed-width little-endian index record, and shard file names. */
module IndexFormat {
  import opened Options
  import opened Arith

  type Byte = b: int | 0 <= b < 256

  // ------------------------------------------------------------------ integers as bytes

  /** 256 to the given power. */
  function Limit(width: nat): nat {
    if width == 0 then 1 else 256 * Limit(width - 1)
  }

  function Encode(n: nat, width: nat): (bytes: seq<Byte>)
    ensures |bytes| == width
  {
    if width == 0 then [] else [n % 256] + Encode(n / 256, width - 1)
  }

  function Decode(bytes: seq<Byte>): nat {
    if bytes == [] then 0 else bytes[0] + 256 * Decode(bytes[1..])
  }

  lemma {:induction false} DecodeEncode(n: nat, width: nat)
    requires n < Limit(width)
    ensures Decode(Encode(n, width)) == n
  {
    if width > 0 {
      DecodeEncode(n / 256, width - 1);
      assert Encode(n, width)[1..] == Encode(n / 256, width - 1);
    }
  }

  lemma {:induction false} EncodeDecode(bytes: seq<Byte>)
    ensures Decode(bytes) < Limit(|bytes|)
    ensures Encode(Decode(bytes), |bytes|) == bytes
  {
    if bytes != [] {
      EncodeDecode(bytes[1..]);
      LowByte(bytes[0], Decode(bytes[1..]));
    }
  }

  lemma {:induction false} DivLimit(n: nat, k: nat)
    ensures Limit(k) > 0 && Limit(k + 1) == 256 * Limit(k) && (n / 256) / Limit(k) == n / Limit(k + 1)
  {
    if k > 0 {
      DivLimit(n, k - 1);
    }
    DivTwice(n, Limit(k));
  }

  lemma Scaled(x: int, y: int)
    ensures Mul(x, 256 * y) == 256 * Mul(x, y)
  {}

  lemma DivTwice(n: nat, d: nat)
    requires d > 0
    ensures (n / 256) / d == n / (256 * d)
  {
    hide Mul;
    var q := n / 256;
    DivModForm(q, d);
    Scaled(q / d, d);
    DivMod(q / d, 256 * d, 256 * (q % d) + n % 256, n);
  }

  /** Byte k is the k-th digit to the base 256, the lowest first. */
  lemma {:induction false} EncodeAt(n: nat, width: nat, k: nat)
    requires k < width
    ensures Limit(k) > 0 && Encode(n, width)[k] == (n / Limit(k)) % 256
  {
    if k > 0 {
      EncodeAt(n / 256, width - 1, k - 1);
      DivLimit(n, k - 1);
    }
  }

  lemma LowByte(low: Byte, rest: nat)
    ensures (low + 256 * rest) % 256 == low && (low + 256 * rest) / 256 == rest
  {}

  // ------------------------------------------------------------------ slices

  predicate Holds(file: seq<Byte>, offset: nat, bytes: seq<Byte>) {
    offset + |bytes| <= |file| && file[offset..offset + |bytes|] == bytes
  }

  lemma HoldsMiddle(before: seq<Byte>, bytes: seq<Byte>, after: seq<Byte>)
    ensures Holds(before + bytes + after, |before|, bytes)
  {}

  lemma HoldsExtend(file: seq<Byte>, more: seq<Byte>, offset: nat, bytes: seq<Byte>)
    requires Holds(file, offset, bytes)
    ensures Holds(file + more, offset, bytes)
  {
    assert (file + more)[offset..offset + |bytes|] == file[offset..offset + |bytes|];
  }

  // ------------------------------------------------------------------ records

  datatype Record = Record(
    sampleId: nat,
    shardId: nat,
    seqLen: nat,
    inputIds: nat,
    attentionMask: nat,
    lossMask: nat,
    hidden: nat,
    lastHidden: nat)

  /** "<QIIQQQQQ": one 8-byte, two 4-byte and five 8-byte unsigned integers, no padding. */
  const RECORD_SIZE: nat := 56

  predicate InRange(r: Record) {
    && r.sampleId < Limit(8) && r.shardId < Limit(4) && r.seqLen < Limit(4)
    && r.inputIds < Limit(8) && r.attentionMask < Limit(8) && r.lossMask < Limit(8)
    && r.hidden < Limit(8) && r.lastHidden < Limit(8)
  }

  predicate AllInRange(records: seq<Record>) {
    forall i :: 0 <= i < |records| ==> InRange(records[i])
  }

  function RecordBytes(r: Record): (bytes: seq<Byte>)
    ensures |bytes| == RECORD_SIZE
  {
    Encode(r.sampleId, 8) + Encode(r.shardId, 4) + Encode(r.seqLen, 4) + Encode(r.inputIds, 8)
    + Encode(r.attentionMask, 8) + Encode(r.lossMask, 8) + Encode(r.hidden, 8) + Encode(r.lastHidden, 8)
  }

  /** pack_index_record: out-of-range fields raise. */
  function PackRecord(r: Record): Option<seq<Byte>> {
    if InRange(r) then Some(RecordBytes(r)) else None
  }

  /** unpack_index_record: a buffer that ends too early raises. */
  function UnpackRecord(buffer: seq<Byte>, offset: nat): Option<Record> {
    if offset + RECORD_SIZE > |buffer| then None
    else
      Some(Record(Decode(buffer[offset..offset + 8]), Decode(buffer[offset + 8..offset + 12]),
                  Decode(buffer[offset + 12..offset + 16]), Decode(buffer[offset + 16..offset + 24]),
                  Decode(buffer[offset + 24..offset + 32]), Decode(buffer[offset + 32..offset + 40]),
                  Decode(buffer[offset + 40..offset + 48]), Decode(buffer[offset + 48..offset + 56])))
  }

  lemma FieldsOfRecord(r: Record)
    ensures var b := RecordBytes(r);
            && b[0..8] == Encode(r.sampleId, 8) && b[8..12] == Encode(r.shardId, 4) && b[12..16] == Encode(r.seqLen, 4)
            && b[16..24] == Encode(r.inputIds, 8) && b[24..32] == Encode(r.attentionMask, 8)
            && b[32..40] == Encode(r.lossMask, 8)
            && b[40..48] == Encode(r.hidden, 8) && b[48..56] == Encode(r.lastHidden, 8)
  {
    hide Encode;
  }

  lemma SubSlice(buffer: seq<Byte>, offset: nat, bytes: seq<Byte>, i: nat, j: nat)
    requires Holds(buffer, offset, bytes) && i <= j <= |bytes|
    ensures buffer[offset + i..offset + j] == bytes[i..j]
  {
    forall k | 0 <= k < j - i
      ensures buffer[offset + i..offset + j][k] == bytes[i..j][k]
    {
      assert buffer[offset..offset + |bytes|][i + k] == bytes[i + k];
    }
  }

  /** Unpacking undoes packing, wherever the record lies in a buffer. */
  lemma UnpackPacked(buffer: seq<Byte>, offset: nat, r: Record)
    requires InRange(r) && Holds(buffer, offset, RecordBytes(r))
    ensures UnpackRecord(buffer, offset) == Some(r)
  {
    hide Encode, Decode, Limit, RecordBytes;
    var b := RecordBytes(r);
    FieldsOfRecord(r);
    SubSlice(buffer, offset, b, 0, 8);
    SubSlice(buffer, offset, b, 8, 12);
    SubSlice(buffer, offset, b, 12, 16);
    SubSlice(buffer, offset, b, 16, 24);
    SubSlice(buffer, offset, b, 24, 32);
    SubSlice(buffer, offset, b, 32, 40);
    SubSlice(buffer, offset, b, 40, 48);
    SubSlice(buffer, offset, b, 48, 56);
    DecodeEncode(r.sampleId, 8);
    DecodeEncode(r.shardId, 4);
    DecodeEncode(r.seqLen, 4);
    DecodeEncode(r.inputIds, 8);
    DecodeEncode(r.attentionMask, 8);
    DecodeEncode(r.lossMask, 8);
    DecodeEncode(r.hidden, 8);
    DecodeEncode(r.lastHidden, 8);
  }

  lemma EncodeSlice(buffer: seq<Byte>, i: nat, j: nat)
    requires i <= j <= |buffer|
    ensures Encode(Decode(buffer[i..j]), j - i) == buffer[i..j] && Decode(buffer[i..j]) < Limit(j - i)
  {
    EncodeDecode(buffer[i..j]);
  }

  lemma Join(buffer: seq<Byte>, i: nat, j: nat, k: nat)
    requires i <= j <= k <= |buffer|
    ensures buffer[i..j] + buffer[j..k] == buffer[i..k]
  {}

  /** Packing undoes unpacking: every 56 bytes are some in-range record. */
  lemma PackUnpacked(buffer: seq<Byte>, offset: nat)
    requires offset + RECORD_SIZE <= |buffer|
    ensures PackRecord(UnpackRecord(buffer, offset).value) == Some(buffer[offset..offset + RECORD_SIZE])
  {
    hide Encode, Decode, Limit;
    EncodeSlice(buffer, offset, offset + 8);
    EncodeSlice(buffer, offset + 8, offset + 12);
    EncodeSlice(buffer, offset + 12, offset + 16);
    EncodeSlice(buffer, offset + 16, offset + 24);
    EncodeSlice(buffer, offset + 24, offset + 32);
    EncodeSlice(buffer, offset + 32, offset + 40);
    EncodeSlice(buffer, offset + 40, offset + 48);
    EncodeSlice(buffer, offset + 48, offset + 56);
    Join(buffer, offset, offset + 8, offset + 12);
    Join(buffer, offset, offset + 12, offset + 16);
    Join(buffer, offset, offset + 16, offset + 24);
    Join(buffer, offset, offset + 24, offset + 32);
    Join(buffer, offset, offset + 32, offset + 40);
    Join(buffer, offset, offset + 40, offset + 48);
    Join(buffer, offset, offset + 48, offset + 56);
  }

  // ------------------------------------------------------------------ index files

  /** The bytes of an index file. */
  function IndexBytes(records: seq<Record>): seq<Byte> {
    if records == [] then [] else IndexBytes(records[..|records| - 1]) + RecordBytes(records[|records| - 1])
  }

  lemma {:induction false} IndexLength(records: seq<Record>)
    ensures |IndexBytes(records)| == RECORD_SIZE * |records|
  {
    hide RecordBytes;
    if records != [] {
      IndexLength(records[..|records| - 1]);
    }
  }

  lemma IndexAppend(records: seq<Record>, r: Record)
    ensures IndexBytes(records + [r]) == IndexBytes(records) + RecordBytes(r)
  {
    assert (records + [r])[..|records|] == records;
  }

  lemma {:induction false} IndexHolds(records: seq<Record>, i: nat)
    requires i < |records|
    ensures Holds(IndexBytes(records), RECORD_SIZE * i, RecordBytes(records[i]))
  {
    hide RecordBytes;
    var n := |records| - 1;
    IndexLength(records);
    IndexLength(records[..n]);
    if i < n {
      IndexHolds(records[..n], i);
      HoldsExtend(IndexBytes(records[..n]), RecordBytes(records[n]), RECORD_SIZE * i, RecordBytes(records[i]));
    }
  }

  /** The i-th record of an index file is read back at 56 * i. */
  lemma IndexAt(records: seq<Record>, i: nat)
    requires i < |records| && InRange(records[i])
    ensures UnpackRecord(IndexBytes(records), RECORD_SIZE * i) == Some(records[i])
  {
    hide RecordBytes, IndexBytes, UnpackRecord, Limit;
    IndexHolds(records, i);
    UnpackPacked(IndexBytes(records), RECORD_SIZE * i, records[i]);
  }

  // ------------------------------------------------------------------ file names

  function Digit(d: nat): char
    requires d < 10
  {
    '0' + d as char
  }

  function Digits(n: nat): string {
    if n < 10 then [Digit(n)] else Digits(n / 10) + [Digit(n % 10)]
  }

  /** The id with leading zeros up to five digits. */
  function Padded(text: string): string
    decreases 5 - |text|
  {
    if |text| >= 5 then text else Padded("0" + text)
  }

  function ShardFile(prefix: string, id: nat): string {
    prefix + Padded(Digits(id)) + ".bin"
  }

  function Number(text: string): int {
    if text == [] then 0 else 10 * Number(text[..|text| - 1]) + (text[|text| - 1] as int - '0' as int)
  }

  lemma {:induction false} NumberOfDigits(n: nat)
    ensures Number(Digits(n)) == n
  {
    if n >= 10 {
      NumberOfDigits(n / 10);
      assert Digits(n)[..|Digits(n)| - 1] == Digits(n / 10);
    }
  }

  lemma {:induction false} NumberOfZero(text: string)
    ensures Number("0" + text) == Number(text)
  {
    if text != [] {
      NumberOfZero(text[..|text| - 1]);
      assert ("0" + text)[..|text|] == "0" + text[..|text| - 1];
    }
  }

  lemma {:induction false} NumberOfPadded(text: string)
    ensures Number(Padded(text)) == Number(text)
    decreases 5 - |text|
  {
    if |text| < 5 {
      NumberOfPadded("0" + text);
      NumberOfZero(text);
    }
  }

  predicate AllDigits(text: string) {
    forall i :: 0 <= i < |text| ==> '0' <= text[i] <= '9'
  }

  lemma {:induction false} DigitsFacts(n: nat)
    ensures AllDigits(Digits(n)) && Digits(n) != [] && (n > 0 ==> Digits(n)[0] != '0')
  {
    if n >= 10 {
      DigitsFacts(n / 10);
    }
  }

  lemma {:induction false} PaddedFacts(text: string)
    requires AllDigits(text)
    ensures AllDigits(Padded(text)) && |Padded(text)| == (if |text| >= 5 then |text| else 5)
    ensures |text| >= 5 ==> Padded(text) == text
    decreases 5 - |text|
  {
    if |text| < 5 {
      PaddedFacts("0" + text);
    }
  }

  /** The id in a file name is written in decimal with at least five digits, and with more only when it
      has them. */
  lemma PaddedIs(id: nat)
    ensures var text := Padded(Digits(id));
            && AllDigits(text) && Number(text) == id && |text| >= 5 && (|text| > 5 ==> text[0] != '0')
  {
    hide Digits, Padded, Number;
    DigitsFacts(id);
    PaddedFacts(Digits(id));
    NumberOfPadded(Digits(id));
    NumberOfDigits(id);
    if id == 0 {
      ZeroIsOneDigit();
    }
  }

  lemma ZeroIsOneDigit()
    ensures |Digits(0)| == 1
  {}

  /** Different shard ids have different file names. */
  lemma ShardFileInjective(prefix: string, a: nat, b: nat)
    requires ShardFile(prefix, a) == ShardFile(prefix, b)
    ensures a == b
  {
    hide Digits, Padded, Number;
    var x, y := Padded(Digits(a)), Padded(Digits(b));
    assert ShardFile(prefix, a)[|prefix|..|prefix| + |x|] == x;
    assert ShardFile(prefix, b)[|prefix|..|prefix| + |y|] == y;
    NumberOfPadded(Digits(a));
    NumberOfPadded(Digits(b));
    NumberOfDigits(a);
    NumberOfDigits(b);
  }
}
