/** The line index over several JSONL files: recorded line starts, cumulative counts, and the
lookup of a global line number. */
module LineIndex {
  import opened Options
  import opened Arith
  import opened IndexFormat

  const NEWLINE: Byte := 10

  // ------------------------------------------------------------------ lines

  /** The end of the line that starts at pos: just after the next newline, or the file end. */
  function LineEnd(file: seq<Byte>, pos: nat): (end: nat)
    requires pos <= |file|
    ensures pos <= end <= |file|
    ensures pos < |file| ==> pos < end
    ensures forall i :: pos <= i < end - 1 ==> file[i] != NEWLINE
    ensures end == |file| || file[end - 1] == NEWLINE
    decreases |file| - pos
  {
    if pos == |file| then pos else if file[pos] == NEWLINE then pos + 1 else LineEnd(file, pos + 1)
  }

  /** readline at a position. */
  function ReadLine(file: seq<Byte>, pos: nat): seq<Byte>
    requires pos <= |file|
  {
    file[pos..LineEnd(file, pos)]
  }

  /** The lines of a file from a position on, each with its newline. */
  function LinesFrom(file: seq<Byte>, pos: nat): seq<seq<Byte>>
    requires pos <= |file|
    decreases |file| - pos
  {
    if pos == |file| then [] else [ReadLine(file, pos)] + LinesFrom(file, LineEnd(file, pos))
  }

  function Lines(file: seq<Byte>): seq<seq<Byte>> {
    LinesFrom(file, 0)
  }

  function Concat(lines: seq<seq<Byte>>): seq<Byte> {
    if lines == [] then [] else lines[0] + Concat(lines[1..])
  }

  lemma ConcatCons(line: seq<Byte>, rest: seq<seq<Byte>>)
    ensures Concat([line] + rest) == line + Concat(rest)
  {
    assert ([line] + rest)[1..] == rest;
  }

  lemma NoLines()
    ensures Concat([]) == []
  {}

  /** The lines concatenate back to the file. */
  lemma {:induction false} LinesConcat(file: seq<Byte>, pos: nat)
    requires pos <= |file|
    ensures Concat(LinesFrom(file, pos)) == file[pos..]
    decreases |file| - pos
  {
    hide LineEnd, Concat;
    if pos == |file| {
      NoLines();
    } else {
      var end := LineEnd(file, pos);
      LinesConcat(file, end);
      ConcatCons(ReadLine(file, pos), LinesFrom(file, end));
      assert file[pos..] == file[pos..end] + file[end..];
    }
  }

  /** No line is empty, a newline can only be its last byte, and every line but the last of the
      file has one. */
  lemma {:induction false} LinesAreLines(file: seq<Byte>, pos: nat, i: nat)
    requires pos <= |file| && i < |LinesFrom(file, pos)|
    ensures var line := LinesFrom(file, pos)[i];
            && |line| > 0
            && (forall k :: 0 <= k < |line| - 1 ==> line[k] != NEWLINE)
            && (i < |LinesFrom(file, pos)| - 1 ==> line[|line| - 1] == NEWLINE)
    decreases |file| - pos
  {
    var end := LineEnd(file, pos);
    if i > 0 {
      LinesAreLines(file, end, i - 1);
    }
  }

  // ------------------------------------------------------------------ line starts

  /** The position of line i: the lines before it take up everything before it. */
  function StartOf(lines: seq<seq<Byte>>, i: nat): nat
    requires i <= |lines|
  {
    |Concat(lines[..i])|
  }

  lemma {:induction false} ConcatAppend(lines: seq<seq<Byte>>, line: seq<Byte>)
    ensures Concat(lines + [line]) == Concat(lines) + line
  {
    if lines == [] {
      ConcatCons(line, []);
      assert [line] + [] == lines + [line];
    } else {
      assert (lines + [line])[1..] == lines[1..] + [line];
      ConcatAppend(lines[1..], line);
    }
  }

  lemma StartOfNext(lines: seq<seq<Byte>>, i: nat)
    requires i < |lines|
    ensures StartOf(lines, i + 1) == StartOf(lines, i) + |lines[i]|
  {
    assert lines[..i + 1] == lines[..i] + [lines[i]];
    ConcatAppend(lines[..i], lines[i]);
  }

  /** Starts are exactly where the lines begin. */
  predicate StartsOf(file: seq<Byte>, starts: seq<nat>) {
    && |starts| == |Lines(file)|
    && forall i :: 0 <= i < |starts| ==>
         starts[i] == StartOf(Lines(file), i) && starts[i] < |file| && ReadLine(file, starts[i]) == Lines(file)[i]
  }

  /** Starts are strictly increasing, so no position is recorded twice. */
  lemma {:induction false} StartsIncrease(file: seq<Byte>, starts: seq<nat>, i: nat, j: nat)
    requires StartsOf(file, starts) && i < j < |starts|
    ensures starts[i] < starts[j]
    decreases j
  {
    hide Concat, LinesFrom, LineEnd;
    StartOfNext(Lines(file), j - 1);
    LinesAreLines(file, 0, j - 1);
    if i < j - 1 {
      StartsIncrease(file, starts, i, j - 1);
    }
  }

  /** The indexing loop: the position after the last line is recorded too and then popped.  A file
      of length zero cannot be mapped. */
  method BuildLineStarts(file: seq<Byte>) returns (r: Option<seq<nat>>)
    ensures r.None? <==> file == []
    ensures r.Some? ==> StartsOf(file, r.value)
  {
    if file == [] {
      return None;
    }
    hide Concat;
    var starts: seq<nat>, pos := [], 0;
    ghost var lines := Lines(file);
    NoLines();
    while true
      invariant 0 <= pos <= |file| && |starts| <= |lines|
      invariant lines[|starts|..] == LinesFrom(file, pos)
      invariant pos == StartOf(lines, |starts|)
      invariant forall i :: 0 <= i < |starts| ==>
                  starts[i] == StartOf(lines, i) && starts[i] < |file| && ReadLine(file, starts[i]) == lines[i]
      decreases |file| - pos
    {
      starts := starts + [pos];
      var line := ReadLine(file, pos);
      if line == [] {
        break;
      }
      assert lines[|starts| - 1] == line && lines[|starts|..] == LinesFrom(file, pos)[1..];
      assert LinesFrom(file, pos)[1..] == LinesFrom(file, LineEnd(file, pos));
      StartOfNext(lines, |starts| - 1);
      pos := pos + |line|;
    }
    assert pos == |file|;
    if starts != [] && pos == |file| {
      starts := starts[..|starts| - 1];
    }
    r := Some(starts);
  }

  // ------------------------------------------------------------------ global numbers

  /** The cum_counts list. */
  method CumulativeCounts(counts: seq<nat>) returns (cum: seq<nat>)
    ensures |cum| == |counts| + 1 && forall k :: 0 <= k <= |counts| ==> cum[k] == PrefixSum(counts, k)
  {
    hide PrefixSum;
    cum := [0];
    PrefixSumOfNone(counts);
    for i := 0 to |counts|
      invariant |cum| == i + 1 && forall k :: 0 <= k <= i ==> cum[k] == PrefixSum(counts, k)
    {
      PrefixSumStep(counts, i);
      cum := cum + [cum[i] + counts[i]];
    }
  }

  /** bisect_right: the first position whose entry exceeds x. */
  method BisectRight(a: seq<nat>, x: nat) returns (lo: nat)
    requires forall i, j :: 0 <= i < j < |a| ==> a[i] <= a[j]
    ensures lo <= |a|
    ensures forall i :: 0 <= i < lo ==> a[i] <= x
    ensures forall i :: lo <= i < |a| ==> x < a[i]
  {
    lo := 0;
    var hi := |a|;
    while lo < hi
      invariant lo <= hi <= |a|
      invariant forall i :: 0 <= i < lo ==> a[i] <= x
      invariant forall i :: hi <= i < |a| ==> x < a[i]
    {
      var mid := (lo + hi) / 2;
      if x < a[mid] {
        hi := mid;
      } else {
        lo := mid + 1;
      }
    }
  }

  /** All lines of all files, in order. */
  function AllLines(files: seq<seq<Byte>>): seq<seq<Byte>> {
    if files == [] then [] else AllLines(files[..|files| - 1]) + Lines(files[|files| - 1])
  }

  function LineCounts(files: seq<seq<Byte>>): seq<nat> {
    seq(|files|, f requires 0 <= f < |files| => |Lines(files[f])|)
  }

  lemma {:induction false} AllLinesAt(files: seq<seq<Byte>>, f: nat, i: nat)
    requires f < |files| && i < |Lines(files[f])|
    ensures |AllLines(files)| == PrefixSum(LineCounts(files), |files|)
    ensures PrefixSum(LineCounts(files), f) + i < |AllLines(files)|
    ensures AllLines(files)[PrefixSum(LineCounts(files), f) + i] == Lines(files[f])[i]
  {
    hide Lines;
    AllLinesCount(files, |files|);
    AllLinesCount(files, f);
    var n := |files| - 1;
    assert files[..|files|] == files;
    AllLinesCount(files, n);
    if f < n {
      AllLinesAt(files[..n], f, i);
      AllLinesCount(files[..n], f);
      assert files[..n][..f] == files[..f];
    }
  }

  lemma {:induction false} AllLinesCount(files: seq<seq<Byte>>, n: nat)
    requires n <= |files|
    ensures |AllLines(files[..n])| == PrefixSum(LineCounts(files), n)
  {
    hide Lines;
    if n > 0 {
      AllLinesCount(files, n - 1);
      assert files[..n][..n - 1] == files[..n - 1];
    }
  }

  /** The dataset: the files in sorted order, their recorded starts and the cumulative counts. */
  datatype Dataset = Dataset(files: seq<seq<Byte>>, starts: seq<seq<nat>>, cum: seq<nat>)

  ghost predicate Indexed(d: Dataset) {
    && |d.starts| == |d.files| && |d.cum| == |d.files| + 1
    && (forall f :: 0 <= f < |d.files| ==> StartsOf(d.files[f], d.starts[f]))
    && (forall k :: 0 <= k <= |d.files| ==> d.cum[k] == PrefixSum(LineCounts(d.files), k))
  }

  /** The constructor: every file is indexed, then the counts are accumulated.  It fails exactly when
      some file is empty. */
  method BuildDataset(files: seq<seq<Byte>>) returns (r: Option<Dataset>)
    ensures r.None? <==> [] in files
    ensures r.Some? ==> r.value.files == files && Indexed(r.value)
  {
    hide StartsOf, PrefixSum, Lines;
    var starts: seq<seq<nat>>, counts: seq<nat> := [], [];
    for f := 0 to |files|
      invariant |starts| == |counts| == f && [] !in files[..f]
      invariant forall k :: 0 <= k < f ==> StartsOf(files[k], starts[k]) && counts[k] == |Lines(files[k])|
    {
      var one := BuildLineStarts(files[f]);
      if one.None? {
        return None;
      }
      StartsCount(files[f], one.value);
      assert files[..f + 1] == files[..f] + [files[f]];
      starts, counts := starts + [one.value], counts + [|one.value|];
    }
    assert files[..|files|] == files;
    assert counts == LineCounts(files);
    var cum := CumulativeCounts(counts);
    r := Some(Dataset(files, starts, cum));
  }

  lemma StartsCount(file: seq<Byte>, starts: seq<nat>)
    requires StartsOf(file, starts)
    ensures |starts| == |Lines(file)|
  {}

  /** _map_global_to_local: the only file and local number a global number stands for; files
      without lines are skipped. */
  method MapGlobalToLocal(counts: seq<nat>, cum: seq<nat>, g: nat) returns (file: nat, local: nat)
    requires |cum| == |counts| + 1 && forall k :: 0 <= k <= |counts| ==> cum[k] == PrefixSum(counts, k)
    requires g < PrefixSum(counts, |counts|)
    ensures file < |counts| && local < counts[file] && g == PrefixSum(counts, file) + local
    ensures forall f :: 0 <= f < |counts| && PrefixSum(counts, f) <= g < PrefixSum(counts, f) + counts[f] ==> f == file
  {
    hide PrefixSum;
    forall i, j | 0 <= i < j < |cum|
      ensures cum[i] <= cum[j]
    {
      PrefixSumMonotone(counts, i, j);
    }
    var pos := BisectRight(cum, g);
    PrefixSumOfNone(counts);
    assert cum[0] <= g < cum[|counts|];
    file := pos - 1;
    local := g - cum[file];
    PrefixSumStep(counts, file);
    forall f | 0 <= f < |counts| && PrefixSum(counts, f) <= g < PrefixSum(counts, f) + counts[f]
      ensures f == file
    {
      PrefixSumStep(counts, f);
      assert cum[f] <= g < cum[f + 1];
    }
  }

  /** __getitem__: global number i gives exactly the i-th line across the files. */
  method GetLine(d: Dataset, i: int) returns (r: Option<seq<Byte>>)
    requires Indexed(d)
    ensures r == if 0 <= i < |AllLines(d.files)| then Some(AllLines(d.files)[i]) else None
  {
    hide Lines, PrefixSum, ReadLine;
    ghost var counts := LineCounts(d.files);
    AllLinesCount(d.files, |d.files|);
    assert d.files[..|d.files|] == d.files;
    if !(0 <= i < d.cum[|d.files|]) {
      return None;
    }
    var counted := seq(|d.starts|, f requires 0 <= f < |d.starts| => |d.starts[f]|);
    assert counted == counts;
    var file, local := MapGlobalToLocal(counted, d.cum, i);
    AllLinesAt(d.files, file, local);
    r := Some(ReadLine(d.files[file], d.starts[file][local]));
  }
}
