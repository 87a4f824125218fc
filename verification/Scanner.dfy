/** The scanner that cuts one assignment expression out of a config file, and literals that it
cuts out exactly. */
module Scanner {
  import opened Options

  datatype Error = Unbalanced | Unterminated

  datatype Result = Ok(text: string) | Err(error: Error)

  // ------------------------------------------------------------------ characters

  /** str.isspace. */
  predicate IsSpace(c: char) {
    var n := c as int;
    || 9 <= n <= 13 || 28 <= n <= 32 || n == 0x85 || n == 0xa0 || n == 0x1680 || 0x2000 <= n <= 0x200a
    || n == 0x2028 || n == 0x2029 || n == 0x202f || n == 0x205f || n == 0x3000
  }

  predicate IsOpening(c: char) { c == '(' || c == '[' || c == '{' }

  predicate IsClosing(c: char) { c == ')' || c == ']' || c == '}' }

  predicate IsQuote(c: char) { c == '\'' || c == '"' }

  function Closing(c: char): char
    requires IsOpening(c)
  {
    if c == '(' then ')' else if c == '[' then ']' else '}'
  }

  function StripLeft(s: string): string {
    if s != [] && IsSpace(s[0]) then StripLeft(s[1..]) else s
  }

  function StripRight(s: string): string {
    if s != [] && IsSpace(s[|s| - 1]) then StripRight(s[..|s| - 1]) else s
  }

  function Strip(s: string): string {
    StripRight(StripLeft(s))
  }

  predicate Tripled(source: string, i: nat, q: char) {
    i + 3 <= |source| && source[i] == q && source[i + 1] == q && source[i + 2] == q
  }

  // ------------------------------------------------------------------ the scanner as a function

  datatype State = State(index: nat, stack: string, quote: Option<char>, triple: bool, escaped: bool, comment: bool)

  datatype Move = Go(state: State) | Stop(result: Result)

  /** One turn of the scanning loop. */
  function Step(source: string, start: nat, s: State): (m: Move)
    requires start <= s.index < |source|
    ensures m.Go? ==> s.index < m.state.index <= |source|
  {
    var c := source[s.index];
    var next := s.index + 1;
    if s.comment then
      if c == '\n' && s.stack == [] then Stop(Ok(Strip(source[start..s.index])))
      else Go(s.(index := next, comment := c != '\n'))
    else if s.quote.Some? then
      if s.escaped then Go(s.(index := next, escaped := false))
      else if c == '\\' then Go(s.(index := next, escaped := true))
      else if s.triple then
        if Tripled(source, s.index, s.quote.value) then Go(s.(index := s.index + 3, quote := None, triple := false))
        else Go(s.(index := next))
      else Go(s.(index := next, quote := if c == s.quote.value then None else s.quote))
    else if c == '#' then Go(s.(index := next, comment := true))
    else if IsQuote(c) then
      Go(s.(index := if Tripled(source, s.index, c) then s.index + 3 else next,
            quote := Some(c), triple := Tripled(source, s.index, c)))
    else if IsOpening(c) then Go(s.(index := next, stack := s.stack + [Closing(c)]))
    else if IsClosing(c) then
      if s.stack == [] || c != s.stack[|s.stack| - 1] then Stop(Err(Unbalanced))
      else if |s.stack| == 1 then Stop(Ok(Strip(source[start..next])))
      else Go(s.(index := next, stack := s.stack[..|s.stack| - 1]))
    else if c == '\n' && s.stack == [] then Stop(Ok(Strip(source[start..s.index])))
    else Go(s.(index := next))
  }

  function Scan(source: string, start: nat, s: State): Result
    requires start <= s.index <= |source|
    decreases |source| - s.index
  {
    if s.index == |source| then
      if s.quote.Some? || s.stack != [] then Err(Unterminated) else Ok(Strip(source[start..]))
    else
      match Step(source, start, s)
      case Stop(r) => r
      case Go(t) => Scan(source, start, t)
  }

  function SkipSpaces(source: string, i: nat): (j: nat)
    requires i <= |source|
    ensures i <= j <= |source|
    decreases |source| - i
  {
    if i < |source| && IsSpace(source[i]) then SkipSpaces(source, i + 1) else i
  }

  function Outside(index: nat, stack: string): State {
    State(index, stack, None, false, false, false)
  }

  function Extract(source: string, start: nat): Result
    requires start <= |source|
  {
    var first := SkipSpaces(source, start);
    Scan(source, first, Outside(first, []))
  }

  lemma ScanUnfolds(source: string, start: nat, s: State)
    requires start <= s.index <= |source|
    ensures s.index == |source| ==>
              Scan(source, start, s)
              == if s.quote.Some? || s.stack != [] then Err(Unterminated) else Ok(Strip(source[start..]))
    ensures s.index < |source| ==>
              var m := Step(source, start, s);
              Scan(source, start, s) == if m.Stop? then m.result else Scan(source, start, m.state)
  {
    hide Step, Strip;
  }

  lemma ExtractIs(source: string, start: nat, first: nat)
    requires start <= first <= |source| && SkipSpaces(source, start) == first
    ensures Extract(source, start) == Scan(source, first, Outside(first, []))
  {}

  /** _extract_assignment_expression. */
  method ExtractAssignmentExpression(source: string, start: nat) returns (r: Result)
    requires start <= |source|
    ensures r == Extract(source, start)
  {
    hide Strip, Scan, Extract;
    var index := start;
    while index < |source| && IsSpace(source[index])
      invariant start <= index <= |source| && SkipSpaces(source, index) == SkipSpaces(source, start)
    {
      index := index + 1;
    }
    var first := index;
    ExtractIs(source, start, first);
    var stack: string, quote: Option<char>, triple, escaped, comment := [], None, false, false, false;
    while index < |source|
      invariant first <= index <= |source|
      invariant Scan(source, first, State(index, stack, quote, triple, escaped, comment)) == Extract(source, start)
      decreases |source| - index
    {
      var c := source[index];
      ScanUnfolds(source, first, State(index, stack, quote, triple, escaped, comment));
      if comment {
        if c == '\n' {
          comment := false;
          if stack == [] {
            return Ok(Strip(source[first..index]));
          }
        }
        index := index + 1;
        continue;
      }
      if quote.Some? {
        if escaped {
          escaped := false;
          index := index + 1;
          continue;
        }
        if c == '\\' {
          escaped := true;
          index := index + 1;
          continue;
        }
        if triple {
          if Tripled(source, index, quote.value) {
            index := index + 3;
            quote := None;
            triple := false;
            continue;
          }
        } else if c == quote.value {
          quote := None;
        }
        index := index + 1;
        continue;
      }
      if c == '#' {
        comment := true;
        index := index + 1;
        continue;
      }
      if IsQuote(c) {
        quote := Some(c);
        triple := Tripled(source, index, c);
        index := index + if triple then 3 else 1;
        continue;
      }
      if IsOpening(c) {
        stack := stack + [Closing(c)];
      } else if IsClosing(c) {
        if stack == [] || c != stack[|stack| - 1] {
          return Err(Unbalanced);
        }
        stack := stack[..|stack| - 1];
        if stack == [] {
          return Ok(Strip(source[first..index + 1]));
        }
      } else if c == '\n' && stack == [] {
        return Ok(Strip(source[first..index]));
      }
      index := index + 1;
    }
    ScanUnfolds(source, first, State(index, stack, quote, triple, escaped, comment));
    if quote.Some? || stack != [] {
      return Err(Unterminated);
    }
    r := Ok(Strip(source[first..]));
  }

  // ------------------------------------------------------------------ literals

  datatype Kind = ListKind | TupleKind | DictKind | CallKind

  /** What stands before an item: nothing, a dictionary key, or a keyword. */
  datatype Key = NoKey | KeyOf(key: Literal) | Keyword(name: string)

  datatype Items = Nil | Cons(key: Key, head: Literal, tail: Items)

  datatype Literal =
    | Plain(text: string)
    | Text(quote: char, triple: bool, body: string)
    | Bracketed(kind: Kind, items: Items)
    | Commented(comment: string, item: Literal)

  /** Text without quotes, brackets or comment signs: numbers, names, True, None. */
  predicate IsPlain(text: string) {
    forall i :: 0 <= i < |text| ==> !IsQuote(text[i]) && !IsOpening(text[i]) && !IsClosing(text[i]) && text[i] != '#'
  }

  predicate WellFormedKey(k: Key)
    decreases k
  {
    match k
    case NoKey => true
    case KeyOf(key) => WellFormed(key)
    case Keyword(name) => IsPlain(name)
  }

  predicate WellFormedItems(items: Items)
    decreases items
  {
    match items
    case Nil => true
    case Cons(key, head, tail) => WellFormedKey(key) && WellFormed(head) && WellFormedItems(tail)
  }

  predicate WellFormed(l: Literal)
    decreases l
  {
    match l
    case Plain(text) => IsPlain(text)
    case Text(quote, _, _) => IsQuote(quote)
    case Bracketed(_, items) => WellFormedItems(items)
    case Commented(comment, item) => (forall i :: 0 <= i < |comment| ==> comment[i] != '\n') && WellFormed(item)
  }

  function Head(kind: Kind): string {
    match kind case ListKind => "" case TupleKind => "" case DictKind => "" case CallKind => "dict"
  }

  function Opener(kind: Kind): char {
    match kind case ListKind => '[' case TupleKind => '(' case DictKind => '{' case CallKind => '('
  }

  /** Backslashes and the quote are escaped. */
  function Escape(body: string, q: char): string {
    if body == [] then []
    else if body[0] == '\\' || body[0] == q then ['\\', body[0]] + Escape(body[1..], q)
    else [body[0]] + Escape(body[1..], q)
  }

  function Quotes(q: char, triple: bool): string {
    if triple then [q, q, q] else [q]
  }

  function PrintKey(k: Key): string
    decreases k
  {
    match k
    case NoKey => ""
    case KeyOf(key) => Print(key) + ": "
    case Keyword(name) => name + "="
  }

  function PrintItems(items: Items): string
    decreases items
  {
    match items
    case Nil => ""
    case Cons(key, head, tail) => PrintKey(key) + (Print(head) + (", " + PrintItems(tail)))
  }

  function Print(l: Literal): string
    decreases l
  {
    match l
    case Plain(text) => text
    case Text(quote, triple, body) => Quotes(quote, triple) + (Escape(body, quote) + Quotes(quote, triple))
    case Bracketed(kind, items) => Head(kind) + ([Opener(kind)] + (PrintItems(items) + [Closing(Opener(kind))]))
    case Commented(comment, item) => "#" + (comment + ("\n" + Print(item)))
  }

  // ------------------------------------------------------------------ scanning a printed literal

  /** The text stands in the source at position i. */
  predicate Stands(source: string, i: nat, text: string) {
    i + |text| <= |source| && source[i..i + |text|] == text
  }

  lemma StandsSplit(source: string, i: nat, a: string, b: string)
    requires Stands(source, i, a + b)
    ensures Stands(source, i, a) && Stands(source, i + |a|, b)
  {
    assert a == (a + b)[..|a|] && b == (a + b)[|a|..];
  }

  lemma StandsAt(source: string, i: nat, text: string, k: nat)
    requires Stands(source, i, text) && k < |text|
    ensures source[i + k] == text[k]
  {
    assert source[i..i + |text|][k] == text[k];
  }

  lemma StandsWithin(source: string, i: nat, text: string)
    requires Stands(source, i, text)
    ensures i + |text| <= |source|
  {}

  /** From state s the scanner gets to state t: both lead to the same result. */
  ghost predicate Leads(source: string, start: nat, s: State, t: State) {
    && start <= s.index <= t.index <= |source|
    && Scan(source, start, s) == Scan(source, start, t)
  }

  lemma OneStep(source: string, start: nat, s: State, t: State)
    requires start <= s.index < |source| && Step(source, start, s) == Go(t)
    ensures Leads(source, start, s, t)
  {
    hide Step;
  }

  /** Plain text is passed over: on any stack inside brackets, and on the empty stack when it has
      no newline. */
  lemma {:induction false} PlainPasses(source: string, start: nat, i: nat, text: string, stack: string)
    requires start <= i && Stands(source, i, text) && IsPlain(text)
    requires stack != [] || forall k :: 0 <= k < |text| ==> text[k] != '\n'
    ensures Leads(source, start, Outside(i, stack), Outside(i + |text|, stack))
    decreases |text|
  {
    hide Scan, Strip;
    if text != [] {
      assert [text[0]] + text[1..] == text;
      StandsSplit(source, i, [text[0]], text[1..]);
      StandsAt(source, i, text, 0);
      OneStep(source, start, Outside(i, stack), Outside(i + 1, stack));
      PlainPasses(source, start, i + 1, text[1..], stack);
    }
  }

  /** A comment is passed over inside brackets, whatever it contains. */
  lemma {:induction false} CommentPasses(source: string, start: nat, i: nat, comment: string, stack: string)
    requires start <= i && Stands(source, i, comment + "\n") && stack != []
    requires forall k :: 0 <= k < |comment| ==> comment[k] != '\n'
    ensures Leads(source, start, Outside(i, stack).(comment := true), Outside(i + |comment| + 1, stack))
    decreases |comment|
  {
    hide Scan, Strip;
    var text := comment + "\n";
    StandsAt(source, i, text, 0);
    var inside := Outside(i, stack).(comment := true);
    if comment == [] {
      OneStep(source, start, inside, Outside(i + 1, stack));
    } else {
      assert text == [comment[0]] + (comment[1..] + "\n");
      StandsSplit(source, i, [comment[0]], comment[1..] + "\n");
      OneStep(source, start, inside, Outside(i + 1, stack).(comment := true));
      CommentPasses(source, start, i + 1, comment[1..], stack);
    }
  }

  function Inside(index: nat, stack: string, q: char, triple: bool): State {
    State(index, stack, Some(q), triple, false, false)
  }

  /** Inside quotes a backslash and the character after it are passed over. */
  lemma EscapedPasses(source: string, start: nat, i: nat, c: char, q: char, triple: bool, stack: string)
    requires start <= i && Stands(source, i, ['\\', c])
    ensures Leads(source, start, Inside(i, stack, q, triple), Inside(i + 2, stack, q, triple))
  {
    hide Scan, Strip;
    StandsAt(source, i, ['\\', c], 0);
    OneStep(source, start, Inside(i, stack, q, triple), Inside(i + 1, stack, q, triple).(escaped := true));
    OneStep(source, start, Inside(i + 1, stack, q, triple).(escaped := true), Inside(i + 2, stack, q, triple));
  }

  /** Inside quotes any other character than the quote is passed over. */
  lemma UnescapedPasses(source: string, start: nat, i: nat, c: char, q: char, triple: bool, stack: string)
    requires start <= i && Stands(source, i, [c]) && c != '\\' && c != q
    ensures Leads(source, start, Inside(i, stack, q, triple), Inside(i + 1, stack, q, triple))
  {
    hide Scan, Strip;
    StandsAt(source, i, [c], 0);
    OneStep(source, start, Inside(i, stack, q, triple), Inside(i + 1, stack, q, triple));
  }

  /** An escaped body is passed over inside its quotes: no bracket, quote or comment sign of the
      body changes the stack. */
  lemma {:induction false} BodyPasses(source: string, start: nat, i: nat, body: string, q: char, triple: bool,
                                      stack: string)
    requires start <= i && Stands(source, i, Escape(body, q)) && IsQuote(q)
    ensures Leads(source, start, Inside(i, stack, q, triple), Inside(i + |Escape(body, q)|, stack, q, triple))
    decreases |body|
  {
    hide Scan, Step, Stands, IsQuote;
    StandsWithin(source, i, Escape(body, q));
    if body != [] {
      var c, rest := body[0], Escape(body[1..], q);
      if c == '\\' || c == q {
        StandsSplit(source, i, ['\\', c], rest);
        EscapedPasses(source, start, i, c, q, triple, stack);
        BodyPasses(source, start, i + 2, body[1..], q, triple, stack);
      } else {
        StandsSplit(source, i, [c], rest);
        UnescapedPasses(source, start, i, c, q, triple, stack);
        BodyPasses(source, start, i + 1, body[1..], q, triple, stack);
      }
    }
  }

  lemma OpensPlainly(source: string, i: nat, q: char, body: string)
    requires IsQuote(q) && Stands(source, i, [q] + (Escape(body, q) + [q]))
    requires body == [] && i + 2 < |source| ==> source[i + 2] != q
    ensures source[i] == q && !Tripled(source, i, q)
  {
    var text := [q] + (Escape(body, q) + [q]);
    StandsAt(source, i, text, 0);
    StandsAt(source, i, text, 1);
  }

  lemma QuoteOpens(source: string, start: nat, i: nat, q: char, triple: bool, stack: string)
    requires start <= i && IsQuote(q) && Stands(source, i, Quotes(q, triple)) && (!triple ==> !Tripled(source, i, q))
    ensures Leads(source, start, Outside(i, stack), Inside(i + |Quotes(q, triple)|, stack, q, triple))
  {
    hide Scan, Strip;
    StandsAt(source, i, Quotes(q, triple), 0);
    if triple {
      StandsAt(source, i, Quotes(q, triple), 1);
      StandsAt(source, i, Quotes(q, triple), 2);
    }
    OneStep(source, start, Outside(i, stack), Inside(i + |Quotes(q, triple)|, stack, q, triple));
  }

  lemma QuoteCloses(source: string, start: nat, i: nat, q: char, triple: bool, stack: string)
    requires start <= i && IsQuote(q) && Stands(source, i, Quotes(q, triple))
    ensures Leads(source, start, Inside(i, stack, q, triple), Outside(i + |Quotes(q, triple)|, stack))
  {
    hide Scan, Strip;
    StandsAt(source, i, Quotes(q, triple), 0);
    if triple {
      StandsAt(source, i, Quotes(q, triple), 1);
      StandsAt(source, i, Quotes(q, triple), 2);
    }
    OneStep(source, start, Inside(i, stack, q, triple), Outside(i + |Quotes(q, triple)|, stack));
  }

  /** A quoted string is passed over.  After an empty one-quote string no further quote may follow. */
  lemma TextPasses(source: string, start: nat, i: nat, q: char, triple: bool, body: string, stack: string)
    requires start <= i && IsQuote(q) && Stands(source, i, Print(Text(q, triple, body)))
    requires !triple && body == [] && i + 2 < |source| ==> source[i + 2] != q
    ensures Leads(source, start, Outside(i, stack), Outside(i + |Print(Text(q, triple, body))|, stack))
  {
    hide Scan, Escape, Step, Stands, Tripled;
    var escaped, marks := Escape(body, q), Quotes(q, triple);
    StandsSplit(source, i, marks, escaped + marks);
    StandsSplit(source, i + |marks|, escaped, marks);
    if !triple {
      OpensPlainly(source, i, q, body);
    }
    QuoteOpens(source, start, i, q, triple, stack);
    BodyPasses(source, start, i + |marks|, body, q, triple, stack);
    QuoteCloses(source, start, i + |marks| + |escaped|, q, triple, stack);
  }

  /** The character after the text is a separator. */
  predicate Separated(source: string, i: nat) {
    i < |source| && (source[i] == ',' || source[i] == ':')
  }

  /** Inside brackets any well-formed literal is passed over with the stack unchanged. */
  lemma {:induction false} LiteralPasses(source: string, start: nat, i: nat, l: Literal, stack: string)
    requires start <= i && WellFormed(l) && Stands(source, i, Print(l)) && stack != []
    requires Separated(source, i + |Print(l)|)
    ensures Leads(source, start, Outside(i, stack), Outside(i + |Print(l)|, stack))
    decreases l, 0
  {
    hide Scan, Escape, IsPlain, Stands, Step;
    match l
    case Plain(text) =>
      PlainPasses(source, start, i, text, stack);
    case Text(q, triple, body) =>
      EmptyEscape(q);
      TextPasses(source, start, i, q, triple, body, stack);
    case Bracketed(kind, items) =>
      BracketedPasses(source, start, i, kind, items, stack);
    case Commented(comment, item) =>
      StandsSplit(source, i, "#", comment + ("\n" + Print(item)));
      assert comment + ("\n" + Print(item)) == (comment + "\n") + Print(item);
      StandsSplit(source, i + 1, comment + "\n", Print(item));
      CommentSign(source, start, i, stack);
      CommentPasses(source, start, i + 1, comment, stack);
      LiteralPasses(source, start, i + 1 + |comment| + 1, item, stack);
  }

  lemma {:induction false} BracketedPasses(source: string, start: nat, i: nat, kind: Kind, items: Items, stack: string)
    requires start <= i && WellFormedItems(items) && Stands(source, i, Print(Bracketed(kind, items))) && stack != []
    ensures Leads(source, start, Outside(i, stack), Outside(i + |Print(Bracketed(kind, items))|, stack))
    decreases items, 1
  {
    hide Scan, IsPlain, Stands, Step, PrintItems, WellFormedItems;
    var close, inner := Closing(Opener(kind)), PrintItems(items);
    StandsSplit(source, i, Head(kind), [Opener(kind)] + (inner + [close]));
    var open := i + |Head(kind)|;
    StandsSplit(source, open, [Opener(kind)], inner + [close]);
    StandsSplit(source, open + 1, inner, [close]);
    HeadIsPlain(kind);
    PlainPasses(source, start, i, Head(kind), stack);
    OpenStep(source, start, open, kind, stack);
    ItemsPass(source, start, open + 1, items, stack + [close]);
    CloseStep(source, start, open + 1 + |inner|, kind, stack);
  }

  lemma CommentSign(source: string, start: nat, i: nat, stack: string)
    requires start <= i && Stands(source, i, "#")
    ensures Leads(source, start, Outside(i, stack), Outside(i + 1, stack).(comment := true))
  {
    hide Scan, Strip;
    StandsAt(source, i, "#", 0);
    OneStep(source, start, Outside(i, stack), Outside(i + 1, stack).(comment := true));
  }

  lemma EmptyEscape(q: char)
    ensures Escape([], q) == []
  {}

  lemma HeadIsPlain(kind: Kind)
    ensures IsPlain(Head(kind)) && forall k :: 0 <= k < |Head(kind)| ==> Head(kind)[k] != '\n'
  {}

  lemma OpenStep(source: string, start: nat, i: nat, kind: Kind, stack: string)
    requires start <= i && Stands(source, i, [Opener(kind)])
    ensures Leads(source, start, Outside(i, stack), Outside(i + 1, stack + [Closing(Opener(kind))]))
  {
    hide Scan, Strip;
    StandsAt(source, i, [Opener(kind)], 0);
    OneStep(source, start, Outside(i, stack), Outside(i + 1, stack + [Closing(Opener(kind))]));
  }

  lemma CloseStep(source: string, start: nat, i: nat, kind: Kind, stack: string)
    requires start <= i && Stands(source, i, [Closing(Opener(kind))]) && stack != []
    ensures Leads(source, start, Outside(i, stack + [Closing(Opener(kind))]), Outside(i + 1, stack))
  {
    hide Scan, Strip;
    var full := stack + [Closing(Opener(kind))];
    StandsAt(source, i, [Closing(Opener(kind))], 0);
    assert full[..|full| - 1] == stack;
    OneStep(source, start, Outside(i, full), Outside(i + 1, stack));
  }

  lemma {:induction false} ItemsPass(source: string, start: nat, i: nat, items: Items, stack: string)
    requires start <= i && WellFormedItems(items) && Stands(source, i, PrintItems(items)) && stack != []
    ensures Leads(source, start, Outside(i, stack), Outside(i + |PrintItems(items)|, stack))
    decreases items, 0
  {
    hide Scan, IsPlain, Stands, Step;
    match items
    case Nil =>
      StandsWithin(source, i, PrintItems(items));
    case Cons(key, head, tail) =>
      var before, value, rest := PrintKey(key), Print(head), PrintItems(tail);
      StandsSplit(source, i, before, value + (", " + rest));
      var at := i + |before|;
      StandsSplit(source, at, value, ", " + rest);
      StandsSplit(source, at + |value|, ", ", rest);
      SeparatedBy(source, at + |value|, ", ");
      KeyPasses(source, start, i, key, stack);
      LiteralPasses(source, start, at, head, stack);
      SeparatorIsPlain();
      PlainPasses(source, start, at + |value|, ", ", stack);
      ItemsPass(source, start, at + |value| + 2, tail, stack);
  }

  lemma SeparatedBy(source: string, i: nat, text: string)
    requires Stands(source, i, text) && (text == ", " || text == ": ")
    ensures Separated(source, i)
  {
    StandsAt(source, i, text, 0);
  }

  lemma SeparatorIsPlain()
    ensures IsPlain(", ") && IsPlain(": ") && IsPlain("=")
  {}

  lemma {:induction false} KeyPasses(source: string, start: nat, i: nat, key: Key, stack: string)
    requires start <= i && WellFormedKey(key) && Stands(source, i, PrintKey(key)) && stack != []
    ensures Leads(source, start, Outside(i, stack), Outside(i + |PrintKey(key)|, stack))
    decreases key, 0
  {
    hide Scan, IsPlain, Stands, Step;
    SeparatorIsPlain();
    match key
    case NoKey =>
      StandsWithin(source, i, PrintKey(key));
    case KeyOf(l) =>
      StandsSplit(source, i, Print(l), ": ");
      SeparatedBy(source, i + |Print(l)|, ": ");
      LiteralPasses(source, start, i, l, stack);
      PlainPasses(source, start, i + |Print(l)|, ": ", stack);
    case Keyword(name) =>
      StandsSplit(source, i, name, "=");
      PlainPasses(source, start, i, name, stack);
      PlainPasses(source, start, i + |name|, "=", stack);
  }

  // ------------------------------------------------------------------ the round trip

  lemma {:induction false} SkipsSpaces(source: string, i: nat, spaces: string)
    requires Stands(source, i, spaces) && forall k :: 0 <= k < |spaces| ==> IsSpace(spaces[k])
    requires i + |spaces| < |source| && !IsSpace(source[i + |spaces|])
    ensures SkipSpaces(source, i) == i + |spaces|
    decreases |spaces|
  {
    hide IsSpace;
    if spaces != [] {
      assert [spaces[0]] + spaces[1..] == spaces;
      StandsSplit(source, i, [spaces[0]], spaces[1..]);
      StandsAt(source, i, spaces, 0);
      SkipsSpaces(source, i + 1, spaces[1..]);
    }
  }

  lemma StripsNothing(s: string)
    requires s != [] && !IsSpace(s[0]) && !IsSpace(s[|s| - 1])
    ensures Strip(s) == s
  {}

  lemma EndsOfBracketed(kind: Kind, items: Items)
    ensures var s := Print(Bracketed(kind, items)); s != [] && !IsSpace(s[0]) && !IsSpace(s[|s| - 1])
  {
    hide PrintItems;
    var s := Print(Bracketed(kind, items));
    assert s[|s| - 1] == Closing(Opener(kind));
    assert s[0] == if kind.CallKind? then 'd' else Opener(kind);
  }

  /** From the empty stack the scanner gets to the closing bracket of a bracketed literal. */
  lemma ReachesClose(source: string, i: nat, kind: Kind, items: Items)
    requires WellFormedItems(items) && Stands(source, i, Print(Bracketed(kind, items)))
    ensures var close, end := Closing(Opener(kind)), i + |Print(Bracketed(kind, items))|;
            && Stands(source, end - 1, [close])
            && Leads(source, i, Outside(i, []), Outside(end - 1, [close]))
  {
    hide Scan, IsPlain, PrintItems, Step, Stands, WellFormedItems;
    var close, inner := Closing(Opener(kind)), PrintItems(items);
    StandsSplit(source, i, Head(kind), [Opener(kind)] + (inner + [close]));
    var open := i + |Head(kind)|;
    StandsSplit(source, open, [Opener(kind)], inner + [close]);
    StandsSplit(source, open + 1, inner, [close]);
    HeadIsPlain(kind);
    PlainPasses(source, i, i, Head(kind), []);
    OpenStep(source, i, open, kind, []);
    assert [] + [close] == [close];
    ItemsPass(source, i, open + 1, items, [close]);
  }

  /** The scan of a bracketed literal that starts on the empty stack ends right after it. */
  lemma BracketedEnds(source: string, i: nat, kind: Kind, items: Items)
    requires WellFormedItems(items) && Stands(source, i, Print(Bracketed(kind, items)))
    ensures Scan(source, i, Outside(i, [])) == Ok(Print(Bracketed(kind, items)))
  {
    hide Scan, Strip, Print, IsSpace, WellFormedItems;
    ReachesClose(source, i, kind, items);
    EndsOfBracketed(kind, items);
    LastClose(source, i, i + |Print(Bracketed(kind, items))| - 1, kind);
    StripsNothing(Print(Bracketed(kind, items)));
  }

  lemma LastClose(source: string, start: nat, i: nat, kind: Kind)
    requires start <= i && Stands(source, i, [Closing(Opener(kind))])
    ensures Scan(source, start, Outside(i, [Closing(Opener(kind))])) == Ok(Strip(source[start..i + 1]))
  {
    hide Strip;
    StandsAt(source, i, [Closing(Opener(kind))], 0);
  }

  /** For every bracketed literal, whatever precedes the assignment sign and whatever follows the
      literal, extraction returns exactly the printed text. */
  lemma RoundTrip(before: string, spaces: string, kind: Kind, items: Items, after: string)
    requires WellFormedItems(items) && forall k :: 0 <= k < |spaces| ==> IsSpace(spaces[k])
    ensures Extract(before + spaces + Print(Bracketed(kind, items)) + after, |before|)
      == Ok(Print(Bracketed(kind, items)))
  {
    hide Scan, SkipSpaces, Print, IsSpace;
    var text := Print(Bracketed(kind, items));
    var source := before + spaces + text + after;
    EndsOfBracketed(kind, items);
    assert source[|before|..|before| + |spaces|] == spaces;
    assert source[|before| + |spaces|..|before| + |spaces| + |text|] == text;
    assert source[|before| + |spaces|] == text[0];
    SkipsSpaces(source, |before|, spaces);
    BracketedEnds(source, |before| + |spaces|, kind, items);
  }

  // ------------------------------------------------------------------ without brackets

  /** A blank inside a line. */
  predicate IsBlank(c: char) { c == ' ' || c == '\t' || c == '\r' }

  /** The white space of ASCII, and no printable character, counts as space. */
  lemma AsciiSpaces(c: char)
    ensures c in " \t\n\r\U{b}\U{c}" ==> IsSpace(c)
    ensures '!' <= c <= '~' ==> !IsSpace(c)
  {
    assert c in " \t\n\r\U{b}\U{c}" ==> c as int in {9, 10, 11, 12, 13, 32};
  }

  /** A number, name or string on a line of its own: no bracket around it. */
  predicate OnOneLine(l: Literal) {
    match l
    case Plain(text) =>
      && IsPlain(text) && text != [] && !IsSpace(text[0]) && !IsSpace(text[|text| - 1])
      && forall i :: 0 <= i < |text| ==> text[i] != '\n'
    case Text(quote, _, _) => IsQuote(quote)
    case Bracketed(_, _) => false
    case Commented(_, _) => false
  }

  lemma EndsOfLine(l: Literal)
    requires OnOneLine(l)
    ensures Print(l) != [] && !IsSpace(Print(l)[0]) && !IsSpace(Print(l)[|Print(l)| - 1])
  {
    hide Escape;
  }

  lemma {:induction false} StripsBlanks(text: string, blanks: string)
    requires text != [] && !IsSpace(text[0]) && !IsSpace(text[|text| - 1])
    requires forall i :: 0 <= i < |blanks| ==> IsSpace(blanks[i])
    ensures Strip(text + blanks) == text
  {
    if blanks == [] {
      assert text + blanks == text;
      StripsNothing(text);
    } else {
      var n := |blanks| - 1;
      StripsBlanks(text, blanks[..n]);
      assert (text + blanks)[..|text + blanks| - 1] == text + blanks[..n];
    }
  }

  /** The literal and the blanks after it are passed over on the empty stack. */
  lemma LinePasses(source: string, i: nat, l: Literal, blanks: string)
    requires OnOneLine(l) && Stands(source, i, Print(l) + blanks)
    requires forall k :: 0 <= k < |blanks| ==> IsBlank(blanks[k])
    requires i + |Print(l) + blanks| < |source| ==> source[i + |Print(l) + blanks|] == '\n'
    ensures Leads(source, i, Outside(i, []), Outside(i + |Print(l) + blanks|, []))
  {
    hide Scan, Step, Escape, Leads;
    var text := Print(l);
    StandsWithin(source, i, text + blanks);
    StandsSplit(source, i, text, blanks);
    forall k | 0 <= k < |blanks|
      ensures source[i + |text| + k] == blanks[k]
    {
      StandsAt(source, i + |text|, blanks, k);
    }
    if l.Plain? {
      PlainPasses(source, i, i, text, []);
    } else {
      EmptyEscape(l.quote);
      TextPasses(source, i, i, l.quote, l.triple, l.body, []);
    }
    PlainPasses(source, i, i + |text|, blanks, []);
    LeadsOn(source, i, Outside(i, []), Outside(i + |text|, []), Outside(i + |text| + |blanks|, []));
  }

  lemma LeadsOn(source: string, start: nat, s: State, t: State, u: State)
    requires Leads(source, start, s, t) && Leads(source, start, t, u)
    ensures Leads(source, start, s, u)
  {
    hide Scan;
  }

  /** On the empty stack the line ends at a newline or at the end of the file. */
  lemma LineEnds(source: string, start: nat, i: nat)
    requires start <= i <= |source| && (i < |source| ==> source[i] == '\n')
    ensures Scan(source, start, Outside(i, [])) == Ok(Strip(source[start..i]))
  {
    hide Strip;
    assert i == |source| ==> source[start..] == source[start..i];
  }

  /** A literal without brackets is returned up to the end of its line, without the blanks around it. */
  lemma LineRoundTrip(before: string, spaces: string, l: Literal, blanks: string, after: string)
    requires OnOneLine(l) && forall k :: 0 <= k < |spaces| ==> IsSpace(spaces[k])
    requires forall k :: 0 <= k < |blanks| ==> IsBlank(blanks[k])
    requires after != [] ==> after[0] == '\n'
    ensures Extract(before + spaces + Print(l) + blanks + after, |before|) == Ok(Print(l))
  {
    hide Scan, SkipSpaces, Print, IsSpace, Strip, OnOneLine;
    var text := Print(l);
    var source := before + spaces + text + blanks + after;
    var first := |before| + |spaces|;
    EndsOfLine(l);
    assert source[|before|..first] == spaces && source[first] == text[0];
    assert source[first..first + |text + blanks|] == text + blanks;
    SkipsSpaces(source, |before|, spaces);
    assert after != [] ==> source[first + |text + blanks|] == after[0];
    LinePasses(source, first, l, blanks);
    LineEnds(source, first, first + |text + blanks|);
    BlanksAreSpaces(blanks);
    StripsBlanks(text, blanks);
  }

  lemma BlanksAreSpaces(blanks: string)
    requires forall k :: 0 <= k < |blanks| ==> IsBlank(blanks[k])
    ensures forall k :: 0 <= k < |blanks| ==> IsSpace(blanks[k])
  {}

  lemma {:induction false} CommentRuns(source: string, start: nat, i: nat, comment: string, stack: string)
    requires start <= i && Stands(source, i, comment) && forall k :: 0 <= k < |comment| ==> comment[k] != '\n'
    ensures Leads(source, start, Outside(i, stack).(comment := true), Outside(i + |comment|, stack).(comment := true))
    decreases |comment|
  {
    hide Scan, Strip;
    if comment != [] {
      assert [comment[0]] + comment[1..] == comment;
      StandsSplit(source, i, [comment[0]], comment[1..]);
      StandsAt(source, i, comment, 0);
      OneStep(source, start, Outside(i, stack).(comment := true), Outside(i + 1, stack).(comment := true));
      CommentRuns(source, start, i + 1, comment[1..], stack);
    }
  }

  /** Without brackets a comment ends with the line, and is part of what is returned. */
  lemma CommentStaysOnTheLine(before: string, text: string, comment: string, after: string)
    requires IsPlain(text) && text != [] && !IsSpace(text[0]) && forall k :: 0 <= k < |text| ==> text[k] != '\n'
    requires forall k :: 0 <= k < |comment| ==> comment[k] != '\n'
    ensures Extract(before + text + "#" + comment + "\n" + after, |before|) == Ok(Strip(text + "#" + comment))
  {
    hide IsSpace, Strip, IsPlain, Step, Leads;
    var source, i := before + text + "#" + comment + "\n" + after, |before|;
    var sign := i + |text|;
    var end := sign + 1 + |comment|;
    assert source[i..sign] == text && source[i] == text[0] && source[sign..sign + 1] == "#";
    assert source[sign + 1..end] == comment && source[end] == '\n' && source[i..end] == text + "#" + comment;
    SkipsSpaces(source, i, "");
    PlainPasses(source, i, i, text, []);
    SignStep(source, i, sign);
    CommentRuns(source, i, sign + 1, comment, []);
    LeadsOn(source, i, Outside(i, []), Outside(sign, []), Outside(sign + 1, []).(comment := true));
    LeadsOn(source, i, Outside(i, []), Outside(sign + 1, []).(comment := true), Outside(end, []).(comment := true));
    CommentEnds(source, i, end);
  }

  lemma SignStep(source: string, start: nat, i: nat)
    requires start <= i && Stands(source, i, "#")
    ensures Leads(source, start, Outside(i, []), Outside(i + 1, []).(comment := true))
  {
    hide Scan, Strip;
    StandsAt(source, i, "#", 0);
    OneStep(source, start, Outside(i, []), Outside(i + 1, []).(comment := true));
  }

  lemma CommentEnds(source: string, start: nat, i: nat)
    requires start <= i < |source| && source[i] == '\n'
    ensures forall s :: Leads(source, start, s, Outside(i, []).(comment := true)) ==>
              Scan(source, start, s) == Ok(Strip(source[start..i]))
  {
    hide Strip;
  }

  // ------------------------------------------------------------------ refused sources

  /** An opened bracket and its items. */
  function OpenText(kind: Kind, items: Items): string {
    Head(kind) + [Opener(kind)] + PrintItems(items)
  }

  lemma OpenTextStarts(kind: Kind, items: Items)
    ensures OpenText(kind, items) != [] && !IsSpace(OpenText(kind, items)[0])
  {
    hide PrintItems;
    assert OpenText(kind, items)[0] == if kind.CallKind? then 'd' else Opener(kind);
  }

  lemma Located(source: string, before: string, spaces: string, text: string, after: string)
    requires source == before + spaces + text + after
    ensures Stands(source, |before|, spaces) && Stands(source, |before| + |spaces|, text)
  {}

  lemma ItemsLead(source: string, first: nat, kind: Kind, items: Items)
    requires WellFormedItems(items) && Stands(source, first, OpenText(kind, items))
    ensures Leads(source, first, Outside(first, []), Outside(first + |OpenText(kind, items)|, [Closing(Opener(kind))]))
  {
    hide Scan, IsPlain, PrintItems, Step, Stands, WellFormedItems, Leads;
    var close, inner, open := Closing(Opener(kind)), PrintItems(items), first + |Head(kind)|;
    StandsSplit(source, first, Head(kind) + [Opener(kind)], inner);
    StandsSplit(source, first, Head(kind), [Opener(kind)]);
    HeadIsPlain(kind);
    PlainPasses(source, first, first, Head(kind), []);
    OpenStep(source, first, open, kind, []);
    assert [] + [close] == [close];
    ItemsPass(source, first, open + 1, items, [close]);
    LeadsOn(source, first, Outside(first, []), Outside(open, []), Outside(open + 1, [close]));
    LeadsOn(source, first, Outside(first, []), Outside(open + 1, [close]), Outside(open + 1 + |inner|, [close]));
  }

  lemma ReachesItems(source: string, i: nat, spaces: string, kind: Kind, items: Items)
    requires Stands(source, i, spaces) && Stands(source, i + |spaces|, OpenText(kind, items))
    requires WellFormedItems(items) && forall k :: 0 <= k < |spaces| ==> IsSpace(spaces[k])
    ensures var first := i + |spaces|;
            && first + |OpenText(kind, items)| <= |source| && SkipSpaces(source, i) == first
            && Leads(source, first, Outside(first, []),
                     Outside(first + |OpenText(kind, items)|, [Closing(Opener(kind))]))
  {
    hide OpenText, WellFormedItems, SkipSpaces, Leads, IsSpace, Stands;
    OpenTextStarts(kind, items);
    StandsWithin(source, i + |spaces|, OpenText(kind, items));
    StandsAt(source, i + |spaces|, OpenText(kind, items), 0);
    SkipsSpaces(source, i, spaces);
    ItemsLead(source, i + |spaces|, kind, items);
  }

  /** A bracket that is never closed is reported. */
  lemma UnclosedIsRefused(before: string, spaces: string, kind: Kind, items: Items)
    requires WellFormedItems(items) && forall k :: 0 <= k < |spaces| ==> IsSpace(spaces[k])
    ensures Extract(before + spaces + OpenText(kind, items), |before|) == Err(Unterminated)
  {
    hide Step, OpenText, WellFormedItems, IsSpace, SkipSpaces, Strip, Stands;
    var source := before + spaces + OpenText(kind, items);
    assert source == before + spaces + OpenText(kind, items) + "";
    Located(source, before, spaces, OpenText(kind, items), "");
    ReachesItems(source, |before|, spaces, kind, items);
  }

  /** A bracket that is closed by another one is reported. */
  lemma MismatchIsRefused(before: string, spaces: string, kind: Kind, items: Items, c: char, after: string)
    requires WellFormedItems(items) && forall k :: 0 <= k < |spaces| ==> IsSpace(spaces[k])
    requires IsClosing(c) && c != Closing(Opener(kind))
    ensures Extract(before + spaces + OpenText(kind, items) + ([c] + after), |before|) == Err(Unbalanced)
  {
    hide OpenText, WellFormedItems, IsSpace, SkipSpaces, Strip, Stands;
    var source := before + spaces + OpenText(kind, items) + ([c] + after);
    Located(source, before, spaces, OpenText(kind, items), [c] + after);
    ReachesItems(source, |before|, spaces, kind, items);
    assert source[|before| + |spaces| + |OpenText(kind, items)|] == c;
  }

  /** A closing bracket without an opening one is reported. */
  lemma StrayCloseIsRefused(before: string, text: string, c: char, after: string)
    requires IsPlain(text) && text != [] && !IsSpace(text[0]) && forall i :: 0 <= i < |text| ==> text[i] != '\n'
    requires IsClosing(c)
    ensures Extract(before + text + ([c] + after), |before|) == Err(Unbalanced)
  {
    hide IsSpace, Strip, IsPlain;
    var source, i := before + text + ([c] + after), |before|;
    assert source[i..i + |text|] == text && source[i] == text[0] && source[i + |text|] == c;
    SkipsSpaces(source, i, "");
    PlainPasses(source, i, i, text, []);
  }
}
