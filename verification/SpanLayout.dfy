/** Laying out trace spans on lines: sorted interval lists with a two-neighbour overlap check, and
the allocation of lines per process.

Spans are arbitrary pairs of times.  Trimming can leave a span empty (it ends where it starts) or
inverted (it ends before it starts), and the layout takes those too. */
module SpanLayout {

  type Pid = string

  datatype Span = Span(start: int, end: int)

  /** The span is neither empty nor inverted. */
  predicate Proper(s: Span) { s.start < s.end }

  /** Two spans share a moment. */
  predicate Overlap(a: Span, b: Span) {
    a.start < b.end && b.start < a.end
  }

  /** The tuple order of Python: by start, then by end. */
  predicate Before(a: Span, b: Span) {
    a.start < b.start || (a.start == b.start && a.end < b.end)
  }

  // ------------------------------------------------------------------ one line

  type Line = seq<Span>

  predicate Sorted(line: Line) {
    forall i, j :: 0 <= i < j < |line| ==> !Before(line[j], line[i])
  }

  /** Some stored span overlaps. */
  predicate Conflicts(line: Line, span: Span) {
    exists i :: 0 <= i < |line| && Overlap(line[i], span)
  }

  /** The number of stored spans that start earlier. */
  function Split(line: Line, start: int): (lo: nat)
    ensures lo <= |line|
  {
    if line != [] && line[0].start < start then 1 + Split(line[1..], start) else 0
  }

  /** The stored spans before position lo start earlier, the others do not. */
  predicate SplitsAt(line: Line, start: int, lo: nat) {
    && lo <= |line|
    && (forall i :: 0 <= i < lo ==> line[i].start < start)
    && (forall i :: lo <= i < |line| ==> start <= line[i].start)
  }

  lemma {:induction false} SplitFacts(line: Line, start: int)
    requires Sorted(line)
    ensures SplitsAt(line, start, Split(line, start))
  {
    if line != [] && line[0].start < start {
      SplitFacts(line[1..], start);
      assert forall i :: 1 <= i < |line| ==> line[i] == line[1..][i - 1];
    } else {
      assert forall i :: 0 < i < |line| ==> !Before(line[i], line[0]);
    }
  }

  lemma SplitIs(line: Line, start: int, lo: nat)
    requires Sorted(line) && SplitsAt(line, start, lo)
    ensures Split(line, start) == lo
  {
    SplitFacts(line, start);
    var k := if Split(line, start) < lo then Split(line, start) else lo;
    assert k < |line| ==> (line[k].start < start <==> k < lo);
  }

  /** bisect_left for (start, -inf). */
  method FirstFrom(line: Line, start: int) returns (lo: nat)
    requires Sorted(line)
    ensures SplitsAt(line, start, lo) && lo == Split(line, start)
  {
    lo := 0;
    var hi := |line|;
    while lo < hi
      invariant lo <= hi <= |line|
      invariant forall i :: 0 <= i < lo ==> line[i].start < start
      invariant forall i :: hi <= i < |line| ==> start <= line[i].start
    {
      var mid := (lo + hi) / 2;
      if line[mid].start < start {
        lo := mid + 1;
      } else {
        hi := mid;
      }
    }
    SplitIs(line, start, lo);
  }

  /** The neighbour on either side of position lo reaches into the span. */
  predicate NeighbourConflicts(line: Line, lo: nat, span: Span)
    requires lo <= |line|
  {
    (lo > 0 && line[lo - 1].end > span.start) || (lo < |line| && line[lo].start < span.end)
  }

  /** What check_overlap answers. */
  predicate Says(line: Line, span: Span) {
    NeighbourConflicts(line, Split(line, span.start), span)
  }

  /** check_overlap, on any sorted list and any span. */
  method CheckOverlap(line: Line, span: Span) returns (conflict: bool)
    requires Sorted(line)
    ensures conflict == Says(line, span)
  {
    hide Sorted;
    var idx := FirstFrom(line, span.start);
    if idx > 0 && line[idx - 1].end > span.start {
      return true;
    }
    if idx < |line| && line[idx].start < span.end {
      return true;
    }
    conflict := false;
  }

  /** insort_left on tuples. */
  function Insert(line: Line, span: Span): (r: Line)
    ensures |r| == |line| + 1
  {
    if line != [] && Before(line[0], span) then [line[0]] + Insert(line[1..], span) else [span] + line
  }

  lemma {:induction false} InsertAt(line: Line, span: Span, lo: nat)
    requires lo <= |line| && forall i :: 0 <= i < lo ==> Before(line[i], span)
    requires lo < |line| ==> !Before(line[lo], span)
    ensures Insert(line, span) == line[..lo] + [span] + line[lo..]
  {
    hide Before;
    if lo > 0 {
      InsertAt(line[1..], span, lo - 1);
      assert line[..lo] == [line[0]] + line[1..][..lo - 1];
    }
  }

  /** Where a span is inserted: between the smaller spans and the others. */
  lemma InsertPosition(line: Line, span: Span) returns (lo: nat)
    requires Sorted(line)
    ensures lo <= |line|
    ensures forall i :: 0 <= i < lo ==> Before(line[i], span)
    ensures forall i :: lo <= i < |line| ==> !Before(line[i], span)
    ensures Insert(line, span) == line[..lo] + [span] + line[lo..]
  {
    lo := 0;
    while lo < |line| && Before(line[lo], span)
      invariant lo <= |line| && forall i :: 0 <= i < lo ==> Before(line[i], span)
    {
      lo := lo + 1;
    }
    InsertAt(line, span, lo);
    assert forall i :: lo < i < |line| ==> !Before(line[i], line[lo]);
  }

  lemma SortedAround(line: Line, span: Span, lo: nat)
    requires Sorted(line) && lo <= |line|
    requires forall i :: 0 <= i < lo ==> Before(line[i], span)
    requires forall i :: lo <= i < |line| ==> !Before(line[i], span)
    ensures Sorted(line[..lo] + [span] + line[lo..])
  {
    hide Before;
    forall i | 0 <= i < lo
      ensures !Before(span, line[i])
    {
      BeforeIsStrict(line[i], span);
    }
  }

  lemma BeforeIsStrict(a: Span, b: Span)
    ensures Before(a, b) ==> !Before(b, a)
  {}

  lemma InsertFacts(line: Line, span: Span)
    requires Sorted(line)
    ensures Sorted(Insert(line, span))
    ensures forall x :: x in Insert(line, span) <==> x in line || x == span
  {
    hide Sorted, Before, Insert;
    var lo := InsertPosition(line, span);
    SortedAround(line, span, lo);
    assert line == line[..lo] + line[lo..];
  }

  /** The binary search and insertion of insort_left, for any span. */
  method InsertSpan(line: Line, span: Span) returns (r: Line)
    requires Sorted(line)
    ensures r == Insert(line, span) && Sorted(r)
    ensures forall x :: x in r <==> x in line || x == span
  {
    var lo, hi := 0, |line|;
    while lo < hi
      invariant 0 <= lo <= hi <= |line|
      invariant forall i :: 0 <= i < lo ==> Before(line[i], span)
      invariant hi < |line| ==> !Before(line[hi], span)
    {
      var mid := (lo + hi) / 2;
      if Before(line[mid], span) {
        assert forall i :: 0 <= i < mid ==> !Before(line[mid], line[i]);
        lo := mid + 1;
      } else {
        hi := mid;
      }
    }
    r := line[..lo] + [span] + line[lo..];
    InsertAt(line, span, lo);
    InsertFacts(line, span);
  }

  // ------------------------------------------------------------------ when the check is right

  /** The first start after which a stored span is the neighbour and no longer in the way. */
  function From(x: Span): int {
    if x.end > x.start then x.end else x.start + 1
  }

  /** Span i is still running when the later span j is out of the way and no further one has started. */
  predicate Hides(line: Line, i: nat, j: nat)
    requires i < j < |line|
  {
    From(line[j]) < line[i].end && (j + 1 == |line| || From(line[j]) < line[j + 1].start)
  }

  predicate NothingHidden(line: Line) {
    forall i, j :: 0 <= i < j < |line| ==> !Hides(line, i, j)
  }

  /** Span j is empty or inverted, the first at its start, and no span is running there. */
  predicate Repels(line: Line, j: nat)
    requires j < |line|
  {
    && !Proper(line[j]) && (j == 0 || line[j - 1].start < line[j].start)
    && !Conflicts(line, Span(line[j].start, line[j].start + 1))
  }

  predicate NothingSpurious(line: Line) {
    forall j :: 0 <= j < |line| ==> !Repels(line, j)
  }

  lemma SaysWhenConflicts(line: Line, span: Span)
    requires Sorted(line) && NothingHidden(line) && Proper(span) && Conflicts(line, span)
    ensures Says(line, span)
  {
    SplitFacts(line, span.start);
    var lo := Split(line, span.start);
    var i := FirstConflict(line, span);
    if i + 1 < lo && line[lo - 1].end <= span.start {
      assert From(line[lo - 1]) <= span.start && !Hides(line, i, lo - 1);
    }
  }

  lemma FirstConflict(line: Line, span: Span) returns (i: nat)
    requires Conflicts(line, span)
    ensures i < |line| && Overlap(line[i], span)
  {
    i :| 0 <= i < |line| && Overlap(line[i], span);
  }

  /** A hidden span is missed for the span that starts as soon as the later one is out of the way. */
  lemma HiddenIsMissed(line: Line, i: nat, j: nat)
    requires Sorted(line) && i < j < |line| && Hides(line, i, j)
    ensures var span := Span(From(line[j]), From(line[j]) + 1); Conflicts(line, span) && !Says(line, span)
  {
    var t := From(line[j]);
    forall k | 0 <= k < |line|
      ensures k <= j ==> line[k].start < t
      ensures k > j ==> t < line[k].start
    {
      assert k < j ==> !Before(line[j], line[k]);
      assert k > j + 1 ==> !Before(line[k], line[j + 1]);
    }
    SplitIs(line, t, j + 1);
    assert Overlap(line[i], Span(t, t + 1));
  }

  /** The check reports every conflict of every proper span. */
  ghost predicate NeverMisses(line: Line) {
    forall span :: Proper(span) && Conflicts(line, span) ==> Says(line, span)
  }

  /** The check misses no conflict of any proper span if and only if nothing is hidden. */
  lemma MissesNothing(line: Line)
    requires Sorted(line)
    ensures NeverMisses(line) <==> NothingHidden(line)
  {
    hide Sorted, Says, Conflicts, Proper, From, Hides;
    if NothingHidden(line) {
      forall span | Proper(span) && Conflicts(line, span)
        ensures Says(line, span)
      {
        SaysWhenConflicts(line, span);
      }
    } else {
      var i, j :| 0 <= i < j < |line| && Hides(line, i, j);
      HiddenIsMissed(line, i, j);
      UnitIsProper(From(line[j]));
    }
  }

  lemma UnitIsProper(t: int)
    ensures Proper(Span(t, t + 1))
  {}

  lemma ConflictsWhenSays(line: Line, span: Span)
    requires Sorted(line) && NothingSpurious(line) && Proper(span) && Says(line, span)
    ensures Conflicts(line, span)
  {
    SplitFacts(line, span.start);
    var lo := Split(line, span.start);
    if lo > 0 && line[lo - 1].end > span.start {
      assert Overlap(line[lo - 1], span);
    } else if span.start < line[lo].end {
      assert Overlap(line[lo], span);
    } else {
      assert !Repels(line, lo);
      var i := FirstConflict(line, Span(line[lo].start, line[lo].start + 1));
      assert Overlap(line[i], span);
    }
  }

  /** Every conflict that the check reports for a proper span is one. */
  ghost predicate NeverSpurious(line: Line) {
    forall span :: Proper(span) && Says(line, span) ==> Conflicts(line, span)
  }

  /** A span that starts where an empty or inverted one does is reported. */
  lemma DegenerateIsReported(line: Line, j: nat)
    requires Sorted(line) && j < |line| && (j == 0 || line[j - 1].start < line[j].start)
    ensures Says(line, Span(line[j].start, line[j].start + 1))
  {
    var s := line[j].start;
    forall k | 0 <= k < |line|
      ensures k < j ==> line[k].start < s
      ensures k >= j ==> s <= line[k].start
    {
      assert k < j - 1 ==> !Before(line[j - 1], line[k]);
      assert k > j ==> !Before(line[k], line[j]);
    }
    SplitIs(line, s, j);
  }

  /** The check reports no conflict that is none, for any proper span, if and only if every empty or
      inverted span starts while another one is running. */
  lemma CriesNoWolf(line: Line)
    requires Sorted(line)
    ensures NeverSpurious(line) <==> NothingSpurious(line)
  {
    hide Sorted, Says, Conflicts, Proper;
    if NothingSpurious(line) {
      forall span | Proper(span) && Says(line, span)
        ensures Conflicts(line, span)
      {
        ConflictsWhenSays(line, span);
      }
    } else {
      var j :| 0 <= j < |line| && Repels(line, j);
      DegenerateIsReported(line, j);
      UnitIsProper(line[j].start);
    }
  }

  /** Each span ends before any later one starts. */
  predicate Ordered(line: Line) {
    forall i, j :: 0 <= i < j < |line| ==> line[i].end <= line[j].start
  }

  predicate AllProper(line: Line) {
    forall i :: 0 <= i < |line| ==> Proper(line[i])
  }

  /** On proper, ordered spans, looking at two neighbours agrees with looking at every span. */
  lemma NeighboursDecide(line: Line, span: Span)
    requires Sorted(line) && Ordered(line) && AllProper(line) && Proper(span)
    ensures Says(line, span) <==> Conflicts(line, span)
  {
    hide Sorted, Says, Conflicts;
    forall i, j | 0 <= i < j < |line|
      ensures !Hides(line, i, j)
    {
      assert line[i].end <= line[j].start;
    }
    assert NothingSpurious(line);
    MissesNothing(line);
    CriesNoWolf(line);
  }

  /** The stored spans end before a span that passes the check starts, or start after it ends. */
  lemma PassingSpanFits(line: Line, span: Span, p: nat)
    requires Sorted(line) && Ordered(line) && span.start != span.end && !Says(line, span) && p <= |line|
    requires forall i :: 0 <= i < p ==> Before(line[i], span)
    requires forall i :: p <= i < |line| ==> !Before(line[i], span)
    ensures forall i :: 0 <= i < p ==> line[i].end <= span.start
    ensures forall i :: p <= i < |line| ==> span.end <= line[i].start
  {
    SplitFacts(line, span.start);
    var lo := Split(line, span.start);
    forall i | 0 <= i < |line|
      ensures i < p ==> line[i].end <= span.start
      ensures i >= p ==> span.end <= line[i].start
    {
      if i < lo {
        assert i == lo - 1 || line[i].end <= line[lo - 1].start;
      } else {
        assert i == lo || !Before(line[i], line[lo]);
      }
    }
  }

  lemma OrderedAround(line: Line, span: Span, p: nat)
    requires Ordered(line) && p <= |line|
    requires forall i :: 0 <= i < p ==> line[i].end <= span.start
    requires forall i :: p <= i < |line| ==> span.end <= line[i].start
    ensures Ordered(line[..p] + [span] + line[p..])
  {}

  /** A span that is not empty and passes the check keeps the line ordered and overlaps nothing. */
  lemma InsertKeepsOrdered(line: Line, span: Span)
    requires Sorted(line) && Ordered(line) && span.start != span.end && !Says(line, span)
    ensures Ordered(Insert(line, span))
    ensures forall x :: x in line ==> !Overlap(x, span)
  {
    hide Says, Sorted, Before, Insert, Ordered;
    var p := InsertPosition(line, span);
    PassingSpanFits(line, span, p);
    OrderedAround(line, span, p);
  }

  // ------------------------------------------------------------------ all lines

  /** The lines of each process; line k of the trace is entry k - 1. */
  type Graph = map<Pid, seq<Line>>

  /** The line a request last used, per process. */
  type Status = map<Pid, nat>

  function LinesOf(graph: Graph, pid: Pid): seq<Line> {
    if pid in graph then graph[pid] else []
  }

  predicate SortedGraph(graph: Graph) {
    forall pid, k :: pid in graph && 0 <= k < |graph[pid]| ==> Sorted(graph[pid][k])
  }

  predicate ProperStatus(graph: Graph, status: Status) {
    forall pid :: pid in status ==> 1 <= status[pid] <= |LinesOf(graph, pid)|
  }

  /** The number of lines before the first one without a reported conflict. */
  function FirstClear(lines: seq<Line>, span: Span): (k: nat)
    ensures k <= |lines|
    ensures forall i :: 0 <= i < k ==> Says(lines[i], span)
    ensures k < |lines| ==> !Says(lines[k], span)
  {
    if lines != [] && Says(lines[0], span) then 1 + FirstClear(lines[1..], span) else 0
  }

  /** The request stays on its line: always with an empty span, else when the check finds nothing. */
  predicate Stays(graph: Graph, status: Status, pid: Pid, span: Span) {
    && pid in status && 1 <= status[pid] <= |LinesOf(graph, pid)|
    && (span.start == span.end || !Says(LinesOf(graph, pid)[status[pid] - 1], span))
  }

  /** The line that __find_line picks: the request's own, the first clear one, or a new one. */
  function LineFor(graph: Graph, status: Status, pid: Pid, span: Span): (line: nat)
    ensures 1 <= line <= |LinesOf(graph, pid)| + 1
  {
    if Stays(graph, status, pid, span) then status[pid] else FirstClear(LinesOf(graph, pid), span) + 1
  }

  function Opened(graph: Graph, pid: Pid, line: nat): (r: Graph)
    requires 1 <= line <= |LinesOf(graph, pid)| + 1
    ensures pid in r && line <= |r[pid]|
  {
    if line <= |LinesOf(graph, pid)| then graph else graph[pid := LinesOf(graph, pid) + [[]]]
  }

  function Stored(graph: Graph, pid: Pid, line: nat, span: Span): Graph
    requires 1 <= line <= |LinesOf(graph, pid)| + 1
  {
    var lines := Opened(graph, pid, line)[pid];
    graph[pid := lines[line - 1 := Insert(lines[line - 1], span)]]
  }

  class Layout {
    var graph: Graph

    /** The (process, line) slots announced in the metadata, in order of creation. */
    var slots: seq<(Pid, nat)>

    constructor ()
      ensures graph == map[] && slots == []
    {
      graph, slots := map[], [];
    }

    /** Opens a new line for the process. */
    method OpenLine(pid: Pid) returns (line: nat)
      modifies this
      ensures line == |LinesOf(old(graph), pid)| + 1
      ensures graph == Opened(old(graph), pid, line) && slots == old(slots) + [(pid, line)]
    {
      var lines := if pid in graph then graph[pid] else [];
      line := |lines| + 1;
      graph := graph[pid := lines + [[]]];
      slots := slots + [(pid, line)];
    }

    /** __find_line, for any span. */
    method FindLine(status: Status, pid: Pid, span: Span) returns (line: nat, newStatus: Status)
      requires SortedGraph(graph) && ProperStatus(graph, status)
      modifies this
      ensures line == LineFor(old(graph), status, pid, span) && newStatus == status[pid := line]
      ensures graph == Opened(old(graph), pid, line)
      ensures slots == old(slots) + if line <= |LinesOf(old(graph), pid)| then [] else [(pid, line)]
    {
      hide Says, Sorted;
      if pid in status {
        line := status[pid];
        newStatus := status;
        if span.start == span.end {
          return;
        }
        var conflict := CheckOverlap(graph[pid][line - 1], span);
        if !conflict {
          return;
        }
      }
      if pid in graph {
        var k := 0;
        while k < |graph[pid]|
          invariant graph == old(graph) && slots == old(slots)
          invariant 0 <= k <= |graph[pid]| && forall j :: 0 <= j < k ==> Says(graph[pid][j], span)
        {
          var conflict := CheckOverlap(graph[pid][k], span);
          if !conflict {
            line := k + 1;
            newStatus := status[pid := line];
            return;
          }
          k := k + 1;
        }
      }
      line := OpenLine(pid);
      newStatus := status[pid := line];
    }

    /** Finds a line for the span and stores it there. */
    method PlaceSpan(status: Status, pid: Pid, span: Span) returns (line: nat, newStatus: Status)
      requires SortedGraph(graph) && ProperStatus(graph, status)
      modifies this
      ensures line == LineFor(old(graph), status, pid, span) && newStatus == status[pid := line]
      ensures graph == Stored(old(graph), pid, line, span)
    {
      hide Says, Sorted, LineFor;
      line, newStatus := FindLine(status, pid, span);
      NewLineIsSorted();
      var intervals := InsertSpan(graph[pid][line - 1], span);
      graph := graph[pid := graph[pid][line - 1 := intervals]];
    }
  }

  lemma NewLineIsSorted()
    ensures Sorted([])
  {}

  // ------------------------------------------------------------------ a whole layout

  datatype Request = Request(pid: Pid, span: Span)

  datatype Placed = Placed(pid: Pid, line: nat, span: Span)

  /** The lines so far, the lines of the current request, and where every span went. */
  datatype Board = Board(graph: Graph, status: Status, placed: seq<Placed>)

  function Step(b: Board, request: Request): Board {
    var line := LineFor(b.graph, b.status, request.pid, request.span);
    Board(Stored(b.graph, request.pid, line, request.span), b.status[request.pid := line],
          b.placed + [Placed(request.pid, line, request.span)])
  }

  function LayRequest(b: Board, spans: seq<Request>): Board {
    if spans == [] then b else Step(LayRequest(b, spans[..|spans| - 1]), spans[|spans| - 1])
  }

  /** The layout of all requests, each starting with an empty status. */
  function LayAll(requests: seq<seq<Request>>): Board {
    if requests == [] then Board(map[], map[], [])
    else LayRequest(LayAll(requests[..|requests| - 1]).(status := map[]), requests[|requests| - 1])
  }

  lemma StepKeepsSorted(b: Board, request: Request)
    requires SortedGraph(b.graph) && ProperStatus(b.graph, b.status)
    ensures SortedGraph(Step(b, request).graph) && ProperStatus(Step(b, request).graph, Step(b, request).status)
  {
    hide Says, Sorted, LineFor, Insert;
    var line := LineFor(b.graph, b.status, request.pid, request.span);
    NewLineIsSorted();
    InsertFacts(Opened(b.graph, request.pid, line)[request.pid][line - 1], request.span);
  }

  lemma LayRequestStep(b: Board, spans: seq<Request>, i: nat)
    requires i < |spans|
    ensures LayRequest(b, spans[..i + 1]) == Step(LayRequest(b, spans[..i]), spans[i])
  {
    hide Step;
    assert spans[..i + 1][..i] == spans[..i];
  }

  /** The spans of one request, placed in order with a status of their own. */
  method PlaceRequest(layout: Layout, spans: seq<Request>, placed: seq<Placed>) returns (longer: seq<Placed>)
    requires SortedGraph(layout.graph)
    modifies layout
    ensures SortedGraph(layout.graph)
    ensures var b := LayRequest(Board(old(layout.graph), map[], placed), spans);
            layout.graph == b.graph && longer == b.placed
  {
    hide LineFor, Stored, Sorted, SortedGraph, ProperStatus;
    ghost var begin := Board(layout.graph, map[], placed);
    var status: Status := map[];
    EmptyStatusIsProper(layout.graph);
    longer := placed;
    for i := 0 to |spans|
      invariant Board(layout.graph, status, longer) == LayRequest(begin, spans[..i])
      invariant SortedGraph(layout.graph) && ProperStatus(layout.graph, status)
    {
      StepKeepsSorted(Board(layout.graph, status, longer), spans[i]);
      LayRequestStep(begin, spans, i);
      var line, newStatus := layout.PlaceSpan(status, spans[i].pid, spans[i].span);
      status := newStatus;
      longer := longer + [Placed(spans[i].pid, line, spans[i].span)];
    }
    assert spans[..|spans|] == spans;
  }

  lemma EmptyStatusIsProper(graph: Graph)
    ensures ProperStatus(graph, map[])
  {}

  /** generate_perfetto_span_layout: the spans of each engine request, and last those of the
      gateway, each with a status of their own. */
  method LayOut(requests: seq<seq<Request>>) returns (placed: seq<Placed>)
    ensures placed == LayAll(requests).placed
    ensures Answered(placed) == Flatten(requests) && forall i :: 0 <= i < |placed| ==> placed[i].line >= 1
    ensures AllMadeOf(requests, iset y: Span | y.start != y.end) ==> NoOverlaps(placed)
    ensures AllMadeOf(requests, iset y: Span | Proper(y)) ==> NoNeedlessLine(placed) && AllByRule(requests, placed)
    ensures EmptiesStay(requests, placed)
  {
    hide LayRequest, NoOverlaps, NoNeedlessLine, AllMadeOf, Answered, Flatten, EmptiesStay, AllByRule;
    var layout := new Layout();
    placed := [];
    for r := 0 to |requests|
      invariant fresh(layout) && SortedGraph(layout.graph)
      invariant layout.graph == LayAll(requests[..r]).graph && placed == LayAll(requests[..r]).placed
    {
      assert requests[..r + 1][..r] == requests[..r];
      placed := PlaceRequest(layout, requests[r], placed);
    }
    assert requests[..|requests|] == requests;
    AllAnswered(requests);
    LayoutIsByRule(requests);
    if AllMadeOf(requests, iset y: Span | y.start != y.end) {
      DisjointWithoutEmpty(requests, iset y: Span | y.start != y.end);
    }
    if AllMadeOf(requests, iset y: Span | Proper(y)) {
      ThriftyWhenProper(requests, iset y: Span | Proper(y));
    }
  }

  // ------------------------------------------------------------------ what a layout keeps

  /** The span x is stored on line k of process p. */
  predicate Holds(graph: Graph, p: Pid, k: nat, x: Span) {
    p in graph && 1 <= k <= |graph[p]| && x in graph[p][k - 1]
  }

  /** The graph holds exactly the placed spans. */
  ghost predicate Records(graph: Graph, placed: seq<Placed>) {
    && (forall i :: 0 <= i < |placed| ==> Holds(graph, placed[i].pid, placed[i].line, placed[i].span))
    && (forall p, k, x :: Holds(graph, p, k, x) ==> Placed(p, k, x) in placed)
  }

  /** Every line holds a span. */
  predicate Occupied(graph: Graph) {
    forall pid, k :: pid in graph && 0 <= k < |graph[pid]| ==> |graph[pid][k]| > 0
  }

  ghost predicate Sound(b: Board) {
    SortedGraph(b.graph) && ProperStatus(b.graph, b.status) && Occupied(b.graph) && Records(b.graph, b.placed)
  }

  /** The later graph holds one span more. */
  ghost predicate Extends(graph: Graph, after: Graph, pid: Pid, line: nat, span: Span) {
    forall p, k, x :: Holds(after, p, k, x) <==> Holds(graph, p, k, x) || (p == pid && k == line && x == span)
  }

  lemma StoredExtends(graph: Graph, pid: Pid, line: nat, span: Span)
    requires SortedGraph(graph) && 1 <= line <= |LinesOf(graph, pid)| + 1
    ensures Extends(graph, Stored(graph, pid, line, span), pid, line, span)
    ensures Occupied(graph) ==> Occupied(Stored(graph, pid, line, span))
  {
    hide Insert, Sorted;
    var after, lines := Stored(graph, pid, line, span), Opened(graph, pid, line)[pid];
    NewLineIsSorted();
    InsertFacts(lines[line - 1], span);
    forall p, k: nat, x
      ensures Holds(after, p, k, x) <==> Holds(graph, p, k, x) || (p == pid && k == line && x == span)
    {
      if p == pid && 1 <= k <= |after[pid]| {
        assert after[pid][k - 1] == if k == line then Insert(lines[line - 1], span) else lines[k - 1];
        assert k < |lines| || k == line || lines[k - 1] == LinesOf(graph, pid)[k - 1];
      }
    }
  }

  lemma StepIsSound(b: Board, request: Request)
    requires Sound(b)
    ensures Sound(Step(b, request))
  {
    hide SortedGraph, ProperStatus, Occupied, Stored, Holds, LineFor;
    var line := LineFor(b.graph, b.status, request.pid, request.span);
    StepKeepsSorted(b, request);
    StoredExtends(b.graph, request.pid, line, request.span);
  }

  // ------------------------------------------------------------------ no two spans overlap

  /** No two placed spans of the same process and line overlap. */
  ghost predicate NoOverlaps(placed: seq<Placed>) {
    forall i, j :: 0 <= i < j < |placed| && placed[i].pid == placed[j].pid && placed[i].line == placed[j].line ==>
      !Overlap(placed[i].span, placed[j].span)
  }

  predicate OrderedGraph(graph: Graph) {
    forall pid, k :: pid in graph && 0 <= k < |graph[pid]| ==> Ordered(graph[pid][k])
  }

  ghost predicate Disjoint(b: Board) {
    Sound(b) && OrderedGraph(b.graph) && NoOverlaps(b.placed)
  }

  lemma StepIsDisjoint(b: Board, request: Request)
    requires Disjoint(b) && request.span.start != request.span.end
    ensures Disjoint(Step(b, request))
  {
    var pid, span := request.pid, request.span;
    var line := LineFor(b.graph, b.status, pid, span);
    StepIsSound(b, request);
    StepIsOrdered(b, request);
    forall x | Holds(b.graph, pid, line, x)
      ensures !Overlap(x, span)
    {
      PickedLineIsClear(b, request, x);
    }
    PlacedStaysDisjoint(b.graph, b.placed, Placed(pid, line, span));
  }

  lemma NewLineIsClear(span: Span)
    ensures !Says([], span) && Ordered([])
  {}

  /** The line picked for a span that is not empty passed the check. */
  lemma PickedLinePasses(graph: Graph, status: Status, pid: Pid, span: Span)
    requires span.start != span.end
    ensures var line := LineFor(graph, status, pid, span); !Says(Opened(graph, pid, line)[pid][line - 1], span)
  {
    hide Says;
    NewLineIsClear(span);
  }

  lemma StepIsOrdered(b: Board, request: Request)
    requires SortedGraph(b.graph) && OrderedGraph(b.graph) && request.span.start != request.span.end
    ensures OrderedGraph(Step(b, request).graph)
  {
    hide Says, Sorted, Ordered, LineFor, Insert;
    var pid, span := request.pid, request.span;
    var line := LineFor(b.graph, b.status, pid, span);
    PickedLinePasses(b.graph, b.status, pid, span);
    NewLineIsSorted();
    NewLineIsClear(span);
    InsertKeepsOrdered(Opened(b.graph, pid, line)[pid][line - 1], span);
  }

  lemma PickedLineIsClear(b: Board, request: Request, x: Span)
    requires SortedGraph(b.graph) && OrderedGraph(b.graph) && request.span.start != request.span.end
    requires Holds(b.graph, request.pid, LineFor(b.graph, b.status, request.pid, request.span), x)
    ensures !Overlap(x, request.span)
  {
    hide Says, Sorted, Ordered, LineFor, Overlap;
    var pid, span := request.pid, request.span;
    var line := LineFor(b.graph, b.status, pid, span);
    PickedLinePasses(b.graph, b.status, pid, span);
    InsertKeepsOrdered(b.graph[pid][line - 1], span);
  }

  lemma PlacedStaysDisjoint(graph: Graph, placed: seq<Placed>, x: Placed)
    requires Records(graph, placed) && NoOverlaps(placed)
    requires forall y :: Holds(graph, x.pid, x.line, y) ==> !Overlap(y, x.span)
    ensures NoOverlaps(placed + [x])
  {
    hide Holds, Overlap;
  }

  /** The requests are made of spans with the given property. */
  ghost predicate MadeOf(spans: seq<Request>, allowed: iset<Span>) {
    forall i :: 0 <= i < |spans| ==> spans[i].span in allowed
  }

  ghost predicate AllMadeOf(requests: seq<seq<Request>>, allowed: iset<Span>) {
    forall r :: 0 <= r < |requests| ==> MadeOf(requests[r], allowed)
  }

  lemma {:induction false} RequestIsDisjoint(b: Board, spans: seq<Request>, allowed: iset<Span>)
    requires Disjoint(b) && MadeOf(spans, allowed) && forall y :: y in allowed ==> y.start != y.end
    ensures Disjoint(LayRequest(b, spans))
  {
    hide Disjoint, Step;
    if spans != [] {
      RequestIsDisjoint(b, spans[..|spans| - 1], allowed);
      StepIsDisjoint(LayRequest(b, spans[..|spans| - 1]), spans[|spans| - 1]);
    }
  }

  /** Without empty spans no two spans on a line overlap; inverted spans do no harm. */
  lemma {:induction false} DisjointWithoutEmpty(requests: seq<seq<Request>>, allowed: iset<Span>)
    requires AllMadeOf(requests, allowed) && forall y :: y in allowed ==> y.start != y.end
    ensures Disjoint(LayAll(requests))
  {
    hide Disjoint, LayRequest, MadeOf;
    if requests == [] {
      EmptyBoard();
    } else {
      var n := |requests| - 1;
      DisjointWithoutEmpty(requests[..n], allowed);
      FreshStatus(LayAll(requests[..n]));
      RequestIsDisjoint(LayAll(requests[..n]).(status := map[]), requests[n], allowed);
    }
  }

  lemma EmptyBoard()
    ensures Disjoint(Board(map[], map[], []))
  {}

  lemma FreshStatus(b: Board)
    requires Disjoint(b)
    ensures Disjoint(b.(status := map[]))
  {}

  // ------------------------------------------------------------------ no line without need

  /** Some span placed before moment i shares the line l of its process. */
  ghost predicate Used(placed: seq<Placed>, i: nat, l: nat)
    requires i < |placed|
  {
    exists j :: 0 <= j < i && placed[j].pid == placed[i].pid && placed[j].line == l
  }

  /** Some span placed on line l before moment i overlaps span i. */
  ghost predicate Blocked(placed: seq<Placed>, i: nat, l: nat)
    requires i < |placed|
  {
    exists j :: 0 <= j < i && placed[j].pid == placed[i].pid && placed[j].line == l
      && Overlap(placed[j].span, placed[i].span)
  }

  /** The first span on a line was kept off every lower line by an earlier span there. */
  ghost predicate NoNeedlessLine(placed: seq<Placed>) {
    forall i :: 0 <= i < |placed| && !Used(placed, i, placed[i].line) ==>
      forall l :: 1 <= l < placed[i].line ==> Blocked(placed, i, l)
  }

  predicate ProperGraph(graph: Graph) {
    forall pid, k :: pid in graph && 0 <= k < |graph[pid]| ==> AllProper(graph[pid][k])
  }

  ghost predicate Thrifty(b: Board) {
    Disjoint(b) && ProperGraph(b.graph) && NoNeedlessLine(b.placed)
  }

  /** The line was in use, or every line below it has a span in the way. */
  ghost predicate Forced(graph: Graph, pid: Pid, line: nat, span: Span) {
    || (exists y :: Holds(graph, pid, line, y))
    || (forall l :: 1 <= l < line ==> InTheWay(graph, pid, l, span))
  }

  ghost predicate InTheWay(graph: Graph, pid: Pid, line: nat, span: Span) {
    exists x :: Holds(graph, pid, line, x) && Overlap(x, span)
  }

  /** On ordered lines of proper spans, the picked line has no conflict with a proper span, and a new
      line is picked only when every existing one has. */
  lemma PickedLine(graph: Graph, status: Status, pid: Pid, span: Span)
    requires SortedGraph(graph) && OrderedGraph(graph) && ProperGraph(graph) && Proper(span)
    ensures var line := LineFor(graph, status, pid, span);
            && !Conflicts(Opened(graph, pid, line)[pid][line - 1], span)
            && (line > |LinesOf(graph, pid)| ==>
                  forall k :: 0 <= k < |LinesOf(graph, pid)| ==> Conflicts(LinesOf(graph, pid)[k], span))
  {
    hide Says, Sorted, Ordered, AllProper, Conflicts;
    forall k | 0 <= k < |LinesOf(graph, pid)|
      ensures Says(LinesOf(graph, pid)[k], span) <==> Conflicts(LinesOf(graph, pid)[k], span)
    {
      NeighboursDecide(LinesOf(graph, pid)[k], span);
    }
    PickedLinePasses(graph, status, pid, span);
    EmptyLineHasNoConflict(span);
  }

  lemma EmptyLineHasNoConflict(span: Span)
    ensures !Conflicts([], span)
  {}

  lemma LineIsForced(b: Board, pid: Pid, span: Span)
    requires Sound(b) && OrderedGraph(b.graph) && ProperGraph(b.graph) && Proper(span)
    ensures Forced(b.graph, pid, LineFor(b.graph, b.status, pid, span), span)
  {
    hide Records, Overlap, OrderedGraph, ProperGraph, SortedGraph, ProperStatus, Opened, LineFor, Conflicts;
    var lines, line := LinesOf(b.graph, pid), LineFor(b.graph, b.status, pid, span);
    PickedLine(b.graph, b.status, pid, span);
    if line <= |lines| {
      assert Holds(b.graph, pid, line, lines[line - 1][0]);
    } else {
      forall l | 1 <= l < line
        ensures InTheWay(b.graph, pid, l, span)
      {
        var i := FirstConflict(lines[l - 1], span);
        assert Holds(b.graph, pid, l, lines[l - 1][i]);
      }
    }
  }

  lemma StepStaysProper(b: Board, request: Request)
    requires SortedGraph(b.graph) && ProperGraph(b.graph) && Proper(request.span)
    ensures ProperGraph(Step(b, request).graph)
  {
    hide Says, Sorted, LineFor, Insert, Proper;
    var line := LineFor(b.graph, b.status, request.pid, request.span);
    NewLineIsSorted();
    var before := Opened(b.graph, request.pid, line)[request.pid][line - 1];
    InsertFacts(before, request.span);
    forall i | 0 <= i < |Insert(before, request.span)|
      ensures Proper(Insert(before, request.span)[i])
    {
      assert Insert(before, request.span)[i] in Insert(before, request.span);
    }
  }

  lemma StepIsThrifty(b: Board, request: Request)
    requires Thrifty(b) && Proper(request.span)
    ensures Thrifty(Step(b, request))
  {
    hide OrderedGraph, SortedGraph, ProperStatus, Occupied, Records, NoOverlaps, NoNeedlessLine, Forced, LineFor,
         Stored;
    StepIsDisjoint(b, request);
    StepStaysProper(b, request);
    LineIsForced(b, request.pid, request.span);
    PlacedIsForced(b.graph, b.placed,
                   Placed(request.pid, LineFor(b.graph, b.status, request.pid, request.span), request.span));
  }

  lemma PlacedIsForced(graph: Graph, placed: seq<Placed>, x: Placed)
    requires Records(graph, placed) && NoNeedlessLine(placed)
    requires Forced(graph, x.pid, x.line, x.span)
    ensures NoNeedlessLine(placed + [x])
  {
    hide Holds, Overlap;
    var longer, n := placed + [x], |placed|;
    forall i | 0 <= i < |longer| && !Used(longer, i, longer[i].line)
      ensures forall l :: 1 <= l < longer[i].line ==> Blocked(longer, i, l)
    {
      forall l | 1 <= l < longer[i].line
        ensures Blocked(longer, i, l)
      {
        if i < n {
          NotUsedEarlier(placed, x, i, longer[i].line);
          assert Blocked(placed, i, l);
          var j :| 0 <= j < i && placed[j].pid == placed[i].pid && placed[j].line == l
            && Overlap(placed[j].span, placed[i].span);
          assert longer[j] == placed[j];
        } else {
          NewIsForced(graph, placed, x, l);
        }
      }
    }
  }

  lemma NotUsedEarlier(placed: seq<Placed>, x: Placed, i: nat, l: nat)
    requires i < |placed| && !Used(placed + [x], i, l)
    ensures !Used(placed, i, l)
  {
    assert forall j :: 0 <= j < |placed| ==> (placed + [x])[j] == placed[j];
  }

  lemma NewIsForced(graph: Graph, placed: seq<Placed>, x: Placed, l: nat)
    requires Records(graph, placed) && Forced(graph, x.pid, x.line, x.span)
    requires !Used(placed + [x], |placed|, x.line) && 1 <= l < x.line
    ensures Blocked(placed + [x], |placed|, l)
  {
    hide Holds, Overlap;
    assert forall j :: 0 <= j < |placed| ==> (placed + [x])[j] == placed[j];
    assert forall y :: Holds(graph, x.pid, x.line, y) ==> Placed(x.pid, x.line, y) in placed;
    assert InTheWay(graph, x.pid, l, x.span);
    var y :| Holds(graph, x.pid, l, y) && Overlap(y, x.span);
    var j :| 0 <= j < |placed| && placed[j] == Placed(x.pid, l, y);
    assert (placed + [x])[j] == placed[j];
  }

  lemma {:induction false} RequestIsThrifty(b: Board, spans: seq<Request>, allowed: iset<Span>)
    requires Thrifty(b) && MadeOf(spans, allowed) && forall y :: y in allowed ==> Proper(y)
    ensures Thrifty(LayRequest(b, spans))
  {
    hide Thrifty, Step;
    if spans != [] {
      RequestIsThrifty(b, spans[..|spans| - 1], allowed);
      StepIsThrifty(LayRequest(b, spans[..|spans| - 1]), spans[|spans| - 1]);
    }
  }

  /** With proper spans a line is opened only for a span that every lower line refuses. */
  lemma {:induction false} ThriftyWhenProper(requests: seq<seq<Request>>, allowed: iset<Span>)
    requires AllMadeOf(requests, allowed) && forall y :: y in allowed ==> Proper(y)
    ensures Thrifty(LayAll(requests))
  {
    hide Thrifty, LayRequest, MadeOf;
    if requests == [] {
      EmptyBoardIsThrifty();
    } else {
      var n := |requests| - 1;
      ThriftyWhenProper(requests[..n], allowed);
      FreshStatusIsThrifty(LayAll(requests[..n]));
      RequestIsThrifty(LayAll(requests[..n]).(status := map[]), requests[n], allowed);
    }
  }

  lemma EmptyBoardIsThrifty()
    ensures Thrifty(Board(map[], map[], []))
  {}

  lemma FreshStatusIsThrifty(b: Board)
    requires Thrifty(b)
    ensures Thrifty(b.(status := map[]))
  {
    hide NoNeedlessLine, ProperGraph, NoOverlaps, Records;
  }

  // ------------------------------------------------------------------ which line a span gets

  /** Span j is the latest one of the same process that the request, which begins at `begin`, has placed
      before span i. */
  predicate Latest(placed: seq<Placed>, begin: nat, i: nat, j: nat)
    requires i < |placed|
  {
    && begin <= j < i && placed[j].pid == placed[i].pid
    && forall m :: j < m < i ==> placed[m].pid != placed[i].pid
  }

  /** The span is on the lowest line where no earlier span overlaps it. */
  ghost predicate OnLowestFree(placed: seq<Placed>, i: nat)
    requires i < |placed|
  {
    !Blocked(placed, i, placed[i].line) && forall l :: 1 <= l < placed[i].line ==> Blocked(placed, i, l)
  }

  /** A request stays on its line while it can, and goes to the lowest free line otherwise. */
  ghost predicate RuleAt(placed: seq<Placed>, begin: nat, i: nat)
    requires i < |placed|
  {
    && (forall j: nat :: Latest(placed, begin, i, j) && !Blocked(placed, i, placed[j].line) ==>
          placed[i].line == placed[j].line)
    && ((forall j: nat :: Latest(placed, begin, i, j) ==> Blocked(placed, i, placed[j].line)) ==>
        OnLowestFree(placed, i))
  }

  /** An empty span always stays on the line of its request. */
  ghost predicate EmptyStays(placed: seq<Placed>, begin: nat, i: nat)
    requires i < |placed|
  {
    placed[i].span.start == placed[i].span.end ==>
      forall j: nat :: Latest(placed, begin, i, j) ==> placed[i].line == placed[j].line
  }

  /** The status holds the line of the latest span per process, since the request began. */
  ghost predicate StatusIs(b: Board, begin: nat) {
    && begin <= |b.placed|
    && (forall j :: begin <= j < |b.placed| ==> b.placed[j].pid in b.status)
    && (forall pid :: pid in b.status ==>
          exists j: nat :: LatestOf(b.placed, begin, pid, j) && b.placed[j].line == b.status[pid])
  }

  predicate LatestOf(placed: seq<Placed>, begin: nat, pid: Pid, j: nat) {
    && begin <= j < |placed| && placed[j].pid == pid
    && forall m :: j < m < |placed| ==> placed[m].pid != pid
  }

  lemma LatestIs(placed: seq<Placed>, begin: nat, x: Placed, j: nat)
    ensures Latest(placed + [x], begin, |placed|, j) <==> LatestOf(placed, begin, x.pid, j)
  {
    var longer := placed + [x];
    assert forall m :: 0 <= m < |placed| ==> longer[m] == placed[m];
  }

  lemma LatestIsUnique(placed: seq<Placed>, begin: nat, pid: Pid, j: nat, k: nat)
    requires LatestOf(placed, begin, pid, j) && LatestOf(placed, begin, pid, k)
    ensures j == k
  {}

  lemma StatusStep(b: Board, begin: nat, request: Request)
    requires StatusIs(b, begin)
    ensures StatusIs(Step(b, request), begin)
  {
    hide LineFor, Stored;
    var t, n := Step(b, request), |b.placed|;
    assert forall m :: 0 <= m < n ==> t.placed[m] == b.placed[m];
    forall pid | pid in t.status
      ensures exists j: nat :: LatestOf(t.placed, begin, pid, j) && t.placed[j].line == t.status[pid]
    {
      if pid == request.pid {
        assert LatestOf(t.placed, begin, pid, n);
      } else {
        var j: nat :| LatestOf(b.placed, begin, pid, j) && b.placed[j].line == b.status[pid];
        assert LatestOf(t.placed, begin, pid, j);
      }
    }
  }

  /** The own line of the request is the one in its status. */
  lemma OwnLine(b: Board, begin: nat, x: Placed, j: nat)
    requires StatusIs(b, begin) && Latest(b.placed + [x], begin, |b.placed|, j)
    ensures x.pid in b.status && (b.placed + [x])[j].line == b.status[x.pid]
  {
    LatestIs(b.placed, begin, x, j);
    assert b.placed[j].pid in b.status;
    var k: nat :| LatestOf(b.placed, begin, x.pid, k) && b.placed[k].line == b.status[x.pid];
    LatestIsUnique(b.placed, begin, x.pid, j, k);
  }

  lemma HasOwnLine(b: Board, begin: nat, x: Placed) returns (j: nat)
    requires StatusIs(b, begin) && x.pid in b.status
    ensures Latest(b.placed + [x], begin, |b.placed|, j) && (b.placed + [x])[j].line == b.status[x.pid]
  {
    j :| LatestOf(b.placed, begin, x.pid, j) && b.placed[j].line == b.status[x.pid];
    LatestIs(b.placed, begin, x, j);
  }

  lemma EmptyStaysStep(b: Board, begin: nat, request: Request)
    requires StatusIs(b, begin) && ProperStatus(b.graph, b.status)
    ensures EmptyStays(Step(b, request).placed, begin, |b.placed|)
  {
    hide Stored, StatusIs, Says, FirstClear;
    var x := Placed(request.pid, LineFor(b.graph, b.status, request.pid, request.span), request.span);
    forall j: nat | Latest(b.placed + [x], begin, |b.placed|, j) && x.span.start == x.span.end
      ensures x.line == (b.placed + [x])[j].line
    {
      OwnLine(b, begin, x, j);
    }
  }

  /** A line is blocked for the next span exactly when a stored span conflicts. */
  lemma BlockedIs(b: Board, x: Placed, l: nat)
    requires Records(b.graph, b.placed) && l >= 1
    ensures Blocked(b.placed + [x], |b.placed|, l)
       <==> l <= |LinesOf(b.graph, x.pid)| && Conflicts(LinesOf(b.graph, x.pid)[l - 1], x.span)
  {
    hide Overlap;
    var longer, n := b.placed + [x], |b.placed|;
    if l <= |LinesOf(b.graph, x.pid)| && Conflicts(LinesOf(b.graph, x.pid)[l - 1], x.span) {
      var i := FirstConflict(LinesOf(b.graph, x.pid)[l - 1], x.span);
      var y := LinesOf(b.graph, x.pid)[l - 1][i];
      assert Holds(b.graph, x.pid, l, y);
      var j :| 0 <= j < n && b.placed[j] == Placed(x.pid, l, y);
      assert longer[j] == b.placed[j];
    }
    if Blocked(longer, n, l) {
      var j :| 0 <= j < n && longer[j].pid == x.pid && longer[j].line == l && Overlap(longer[j].span, x.span);
      assert Holds(b.graph, b.placed[j].pid, b.placed[j].line, b.placed[j].span);
    }
  }

  lemma RuleStep(b: Board, begin: nat, request: Request)
    requires Thrifty(b) && StatusIs(b, begin) && Proper(request.span)
    ensures RuleAt(Step(b, request).placed, begin, |b.placed|)
  {
    hide Stored, StatusIs, Says, Conflicts, Blocked, Records, Sorted, Ordered, AllProper, NoOverlaps,
         NoNeedlessLine, Occupied;
    var pid, span, lines := request.pid, request.span, LinesOf(b.graph, request.pid);
    var x := Placed(pid, LineFor(b.graph, b.status, pid, span), span);
    var longer, n := b.placed + [x], |b.placed|;
    forall l: nat | l >= 1
      ensures Blocked(longer, n, l) <==> l <= |lines| && Says(lines[l - 1], span)
    {
      BlockedIs(b, x, l);
      if l <= |lines| {
        NeighboursDecide(lines[l - 1], span);
      }
    }
    forall j: nat | Latest(longer, begin, n, j)
      ensures pid in b.status && longer[j].line == b.status[pid]
    {
      OwnLine(b, begin, x, j);
    }
    if pid in b.status {
      var j := HasOwnLine(b, begin, x);
      assert Latest(longer, begin, n, j);
    }
  }

  lemma RuleKept(placed: seq<Placed>, more: seq<Placed>, begin: nat, i: nat)
    requires placed <= more && i < |placed|
    ensures RuleAt(placed, begin, i) ==> RuleAt(more, begin, i)
    ensures EmptyStays(placed, begin, i) ==> EmptyStays(more, begin, i)
  {
    hide Overlap;
    assert forall m :: 0 <= m < |placed| ==> more[m] == placed[m];
    forall l: nat
      ensures Blocked(more, i, l) <==> Blocked(placed, i, l)
    {
      BlockedKept(placed, more, i, l);
    }
    assert forall j: nat :: Latest(more, begin, i, j) <==> Latest(placed, begin, i, j);
  }

  lemma BlockedKept(placed: seq<Placed>, more: seq<Placed>, i: nat, l: nat)
    requires placed <= more && i < |placed|
    ensures Blocked(more, i, l) <==> Blocked(placed, i, l)
  {
    hide Overlap;
    assert forall m :: 0 <= m < |placed| ==> more[m] == placed[m];
  }

  lemma {:induction false} RequestFollowsRule(b: Board, spans: seq<Request>)
    requires Sound(b) && b.status == map[]
    ensures Sound(LayRequest(b, spans)) && StatusIs(LayRequest(b, spans), |b.placed|)
    ensures b.placed <= LayRequest(b, spans).placed
    ensures forall i :: |b.placed| <= i < |LayRequest(b, spans).placed| ==>
              EmptyStays(LayRequest(b, spans).placed, |b.placed|, i)
    ensures Thrifty(b) && MadeOf(spans, iset y: Span | Proper(y)) ==>
              && Thrifty(LayRequest(b, spans))
              && forall i :: |b.placed| <= i < |LayRequest(b, spans).placed| ==>
                   RuleAt(LayRequest(b, spans).placed, |b.placed|, i)
  {
    hide Sound, StatusIs, Thrifty, EmptyStays, RuleAt, LineFor, Stored;
    if spans == [] {
      NoStatus(b);
    } else {
      var n, begin := |spans| - 1, |b.placed|;
      var before := LayRequest(b, spans[..n]);
      RequestFollowsRule(b, spans[..n]);
      StepIsSound(before, spans[n]);
      StatusStep(before, begin, spans[n]);
      SoundIsProper(before);
      EmptyStaysStep(before, begin, spans[n]);
      var after := Step(before, spans[n]);
      forall i | begin <= i < |before.placed|
        ensures EmptyStays(before.placed, begin, i) ==> EmptyStays(after.placed, begin, i)
        ensures RuleAt(before.placed, begin, i) ==> RuleAt(after.placed, begin, i)
      {
        RuleKept(before.placed, after.placed, begin, i);
      }
      if Thrifty(b) && MadeOf(spans, iset y: Span | Proper(y)) {
        assert MadeOf(spans[..n], iset y: Span | Proper(y));
        StepIsThrifty(before, spans[n]);
        RuleStep(before, begin, spans[n]);
      }
    }
  }

  lemma NoStatus(b: Board)
    requires b.status == map[]
    ensures StatusIs(b, |b.placed|)
  {}

  lemma SoundIsProper(b: Board)
    requires Sound(b)
    ensures ProperStatus(b.graph, b.status) && Sound(b.(status := map[]))
  {
    hide Records;
  }

  /** In every layout an empty span stays on the line of its request; and in a layout of proper spans
      every span gets the line of its request while no earlier span overlaps it there, and the lowest
      line without overlap otherwise. */
  lemma {:induction false} LayoutFollowsRule(requests: seq<seq<Request>>, r: nat)
    requires r < |requests|
    ensures Sound(LayAll(requests))
    ensures |LayAll(requests[..r]).placed| <= |LayAll(requests[..r + 1]).placed| <= |LayAll(requests).placed|
    ensures forall i :: |LayAll(requests[..r]).placed| <= i < |LayAll(requests[..r + 1]).placed| ==>
              EmptyStays(LayAll(requests).placed, |LayAll(requests[..r]).placed|, i)
    ensures AllMadeOf(requests, iset y: Span | Proper(y)) ==>
              forall i :: |LayAll(requests[..r]).placed| <= i < |LayAll(requests[..r + 1]).placed| ==>
                RuleAt(LayAll(requests).placed, |LayAll(requests[..r]).placed|, i)
  {
    hide Sound, Thrifty, EmptyStays, RuleAt, LayRequest, MadeOf;
    var n := |requests| - 1;
    var before := LayAll(requests[..n]).(status := map[]);
    LayoutIsSound(requests[..n]);
    SoundIsProper(LayAll(requests[..n]));
    RequestFollowsRule(before, requests[n]);
    assert requests[..n + 1] == requests;
    if AllMadeOf(requests, iset y: Span | Proper(y)) {
      ThriftyWhenProper(requests[..n], iset y: Span | Proper(y));
      FreshStatusIsThrifty(LayAll(requests[..n]));
    }
    if r < n {
      LayoutFollowsRule(requests[..n], r);
      assert requests[..n][..r] == requests[..r] && requests[..n][..r + 1] == requests[..r + 1];
      forall i | |LayAll(requests[..r]).placed| <= i < |LayAll(requests[..r + 1]).placed| {
        RuleKept(before.placed, LayAll(requests).placed, |LayAll(requests[..r]).placed|, i);
      }
    }
  }

  /** Request r is answered by the spans from `BeginOf(requests, r)` up to the beginning of the next. */
  function BeginOf(requests: seq<seq<Request>>, r: nat): nat
    requires r <= |requests|
  {
    |Flatten(requests[..r])|
  }

  ghost predicate RequestEmptiesStay(requests: seq<seq<Request>>, placed: seq<Placed>, r: nat)
    requires r < |requests|
  {
    && BeginOf(requests, r + 1) <= |placed|
    && forall i :: BeginOf(requests, r) <= i < BeginOf(requests, r + 1) ==> EmptyStays(placed, BeginOf(requests, r), i)
  }

  ghost predicate EmptiesStay(requests: seq<seq<Request>>, placed: seq<Placed>) {
    forall r :: 0 <= r < |requests| ==> RequestEmptiesStay(requests, placed, r)
  }

  ghost predicate RequestByRule(requests: seq<seq<Request>>, placed: seq<Placed>, r: nat)
    requires r < |requests|
  {
    && BeginOf(requests, r + 1) <= |placed|
    && forall i :: BeginOf(requests, r) <= i < BeginOf(requests, r + 1) ==> RuleAt(placed, BeginOf(requests, r), i)
  }

  ghost predicate AllByRule(requests: seq<seq<Request>>, placed: seq<Placed>) {
    forall r :: 0 <= r < |requests| ==> RequestByRule(requests, placed, r)
  }

  lemma LayoutIsByRule(requests: seq<seq<Request>>)
    ensures EmptiesStay(requests, LayAll(requests).placed)
    ensures AllMadeOf(requests, iset y: Span | Proper(y)) ==> AllByRule(requests, LayAll(requests).placed)
  {
    hide LayAll, Flatten, Sound, EmptyStays, RuleAt, AllMadeOf;
    forall r | 0 <= r < |requests|
      ensures RequestEmptiesStay(requests, LayAll(requests).placed, r)
      ensures AllMadeOf(requests, iset y: Span | Proper(y)) ==> RequestByRule(requests, LayAll(requests).placed, r)
    {
      AllAnswered(requests[..r]);
      AllAnswered(requests[..r + 1]);
      LayoutFollowsRule(requests, r);
    }
  }

  lemma {:induction false} LayoutIsSound(requests: seq<seq<Request>>)
    ensures Sound(LayAll(requests))
  {
    hide Sound, LayRequest;
    if requests == [] {
      EmptyBoardIsSound();
    } else {
      var n := |requests| - 1;
      LayoutIsSound(requests[..n]);
      SoundIsProper(LayAll(requests[..n]));
      RequestFollowsRule(LayAll(requests[..n]).(status := map[]), requests[n]);
    }
  }

  lemma EmptyBoardIsSound()
    ensures Sound(Board(map[], map[], []))
  {}

  // ------------------------------------------------------------------ exactly when

  lemma OneRequest(spans: seq<Request>)
    ensures LayAll([spans]) == LayRequest(Board(map[], map[], []), spans)
  {
    hide LayRequest;
    assert [spans][..0] == [];
  }

  lemma FirstStep(pid: Pid, x: Span)
    ensures Step(Board(map[], map[], []), Request(pid, x))
      == Board(map[pid := [[x]]], map[pid := 1], [Placed(pid, 1, x)])
  {
    assert LineFor(map[], map[], pid, x) == 1;
    assert Opened(map[], pid, 1)[pid] == [[]];
    assert Insert([], x) == [x];
    var lines: seq<Line> := [[]];
    assert lines[0 := [x]] == [[x]];
    assert Stored(map[], pid, 1, x) == map[pid := [[x]]];
  }

  /** An empty span inside a longer one is placed without a check and then hides it: a third span
      is put on the same line although it overlaps the first. */
  lemma EmptySpanHides(pid: Pid, x: Span, y: Span, z: Span)
    requires x.start < y.start == y.end < z.start < x.end && Proper(z)
    ensures LayAll([[Request(pid, x), Request(pid, y), Request(pid, z)]]).placed
         == [Placed(pid, 1, x), Placed(pid, 1, y), Placed(pid, 1, z)]
    ensures Proper(x) && Overlap(x, z)
  {
    hide Step;
    var r := [Request(pid, x), Request(pid, y), Request(pid, z)];
    OneRequest(r);
    LayThree(Board(map[], map[], []), r);
    FirstStep(pid, x);
    SecondStep(pid, x, y);
    ThirdStep(pid, x, y, z);
  }

  lemma ThirdStep(pid: Pid, x: Span, y: Span, z: Span)
    requires x.start < y.start == y.end < z.start
    ensures Step(Board(map[pid := [[x, y]]], map[pid := 1], [Placed(pid, 1, x), Placed(pid, 1, y)]),
                 Request(pid, z)).placed
         == [Placed(pid, 1, x), Placed(pid, 1, y), Placed(pid, 1, z)]
  {
    hide Insert, FirstClear;
    SplitIs([x, y], z.start, 2);
    assert LineFor(map[pid := [[x, y]]], map[pid := 1], pid, z) == 1;
  }

  lemma LayThree(b: Board, r: seq<Request>)
    requires |r| == 3
    ensures LayRequest(b, r) == Step(Step(Step(b, r[0]), r[1]), r[2])
  {
    hide Step;
    assert r[..3] == r && r[..0] == [];
    LayRequestStep(b, r, 0);
    LayRequestStep(b, r, 1);
    LayRequestStep(b, r, 2);
  }

  lemma SecondStep(pid: Pid, x: Span, y: Span)
    requires x.start < y.start == y.end
    ensures Step(Board(map[pid := [[x]]], map[pid := 1], [Placed(pid, 1, x)]), Request(pid, y))
         == Board(map[pid := [[x, y]]], map[pid := 1], [Placed(pid, 1, x), Placed(pid, 1, y)])
  {
    InsertAt([x], y, 1);
    var graph := map[pid := [[x]]];
    assert LineFor(graph, map[pid := 1], pid, y) == 1;
    assert Insert([x], y) == [x, y];
    assert [[x]][0 := [x, y]] == [[x, y]];
    assert Stored(graph, pid, 1, y) == map[pid := [[x, y]]];
  }

  /** The spans (0, 10), (5, 5) and (6, 8) of one request end up on one line. */
  lemma EmptySpanExample(pid: Pid)
    ensures var spans := [Request(pid, Span(0, 10)), Request(pid, Span(5, 5)), Request(pid, Span(6, 8))];
            var placed := LayAll([spans]).placed;
            && placed == [Placed(pid, 1, Span(0, 10)), Placed(pid, 1, Span(5, 5)), Placed(pid, 1, Span(6, 8))]
            && !NoOverlaps(placed)
  {
    EmptySpanHides(pid, Span(0, 10), Span(5, 5), Span(6, 8));
    var placed := [Placed(pid, 1, Span(0, 10)), Placed(pid, 1, Span(5, 5)), Placed(pid, 1, Span(6, 8))];
    assert Overlap(placed[0].span, placed[2].span);
  }

  /** All proper spans, and the given ones. */
  ghost function WithProper(extra: iset<Span>): iset<Span> {
    iset y: Span | Proper(y) || y in extra
  }

  ghost predicate AlwaysDisjoint(allowed: iset<Span>) {
    forall requests :: AllMadeOf(requests, allowed) ==> NoOverlaps(LayAll(requests).placed)
  }

  /** Exactly when spans stay disjoint: whatever proper spans are around, the given further spans
      never lead to an overlap if and only if none of them is empty.  The request that shows the
      failure is sorted by start, as the program sorts them. */
  lemma DisjointIffNoneEmpty(extra: iset<Span>)
    ensures AlwaysDisjoint(WithProper(extra)) <==> forall y :: y in extra ==> y.start != y.end
  {
    hide LayAll;
    if y: Span :| y in extra && y.start == y.end {
      var s := y.start;
      var x, z := Span(s - 1, s + 3), Span(s + 1, s + 2);
      var requests := [[Request("", x), Request("", y), Request("", z)]];
      EmptySpanHides("", x, y, z);
      assert AllMadeOf(requests, WithProper(extra));
      var placed := LayAll(requests).placed;
      assert placed[0] == Placed("", 1, x) && placed[2] == Placed("", 1, z);
      assert !NoOverlaps(placed);
    } else {
      forall requests | AllMadeOf(requests, WithProper(extra))
        ensures NoOverlaps(LayAll(requests).placed)
      {
        DisjointWithoutEmpty(requests, WithProper(extra));
      }
    }
  }

  /** A span that starts where an empty or inverted one does is refused without an overlap. */
  lemma DegenerateSpanRepels(pid: Pid, y: Span)
    requires !Proper(y)
    ensures var z := Span(y.start, y.start + 1);
            && LayAll([[Request(pid, y), Request(pid, z)]]).placed == [Placed(pid, 1, y), Placed(pid, 2, z)]
            && !Overlap(y, z)
  {
    hide Step;
    var z := Span(y.start, y.start + 1);
    var r := [Request(pid, y), Request(pid, z)];
    OneRequest(r);
    FirstStep(pid, y);
    assert r[..2] == r && r[..0] == [];
    LayRequestStep(Board(map[], map[], []), r, 0);
    LayRequestStep(Board(map[], map[], []), r, 1);
    RepelledStep(pid, y);
  }

  lemma RepelledStep(pid: Pid, y: Span)
    ensures Step(Board(map[pid := [[y]]], map[pid := 1], [Placed(pid, 1, y)]),
                 Request(pid, Span(y.start, y.start + 1))).placed
         == [Placed(pid, 1, y), Placed(pid, 2, Span(y.start, y.start + 1))]
  {
    hide Insert;
    var z := Span(y.start, y.start + 1);
    SplitIs([y], z.start, 0);
    assert Says([y], z);
    assert LineFor(map[pid := [[y]]], map[pid := 1], pid, z) == 2;
  }

  ghost predicate AlwaysThrifty(allowed: iset<Span>) {
    forall requests :: AllMadeOf(requests, allowed) ==> NoNeedlessLine(LayAll(requests).placed)
  }

  /** Exactly when no line is opened without need: the given further spans never lead to one if and
      only if all of them are proper. */
  lemma ThriftyIffAllProper(extra: iset<Span>)
    ensures AlwaysThrifty(WithProper(extra)) <==> forall y :: y in extra ==> Proper(y)
  {
    hide LayAll;
    if y: Span :| y in extra && !Proper(y) {
      var z := Span(y.start, y.start + 1);
      var requests := [[Request("", y), Request("", z)]];
      DegenerateSpanRepels("", y);
      assert AllMadeOf(requests, WithProper(extra));
      var placed := LayAll(requests).placed;
      assert placed[1].line == 2 && !Used(placed, 1, placed[1].line) && !Blocked(placed, 1, 1);
      assert !NoNeedlessLine(placed);
    } else {
      forall requests | AllMadeOf(requests, WithProper(extra))
        ensures NoNeedlessLine(LayAll(requests).placed)
      {
        ThriftyWhenProper(requests, WithProper(extra));
      }
    }
  }

  // ------------------------------------------------------------------ every span is placed

  /** All requested spans in order of placement. */
  function Flatten(requests: seq<seq<Request>>): seq<Request> {
    if requests == [] then [] else Flatten(requests[..|requests| - 1]) + requests[|requests| - 1]
  }

  /** The requests that the placed spans answer. */
  function Answered(placed: seq<Placed>): (r: seq<Request>)
    ensures |r| == |placed|
  {
    seq(|placed|, i requires 0 <= i < |placed| => Request(placed[i].pid, placed[i].span))
  }

  lemma {:induction false} RequestIsAnswered(b: Board, spans: seq<Request>)
    requires forall i :: 0 <= i < |b.placed| ==> b.placed[i].line >= 1
    ensures Answered(LayRequest(b, spans).placed) == Answered(b.placed) + spans
    ensures forall i :: 0 <= i < |LayRequest(b, spans).placed| ==> LayRequest(b, spans).placed[i].line >= 1
  {
    hide LineFor, Stored;
    if spans != [] {
      var before, last := LayRequest(b, spans[..|spans| - 1]), spans[|spans| - 1];
      RequestIsAnswered(b, spans[..|spans| - 1]);
      assert Answered(Step(before, last).placed) == Answered(before.placed) + [last];
    }
  }

  /** Every span gets a line, in order. */
  lemma {:induction false} AllAnswered(requests: seq<seq<Request>>)
    ensures Answered(LayAll(requests).placed) == Flatten(requests)
    ensures forall i :: 0 <= i < |LayAll(requests).placed| ==> LayAll(requests).placed[i].line >= 1
  {
    hide LayRequest;
    if requests != [] {
      var n := |requests| - 1;
      AllAnswered(requests[..n]);
      RequestIsAnswered(LayAll(requests[..n]).(status := map[]), requests[n]);
    }
  }
}
