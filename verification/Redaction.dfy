/** Hiding spans of a text: candidates are merged into disjoint spans, each replaced by its label. */
module Redaction {
  import opened Wrappers

  datatype Candidate = Candidate(start: nat, end: nat, tag: string, source: string, score: real, priority: nat)

  datatype Span = Span(start: nat, end: nat, tag: string, source: string, score: real)

  /** The sort key: an earlier start wins, on a tie a later end, then the higher rank of the source, then the score. */
  predicate Precedes(a: Candidate, b: Candidate) {
    a.start < b.start || (a.start == b.start &&
    (a.end > b.end || (a.end == b.end &&
     (a.priority < b.priority || (a.priority == b.priority && a.score >= b.score)))))
  }

  ghost predicate Ordered(cs: seq<Candidate>) {
    forall j, k | 0 <= j < k < |cs| :: Precedes(cs[j], cs[k])
  }

  /** Put a candidate behind those that go before it, or as well. */
  function Insert(cs: seq<Candidate>, c: Candidate): seq<Candidate> {
    if cs == [] || Precedes(cs[|cs| - 1], c) then cs + [c]
    else Insert(cs[..|cs| - 1], c) + [cs[|cs| - 1]]
  }

  function Sort(cs: seq<Candidate>): seq<Candidate> {
    if cs == [] then [] else Insert(Sort(cs[..|cs| - 1]), cs[|cs| - 1])
  }

  lemma {:induction false} InsertOrdered(cs: seq<Candidate>, c: Candidate)
    requires Ordered(cs)
    ensures Ordered(Insert(cs, c)) && multiset(Insert(cs, c)) == multiset(cs) + multiset{c}
  {
    hide Ordered;
    if cs != [] && !Precedes(cs[|cs| - 1], c) {
      var n := |cs| - 1;
      OrderedPart(cs, n);
      InsertOrdered(cs[..n], c);
      assert cs == cs[..n] + [cs[n]];
      var after := Insert(cs[..n], c);
      forall k | 0 <= k < |after| ensures Precedes(after[k], cs[n]) {
        assert after[k] in multiset(after);
        assert after[k] in cs[..n] || after[k] == c;
      }
      OrderedMore(after, cs[n]);
    } else {
      InOrderLast(cs, c);
      OrderedMore(cs, c);
    }
  }

  lemma OrderedPart(cs: seq<Candidate>, n: nat)
    requires Ordered(cs) && n < |cs|
    ensures Ordered(cs[..n]) && forall c | c in cs[..n] :: Precedes(c, cs[n])
  {
  }

  lemma OrderedMore(cs: seq<Candidate>, c: Candidate)
    requires Ordered(cs) && forall k | 0 <= k < |cs| :: Precedes(cs[k], c)
    ensures Ordered(cs + [c])
  {
  }

  lemma InOrderLast(cs: seq<Candidate>, c: Candidate)
    requires Ordered(cs) && (cs == [] || Precedes(cs[|cs| - 1], c))
    ensures forall k | 0 <= k < |cs| :: Precedes(cs[k], c)
  {
  }

  /** Sorting loses and adds nothing. */
  lemma SortOrders(cs: seq<Candidate>)
    ensures Ordered(Sort(cs)) && multiset(Sort(cs)) == multiset(cs)
    ensures forall c :: c in Sort(cs) <==> c in cs
  {
    hide Ordered, Sort;
    Sorts(cs);
    SameMembers(Sort(cs), cs);
  }

  lemma {:induction false} Sorts(cs: seq<Candidate>)
    ensures Ordered(Sort(cs)) && multiset(Sort(cs)) == multiset(cs)
  {
    hide Ordered, Insert;
    if cs == [] {
      NoneOrdered();
    } else {
      var n := |cs| - 1;
      Sorts(cs[..n]);
      InsertOrdered(Sort(cs[..n]), cs[n]);
      assert cs == cs[..n] + [cs[n]];
    }
  }

  lemma NoneOrdered()
    ensures Ordered([])
  {
  }

  lemma SameMembers(a: seq<Candidate>, b: seq<Candidate>)
    requires multiset(a) == multiset(b)
    ensures forall c :: c in a <==> c in b
  {
    forall c ensures c in a <==> c in b {
      assert c in multiset(a) <==> c in multiset(b);
    }
  }

  predicate Tie(a: Candidate, b: Candidate) {
    Precedes(a, b) && Precedes(b, a)
  }

  /** The candidates that tie with c, as they come. */
  function Tied(cs: seq<Candidate>, c: Candidate): seq<Candidate> {
    if cs == [] then []
    else Tied(cs[..|cs| - 1], c) + if Tie(cs[|cs| - 1], c) then [cs[|cs| - 1]] else []
  }

  lemma TiedMore(cs: seq<Candidate>, x: Candidate, c: Candidate)
    ensures Tied(cs + [x], c) == Tied(cs, c) + if Tie(x, c) then [x] else []
  {
    assert (cs + [x])[..|cs|] == cs;
  }

  lemma {:induction false} InsertTied(cs: seq<Candidate>, x: Candidate, c: Candidate)
    ensures Tied(Insert(cs, x), c) == Tied(cs, c) + if Tie(x, c) then [x] else []
  {
    hide Tied;
    if cs == [] || Precedes(cs[|cs| - 1], x) {
      TiedMore(cs, x, c);
    } else {
      var n := |cs| - 1;
      InsertTied(cs[..n], x, c);
      TiedMore(Insert(cs[..n], x), cs[n], c);
      assert cs == cs[..n] + [cs[n]];
      TiedMore(cs[..n], cs[n], c);
      assert !(Tie(x, c) && Tie(cs[n], c));
    }
  }

  /** Sorting leaves candidates that tie in the order they came in. */
  lemma {:induction false} SortStable(cs: seq<Candidate>, c: Candidate)
    ensures Tied(Sort(cs), c) == Tied(cs, c)
  {
    if cs != [] {
      var n := |cs| - 1;
      SortStable(cs[..n], c);
      InsertTied(Sort(cs[..n]), cs[n], c);
    }
  }

  lemma {:induction false} FirstTied(cs: seq<Candidate>, c: Candidate, n: nat)
    requires n < |cs| && Tie(cs[n], c) && forall m | 0 <= m < n :: !Tie(cs[m], c)
    ensures Tied(cs, c) != [] && Tied(cs, c)[0] == cs[n]
  {
    if n < |cs| - 1 {
      FirstTied(cs[..|cs| - 1], c, n);
    } else {
      NoneTied(cs[..n], c);
    }
  }

  lemma {:induction false} NoneTied(cs: seq<Candidate>, c: Candidate)
    requires forall m | 0 <= m < |cs| :: !Tie(cs[m], c)
    ensures Tied(cs, c) == []
  {
    if cs != [] {
      NoneTied(cs[..|cs| - 1], c);
    }
  }

  lemma {:induction false} SomeTied(cs: seq<Candidate>, c: Candidate) returns (n: nat)
    requires Tied(cs, c) != []
    ensures n < |cs| && Tie(cs[n], c) && forall m | 0 <= m < n :: !Tie(cs[m], c)
  {
    n := 0;
    if forall m | 0 <= m < |cs| :: !Tie(cs[m], c) {
      NoneTied(cs, c);
    }
    while !Tie(cs[n], c)
      invariant n < |cs| && (forall m | 0 <= m < n :: !Tie(cs[m], c)) && exists m :: n <= m < |cs| && Tie(cs[m], c)
      decreases |cs| - n
    {
      n := n + 1;
    }
  }

  // ---------------------------------------------------------------- what the merged spans are

  /** A character some candidate hides. */
  ghost predicate Hides(cs: seq<Candidate>, i: int) {
    exists c | c in cs :: c.start <= i < c.end
  }

  /** A place between two characters of one candidate. */
  ghost predicate Crosses(cs: seq<Candidate>, p: int) {
    exists c | c in cs :: c.start < p < c.end
  }

  ghost predicate Inside(spans: seq<Span>, i: int) {
    exists k | 0 <= k < |spans| :: spans[k].start <= i < spans[k].end
  }

  ghost predicate Interior(spans: seq<Span>, p: int) {
    exists k | 0 <= k < |spans| :: spans[k].start < p < spans[k].end
  }

  ghost predicate Disjoint(spans: seq<Span>) {
    && (forall k | 0 <= k < |spans| :: spans[k].start < spans[k].end)
    && (forall j, k | 0 <= j < k < |spans| :: spans[j].end <= spans[k].start)
  }

  /** The connected components of strict overlap: sorted and disjoint, hiding exactly what the candidates hide, and
      joined exactly where some candidate joins. */
  ghost predicate Components(spans: seq<Span>, cs: seq<Candidate>) {
    && Disjoint(spans)
    && (forall i :: Inside(spans, i) <==> Hides(cs, i))
    && (forall p :: Interior(spans, p) <==> Crosses(cs, p))
  }

  /** The candidate that gives a span its name: the first in the sort order of those that start where it does, and of
      those that tie with it the one listed first. */
  ghost predicate Leads(cs: seq<Candidate>, n: nat, s: Span) {
    && n < |cs| && cs[n].start == s.start && cs[n].tag == s.tag && cs[n].source == s.source && cs[n].score == s.score
    && forall m | 0 <= m < |cs| && cs[m].start == s.start ::
         Precedes(cs[n], cs[m]) && (Precedes(cs[m], cs[n]) ==> n <= m)
  }

  ghost predicate Named(s: Span, cs: seq<Candidate>) {
    exists n :: Leads(cs, n, s)
  }

  /** What it takes to give a span its name: to start where it does; among those, to end last; then to come from the
      source ranked highest; then to be the surest; then to be listed first. */
  lemma NamedBy(cs: seq<Candidate>, n: nat, s: Span)
    requires n < |cs|
    ensures Leads(cs, n, s) <==>
              && cs[n].start == s.start && cs[n].tag == s.tag && cs[n].source == s.source && cs[n].score == s.score
              && (forall m | 0 <= m < |cs| && cs[m].start == s.start :: cs[m].end <= cs[n].end)
              && (forall m | 0 <= m < |cs| && cs[m].start == s.start && cs[m].end == cs[n].end ::
                    cs[n].priority <= cs[m].priority)
              && (forall m | 0 <= m < |cs| && cs[m].start == s.start && cs[m].end == cs[n].end
                             && cs[m].priority == cs[n].priority :: cs[m].score <= cs[n].score)
              && (forall m | 0 <= m < |cs| && cs[m].start == s.start && cs[m].end == cs[n].end
                             && cs[m].priority == cs[n].priority && cs[m].score == cs[n].score :: n <= m)
  {
  }

  ghost predicate Proper(cs: seq<Candidate>) {
    forall c | c in cs :: c.start < c.end
  }

  // ---------------------------------------------------------------- the merge

  lemma Joins(spans: seq<Span>, cs: seq<Candidate>, c: Candidate)
    requires Components(spans, cs) && spans != [] && c.start < c.end
    requires spans[|spans| - 1].start <= c.start < spans[|spans| - 1].end
    ensures var last := spans[|spans| - 1];
            Components(spans[|spans| - 1 := last.(end := if c.end > last.end then c.end else last.end)], cs + [c])
  {
    var n := |spans| - 1;
    var last := spans[n];
    var after := spans[n := last.(end := if c.end > last.end then c.end else last.end)];
    forall i ensures Inside(after, i) <==> Inside(spans, i) || c.start <= i < c.end {
      InsideLast(spans, after, i);
    }
    forall p ensures Interior(after, p) <==> Interior(spans, p) || c.start < p < c.end {
      InteriorLast(spans, after, p);
    }
    HidesMore(cs, c);
  }

  lemma InsideLast(spans: seq<Span>, after: seq<Span>, i: int)
    requires spans != [] && |after| == |spans| && after[..|spans| - 1] == spans[..|spans| - 1]
    ensures var n := |spans| - 1;
            && (Inside(spans, i) <==> Inside(spans[..n], i) || spans[n].start <= i < spans[n].end)
            && (Inside(after, i) <==> Inside(spans[..n], i) || after[n].start <= i < after[n].end)
  {
    InsideSplit(spans, i);
    InsideSplit(after, i);
  }

  lemma InsideSplit(spans: seq<Span>, i: int)
    requires spans != []
    ensures var n := |spans| - 1;
            Inside(spans, i) <==> Inside(spans[..n], i) || spans[n].start <= i < spans[n].end
  {
    var n := |spans| - 1;
    if Inside(spans[..n], i) {
      var k :| 0 <= k < n && spans[..n][k].start <= i < spans[..n][k].end;
      assert spans[k].start <= i < spans[k].end;
    }
    if Inside(spans, i) && !(spans[n].start <= i < spans[n].end) {
      var k :| 0 <= k < |spans| && spans[k].start <= i < spans[k].end;
      assert spans[..n][k].start <= i < spans[..n][k].end;
    }
  }

  lemma InteriorLast(spans: seq<Span>, after: seq<Span>, p: int)
    requires spans != [] && |after| == |spans| && after[..|spans| - 1] == spans[..|spans| - 1]
    ensures var n := |spans| - 1;
            && (Interior(spans, p) <==> Interior(spans[..n], p) || spans[n].start < p < spans[n].end)
            && (Interior(after, p) <==> Interior(spans[..n], p) || after[n].start < p < after[n].end)
  {
    InteriorSplit(spans, p);
    InteriorSplit(after, p);
  }

  lemma InteriorSplit(spans: seq<Span>, p: int)
    requires spans != []
    ensures var n := |spans| - 1;
            Interior(spans, p) <==> Interior(spans[..n], p) || spans[n].start < p < spans[n].end
  {
    var n := |spans| - 1;
    if Interior(spans[..n], p) {
      var k :| 0 <= k < n && spans[..n][k].start < p < spans[..n][k].end;
      assert spans[k].start < p < spans[k].end;
    }
    if Interior(spans, p) && !(spans[n].start < p < spans[n].end) {
      var k :| 0 <= k < |spans| && spans[k].start < p < spans[k].end;
      assert spans[..n][k].start < p < spans[..n][k].end;
    }
  }

  lemma HidesMore(cs: seq<Candidate>, c: Candidate)
    ensures forall i :: Hides(cs + [c], i) <==> Hides(cs, i) || c.start <= i < c.end
    ensures forall p :: Crosses(cs + [c], p) <==> Crosses(cs, p) || c.start < p < c.end
  {
    assert forall d :: d in cs + [c] <==> d in cs || d == c;
  }

  lemma StartsAnew(spans: seq<Span>, cs: seq<Candidate>, c: Candidate, s: Span)
    requires Components(spans, cs) && c.start < c.end && s.start == c.start && s.end == c.end
    requires spans != [] ==> spans[|spans| - 1].end <= c.start
    ensures Components(spans + [s], cs + [c])
  {
    var after := spans + [s];
    assert after[..|spans|] == spans;
    forall i ensures Inside(after, i) <==> Inside(spans, i) || c.start <= i < c.end {
      InsideSplit(after, i);
    }
    forall p ensures Interior(after, p) <==> Interior(spans, p) || c.start < p < c.end {
      InteriorSplit(after, p);
    }
    HidesMore(cs, c);
    forall j, k | 0 <= j < k < |after| ensures after[j].end <= after[k].start {
      if k == |spans| {
        assert j == k - 1 || spans[j].end <= spans[k - 1].start;
      }
    }
  }

  /** The names given so far hold among all the candidates, since they come in order. */
  ghost predicate AllNamed(spans: seq<Span>, cs: seq<Candidate>) {
    forall k | 0 <= k < |spans| :: Named(spans[k], cs)
  }

  lemma NamesMore(spans: seq<Span>, cs: seq<Candidate>, c: Candidate)
    requires AllNamed(spans, cs) && forall d | d in cs :: Precedes(d, c)
    ensures AllNamed(spans, cs + [c])
  {
    forall k | 0 <= k < |spans| ensures Named(spans[k], cs + [c]) {
      assert Named(spans[k], cs);
      var n: nat :| Leads(cs, n, spans[k]);
      assert cs[n] in cs && Precedes(cs[n], c);
      assert Leads(cs + [c], n, spans[k]);
    }
  }

  /** A candidate that starts a new span is the first of its start. */
  lemma FirstOfStart(spans: seq<Span>, cs: seq<Candidate>, c: Candidate)
    requires Components(spans, cs) && Proper(cs) && (spans != [] ==> spans[|spans| - 1].end <= c.start)
    ensures forall d | d in cs :: d.start != c.start
  {
    forall d | d in cs ensures d.start != c.start {
      assert Hides(cs, d.start);
      var k :| 0 <= k < |spans| && spans[k].start <= d.start < spans[k].end;
      assert k == |spans| - 1 || spans[k].end <= spans[|spans| - 1].start;
    }
  }

  /** The candidates' connected components: a span grows by every candidate that overlaps it. */
  method Merge(candidates: seq<Candidate>) returns (spans: seq<Span>)
    requires Proper(candidates)
    ensures Components(spans, candidates) && AllNamed(spans, candidates)
  {
    hide Components, AllNamed, Proper, Ordered;
    var sorted := Sort(candidates);
    SortOrders(candidates);
    spans := [];
    NoComponents();
    for n := 0 to |sorted|
      invariant Components(spans, sorted[..n]) && AllNamed(spans, sorted[..n])
      invariant spans != [] ==> n > 0 && spans[|spans| - 1].start <= sorted[n - 1].start
    {
      var c := sorted[n];
      assert sorted[..n + 1] == sorted[..n] + [c];
      InOrder(candidates, sorted, n);
      if spans != [] && c.start < spans[|spans| - 1].end {
        var last := spans[|spans| - 1];
        Joins(spans, sorted[..n], c);
        NamesMore(spans, sorted[..n], c);
        SameNames(spans, last.(end := if c.end > last.end then c.end else last.end), sorted[..n + 1]);
        spans := spans[|spans| - 1 := last.(end := if c.end > last.end then c.end else last.end)];
      } else {
        var s := Span(c.start, c.end, c.tag, c.source, c.score);
        StartsAnew(spans, sorted[..n], c, s);
        NamesMore(spans, sorted[..n], c);
        NamedAnew(spans, sorted[..n], c, s);
        spans := spans + [s];
      }
    }
    assert sorted[..|sorted|] == sorted;
    SameCandidates(spans, candidates);
  }

  lemma NoComponents()
    ensures Components([], []) && AllNamed([], [])
  {
  }

  lemma InOrder(candidates: seq<Candidate>, sorted: seq<Candidate>, n: nat)
    requires Ordered(sorted) && (forall c :: c in sorted <==> c in candidates) && Proper(candidates) && n < |sorted|
    ensures (forall d | d in sorted[..n] :: Precedes(d, sorted[n])) && Proper(sorted[..n])
    ensures sorted[n].start < sorted[n].end && (n > 0 ==> sorted[n - 1].start <= sorted[n].start)
  {
    forall d | d in sorted[..n] ensures Precedes(d, sorted[n]) && d in sorted {
      var k :| 0 <= k < n && sorted[..n][k] == d;
      assert sorted[k] == d;
    }
  }

  lemma SameNames(spans: seq<Span>, s: Span, cs: seq<Candidate>)
    requires AllNamed(spans, cs) && spans != [] && s == spans[|spans| - 1].(end := s.end)
    ensures AllNamed(spans[|spans| - 1 := s], cs)
  {
    var n := |spans| - 1;
    assert Named(spans[n], cs);
    var b: nat :| Leads(cs, b, spans[n]);
    assert Leads(cs, b, s);
  }

  lemma NamedAnew(spans: seq<Span>, cs: seq<Candidate>, c: Candidate, s: Span)
    requires Components(spans, cs) && Proper(cs) && (spans != [] ==> spans[|spans| - 1].end <= c.start)
    requires AllNamed(spans, cs + [c]) && s == Span(c.start, c.end, c.tag, c.source, c.score)
    ensures AllNamed(spans + [s], cs + [c])
  {
    FirstOfStart(spans, cs, c);
    forall m | 0 <= m < |cs| ensures (cs + [c])[m].start != c.start {
      assert cs[m] in cs;
    }
    assert Precedes(c, c);
    assert Leads(cs + [c], |cs|, s);
  }

  lemma SameCandidates(spans: seq<Span>, candidates: seq<Candidate>)
    requires Components(spans, Sort(candidates)) && AllNamed(spans, Sort(candidates))
    ensures Components(spans, candidates) && AllNamed(spans, candidates)
  {
    SortOrders(candidates);
    var sorted := Sort(candidates);
    assert forall i :: Hides(sorted, i) <==> Hides(candidates, i);
    assert forall p :: Crosses(sorted, p) <==> Crosses(candidates, p);
    forall k | 0 <= k < |spans| ensures Named(spans[k], candidates) {
      assert Named(spans[k], sorted);
      NamedUnsorted(spans[k], candidates);
    }
  }

  /** The name by the sorted list is the name by the list as given. */
  lemma NamedUnsorted(s: Span, candidates: seq<Candidate>)
    requires Named(s, Sort(candidates))
    ensures Named(s, candidates)
  {
    hide Tied;
    var sorted := Sort(candidates);
    var n: nat :| Leads(sorted, n, s);
    var c := sorted[n];
    SortOrders(candidates);
    SortStable(candidates, c);
    FirstTied(sorted, c, n);
    var at := SomeTied(candidates, c);
    FirstTied(candidates, c, at);
    forall m | 0 <= m < |candidates| && candidates[m].start == s.start
      ensures Precedes(c, candidates[m]) && (Precedes(candidates[m], c) ==> at <= m)
    {
      assert candidates[m] in sorted;
    }
    assert Leads(candidates, at, s);
  }

  // ---------------------------------------------------------------- the boundaries do not depend on the order

  ghost predicate SameBounds(a: seq<Span>, b: seq<Span>, k: nat) {
    k <= |a| && k <= |b| && forall i | 0 <= i < k :: a[i].start == b[i].start && a[i].end == b[i].end
  }

  lemma Apart(spans: seq<Span>, j: nat, k: nat)
    requires Disjoint(spans)
    ensures j < k < |spans| ==> spans[j].end <= spans[k].start
  {
  }

  /** A span's own boundaries are inside no span. */
  lemma BoundsOutside(spans: seq<Span>, k: nat)
    requires Disjoint(spans) && k < |spans|
    ensures !Interior(spans, spans[k].start) && !Interior(spans, spans[k].end)
  {
    forall j: nat | j < |spans|
      ensures !(spans[j].start < spans[k].start < spans[j].end) && !(spans[j].start < spans[k].end < spans[j].end)
    {
      Apart(spans, j, k);
      Apart(spans, k, j);
    }
  }

  /** A span starts where something is hidden and nothing joins. */
  lemma Starts(spans: seq<Span>, cs: seq<Candidate>, k: nat)
    requires Components(spans, cs) && k < |spans|
    ensures Hides(cs, spans[k].start) && !Crosses(cs, spans[k].start)
  {
    var s := spans[k].start;
    assert spans[k].start <= s < spans[k].end;
    assert Inside(spans, s);
    BoundsOutside(spans, k);
  }

  lemma StartIn(spans: seq<Span>, cs: seq<Candidate>, s: int) returns (k: nat)
    requires Components(spans, cs) && Hides(cs, s) && !Crosses(cs, s)
    ensures k < |spans| && spans[k].start == s
  {
    assert Inside(spans, s);
    k :| 0 <= k < |spans| && spans[k].start <= s < spans[k].end;
    assert !Interior(spans, s);
  }

  lemma SameStart(a: seq<Span>, b: seq<Span>, cs: seq<Candidate>, k: nat)
    requires Components(a, cs) && Components(b, cs) && SameBounds(a, b, k) && k < |a|
    ensures k < |b| && b[k].start <= a[k].start
  {
    Starts(a, cs, k);
    var j := StartIn(b, cs, a[k].start);
    Apart(a, j, k);
    Apart(b, k, j);
  }

  lemma EndNoLater(a: seq<Span>, b: seq<Span>, cs: seq<Candidate>, k: nat)
    requires Components(a, cs) && Components(b, cs) && k < |a| && k < |b| && a[k].start == b[k].start
    ensures b[k].end <= a[k].end
  {
    BoundsOutside(a, k);
    assert !Interior(b, a[k].end);
    assert !(b[k].start < a[k].end < b[k].end);
  }

  /** The components of given candidates have one set of boundaries only. */
  lemma {:induction false} OneBounds(a: seq<Span>, b: seq<Span>, cs: seq<Candidate>, k: nat)
    requires Components(a, cs) && Components(b, cs) && k <= |a|
    ensures SameBounds(a, b, k)
  {
    if k > 0 {
      OneBounds(a, b, cs, k - 1);
      SameStart(a, b, cs, k - 1);
      assert SameBounds(b, a, k - 1);
      SameStart(b, a, cs, k - 1);
      EndNoLater(a, b, cs, k - 1);
      EndNoLater(b, a, cs, k - 1);
    }
  }

  /** In whatever order the same candidates come, the spans cover the same places. */
  lemma OrderIrrelevant(a: seq<Span>, b: seq<Span>, cs: seq<Candidate>, ds: seq<Candidate>)
    requires Components(a, cs) && Components(b, ds) && forall c :: c in cs <==> c in ds
    ensures |a| == |b| && SameBounds(a, b, |a|)
  {
    assert forall i :: Hides(cs, i) <==> Hides(ds, i);
    assert forall p :: Crosses(cs, p) <==> Crosses(ds, p);
    OneBounds(a, b, cs, |a|);
    OneBounds(b, a, cs, |b|);
  }

  // ---------------------------------------------------------------- the masked text

  /** Sorted, disjoint spans inside a text of that length. */
  predicate Fit(spans: seq<Span>, cursor: nat, length: nat) {
    if spans == [] then cursor <= length
    else cursor <= spans[0].start < spans[0].end && Fit(spans[1..], spans[0].end, length)
  }

  lemma {:induction false} FitCursor(spans: seq<Span>, cursor: nat, length: nat)
    requires Fit(spans, cursor, length)
    ensures cursor <= length && forall k | 0 <= k < |spans| :: cursor <= spans[k].start < spans[k].end <= length
  {
    if spans != [] {
      FitCursor(spans[1..], spans[0].end, length);
    }
  }

  function Mark(tag: string): string {
    "[" + tag + "]"
  }

  /** The text from the cursor on, each span replaced by its label. */
  function Masked(text: string, spans: seq<Span>, cursor: nat): string
    requires Fit(spans, cursor, |text|)
  {
    FitCursor(spans, cursor, |text|);
    if spans == [] then text[cursor..]
    else text[cursor..spans[0].start] + Mark(spans[0].tag) + Masked(text, spans[1..], spans[0].end)
  }

  function Join(pieces: seq<string>): string {
    if pieces == [] then "" else Join(pieces[..|pieces| - 1]) + pieces[|pieces| - 1]
  }

  method Mask(text: string, spans: seq<Span>) returns (masked: string)
    requires Fit(spans, 0, |text|)
    ensures masked == Masked(text, spans, 0)
  {
    var pieces: seq<string>, cursor: nat := [], 0;
    for n := 0 to |spans|
      invariant Fit(spans[n..], cursor, |text|)
      invariant Masked(text, spans, 0) == Join(pieces) + Masked(text, spans[n..], cursor)
    {
      var span := spans[n];
      FitCursor(spans[n..], cursor, |text|);
      assert spans[n..][1..] == spans[n + 1..];
      ghost var before := Join(pieces);
      ghost var first, rest := text[cursor..span.start], Masked(text, spans[n + 1..], span.end);
      JoinMore(pieces, text[cursor..span.start]);
      pieces := pieces + [text[cursor..span.start]];
      JoinMore(pieces, Mark(span.tag));
      pieces := pieces + ["[" + span.tag + "]"];
      Regroup(before, first, Mark(span.tag), rest);
      cursor := span.end;
    }
    FitCursor(spans[|spans|..], cursor, |text|);
    JoinMore(pieces, text[cursor..]);
    return Join(pieces + [text[cursor..]]);
  }

  lemma JoinMore(pieces: seq<string>, piece: string)
    ensures Join(pieces + [piece]) == Join(pieces) + piece
  {
    assert (pieces + [piece])[..|pieces|] == pieces;
  }

  lemma Regroup(a: string, b: string, c: string, d: string)
    ensures a + (b + c + d) == a + b + c + d
  {
  }

  /** What the spans hide. */
  function Hidden(text: string, spans: seq<Span>): seq<string>
    requires forall k | 0 <= k < |spans| :: spans[k].start <= spans[k].end <= |text|
  {
    if spans == [] then [] else [text[spans[0].start..spans[0].end]] + Hidden(text, spans[1..])
  }

  /** The text a masked one came from: what stands between the labels, and the hidden parts in their places. */
  function Restored(masked: string, spans: seq<Span>, hidden: seq<string>, cursor: nat): Option<string> {
    if spans == [] || hidden == [] then Some(masked)
    else if spans[0].start < cursor then None
    else
      var gap := spans[0].start - cursor;
      var skip := gap + |spans[0].tag| + 2;
      if skip > |masked| then None
      else
        var rest := Restored(masked[skip..], spans[1..], hidden[1..], spans[0].end);
        if rest.None? then None else Some(masked[..gap] + hidden[0] + rest.value)
  }

  /** Nothing but the hidden parts is lost: with them back in place the text is as it was. */
  lemma {:induction false} MaskRestores(text: string, spans: seq<Span>, cursor: nat)
    requires Fit(spans, cursor, |text|)
    ensures forall k | 0 <= k < |spans| :: spans[k].start <= spans[k].end <= |text|
    ensures cursor <= |text|
    ensures Restored(Masked(text, spans, cursor), spans, Hidden(text, spans), cursor) == Some(text[cursor..])
  {
    FitCursor(spans, cursor, |text|);
    if spans != [] {
      MaskRestores(text, spans[1..], spans[0].end);
      var gap := spans[0].start - cursor;
      var skip := gap + |spans[0].tag| + 2;
      var masked := Masked(text, spans, cursor);
      assert masked[skip..] == Masked(text, spans[1..], spans[0].end);
      assert masked[..gap] == text[cursor..spans[0].start];
      assert text[cursor..spans[0].start] + text[spans[0].start..spans[0].end] + text[spans[0].end..] == text[cursor..];
    }
  }

  /** Where in the masked text the label of span k begins. */
  function LabelAt(spans: seq<Span>, k: nat, cursor: nat): int
    requires k < |spans|
  {
    if k == 0 then spans[0].start - cursor
    else spans[0].start - cursor + |spans[0].tag| + 2 + LabelAt(spans[1..], k - 1, spans[0].end)
  }

  /** In place of every span stands its label in brackets. */
  lemma {:induction false} MaskShows(text: string, spans: seq<Span>, k: nat, cursor: nat)
    requires Fit(spans, cursor, |text|) && k < |spans|
    ensures Shows(Masked(text, spans, cursor), LabelAt(spans, k, cursor), ['['] + spans[k].tag + [']'])
  {
    hide Masked, Mark, Fit, Shows;
    FitCursor(spans, cursor, |text|);
    FirstMasked(text, spans, cursor);
    var gap := text[cursor..spans[0].start];
    var rest := Masked(text, spans[1..], spans[0].end);
    if k == 0 {
      Middle(gap, spans[0].tag, rest);
    } else {
      MaskShows(text, spans[1..], k - 1, spans[0].end);
      MarkLength(spans[0].tag);
      Behind(gap + Mark(spans[0].tag), rest, LabelAt(spans[1..], k - 1, spans[0].end), ['['] + spans[k].tag + [']']);
    }
  }

  /** A text shows a part at a place. */
  predicate Shows(text: string, at: int, part: string) {
    0 <= at && at + |part| <= |text| && text[at..at + |part|] == part
  }

  lemma FirstMasked(text: string, spans: seq<Span>, cursor: nat)
    requires Fit(spans, cursor, |text|) && spans != []
    ensures cursor <= spans[0].start < spans[0].end <= |text| && Fit(spans[1..], spans[0].end, |text|)
    ensures Masked(text, spans, cursor) ==
            text[cursor..spans[0].start] + Mark(spans[0].tag) + Masked(text, spans[1..], spans[0].end)
  {
    FitCursor(spans, cursor, |text|);
  }

  lemma MarkLength(tag: string)
    ensures |Mark(tag)| == |tag| + 2
  {
  }

  lemma Middle(a: string, tag: string, c: string)
    ensures Shows(a + Mark(tag) + c, |a|, ['['] + tag + [']'])
  {
    assert Mark(tag) == ['['] + tag + [']'];
  }

  lemma Behind(a: string, b: string, at: int, part: string)
    requires Shows(b, at, part)
    ensures Shows(a + b, |a| + at, part)
  {
    assert (a + b)[|a| + at..|a| + at + |part|] == b[at..at + |part|];
  }

  /** Two texts that agree outside the spans. */
  ghost predicate AgreeOutside(a: string, b: string, spans: seq<Span>) {
    |a| == |b| && forall i | 0 <= i < |a| && !Inside(spans, i) :: a[i] == b[i]
  }

  lemma TailInside(spans: seq<Span>, cursor: nat, length: nat, i: int)
    requires Fit(spans, cursor, length) && spans != []
    ensures Inside(spans, i) <==> spans[0].start <= i < spans[0].end || Inside(spans[1..], i)
    ensures i < spans[0].end ==> !Inside(spans[1..], i)
  {
    FitCursor(spans[1..], spans[0].end, length);
    if Inside(spans[1..], i) {
      var k :| 0 <= k < |spans[1..]| && spans[1..][k].start <= i < spans[1..][k].end;
      assert spans[k + 1].start <= i < spans[k + 1].end;
    }
    if Inside(spans, i) && !(spans[0].start <= i < spans[0].end) {
      var k :| 0 <= k < |spans| && spans[k].start <= i < spans[k].end;
      assert spans[1..][k - 1].start <= i < spans[1..][k - 1].end;
    }
  }

  /** The masked text says nothing about what is inside the spans. */
  lemma {:induction false} MaskHides(a: string, b: string, spans: seq<Span>, cursor: nat)
    requires Fit(spans, cursor, |a|) && |a| == |b|
    requires forall i | cursor <= i < |a| && !Inside(spans, i) :: a[i] == b[i]
    ensures Masked(a, spans, cursor) == Masked(b, spans, cursor)
  {
    FitCursor(spans, cursor, |a|);
    if spans == [] {
      assert forall i :: !Inside(spans, i);
      assert a[cursor..] == b[cursor..];
    } else {
      forall i | cursor <= i < spans[0].start ensures a[i] == b[i] {
        TailInside(spans, cursor, |a|, i);
      }
      assert a[cursor..spans[0].start] == b[cursor..spans[0].start];
      forall i | spans[0].end <= i < |a| && !Inside(spans[1..], i) ensures a[i] == b[i] {
        TailInside(spans, cursor, |a|, i);
      }
      MaskHides(a, b, spans[1..], spans[0].end);
    }
  }

  lemma MaskHidesInside(a: string, b: string, spans: seq<Span>)
    requires Fit(spans, 0, |a|) && AgreeOutside(a, b, spans)
    ensures Masked(a, spans, 0) == Masked(b, spans, 0)
  {
    MaskHides(a, b, spans, 0);
  }

  // ---------------------------------------------------------------- the consumers' checks

  /** What both clients accept of one span, after the end of the one before it. */
  predicate SpanOk(s: Span, cursor: nat, length: nat) {
    cursor <= s.start < s.end <= length && s.tag != "" && s.source != "" && 0.0 <= s.score <= 1.0
  }

  ghost predicate SpansOk(spans: seq<Span>, length: nat) {
    && (forall k | 0 <= k < |spans| :: SpanOk(spans[k], 0, length))
    && (forall j, k | 0 <= j < k < |spans| :: spans[j].end <= spans[k].start)
  }

  /** The clients' check of a redaction's spans against the original text. */
  method CheckSpans(spans: seq<Span>, length: nat) returns (ok: bool)
    ensures ok <==> SpansOk(spans, length)
  {
    var cursor: nat := 0;
    for n := 0 to |spans|
      invariant SpansOk(spans[..n], length) && (n > 0 ==> cursor == spans[n - 1].end) && (n == 0 ==> cursor == 0)
      invariant forall k | 0 <= k < n :: spans[k].end <= cursor
    {
      if !SpanOk(spans[n], cursor, length) {
        Refused(spans, length, n, cursor);
        return false;
      }
      Extended(spans, length, n);
      cursor := spans[n].end;
    }
    assert spans[..|spans|] == spans;
    return true;
  }

  lemma Refused(spans: seq<Span>, length: nat, n: nat, cursor: nat)
    requires n < |spans| && !SpanOk(spans[n], cursor, length) && cursor == if n == 0 then 0 else spans[n - 1].end
    ensures !SpansOk(spans, length)
  {
  }

  lemma Extended(spans: seq<Span>, length: nat, n: nat)
    requires n < |spans| && SpansOk(spans[..n], length) && SpanOk(spans[n], 0, length)
    requires forall k | 0 <= k < n :: spans[k].end <= spans[n].start
    ensures SpansOk(spans[..n + 1], length)
  {
    var more := spans[..n + 1];
    assert forall k | 0 <= k < n :: more[k] == spans[..n][k];
  }

  /** A candidate as the finders give it: inside the text, named, and scored between 0 and 1. */
  predicate CandidateOk(c: Candidate, length: nat) {
    c.start < c.end <= length && c.tag != "" && c.source != "" && 0.0 <= c.score <= 1.0
  }

  lemma SpanAccepted(s: Span, candidates: seq<Candidate>, length: nat)
    requires Named(s, candidates) && s.start < s.end && Hides(candidates, s.end - 1)
    requires forall c | c in candidates :: CandidateOk(c, length)
    ensures SpanOk(s, 0, length)
  {
    var n: nat :| Leads(candidates, n, s);
    assert candidates[n] in candidates;
    var c :| c in candidates && c.start <= s.end - 1 < c.end;
    assert CandidateOk(c, length);
  }

  lemma SpanHides(spans: seq<Span>, candidates: seq<Candidate>, k: nat)
    requires Components(spans, candidates) && k < |spans|
    ensures spans[k].start < spans[k].end && Hides(candidates, spans[k].end - 1)
  {
    var last := spans[k].end - 1;
    assert spans[k].start <= last < spans[k].end;
    assert Inside(spans, last);
  }

  lemma SpansApart(spans: seq<Span>, candidates: seq<Candidate>)
    requires Components(spans, candidates)
    ensures forall j, k | 0 <= j < k < |spans| :: spans[j].end <= spans[k].start
  {
  }

  /** What a redaction returns passes the clients' checks, and its spans can be masked. */
  lemma MergedIsAccepted(spans: seq<Span>, candidates: seq<Candidate>, length: nat)
    requires Components(spans, candidates) && AllNamed(spans, candidates)
    requires forall c | c in candidates :: CandidateOk(c, length)
    ensures SpansOk(spans, length) && Fit(spans, 0, length)
  {
    hide Components, CandidateOk, SpanOk, Named, Hides, Fit;
    forall k | 0 <= k < |spans| ensures SpanOk(spans[k], 0, length) {
      assert Named(spans[k], candidates);
      SpanHides(spans, candidates, k);
      SpanAccepted(spans[k], candidates, length);
    }
    SpansApart(spans, candidates);
    Fits(spans, 0, length);
  }

  lemma {:induction false} Fits(spans: seq<Span>, cursor: nat, length: nat)
    requires SpansOk(spans, length) && cursor <= length && (spans != [] ==> cursor <= spans[0].start)
    ensures Fit(spans, cursor, length)
  {
    if spans != [] {
      Fits(spans[1..], spans[0].end, length);
    }
  }

  /** A masked text is never empty unless the text was. */
  lemma {:induction false} MaskedShows(text: string, spans: seq<Span>, cursor: nat)
    requires Fit(spans, cursor, |text|) && cursor < |text|
    ensures Masked(text, spans, cursor) != ""
  {
    FitCursor(spans, cursor, |text|);
    if spans != [] {
      assert |Masked(text, spans, cursor)| >= |Mark(spans[0].tag)|;
    }
  }

  /** A whole redaction of the candidates found: spans the clients accept, and the text with those spans masked. */
  method Redact(text: string, candidates: seq<Candidate>) returns (masked: string, spans: seq<Span>)
    requires forall c | c in candidates :: CandidateOk(c, |text|)
    ensures Components(spans, candidates) && AllNamed(spans, candidates) && SpansOk(spans, |text|)
    ensures Fit(spans, 0, |text|) && masked == Masked(text, spans, 0) && (text != "" ==> masked != "")
    ensures forall k | 0 <= k < |spans| :: spans[k].start <= spans[k].end <= |text|
    ensures Restored(masked, spans, Hidden(text, spans), 0) == Some(text)
  {
    spans := Merge(candidates);
    MergedIsAccepted(spans, candidates, |text|);
    masked := Mask(text, spans);
    if text != "" {
      MaskedShows(text, spans, 0);
    }
    MaskRestores(text, spans, 0);
    assert text[0..] == text;
  }
}
