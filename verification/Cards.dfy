/** Finding card numbers in a run of digit groups: every whole-group range of the right length that passes the check
    digit, and a selection that walks each list of ranges forward once. */
module Cards {
  import opened Wrappers
  import opened CheckDigits

  const SHORTEST := 13
  const LONGEST := 19

  /** Groups first to last, both included. */
  datatype Range = Range(first: nat, last: nat)

  function Digits(groups: seq<seq<Digit>>, first: nat, last: nat): (digits: seq<Digit>)
    requires first <= last < |groups|
    ensures |digits| >= |groups[last]|
    decreases last
  {
    if first == last then groups[first] else Digits(groups, first, last - 1) + groups[last]
  }

  ghost predicate Grouped(groups: seq<seq<Digit>>) {
    forall k | 0 <= k < |groups| :: groups[k] != []
  }

  function Length(groups: seq<seq<Digit>>, r: Range): nat {
    if r.first <= r.last < |groups| then |Digits(groups, r.first, r.last)| else 0
  }

  /** A range that may be a card number. */
  predicate Card(groups: seq<seq<Digit>>, r: Range) {
    r.first <= r.last < |groups| && 13 <= Length(groups, r) <= 19 && LuhnValid(Digits(groups, r.first, r.last))
  }

  lemma {:induction false} LongerRange(groups: seq<seq<Digit>>, first: nat, last: nat, later: nat)
    requires Grouped(groups) && first <= last < later < |groups|
    ensures |Digits(groups, first, last)| < |Digits(groups, first, later)|
    decreases later
  {
    assert groups[later] != [];
    if last < later - 1 {
      LongerRange(groups, first, last, later - 1);
    }
  }

  // ---------------------------------------------------------------- every range, by length

  /** The ranges tried once every start before at, and that start up to some last group, have been. */
  predicate Tried(r: Range, at: nat, upTo: nat) {
    r.first < at || (r.first == at && r.last < upTo)
  }

  /** Under each length, the cards of that length among the ranges tried, in the order of their start. */
  ghost predicate Sorted(groups: seq<seq<Digit>>, n: nat, list: seq<Range>, at: nat, upTo: nat) {
    && list != []
    && (forall k | 0 <= k < |list| :: Card(groups, list[k]) && Length(groups, list[k]) == n && Tried(list[k], at, upTo))
    && (forall j, k | 0 <= j < k < |list| :: list[j].first < list[k].first)
  }

  ghost predicate Listed(groups: seq<seq<Digit>>, found: map<nat, seq<Range>>, at: nat, upTo: nat) {
    && (forall n | n in found :: Sorted(groups, n, found[n], at, upTo))
    && (forall r: Range | Card(groups, r) && Tried(r, at, upTo) ::
          Length(groups, r) in found && r in found[Length(groups, r)])
  }

  function Found(found: map<nat, seq<Range>>, n: nat): seq<Range> {
    if n in found then found[n] else []
  }

  lemma SortedMore(groups: seq<seq<Digit>>, n: nat, list: seq<Range>, first: nat, last: nat)
    requires Grouped(groups) && first <= last < |groups| && (list == [] || Sorted(groups, n, list, first, last))
    requires Card(groups, Range(first, last)) && Length(groups, Range(first, last)) == n
    ensures Sorted(groups, n, list + [Range(first, last)], first, last + 1)
  {
    forall k | 0 <= k < |list| ensures list[k].first < first {
      if list[k].first == first {
        LongerRange(groups, first, list[k].last, last);
      }
    }
  }

  lemma ListedMore(groups: seq<seq<Digit>>, found: map<nat, seq<Range>>, first: nat, last: nat)
    requires Grouped(groups) && first <= last < |groups| && Listed(groups, found, first, last)
    ensures var r := Range(first, last); var n := Length(groups, r);
            Listed(groups, if Card(groups, r) then found[n := Found(found, n) + [r]] else found, first, last + 1)
  {
    hide Card, Length;
    var r := Range(first, last);
    var n := Length(groups, r);
    if Card(groups, r) {
      SortedMore(groups, n, Found(found, n), first, last);
      var after := found[n := Found(found, n) + [r]];
      forall c: Range | Card(groups, c) && Tried(c, first, last + 1)
        ensures Length(groups, c) in after && c in after[Length(groups, c)]
      {
        if c == r {
          assert after[n][|after[n]| - 1] == r;
        } else {
          assert Tried(c, first, last);
        }
      }
    }
  }

  /** Once a range is too long, so is every longer one of the same start. */
  lemma StartDone(groups: seq<seq<Digit>>, found: map<nat, seq<Range>>, first: nat, last: nat)
    requires Grouped(groups) && first <= last <= |groups| && Listed(groups, found, first, last)
    requires last < |groups| ==> |Digits(groups, first, last)| > LONGEST
    ensures Listed(groups, found, first + 1, first + 1)
  {
    forall c: Range | Card(groups, c) && Tried(c, first + 1, first + 1) ensures Tried(c, first, last) {
      if c.first == first && last < c.last {
        LongerRange(groups, first, last, c.last);
      }
    }
  }

  method CardRanges(groups: seq<seq<Digit>>) returns (found: map<nat, seq<Range>>)
    requires Grouped(groups)
    ensures Listed(groups, found, |groups|, |groups|)
  {
    hide Listed, LuhnValid;
    found := map[];
    NoneListed(groups);
    for first := 0 to |groups|
      invariant Listed(groups, found, first, first)
    {
      var digits: seq<Digit>, last := [], first;
      while last < |groups|
        invariant first <= last <= |groups| && Listed(groups, found, first, last)
        invariant digits == if last == first then [] else Digits(groups, first, last - 1)
      {
        digits := digits + groups[last];
        assert digits == Digits(groups, first, last);
        if |digits| > LONGEST { break; }
        ListedMore(groups, found, first, last);
        if |digits| >= SHORTEST {
          var ok := Luhn(digits);
          if ok {
            found := found[|digits| := Found(found, |digits|) + [Range(first, last)]];
          }
        }
        last := last + 1;
      }
      StartDone(groups, found, first, last);
    }
  }

  lemma NoneListed(groups: seq<seq<Digit>>)
    ensures Listed(groups, map[], 0, 0)
  {
  }

  // ---------------------------------------------------------------- the selection

  /** Among the cards that start at the cursor or after it: one with the most digits, and the leftmost of those. */
  ghost predicate Best(groups: seq<seq<Digit>>, cursor: nat, r: Range) {
    && Card(groups, r) && cursor <= r.first
    && forall c: Range | Card(groups, c) && cursor <= c.first ::
         Length(groups, c) < Length(groups, r) || (Length(groups, c) == Length(groups, r) && r.first <= c.first)
  }

  /** Where the search goes on after the first k picks. */
  function CursorAt(picks: seq<Range>, k: nat): nat
    requires k <= |picks|
  {
    if k == 0 then 0 else picks[k - 1].last + 1
  }

  /** The naive rule: take the best, go on after it, until no card starts there or later. */
  ghost predicate Naive(groups: seq<seq<Digit>>, picks: seq<Range>) {
    && (forall k | 0 <= k < |picks| :: Best(groups, CursorAt(picks, k), picks[k]))
    && (forall c: Range | Card(groups, c) :: c.first < CursorAt(picks, |picks|))
  }

  lemma SameBest(groups: seq<seq<Digit>>, cursor: nat, a: Range, b: Range)
    requires Grouped(groups) && Best(groups, cursor, a) && Best(groups, cursor, b)
    ensures a == b
  {
    if a.last < b.last {
      LongerRange(groups, a.first, a.last, b.last);
    } else if b.last < a.last {
      LongerRange(groups, a.first, b.last, a.last);
    }
  }

  /** The rule leaves no choice. */
  lemma {:induction false} NaiveIsUnique(groups: seq<seq<Digit>>, a: seq<Range>, b: seq<Range>, k: nat)
    requires Grouped(groups) && Naive(groups, a) && Naive(groups, b) && k <= |a|
    ensures k <= |b| && a[..k] == b[..k]
  {
    hide Best, Card;
    if k > 0 {
      NaiveIsUnique(groups, a, b, k - 1);
      SameCursor(a, b, k - 1);
      var cursor := CursorAt(a, k - 1);
      assert Best(groups, cursor, a[k - 1]);
      NoMore(groups, cursor, a[k - 1]);
      if k - 1 < |b| {
        assert Best(groups, CursorAt(b, k - 1), b[k - 1]);
        SameBest(groups, cursor, a[k - 1], b[k - 1]);
        assert a[..k] == a[..k - 1] + [a[k - 1]] && b[..k] == b[..k - 1] + [b[k - 1]];
      }
    }
  }

  lemma SameCursor(a: seq<Range>, b: seq<Range>, k: nat)
    requires k <= |a| && k <= |b| && a[..k] == b[..k]
    ensures CursorAt(a, k) == CursorAt(b, k)
  {
    if k > 0 {
      assert a[k - 1] == a[..k][k - 1] == b[..k][k - 1] == b[k - 1];
    }
  }

  lemma NoMore(groups: seq<seq<Digit>>, cursor: nat, r: Range)
    requires Best(groups, cursor, r)
    ensures Card(groups, r) && !(r.first < cursor)
  {
  }

  /** The picks never overlap and go from left to right. */
  lemma PicksAscend(groups: seq<seq<Digit>>, picks: seq<Range>, k: nat)
    requires Naive(groups, picks) && k + 1 < |picks|
    ensures picks[k].first <= picks[k].last < picks[k + 1].first
  {
    assert Best(groups, CursorAt(picks, k), picks[k]);
    assert Best(groups, CursorAt(picks, k + 1), picks[k + 1]);
  }

  predicate Descending(lengths: seq<nat>) {
    forall j, k | 0 <= j < k < |lengths| :: lengths[j] > lengths[k]
  }

  method LengthsDown(found: map<nat, seq<Range>>) returns (lengths: seq<nat>)
    requires forall n | n in found :: SHORTEST <= n <= LONGEST
    ensures Descending(lengths) && forall n: nat :: n in lengths <==> n in found
  {
    lengths := [];
    var n: nat := LONGEST + 1;
    while n > SHORTEST
      invariant SHORTEST <= n <= LONGEST + 1 && Descending(lengths)
      invariant forall j | 0 <= j < |lengths| :: lengths[j] >= n
      invariant forall m: nat :: m in lengths <==> m in found && m >= n
    {
      n := n - 1;
      if n in found { lengths := lengths + [n]; }
    }
  }

  /** How far each list has been walked: past ranges that start before the cursor only. */
  ghost predicate Walked(ranges: map<nat, seq<Range>>, positions: map<nat, nat>, cursor: nat) {
    && positions.Keys == ranges.Keys
    && forall n | n in ranges ::
         positions[n] <= |ranges[n]| && forall k | 0 <= k < positions[n] :: ranges[n][k].first < cursor
  }

  /** Nothing of the first lengths starts at the cursor or later. */
  ghost predicate Exhausted(ranges: map<nat, seq<Range>>, lengths: seq<nat>, upTo: nat, cursor: nat)
    requires upTo <= |lengths|
  {
    forall j, r | 0 <= j < upTo && lengths[j] in ranges && r in ranges[lengths[j]] :: r.first < cursor
  }

  /** Walk one length's list forward to the cursor. */
  method Walk(ranges: map<nat, seq<Range>>, positions: map<nat, nat>, n: nat, cursor: nat) returns (index: nat)
    requires n in ranges && Walked(ranges, positions, cursor)
    ensures index <= |ranges[n]| && Walked(ranges, positions[n := index], cursor)
    ensures index < |ranges[n]| ==> ranges[n][index].first >= cursor
    ensures forall k | 0 <= k < index :: ranges[n][k].first < cursor
  {
    var candidates := ranges[n];
    index := positions[n];
    while index < |candidates| && candidates[index].first < cursor
      invariant index <= |candidates| && forall k | 0 <= k < index :: candidates[k].first < cursor
    {
      index := index + 1;
    }
  }

  lemma FoundBest(groups: seq<seq<Digit>>, ranges: map<nat, seq<Range>>, lengths: seq<nat>, l: nat, index: nat, cursor: nat)
    requires Listed(groups, ranges, |groups|, |groups|) && Descending(lengths) && l < |lengths|
    requires (forall n: nat :: n in lengths <==> n in ranges) && index < |ranges[lengths[l]]|
    requires Exhausted(ranges, lengths, l, cursor)
    requires ranges[lengths[l]][index].first >= cursor
    requires forall k | 0 <= k < index :: ranges[lengths[l]][k].first < cursor
    ensures Best(groups, cursor, ranges[lengths[l]][index])
  {
    var n := lengths[l];
    var r := ranges[n][index];
    assert Sorted(groups, n, ranges[n], |groups|, |groups|);
    forall c: Range | Card(groups, c) && cursor <= c.first
      ensures Length(groups, c) < n || (Length(groups, c) == n && r.first <= c.first)
    {
      var m := Length(groups, c);
      assert Tried(c, |groups|, |groups|);
      assert m in ranges && c in ranges[m];
      var j :| 0 <= j < |lengths| && lengths[j] == m;
      if m == n {
        var k :| 0 <= k < |ranges[n]| && ranges[n][k] == c;
      }
    }
  }

  lemma NoneLeft(groups: seq<seq<Digit>>, ranges: map<nat, seq<Range>>, lengths: seq<nat>, cursor: nat)
    requires Listed(groups, ranges, |groups|, |groups|) && (forall n: nat :: n in lengths <==> n in ranges)
    requires Exhausted(ranges, lengths, |lengths|, cursor)
    ensures forall c: Range | Card(groups, c) :: c.first < cursor
  {
    forall c: Range | Card(groups, c) ensures c.first < cursor {
      assert Tried(c, |groups|, |groups|);
      var j :| 0 <= j < |lengths| && lengths[j] == Length(groups, c);
    }
  }

  /** The next pick, when there is one, and how far the lists have been walked for it. */
  method NextCard(groups: seq<seq<Digit>>, ranges: map<nat, seq<Range>>, lengths: seq<nat>, positions0: map<nat, nat>,
                  cursor: nat) returns (pick: Option<Range>, positions: map<nat, nat>)
    requires Listed(groups, ranges, |groups|, |groups|) && Descending(lengths)
    requires (forall n: nat :: n in lengths <==> n in ranges) && Walked(ranges, positions0, cursor)
    ensures Walked(ranges, positions, cursor)
    ensures pick.Some? ==> Best(groups, cursor, pick.value)
    ensures pick.None? ==> forall c: Range | Card(groups, c) :: c.first < cursor
  {
    hide Listed, Best, Descending;
    positions := positions0;
    for l := 0 to |lengths|
      invariant Walked(ranges, positions, cursor) && Exhausted(ranges, lengths, l, cursor)
    {
      var n := lengths[l];
      var index := Walk(ranges, positions, n, cursor);
      positions := positions[n := index];
      if index < |ranges[n]| {
        FoundBest(groups, ranges, lengths, l, index, cursor);
        return Some(ranges[n][index]), positions;
      }
    }
    NoneLeft(groups, ranges, lengths, cursor);
    return None, positions;
  }

  /** The cards of a run: what the naive rule picks, with each list of ranges walked forward once. */
  method SelectCards(groups: seq<seq<Digit>>) returns (picks: seq<Range>)
    requires Grouped(groups)
    ensures Naive(groups, picks)
  {
    hide Listed, Best, Card, Sorted, Walked, Descending;
    var ranges := CardRanges(groups);
    LengthsBounded(groups, ranges);
    var lengths := LengthsDown(ranges);
    var positions: map<nat, nat>, cursor := map n | n in ranges :: 0, 0;
    NotWalked(ranges);
    picks := [];
    while cursor < |groups|
      invariant cursor == CursorAt(picks, |picks|) && Walked(ranges, positions, cursor)
      invariant forall k | 0 <= k < |picks| :: Best(groups, CursorAt(picks, k), picks[k])
      decreases |groups| - cursor
    {
      var pick;
      pick, positions := NextCard(groups, ranges, lengths, positions, cursor);
      if pick.None? { return; }
      BestAhead(groups, cursor, pick.value);
      WalkedOn(ranges, positions, cursor, pick.value.last + 1);
      picks := picks + [pick.value];
      cursor := pick.value.last + 1;
    }
    PastEnd(groups, cursor);
  }

  lemma NotWalked(ranges: map<nat, seq<Range>>)
    ensures Walked(ranges, map n | n in ranges :: 0, 0)
  {
  }

  lemma WalkedOn(ranges: map<nat, seq<Range>>, positions: map<nat, nat>, cursor: nat, later: nat)
    requires Walked(ranges, positions, cursor) && cursor <= later
    ensures Walked(ranges, positions, later)
  {
  }

  lemma LengthsBounded(groups: seq<seq<Digit>>, ranges: map<nat, seq<Range>>)
    requires Listed(groups, ranges, |groups|, |groups|)
    ensures forall n | n in ranges :: SHORTEST <= n <= LONGEST
  {
    forall n | n in ranges ensures SHORTEST <= n <= LONGEST {
      assert Card(groups, ranges[n][0]);
    }
  }

  lemma BestAhead(groups: seq<seq<Digit>>, cursor: nat, r: Range)
    requires Best(groups, cursor, r)
    ensures cursor <= r.first <= r.last < |groups|
  {
  }

  lemma PastEnd(groups: seq<seq<Digit>>, cursor: nat)
    requires cursor >= |groups|
    ensures forall c: Range | Card(groups, c) :: c.first < cursor
  {
  }
}
