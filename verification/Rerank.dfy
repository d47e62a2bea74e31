/** Ranking documents by score, and the checks the consumers make of a ranking. */
module Rerank {
  import opened Wrappers

  datatype Ranking = Ranking(index: nat, score: real)

  /** Higher scores first, then lower indexes. */
  predicate Before(a: Ranking, b: Ranking) {
    a.score > b.score || (a.score == b.score && a.index < b.index)
  }

  ghost predicate Stable(rs: seq<Ranking>) {
    forall j, k | 0 <= j < k < |rs| :: Before(rs[j], rs[k])
  }

  function Insert(rs: seq<Ranking>, r: Ranking): seq<Ranking> {
    if rs == [] || Before(rs[|rs| - 1], r) then rs + [r]
    else Insert(rs[..|rs| - 1], r) + [rs[|rs| - 1]]
  }

  /** Every document with its score, sorted. */
  function RankAll(scores: seq<real>): seq<Ranking> {
    if scores == [] then []
    else Insert(RankAll(scores[..|scores| - 1]), Ranking(|scores| - 1, scores[|scores| - 1]))
  }

  /** The rankings of a result, the best top_k of them. */
  function Rankings(scores: seq<real>, topK: Option<nat>): seq<Ranking> {
    var all := RankAll(scores);
    if topK.Some? && topK.value <= |all| then all[..topK.value] else all
  }

  lemma {:induction false} InsertStable(rs: seq<Ranking>, r: Ranking)
    requires Stable(rs) && forall k | 0 <= k < |rs| :: rs[k].index != r.index
    ensures Stable(Insert(rs, r)) && |Insert(rs, r)| == |rs| + 1
    ensures forall x :: x in Insert(rs, r) <==> x in rs || x == r
  {
    hide Stable;
    if rs != [] && !Before(rs[|rs| - 1], r) {
      var n := |rs| - 1;
      StablePart(rs, n);
      InsertStable(rs[..n], r);
      assert rs == rs[..n] + [rs[n]];
      var after := Insert(rs[..n], r);
      forall k | 0 <= k < |after| ensures Before(after[k], rs[n]) {
        assert after[k] in after;
      }
      StableMore(after, rs[n]);
    } else {
      StableLast(rs, r);
      StableMore(rs, r);
    }
  }

  lemma StablePart(rs: seq<Ranking>, n: nat)
    requires Stable(rs) && n < |rs|
    ensures Stable(rs[..n]) && forall x | x in rs[..n] :: Before(x, rs[n])
  {
  }

  lemma StableMore(rs: seq<Ranking>, r: Ranking)
    requires Stable(rs) && forall k | 0 <= k < |rs| :: Before(rs[k], r)
    ensures Stable(rs + [r])
  {
  }

  lemma StableLast(rs: seq<Ranking>, r: Ranking)
    requires Stable(rs) && (rs == [] || Before(rs[|rs| - 1], r))
    ensures forall k | 0 <= k < |rs| :: Before(rs[k], r)
  {
  }

  /** The full ranking lists every document once, with its score, in order. */
  lemma {:induction false} RankAllIs(scores: seq<real>)
    ensures |RankAll(scores)| == |scores| && Stable(RankAll(scores))
    ensures forall r :: r in RankAll(scores) <==> r.index < |scores| && r.score == scores[r.index]
  {
    if scores != [] {
      var n := |scores| - 1;
      RankAllIs(scores[..n]);
      forall k | 0 <= k < |RankAll(scores[..n])| ensures RankAll(scores[..n])[k].index != n {
        assert RankAll(scores[..n])[k] in RankAll(scores[..n]);
      }
      InsertStable(RankAll(scores[..n]), Ranking(n, scores[n]));
    }
  }

  // ---------------------------------------------------------------- the consumers' checks

  /** Indexes in range and without repeats, in stable descending order. */
  ghost predicate Acceptable(rs: seq<Ranking>, count: nat) {
    && (forall k | 0 <= k < |rs| :: rs[k].index < count)
    && (forall j, k | 0 <= j < k < |rs| :: rs[j].index != rs[k].index)
    && Stable(rs)
  }

  lemma {:induction false} StableSteps(rs: seq<Ranking>)
    requires forall k | 0 < k < |rs| :: Before(rs[k - 1], rs[k])
    ensures Stable(rs)
  {
    if |rs| > 1 {
      var n := |rs| - 1;
      StableSteps(rs[..n]);
      forall j | 0 <= j < n ensures Before(rs[j], rs[n]) {
        assert j == n - 1 || Before(rs[..n][j], rs[..n][n - 1]);
      }
    }
  }

  /** The pass both checks make over the rankings: each index new and in range, each score no higher than the one
      before, and on equal scores the index no lower. */
  method CheckRankings(rs: seq<Ranking>, count: nat) returns (ok: bool)
    ensures ok <==> Acceptable(rs, count)
  {
    var seen: set<nat> := {};
    var previous: Option<Ranking> := None;
    for n := 0 to |rs|
      invariant forall i :: i in seen <==> exists k | 0 <= k < n :: rs[k].index == i
      invariant forall k | 0 <= k < n :: rs[k].index < count
      invariant forall j, k | 0 <= j < k < n :: rs[j].index != rs[k].index
      invariant forall k | 0 < k < n :: Before(rs[k - 1], rs[k])
      invariant previous == if n == 0 then None else Some(rs[n - 1])
    {
      var item := rs[n];
      if item.index >= count || item.index in seen { return false; }
      seen := seen + {item.index};
      if previous.Some? && (item.score > previous.value.score
                            || (item.score == previous.value.score && item.index < previous.value.index))
      {
        assert !Before(rs[n - 1], rs[n]);
        return false;
      }
      previous := Some(item);
    }
    StableSteps(rs);
    return true;
  }

  /** The PHP client's check, against the number of documents and the top_k that was asked for. */
  method FromJob(rs: seq<Ranking>, documents: int, topK: Option<int>, maxDocuments: nat) returns (ok: bool)
    ensures var expected := if topK.Some? then topK.value else documents;
            ok <==> 1 <= documents <= maxDocuments && 1 <= expected <= documents && |rs| == expected
                    && Acceptable(rs, documents)
  {
    var expected := if topK.Some? then topK.value else documents;
    if documents < 1 || documents > maxDocuments || expected < 1 || expected > documents || |rs| != expected {
      return false;
    }
    ok := CheckRankings(rs, documents);
  }

  /** The MCP tool's check. */
  method FromTool(rs: seq<Ranking>, count: nat, topK: nat) returns (ok: bool)
    ensures ok <==> |rs| == (if topK <= count then topK else count) && Acceptable(rs, count)
  {
    if |rs| != (if topK <= count then topK else count) { return false; }
    ok := CheckRankings(rs, count);
  }

  /** What a rerank returns passes both checks: as many as asked for, and acceptable. A document left out goes behind each
      of them. */
  lemma RankingsAccepted(scores: seq<real>, topK: Option<nat>)
    requires topK.Some? ==> topK.value <= |scores|
    ensures |Rankings(scores, topK)| == if topK.Some? then topK.value else |scores|
    ensures Acceptable(Rankings(scores, topK), |scores|)
    ensures forall r | r in Rankings(scores, topK) :: r.index < |scores| && r.score == scores[r.index]
    ensures forall r, i | r in Rankings(scores, topK) && 0 <= i < |scores| && Ranking(i, scores[i]) !in Rankings(scores, topK) ::
              r.score > scores[i] || (r.score == scores[i] && r.index < i)
  {
    RankAllIs(scores);
    var all := RankAll(scores);
    forall k | 0 <= k < |all| ensures all[k].index < |scores| && all[k].score == scores[all[k].index] {
      assert all[k] in all;
    }
    forall j, k | 0 <= j < k < |all| ensures all[j].index != all[k].index {
      assert Before(all[j], all[k]);
    }
  }

  /** Sorted lists of the same items are equal. */
  lemma {:induction false} SameItems(a: seq<Ranking>, b: seq<Ranking>)
    requires Stable(a) && Stable(b) && forall r :: r in a <==> r in b
    ensures a == b
  {
    if a == [] {
      HeadIn(b);
    } else {
      assert a[0] in b && a[0] in a;
      assert b[0] in a;
      Heads(a, b);
      Rest(a, b);
      SameItems(a[1..], b[1..]);
      assert a == [a[0]] + a[1..] && b == [b[0]] + b[1..];
    }
  }

  lemma HeadIn(rs: seq<Ranking>)
    ensures rs == [] || rs[0] in rs
  {
  }

  lemma Heads(a: seq<Ranking>, b: seq<Ranking>)
    requires Stable(a) && Stable(b) && a != [] && b != [] && a[0] in b && b[0] in a
    ensures a[0] == b[0]
  {
    var j :| 0 <= j < |b| && b[j] == a[0];
    var k :| 0 <= k < |a| && a[k] == b[0];
    assert j == 0 || Before(b[0], b[j]);
    assert k == 0 || Before(a[0], a[k]);
  }

  lemma Rest(a: seq<Ranking>, b: seq<Ranking>)
    requires Stable(a) && Stable(b) && a != [] && b != [] && a[0] == b[0] && forall r :: r in a <==> r in b
    ensures forall r :: r in a[1..] <==> r in b[1..]
  {
    TailIs(a);
    TailIs(b);
  }

  lemma TailIs(a: seq<Ranking>)
    requires Stable(a) && a != []
    ensures forall r :: r in a[1..] <==> r in a && r != a[0]
  {
    forall r ensures r in a[1..] <==> r in a && r != a[0] {
      if r in a[1..] {
        var k :| 0 <= k < |a[1..]| && a[1..][k] == r;
        assert a[k + 1] == r && Before(a[0], a[k + 1]);
      }
      if r in a && r != a[0] {
        var k :| 0 <= k < |a| && a[k] == r;
        assert a[1..][k - 1] == r;
      }
    }
  }

  lemma {:induction false} DistinctFill(rs: seq<Ranking>, count: nat, indexes: set<nat>)
    requires (forall j, k | 0 <= j < k < |rs| :: rs[j].index != rs[k].index)
    requires forall k | 0 <= k < |rs| :: rs[k].index in indexes
    requires |rs| == |indexes|
    ensures forall i | i in indexes :: exists k :: 0 <= k < |rs| && rs[k].index == i
  {
    if rs == [] {
      assert indexes == {};
    } else {
      var n := |rs| - 1;
      DistinctFill(rs[..n], count, indexes - {rs[n].index});
      forall i | i in indexes ensures exists k :: 0 <= k < |rs| && rs[k].index == i {
        if i != rs[n].index {
          assert i in indexes - {rs[n].index};
          var k :| 0 <= k < n && rs[..n][k].index == i;
          assert rs[k].index == i;
        }
      }
    }
  }

  function Below(n: nat): (s: set<nat>)
    ensures |s| == n && forall i: nat :: i in s <==> i < n
  {
    if n == 0 then {} else Below(n - 1) + {n - 1}
  }

  /** With every document asked for, the sorted list is the only one the checks can accept for those scores. */
  lemma OnlyRanking(rs: seq<Ranking>, scores: seq<real>)
    requires Acceptable(rs, |scores|) && |rs| == |scores|
    requires forall k | 0 <= k < |rs| :: rs[k].score == scores[rs[k].index]
    ensures rs == RankAll(scores)
  {
    RankAllIs(scores);
    DistinctFill(rs, |scores|, Below(|scores|));
    forall r ensures r in rs <==> r in RankAll(scores) {
      if r.index < |scores| && r.score == scores[r.index] {
        assert r.index in Below(|scores|);
        var k :| 0 <= k < |rs| && rs[k].index == r.index;
        assert rs[k] == r;
      }
    }
    SameItems(rs, RankAll(scores));
  }

  // ---------------------------------------------------------------- progress messages

  /** How many whole steps a count makes up; a floored division. */
  function Steps(count: int, step: int): int
    requires step > 0
  {
    count / step
  }

  /** At most one message was sent a step, besides those that everything is done; the last count sent is last. */
  ghost predicate Counted(total: nat, step: int, last: int, sent: seq<nat>, asked: seq<nat>)
    requires step > 0
  {
    && (sent == [] <==> last == -step) && (sent != [] ==> last == sent[|sent| - 1] && 0 <= last <= total)
    && (last < total ==> Wholes(asked, total) == 0) && (0 <= last < total ==> |sent| <= Steps(last, step) + 1)
    && |sent| <= 64 + Wholes(asked, total)
  }

  lemma CountedMore(total: nat, step: int, last: int, sent: seq<nat>, asked: seq<nat>, completed: nat)
    requires step > 0 && total <= 64 * step && Counted(total, step, last, sent, asked) && completed <= total
    ensures if completed == total || Steps(completed, step) > Steps(last, step)
            then Counted(total, step, completed, sent + [completed], asked + [completed])
            else Counted(total, step, last, sent, asked + [completed])
  {
    hide Steps, Wholes;
    WholesMore(asked, completed, total);
    Quotients(last, step, total);
    Quotients(completed, step, total);
  }

  lemma WholesMore(asked: seq<nat>, completed: nat, total: nat)
    ensures Wholes(asked + [completed], total) == Wholes(asked, total) + if completed == total then 1 else 0
  {
    assert (asked + [completed])[..|asked|] == asked;
  }

  /** Progress over a known total: a message at most every so many documents, and one whenever all are done. */
  class Reporter {
    const total: nat
    const step: int
    var last: int
    ghost var sent: seq<nat>
    ghost var asked: seq<nat> // the counts reported, sent or not

    ghost predicate Valid()
      reads this
    {
      total > 0 && step > 0 && 64 * (step - 1) < total <= 64 * step && Counted(total, step, last, sent, asked)
    }

    constructor (total: nat)
      requires total > 0
      ensures Valid() && sent == [] && asked == [] && this.total == total
    {
      this.total := total;
      step := (total + 63) / 64;
      last := -((total + 63) / 64);
      sent, asked := [], [];
    }

    /** Called with how many documents are done, in whatever order. */
    method Report(completed: nat) returns (send: bool)
      requires Valid() && completed <= total
      modifies this
      ensures Valid() && sent == (if send then old(sent) + [completed] else old(sent))
      ensures send <==> completed == total || Steps(completed, step) > Steps(old(last), step)
      ensures last == if send then completed else old(last)
      ensures asked == old(asked) + [completed]
    {
      hide Steps, Counted;
      CountedMore(total, step, last, sent, asked, completed);
      send := completed == total || Steps(completed, step) > Steps(last, step);
      if send {
        last := completed;
        sent := sent + [completed];
      }
      asked := asked + [completed];
    }

    /** Counts that rise, as those of a task do, are sent in at most 65 messages. */
    lemma RisingSends()
      requires Valid() && Rising(asked)
      ensures |sent| <= 65
    {
      RisingWholes(asked, total);
    }
  }

  /** How often all were reported done. */
  function Wholes(asked: seq<nat>, total: nat): nat {
    if asked == [] then 0 else Wholes(asked[..|asked| - 1], total) + if asked[|asked| - 1] == total then 1 else 0
  }

  ghost predicate Rising(asked: seq<nat>) {
    forall j, k | 0 <= j < k < |asked| :: asked[j] < asked[k]
  }

  lemma {:induction false} RisingWholes(asked: seq<nat>, total: nat)
    requires Rising(asked)
    ensures Wholes(asked, total) <= 1
    ensures (forall k | 0 <= k < |asked| :: asked[k] < total) ==> Wholes(asked, total) == 0
  {
    if asked != [] {
      RisingWholes(asked[..|asked| - 1], total);
    }
  }

  /** A task's calls, one document after the other: the reporter says so in at most 65 messages, the last of them that all
      are done. */
  method ReportEach(total: nat) returns (r: Reporter)
    requires total > 0
    ensures r.Valid() && |r.asked| == total + 1 && forall k | 0 <= k <= total :: r.asked[k] == k
    ensures 0 < |r.sent| <= 65 && r.sent[|r.sent| - 1] == total
  {
    r := new Reporter(total);
    for n := 0 to total + 1
      invariant fresh(r) && r.Valid() && r.total == total && |r.asked| == n && forall k | 0 <= k < n :: r.asked[k] == k
      invariant n == total + 1 ==> r.sent != [] && r.sent[|r.sent| - 1] == total
    {
      var send := r.Report(n);
    }
    r.RisingSends();
  }

  lemma Quotients(last: int, step: int, total: nat)
    requires step > 0 && total <= 64 * step
    ensures Steps(-step, step) == -1
    ensures 0 <= last < total ==> 0 <= Steps(last, step) <= 63
    ensures 0 <= last <= total ==> Steps(last, step) <= Steps(total, step)
  {
    hide Steps;
    StepsAre(-1, 0, step);
    if 0 <= last <= total {
      StepsAscend(last, total, step);
      StepsAre(0, 0, step);
      StepsAscend(0, last, step);
    }
    if 0 <= last < total {
      StepsAre(63, step - 1, step);
      StepsAscend(last, 63 * step + (step - 1), step);
    }
  }

  lemma StepsAre(q: int, r: int, step: int)
    requires step > 0 && 0 <= r < step
    ensures Steps(q * step + r, step) == q
  {
    var p := Steps(q * step + r, step);
    TimesAscend(q + 1, p, step);
    TimesAscend(p + 1, q, step);
  }

  lemma StepsAscend(a: int, b: int, step: int)
    requires step > 0 && a <= b
    ensures Steps(a, step) <= Steps(b, step)
  {
    var p, q := Steps(a, step), Steps(b, step);
    assert p * step <= a && b < (q + 1) * step;
    TimesAscend(q + 1, p, step);
  }

  lemma TimesAscend(a: int, b: int, step: int)
    requires step > 0
    ensures a <= b ==> a * step <= b * step
  {
  }
}
