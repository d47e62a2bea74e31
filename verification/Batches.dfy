/** Grouping texts for embedding: in order, at most so many and so many encoded bytes a request, in the fewest
    requests. A text is given by its encoded size. */
module Batches {

  const EMBED_BATCH := 32
  const BATCH_BYTES := 200000

  function Sum(sizes: seq<nat>): nat {
    if sizes == [] then 0 else sizes[0] + Sum(sizes[1..])
  }

  /** What one request may hold; a text too large for any limit goes alone. */
  predicate Fits(run: seq<nat>) {
    run != [] && |run| <= EMBED_BATCH && (|run| == 1 || Sum(run) <= BATCH_BYTES)
  }

  function Joined<T>(runs: seq<seq<T>>): seq<T> {
    if runs == [] then [] else runs[0] + Joined(runs[1..])
  }

  /** A division of the texts, in order, into requests. */
  ghost predicate Divides(runs: seq<seq<nat>>, sizes: seq<nat>) {
    Joined(runs) == sizes && forall k | 0 <= k < |runs| :: Fits(runs[k])
  }

  lemma {:induction false} SumSplit(a: seq<nat>, b: seq<nat>)
    ensures Sum(a + b) == Sum(a) + Sum(b)
  {
    if a == [] {
      assert a + b == b;
    } else {
      assert (a + b)[1..] == a[1..] + b;
      SumSplit(a[1..], b);
    }
  }

  /** Part of a request is one too. */
  lemma PartFits(run: seq<nat>, low: nat, high: nat)
    requires Fits(run) && low < high <= |run|
    ensures Fits(run[low..high])
  {
    SumSplit(run[..low], run[low..]);
    SumSplit(run[low..][..high - low], run[low..][high - low..]);
    assert run == run[..low] + run[low..];
    assert run[low..] == run[low..][..high - low] + run[low..][high - low..];
    assert run[low..high] == run[low..][..high - low];
  }

  // ---------------------------------------------------------------- greedy

  /** The longest start of the texts that one request may hold. */
  function Longest(sizes: seq<nat>, from: nat): (length: nat)
    requires 0 < from <= |sizes| && Fits(sizes[..from])
    ensures from <= length <= |sizes| && Fits(sizes[..length])
    ensures length < |sizes| ==> !Fits(sizes[..length + 1])
    decreases |sizes| - from
  {
    if from < |sizes| && Fits(sizes[..from + 1]) then Longest(sizes, from + 1) else from
  }

  function Greedy(sizes: seq<nat>): (runs: seq<seq<nat>>)
    decreases |sizes|
  {
    if sizes == [] then []
    else
      var length := Longest(sizes, 1);
      [sizes[..length]] + Greedy(sizes[length..])
  }

  lemma {:induction false} GreedyDivides(sizes: seq<nat>)
    ensures Divides(Greedy(sizes), sizes)
    decreases |sizes|
  {
    if sizes != [] {
      var length := Longest(sizes, 1);
      GreedyDivides(sizes[length..]);
      assert sizes == sizes[..length] + sizes[length..];
      assert Greedy(sizes)[1..] == Greedy(sizes[length..]);
    }
  }

  lemma PrefixFits(sizes: seq<nat>, low: nat, high: nat)
    ensures 0 < low <= high <= |sizes| && Fits(sizes[..high]) ==> Fits(sizes[..low])
  {
    if 0 < low <= high <= |sizes| && Fits(sizes[..high]) {
      PartFits(sizes[..high], 0, low);
      assert sizes[..high][0..low] == sizes[..low];
    }
  }

  lemma LongestReaches(sizes: seq<nat>, length: nat)
    requires 0 < length <= |sizes| && Fits(sizes[..length]) && Fits(sizes[..1])
    ensures Longest(sizes, 1) >= length
  {
    PrefixFits(sizes, Longest(sizes, 1) + 1, length);
  }

  lemma LongestIs(sizes: seq<nat>, length: nat)
    requires 0 < length <= |sizes| && Fits(sizes[..length]) && (length < |sizes| ==> !Fits(sizes[..length + 1]))
    ensures Fits(sizes[..1]) && Longest(sizes, 1) == length
  {
    PrefixFits(sizes, 1, length);
    LongestReaches(sizes, length);
    PrefixFits(sizes, length + 1, Longest(sizes, 1));
  }

  /** However the texts are divided, taking greedily what is left from any point on never needs more requests. */
  lemma {:induction false} GreedyAhead(runs: seq<seq<nat>>, sizes: seq<nat>, from: nat)
    requires Divides(runs, sizes) && from <= |sizes|
    ensures |Greedy(sizes[from..])| <= |runs|
    decreases |runs|
  {
    if from < |sizes| {
      var first, rest := runs[0], sizes[|runs[0]|..];
      assert sizes == first + Joined(runs[1..]) && rest == Joined(runs[1..]);
      assert forall k | 0 <= k < |runs[1..]| :: runs[1..][k] == runs[k + 1];
      if from >= |first| {
        GreedyAhead(runs[1..], rest, from - |first|);
        assert rest[from - |first|..] == sizes[from..];
      } else {
        var left := sizes[from..];
        PartFits(first, from, |first|);
        assert left[..|first| - from] == first[from..|first|];
        LongestReaches(left, |first| - from);
        var length := Longest(left, 1);
        GreedyAhead(runs[1..], rest, from + length - |first|);
        assert rest[from + length - |first|..] == left[length..];
      }
    }
  }

  /** No other division of the texts uses fewer requests. */
  lemma FewestRequests(runs: seq<seq<nat>>, sizes: seq<nat>)
    requires Divides(runs, sizes)
    ensures |Greedy(sizes)| <= |runs|
  {
    GreedyAhead(runs, sizes, 0);
    assert sizes[0..] == sizes;
  }

  /** A run with no room for the first text of the next one. */
  predicate Roomless(run: seq<nat>, next: seq<nat>) {
    next != [] && (|run| == 32 || Sum(run) + next[0] > 200000)
  }

  predicate Full(runs: seq<seq<nat>>) {
    |runs| <= 1 || (Roomless(runs[0], runs[1]) && Full(runs[1..]))
  }

  /** A division of the texts is the greedy one exactly when no run of it has room for the text after it. */
  lemma {:induction false} OnlyGreedy(runs: seq<seq<nat>>, sizes: seq<nat>)
    requires Divides(runs, sizes)
    ensures runs == Greedy(sizes) <==> Full(runs)
    decreases |runs|
  {
    hide Greedy, Divides, Fits, Sum;
    if runs == [] {
      NoRuns(sizes);
    } else {
      FirstRun(runs, sizes);
      OnlyGreedy(runs[1..], sizes[|runs[0]|..]);
      FirstGreedy(runs, sizes);
    }
  }

  lemma NoRuns(sizes: seq<nat>)
    requires Divides([], sizes)
    ensures Greedy(sizes) == []
  {
  }

  lemma FirstRun(runs: seq<seq<nat>>, sizes: seq<nat>)
    requires Divides(runs, sizes) && runs != []
    ensures 0 < |runs[0]| <= |sizes| && sizes[..|runs[0]|] == runs[0] && Fits(runs[0])
    ensures Divides(runs[1..], sizes[|runs[0]|..])
  {
    assert sizes == runs[0] + Joined(runs[1..]);
    assert forall k | 0 <= k < |runs[1..]| :: runs[1..][k] == runs[k + 1];
  }

  /** The first run is the greedy one exactly when it has no room for the text after it. */
  lemma FirstGreedy(runs: seq<seq<nat>>, sizes: seq<nat>)
    requires Divides(runs, sizes) && runs != [] && 0 < |runs[0]| <= |sizes|
    ensures runs == Greedy(sizes) <==>
            runs[1..] == Greedy(sizes[|runs[0]|..]) && (|runs| <= 1 || Roomless(runs[0], runs[1]))
  {
    hide Greedy, Divides, Roomless, Fits, Sum;
    var n := |runs[0]|;
    FirstRun(runs, sizes);
    RoomFor(runs, sizes);
    assert runs == [runs[0]] + runs[1..];
    if n < |sizes| ==> !Fits(sizes[..n + 1]) {
      GreedyOnce(sizes, n);
    } else {
      GreedyLonger(sizes, n);
    }
  }

  lemma GreedyLonger(sizes: seq<nat>, n: nat)
    requires 0 < n < |sizes| && Fits(sizes[..n + 1])
    ensures Greedy(sizes) != [] && |Greedy(sizes)[0]| > n
  {
    hide Fits;
    PrefixFits(sizes, 1, n + 1);
    LongestReaches(sizes, n + 1);
  }

  lemma RoomFor(runs: seq<seq<nat>>, sizes: seq<nat>)
    requires Divides(runs, sizes) && runs != [] && 0 < |runs[0]| <= |sizes|
    ensures |runs[0]| < |sizes| <==> |runs| > 1
    ensures |runs| > 1 ==> (Fits(sizes[..|runs[0]| + 1]) <==> !Roomless(runs[0], runs[1]))
  {
    hide Sum;
    var first, rest := runs[0], runs[1..];
    assert sizes == first + Joined(rest);
    assert Fits(first);
    if |runs| > 1 {
      assert Joined(rest) == runs[1] + Joined(rest[1..]);
      assert Fits(runs[1]);
      assert sizes[..|first| + 1] == first + [runs[1][0]];
      SumSplit(first, [runs[1][0]]);
      SumOne(runs[1][0]);
    }
  }

  lemma SumOne(size: nat)
    ensures Sum([size]) == size
  {
    assert [size][1..] == [];
  }

  // ---------------------------------------------------------------- the loop

  function SizesOf(sizes: seq<nat>, batch: seq<nat>): (run: seq<nat>)
    requires forall k | 0 <= k < |batch| :: batch[k] < |sizes|
    ensures |run| == |batch| && forall k | 0 <= k < |batch| :: run[k] == sizes[batch[k]]
  {
    if batch == [] then [] else [sizes[batch[0]]] + SizesOf(sizes, batch[1..])
  }

  /** The numbers from low on, up to high. */
  predicate Consecutive(batch: seq<nat>, low: nat, high: nat) {
    |batch| == high - low && forall k | 0 <= k < |batch| :: batch[k] == low + k
  }

  /** The batches so far: those of the greedy division, each listing its texts by number. */
  ghost predicate Lists(batches: seq<seq<nat>>, runs: seq<seq<nat>>, sizes: seq<nat>, done: nat) {
    && |batches| == |runs| && done == |Joined(batches)|
    && (forall b | 0 <= b < |batches| :: forall k | 0 <= k < |batches[b]| :: batches[b][k] < |sizes|)
    && (forall b | 0 <= b < |batches| :: SizesOf(sizes, batches[b]) == runs[b])
    && Consecutive(Joined(batches), 0, done)
  }

  lemma {:induction false} JoinedMore<T>(runs: seq<seq<T>>, run: seq<T>)
    ensures Joined(runs + [run]) == Joined(runs) + run
  {
    if runs == [] {
      assert runs + [run] == [run];
    } else {
      assert (runs + [run])[1..] == runs[1..] + [run];
      JoinedMore(runs[1..], run);
    }
  }

  lemma Yielded(batches: seq<seq<nat>>, runs: seq<seq<nat>>, sizes: seq<nat>, done: nat, batch: seq<nat>)
    requires Lists(batches, runs, sizes, done) && done + |batch| <= |sizes| && Consecutive(batch, done, done + |batch|)
    ensures Lists(batches + [batch], runs + [sizes[done..done + |batch|]], sizes, done + |batch|)
  {
    JoinedMore(batches, batch);
    assert SizesOf(sizes, batch) == sizes[done..done + |batch|];
  }

  /** A batch that is given out is the next run of the greedy division. */
  lemma RunEnds(sizes: seq<nat>, runs: seq<seq<nat>>, done: nat, number: nat)
    requires done < number <= |sizes| && Fits(sizes[done..number])
    requires number < |sizes| ==> !Fits(sizes[done..number + 1])
    requires Greedy(sizes) == runs + Greedy(sizes[done..])
    ensures Greedy(sizes) == runs + [sizes[done..number]] + Greedy(sizes[number..])
  {
    hide *;
    Slices(sizes, done, number);
    var left := sizes[done..];
    GreedyOnce(left, number - done);
    Regroup(runs, left[..number - done], Greedy(left[number - done..]));
  }

  lemma Slices(sizes: seq<nat>, done: nat, number: nat)
    requires done < number <= |sizes|
    ensures var left := sizes[done..];
            && left[..number - done] == sizes[done..number] && left[number - done..] == sizes[number..]
            && (number < |sizes| ==> left[..number - done + 1] == sizes[done..number + 1])
  {
  }

  lemma GreedyOnce(sizes: seq<nat>, length: nat)
    requires 0 < length <= |sizes| && Fits(sizes[..length]) && (length < |sizes| ==> !Fits(sizes[..length + 1]))
    ensures Greedy(sizes) == [sizes[..length]] + Greedy(sizes[length..])
  {
    LongestIs(sizes, length);
  }

  lemma Regroup<T>(a: seq<T>, b: T, c: seq<T>)
    ensures a + ([b] + c) == a + [b] + c
  {
  }

  /** One more text in the batch. */
  lemma OneMore(sizes: seq<nat>, done: nat, number: nat)
    requires done <= number < |sizes|
    ensures Sum(sizes[done..number + 1]) == Sum(sizes[done..number]) + sizes[number]
  {
    SumSplit(sizes[done..number], [sizes[number]]);
    assert sizes[done..number] + [sizes[number]] == sizes[done..number + 1];
  }

  /** The batches of text numbers, one request each. */
  method MakeBatches(sizes: seq<nat>) returns (batches: seq<seq<nat>>)
    ensures Lists(batches, Greedy(sizes), sizes, |sizes|)
  {
    hide Greedy, Lists;
    batches := [];
    var batch: seq<nat>, size := [], 0;
    ghost var runs: seq<seq<nat>>, done: nat := [], 0;
    Nothing(sizes);
    for number := 0 to |sizes|
      invariant done <= number && Lists(batches, runs, sizes, done)
      invariant Consecutive(batch, done, number) && size == Sum(sizes[done..number])
      invariant number > 0 ==> batch != []
      invariant batch != [] ==> Fits(sizes[done..number])
      invariant Greedy(sizes) == runs + Greedy(sizes[done..])
    {
      var encoded := sizes[number];
      OneMore(sizes, done, number);
      if batch != [] && (|batch| == EMBED_BATCH || size + encoded > BATCH_BYTES) {
        RunEnds(sizes, runs, done, number);
        Yielded(batches, runs, sizes, done, batch);
        runs, done := runs + [sizes[done..number]], number;
        batches := batches + [batch];
        batch, size := [], 0;
        OneMore(sizes, number, number);
      }
      batch := batch + [number];
      size := size + encoded;
    }
    if batch != [] {
      RunEnds(sizes, runs, done, |sizes|);
      Yielded(batches, runs, sizes, done, batch);
      batches := batches + [batch];
      runs := runs + [sizes[done..|sizes|]];
    }
    Finished(sizes, runs);
  }

  lemma Nothing(sizes: seq<nat>)
    ensures Lists([], [], sizes, 0) && Greedy(sizes) == [] + Greedy(sizes[0..])
  {
    assert sizes[0..] == sizes;
  }

  lemma Finished(sizes: seq<nat>, runs: seq<seq<nat>>)
    ensures Greedy(sizes) == runs + Greedy(sizes[|sizes|..]) ==> Greedy(sizes) == runs
  {
    assert runs + [] == runs;
  }
}
