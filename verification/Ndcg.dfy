/** Ranking quality: no ranking's discounted gain exceeds that of the judgements in order, whatever the discount. */
module Ndcg {

  type Doc(==, !new)

  /** A discount by rank: positive, and never rising. */
  ghost predicate Discount(weight: nat -> real) {
    (forall r: nat :: weight(r) > 0.0) && (forall r: nat :: weight(r + 1) <= weight(r))
  }

  // ---------------------------------------------------------------- discounted gain

  /** The gain of the first n grades, each discounted by its rank. */
  function Gain(grades: seq<real>, weight: nat -> real): real {
    if grades == [] then 0.0
    else Gain(grades[..|grades| - 1], weight) + grades[|grades| - 1] * weight(|grades| - 1)
  }

  function Sum(xs: seq<real>): real {
    if xs == [] then 0.0 else Sum(xs[..|xs| - 1]) + xs[|xs| - 1]
  }

  /** What a document counts: its judged grade, or nothing. */
  function Grade(relevant: map<Doc, real>, doc: Doc): real {
    if doc in relevant then relevant[doc] else 0.0
  }

  function Grades(relevant: map<Doc, real>, ranked: seq<Doc>): (grades: seq<real>)
    ensures |grades| == |ranked| && forall i | 0 <= i < |ranked| :: grades[i] == Grade(relevant, ranked[i])
  {
    if ranked == [] then [] else [Grade(relevant, ranked[0])] + Grades(relevant, ranked[1..])
  }

  function First<T>(xs: seq<T>, k: nat): seq<T> {
    if k <= |xs| then xs[..k] else xs
  }

  // ---------------------------------------------------------------- the ideal order

  /** The grades above zero among judged documents, in the order they are listed. */
  function Positive(relevant: map<Doc, real>, docs: seq<Doc>): seq<real> {
    if docs == [] then []
    else Positive(relevant, docs[..|docs| - 1])
         + (if Grade(relevant, docs[|docs| - 1]) > 0.0 then [Grade(relevant, docs[|docs| - 1])] else [])
  }

  function Insert(xs: seq<real>, x: real): seq<real> {
    if xs == [] || xs[|xs| - 1] >= x then xs + [x] else Insert(xs[..|xs| - 1], x) + [xs[|xs| - 1]]
  }

  function SortDown(xs: seq<real>): seq<real> {
    if xs == [] then [] else Insert(SortDown(xs[..|xs| - 1]), xs[|xs| - 1])
  }

  ghost predicate Descending(xs: seq<real>) {
    forall i, j | 0 <= i < j < |xs| :: xs[i] >= xs[j]
  }

  lemma {:induction false} InsertItems(xs: seq<real>, x: real)
    ensures multiset(Insert(xs, x)) == multiset(xs) + multiset{x}
  {
    if xs != [] && xs[|xs| - 1] < x {
      var n := |xs| - 1;
      InsertItems(xs[..n], x);
      assert xs == xs[..n] + [xs[n]];
    }
  }

  lemma {:induction false} InsertDown(xs: seq<real>, x: real)
    requires Descending(xs)
    ensures Descending(Insert(xs, x)) && forall y | y in Insert(xs, x) :: y in xs || y == x
  {
    if xs != [] && xs[|xs| - 1] < x {
      var n := |xs| - 1;
      InsertDown(xs[..n], x);
      LastOfAll(Insert(xs[..n], x), xs, x);
    }
  }

  lemma LastOfAll(after: seq<real>, xs: seq<real>, x: real)
    requires xs != [] && Descending(xs) && Descending(after) && xs[|xs| - 1] < x
    requires forall y | y in after :: y in xs[..|xs| - 1] || y == x
    ensures Descending(after + [xs[|xs| - 1]])
    ensures forall y | y in after + [xs[|xs| - 1]] :: y in xs || y == x
  {
    forall k | 0 <= k < |after| ensures after[k] >= xs[|xs| - 1] {
      assert after[k] in after;
    }
    assert xs == xs[..|xs| - 1] + [xs[|xs| - 1]];
  }

  lemma {:induction false} SortDownIs(xs: seq<real>)
    ensures Descending(SortDown(xs)) && multiset(SortDown(xs)) == multiset(xs)
  {
    if xs != [] {
      var n := |xs| - 1;
      SortDownIs(xs[..n]);
      InsertDown(SortDown(xs[..n]), xs[n]);
      InsertItems(SortDown(xs[..n]), xs[n]);
      assert xs == xs[..n] + [xs[n]];
    }
  }

  /** The grades of an ideal ranking, cut at k; the judged documents are listed in docs. */
  function Ideal(relevant: map<Doc, real>, docs: seq<Doc>, k: nat): seq<real> {
    First(SortDown(Positive(relevant, docs)), k)
  }

  function Ndcg(ranked: seq<Doc>, relevant: map<Doc, real>, docs: seq<Doc>, k: nat, weight: nat -> real): real {
    var ideal := Gain(Ideal(relevant, docs, k), weight);
    if ideal != 0.0 then Gain(Grades(relevant, First(ranked, k)), weight) / ideal else 0.0
  }

  // ---------------------------------------------------------------- prefix sums decide the gain

  /** The sum of the first t, and of all when there are fewer. */
  function Top(xs: seq<real>, t: nat): real {
    Sum(First(xs, t))
  }

  /** The grade at a rank, nothing past the end. */
  function At(xs: seq<real>, r: nat): real {
    if r < |xs| then xs[r] else 0.0
  }

  /** The gain of the first n ranks, where a list that ends earlier adds nothing. */
  function GainTo(xs: seq<real>, n: nat, weight: nat -> real): real {
    if n == 0 then 0.0 else GainTo(xs, n - 1, weight) + At(xs, n - 1) * weight(n - 1)
  }

  lemma {:induction false} GainToIs(xs: seq<real>, n: nat, weight: nat -> real)
    ensures GainTo(xs, n, weight) == Gain(First(xs, n), weight)
  {
    if n > 0 {
      GainToIs(xs, n - 1, weight);
      if n <= |xs| {
        assert xs[..n][..n - 1] == xs[..n - 1];
      } else {
        assert First(xs, n) == First(xs, n - 1);
      }
    }
  }

  lemma TopNext(xs: seq<real>, t: nat)
    ensures Top(xs, t + 1) == Top(xs, t) + At(xs, t)
  {
    if t < |xs| {
      assert xs[..t + 1][..t] == xs[..t];
    } else {
      assert First(xs, t + 1) == First(xs, t);
    }
  }

  /** One rank more: a surplus so far is worth at least as much at the rank before as at this one. */
  lemma RankMore(surplus: real, gap: real, step: real, low: real, high: real)
    requires gap >= 0.0 && gap + step >= 0.0 && 0.0 < low <= high && surplus >= gap * high
    ensures surplus + step * low >= (gap + step) * low >= 0.0
  {
    Scaled(gap, low, high);
    Expand(gap, step, low);
    Scaled(gap + step, 0.0, low);
  }

  lemma Scaled(gap: real, low: real, high: real)
    requires gap >= 0.0 && low <= high
    ensures gap * low <= gap * high
  {
  }

  lemma Expand(a: real, b: real, w: real)
    ensures (a + b) * w == a * w + b * w && (a - b) * w == a * w - b * w
  {
  }

  /** Summation by parts: where every prefix of one list sums to no more than that of another, its discounted gain is
      no more either, by at least the last discount times what the prefix sums differ by. */
  lemma {:induction false} PrefixesDecide(a: seq<real>, b: seq<real>, n: nat, weight: nat -> real)
    requires Discount(weight) && forall t: nat | t <= n :: Top(a, t) <= Top(b, t)
    ensures n > 0 ==>
              GainTo(b, n, weight) - GainTo(a, n, weight) >= (Top(b, n) - Top(a, n)) * weight(n - 1)
    ensures GainTo(a, n, weight) <= GainTo(b, n, weight)
  {
    hide Top, At;
    if n > 0 {
      var m := n - 1;
      PrefixesDecide(a, b, m, weight);
      TopNext(a, m);
      TopNext(b, m);
      TopNone(a);
      TopNone(b);
      var surplus, gap, step := GainTo(b, m, weight) - GainTo(a, m, weight), Top(b, m) - Top(a, m), At(b, m) - At(a, m);
      assert gap + step == Top(b, n) - Top(a, n);
      Expand(At(b, m), At(a, m), weight(m));
      RankMore(surplus, gap, step, weight(m), if m > 0 then weight(m - 1) else weight(m));
    }
  }

  lemma TopNone(xs: seq<real>)
    ensures Top(xs, 0) == 0.0
  {
  }

  // ---------------------------------------------------------------- no choice beats the largest

  lemma {:induction false} SumSplit(a: seq<real>, b: seq<real>)
    ensures Sum(a + b) == Sum(a) + Sum(b)
  {
    if b == [] {
      assert a + b == a;
    } else {
      var n := |b| - 1;
      assert (a + b)[..|a + b| - 1] == a + b[..n];
      SumSplit(a, b[..n]);
    }
  }

  lemma SumFirst(xs: seq<real>)
    requires xs != []
    ensures Sum(xs) == xs[0] + Sum(xs[1..])
  {
    SumSplit([xs[0]], xs[1..]);
    assert xs == [xs[0]] + xs[1..];
    assert [xs[0]][..0] == [];
  }

  function IndexOf(xs: seq<real>, x: real): (i: nat)
    requires x in xs
    ensures i < |xs| && xs[i] == x
  {
    if xs[0] == x then 0
    else
      assert xs == [xs[0]] + xs[1..];
      1 + IndexOf(xs[1..], x)
  }

  lemma WithoutItem(xs: seq<real>, i: nat)
    requires i < |xs|
    ensures multiset(xs[..i] + xs[i + 1..]) == multiset(xs) - multiset{xs[i]}
  {
    hide *;
    assert xs == xs[..i] + [xs[i]] + xs[i + 1..];
    assert multiset(xs) == multiset(xs[..i]) + multiset{xs[i]} + multiset(xs[i + 1..]);
  }

  lemma WithoutSum(xs: seq<real>, i: nat)
    requires i < |xs|
    ensures Sum(xs[..i] + xs[i + 1..]) == Sum(xs) - xs[i]
  {
    hide *;
    assert xs == xs[..i] + ([xs[i]] + xs[i + 1..]);
    SumSplit(xs[..i], [xs[i]] + xs[i + 1..]);
    SumSplit([xs[i]], xs[i + 1..]);
    SumSplit(xs[..i], xs[i + 1..]);
    SumOne(xs[i]);
  }

  lemma SumOne(x: real)
    ensures Sum([x]) == x
  {
    assert [x][..0] == [];
  }

  lemma TopShift(xs: seq<real>, t: nat)
    requires Descending(xs) && xs != [] && xs[|xs| - 1] >= 0.0
    ensures Top(xs[1..], t) <= Top(xs, t)
  {
    if t < |xs| {
      TopShiftWithin(xs, t);
    } else {
      SumFirst(xs);
      assert First(xs, t) == xs && First(xs[1..], t) == xs[1..];
    }
  }

  lemma {:induction false} TopShiftWithin(xs: seq<real>, t: nat)
    requires Descending(xs) && t < |xs|
    ensures Top(xs[1..], t) <= Top(xs, t)
  {
    if t > 0 {
      TopShiftWithin(xs, t - 1);
      TopNext(xs, t - 1);
      TopNext(xs[1..], t - 1);
    }
  }

  /** Any choice of at most t of some positive numbers sums to no more than the t largest of them. */
  lemma {:induction false} LargestSum(chosen: seq<real>, all: seq<real>, t: nat)
    requires Descending(all) && (forall i | 0 <= i < |all| :: all[i] > 0.0)
    requires multiset(chosen) <= multiset(all) && |chosen| <= t
    ensures Sum(chosen) <= Top(all, t)
    decreases |all|
  {
    hide *;
    if all == [] || t == 0 {
      Nothing(chosen, all, t);
    } else {
      Tail(all);
      if all[0] in chosen {
        var i := IndexOf(chosen, all[0]);
        WithoutSum(chosen, i);
        Rest(chosen, all, i);
        LargestSum(chosen[..i] + chosen[i + 1..], all[1..], t - 1);
        TopFirst(all, t);
      } else {
        Elsewhere(chosen, all);
        LargestSum(chosen, all[1..], t);
        TopShift(all, t);
      }
    }
  }

  /** Both lose the largest. */
  lemma Rest(chosen: seq<real>, all: seq<real>, i: nat)
    requires all != [] && i < |chosen| && chosen[i] == all[0] && multiset(chosen) <= multiset(all)
    ensures multiset(chosen[..i] + chosen[i + 1..]) <= multiset(all[1..])
  {
    hide *;
    WithoutItem(chosen, i);
    assert all == [all[0]] + all[1..];
    assert multiset(all) == multiset{all[0]} + multiset(all[1..]);
  }

  lemma Nothing(chosen: seq<real>, all: seq<real>, t: nat)
    requires multiset(chosen) <= multiset(all) && |chosen| <= t && (all == [] || t == 0)
    ensures Sum(chosen) == 0.0 && Top(all, t) == 0.0
  {
    if all == [] {
      assert |multiset(chosen)| == 0;
    }
    assert chosen == [];
  }

  lemma Tail(all: seq<real>)
    requires Descending(all) && all != []
    ensures Descending(all[1..])
  {
  }

  lemma Elsewhere(chosen: seq<real>, all: seq<real>)
    requires all != [] && multiset(chosen) <= multiset(all) && all[0] !in chosen
    ensures multiset(chosen) <= multiset(all[1..])
  {
    assert all == [all[0]] + all[1..];
    forall x ensures multiset(chosen)[x] <= multiset(all[1..])[x] {
      if x == all[0] {
        assert x !in multiset(chosen);
      }
    }
  }

  lemma TopFirst(xs: seq<real>, t: nat)
    requires xs != [] && t > 0
    ensures Top(xs, t) == xs[0] + Top(xs[1..], t - 1)
  {
    SumFirst(First(xs, t));
    assert First(xs, t)[1..] == First(xs[1..], t - 1);
  }

  // ---------------------------------------------------------------- the grades of a ranking

  ghost predicate Distinct(docs: seq<Doc>) {
    forall i, j | 0 <= i < j < |docs| :: docs[i] != docs[j]
  }

  /** The documents judged, each listed once. */
  ghost predicate Listed(relevant: map<Doc, real>, docs: seq<Doc>) {
    Distinct(docs) && forall doc :: doc in docs <==> doc in relevant
  }

  lemma SumMore(xs: seq<real>, x: real)
    ensures Sum(xs + [x]) == Sum(xs) + x
  {
    assert (xs + [x])[..|xs|] == xs;
  }

  lemma GradesMore(relevant: map<Doc, real>, ranked: seq<Doc>)
    requires ranked != []
    ensures var n := |ranked| - 1;
            Grades(relevant, ranked) == Grades(relevant, ranked[..n]) + [Grade(relevant, ranked[n])]
  {
    hide Grades, Grade;
    var n := |ranked| - 1;
    var more := Grades(relevant, ranked[..n]) + [Grade(relevant, ranked[n])];
    forall i | 0 <= i < |ranked| ensures Grades(relevant, ranked)[i] == more[i] {
      assert i < n ==> ranked[..n][i] == ranked[i];
    }
  }

  lemma {:induction false} PositiveSum(relevant: map<Doc, real>, ranked: seq<Doc>)
    ensures Sum(Grades(relevant, ranked)) <= Sum(Positive(relevant, ranked))
  {
    hide Sum, Grades;
    if ranked == [] {
      SumNone(relevant);
    } else {
      var n := |ranked| - 1;
      PositiveSum(relevant, ranked[..n]);
      GradesMore(relevant, ranked);
      var g, before := Grade(relevant, ranked[n]), Positive(relevant, ranked[..n]);
      SumMore(Grades(relevant, ranked[..n]), g);
      SumMore(before, g);
      assert before + [] == before;
    }
  }

  lemma SumNone(relevant: map<Doc, real>)
    ensures Sum(Grades(relevant, [])) == 0.0 && Sum(Positive(relevant, [])) == 0.0
  {
  }

  lemma {:induction false} PositiveBounds(relevant: map<Doc, real>, ranked: seq<Doc>)
    ensures |Positive(relevant, ranked)| <= |ranked|
    ensures forall i | 0 <= i < |Positive(relevant, ranked)| :: Positive(relevant, ranked)[i] > 0.0
  {
    if ranked != [] {
      PositiveBounds(relevant, ranked[..|ranked| - 1]);
    }
  }

  /** How often a grade occurs among the positive ones. */
  function Judged(relevant: map<Doc, real>, docs: seq<Doc>, g: real): set<Doc> {
    set doc | doc in docs && Grade(relevant, doc) == g
  }

  lemma {:induction false} PositiveCounts(relevant: map<Doc, real>, docs: seq<Doc>, g: real)
    requires Distinct(docs)
    ensures multiset(Positive(relevant, docs))[g] == if g > 0.0 then |Judged(relevant, docs, g)| else 0
  {
    if docs == [] {
      assert Judged(relevant, docs, g) == {};
    } else {
      var n := |docs| - 1;
      PositiveCounts(relevant, docs[..n], g);
      JudgedMore(relevant, docs, g);
      PositiveMore(relevant, docs);
    }
  }

  lemma PositiveMore(relevant: map<Doc, real>, docs: seq<Doc>)
    requires docs != []
    ensures var n := |docs| - 1; var g := Grade(relevant, docs[n]);
            multiset(Positive(relevant, docs)) ==
            multiset(Positive(relevant, docs[..n])) + if g > 0.0 then multiset{g} else multiset{}
  {
  }

  lemma JudgedMore(relevant: map<Doc, real>, docs: seq<Doc>, g: real)
    requires Distinct(docs) && docs != []
    ensures var n := |docs| - 1;
            |Judged(relevant, docs, g)| == |Judged(relevant, docs[..n], g)| + if Grade(relevant, docs[n]) == g then 1 else 0
  {
    var n := |docs| - 1;
    assert docs == docs[..n] + [docs[n]];
    assert docs[n] !in docs[..n];
    assert Judged(relevant, docs, g) ==
           Judged(relevant, docs[..n], g) + if Grade(relevant, docs[n]) == g then {docs[n]} else {};
  }

  lemma FewerDocs(a: set<Doc>, b: set<Doc>)
    requires a <= b
    ensures |a| <= |b|
  {
    assert b == a + (b - a);
  }

  /** The positive grades of a ranking without repeats are among all the positive ones. */
  lemma RankedAmong(relevant: map<Doc, real>, ranked: seq<Doc>, docs: seq<Doc>)
    requires Distinct(ranked) && Listed(relevant, docs)
    ensures multiset(Positive(relevant, ranked)) <= multiset(Positive(relevant, docs))
  {
    forall g ensures multiset(Positive(relevant, ranked))[g] <= multiset(Positive(relevant, docs))[g] {
      PositiveCounts(relevant, ranked, g);
      PositiveCounts(relevant, docs, g);
      if g > 0.0 {
        FewerDocs(Judged(relevant, ranked, g), Judged(relevant, docs, g));
      }
    }
  }

  // ---------------------------------------------------------------- the bound

  lemma TopsBound(ranked: seq<Doc>, relevant: map<Doc, real>, docs: seq<Doc>, t: nat)
    requires Distinct(ranked) && Listed(relevant, docs)
    ensures Top(Grades(relevant, ranked), t) <= Top(SortDown(Positive(relevant, docs)), t)
  {
    hide Top, Sum, SortDown, Positive, Grades;
    var all := SortDown(Positive(relevant, docs));
    var some := First(ranked, t);
    FirstGrades(relevant, ranked, t);
    PositiveSum(relevant, some);
    PositiveBounds(relevant, some);
    PositiveBounds(relevant, docs);
    RankedAmong(relevant, some, docs);
    SortDownIs(Positive(relevant, docs));
    SamePositive(all, Positive(relevant, docs));
    LargestSum(Positive(relevant, some), all, t);
    TopIs(Grades(relevant, ranked), t);
  }

  lemma TopIs(xs: seq<real>, t: nat)
    ensures Top(xs, t) == Sum(First(xs, t))
  {
  }

  lemma FirstGrades(relevant: map<Doc, real>, ranked: seq<Doc>, t: nat)
    ensures First(Grades(relevant, ranked), t) == Grades(relevant, First(ranked, t))
    ensures Distinct(ranked) ==> Distinct(First(ranked, t))
  {
  }

  lemma SamePositive(all: seq<real>, xs: seq<real>)
    requires multiset(all) == multiset(xs) && forall i | 0 <= i < |xs| :: xs[i] > 0.0
    ensures forall i | 0 <= i < |all| :: all[i] > 0.0
  {
    forall i | 0 <= i < |all| ensures all[i] > 0.0 {
      assert all[i] in multiset(all);
      assert all[i] in xs;
    }
  }

  lemma {:induction false} PositiveGain(xs: seq<real>, weight: nat -> real)
    requires Discount(weight) && forall i | 0 <= i < |xs| :: xs[i] >= 0.0
    ensures Gain(xs, weight) >= 0.0
  {
    if xs != [] {
      PositiveGain(xs[..|xs| - 1], weight);
      assert xs[|xs| - 1] * weight(|xs| - 1) >= 0.0;
    }
  }

  lemma IdealPositive(relevant: map<Doc, real>, docs: seq<Doc>, k: nat, weight: nat -> real)
    requires Discount(weight)
    ensures Gain(Ideal(relevant, docs, k), weight) >= 0.0
  {
    var all := SortDown(Positive(relevant, docs));
    PositiveBounds(relevant, docs);
    SortDownIs(Positive(relevant, docs));
    SamePositive(all, Positive(relevant, docs));
    PositiveGain(Ideal(relevant, docs, k), weight);
  }

  /** No ranking without repeats gains more than the judged grades in descending order, cut at the same rank. */
  lemma GainBound(ranked: seq<Doc>, relevant: map<Doc, real>, docs: seq<Doc>, k: nat, weight: nat -> real)
    requires Discount(weight) && Distinct(ranked) && Listed(relevant, docs)
    ensures Gain(Grades(relevant, First(ranked, k)), weight) <= Gain(Ideal(relevant, docs, k), weight)
  {
    var a, b := Grades(relevant, ranked), SortDown(Positive(relevant, docs));
    forall t: nat | t <= k ensures Top(a, t) <= Top(b, t) {
      TopsBound(ranked, relevant, docs, t);
    }
    PrefixesDecide(a, b, k, weight);
    GainToIs(a, k, weight);
    GainToIs(b, k, weight);
    assert First(a, k) == Grades(relevant, First(ranked, k));
  }

  /** NDCG is at most one, whatever the grades, and at least nothing when no grade is negative. */
  lemma NdcgBounds(ranked: seq<Doc>, relevant: map<Doc, real>, docs: seq<Doc>, k: nat, weight: nat -> real)
    requires Discount(weight) && Distinct(ranked) && Listed(relevant, docs)
    ensures Ndcg(ranked, relevant, docs, k, weight) <= 1.0
    ensures (forall doc | doc in relevant :: relevant[doc] >= 0.0) ==> Ndcg(ranked, relevant, docs, k, weight) >= 0.0
  {
    var ideal := Gain(Ideal(relevant, docs, k), weight);
    var gain := Gain(Grades(relevant, First(ranked, k)), weight);
    GainBound(ranked, relevant, docs, k, weight);
    IdealPositive(relevant, docs, k, weight);
    if ideal != 0.0 {
      Ratio(gain, ideal);
    }
    if forall doc | doc in relevant :: relevant[doc] >= 0.0 {
      PositiveGain(Grades(relevant, First(ranked, k)), weight);
    }
  }

  lemma Ratio(gain: real, ideal: real)
    requires ideal > 0.0 && gain <= ideal
    ensures gain / ideal <= 1.0 && (gain >= 0.0 ==> gain / ideal >= 0.0)
  {
  }

  /** A ranking that starts with the best grades in order attains one, when anything is judged above zero. */
  lemma IdealAttains(ranked: seq<Doc>, relevant: map<Doc, real>, docs: seq<Doc>, k: nat, weight: nat -> real)
    requires Grades(relevant, First(ranked, k)) == Ideal(relevant, docs, k)
    requires Gain(Ideal(relevant, docs, k), weight) != 0.0
    ensures Ndcg(ranked, relevant, docs, k, weight) == 1.0
  {
    hide Gain, Grades, Ideal;
  }

  // ---------------------------------------------------------------- the values between

  lemma GainMore(grades: seq<real>, g: real, weight: nat -> real)
    ensures Gain(grades + [g], weight) == Gain(grades, weight) + g * weight(|grades|)
  {
    hide Gain;
    GainLast(grades + [g], weight);
    assert (grades + [g])[..|grades|] == grades;
  }

  lemma GainLast(grades: seq<real>, weight: nat -> real)
    requires grades != []
    ensures Gain(grades, weight) == Gain(grades[..|grades| - 1], weight) + grades[|grades| - 1] * weight(|grades| - 1)
  {
  }

  /** What a ranking gains among its first k. */
  function GainOf(ranked: seq<Doc>, relevant: map<Doc, real>, k: nat, weight: nat -> real): real {
    Gain(Grades(relevant, First(ranked, k)), weight)
  }

  lemma GainNext(ranked: seq<Doc>, doc: Doc, relevant: map<Doc, real>, k: nat, weight: nat -> real)
    ensures GainOf(ranked + [doc], relevant, k, weight) ==
            GainOf(ranked, relevant, k, weight) + if |ranked| < k then Grade(relevant, doc) * weight(|ranked|) else 0.0
  {
    hide Gain, Grades, Grade;
    if |ranked| < k {
      assert First(ranked + [doc], k) == ranked + [doc] && First(ranked, k) == ranked;
      GradesMore(relevant, ranked + [doc]);
      assert (ranked + [doc])[..|ranked|] == ranked;
      GainMore(Grades(relevant, ranked), Grade(relevant, doc), weight);
    } else {
      assert First(ranked + [doc], k) == First(ranked, k);
    }
  }

  lemma NdcgIs(ranked: seq<Doc>, relevant: map<Doc, real>, docs: seq<Doc>, k: nat, weight: nat -> real)
    ensures var ideal := Gain(Ideal(relevant, docs, k), weight);
            Ndcg(ranked, relevant, docs, k, weight) ==
            if ideal != 0.0 then GainOf(ranked, relevant, k, weight) / ideal else 0.0
  {
    hide Gain, Ideal, Grades;
  }

  /** One more document adds its grade, discounted by its rank and as a part of the ideal gain, when its rank is among the
      first k; a ranking of nothing gains nothing. */
  lemma NdcgNext(ranked: seq<Doc>, doc: Doc, relevant: map<Doc, real>, docs: seq<Doc>, k: nat, weight: nat -> real)
    ensures Ndcg([], relevant, docs, k, weight) == 0.0
    ensures var ideal := Gain(Ideal(relevant, docs, k), weight);
            Ndcg(ranked + [doc], relevant, docs, k, weight) ==
            Ndcg(ranked, relevant, docs, k, weight)
            + if |ranked| < k && ideal != 0.0 && doc in relevant then relevant[doc] * weight(|ranked|) / ideal else 0.0
  {
    hide Ideal, Gain, GainOf, Ndcg;
    var ideal := Gain(Ideal(relevant, docs, k), weight);
    NothingGained(relevant, k, weight);
    NdcgIs([], relevant, docs, k, weight);
    NdcgIs(ranked, relevant, docs, k, weight);
    NdcgIs(ranked + [doc], relevant, docs, k, weight);
    GainNext(ranked, doc, relevant, k, weight);
    if |ranked| < k && ideal != 0.0 {
      Parts(GainOf(ranked, relevant, k, weight), Grade(relevant, doc) * weight(|ranked|), ideal);
    }
  }

  lemma NothingGained(relevant: map<Doc, real>, k: nat, weight: nat -> real)
    ensures GainOf([], relevant, k, weight) == 0.0
  {
  }

  lemma Parts(a: real, b: real, whole: real)
    requires whole != 0.0
    ensures (a + b) / whole == a / whole + b / whole
  {
  }

  lemma {:induction false} GainChange(grades: seq<real>, i: nat, g: real, weight: nat -> real)
    requires i < |grades|
    ensures Gain(grades[i := g], weight) == Gain(grades, weight) + (g - grades[i]) * weight(i)
  {
    var n := |grades| - 1;
    if i == n {
      assert grades[i := g][..n] == grades[..n];
      Expand(g, grades[i], weight(i));
    } else {
      assert grades[i := g][..n] == grades[..n][i := g];
      GainChange(grades[..n], i, g, weight);
    }
  }

  /** Two documents that change places change the quotient by what their grades differ by times what the discounts of
      their ranks do; so the better graded one never loses by going first. */
  lemma NdcgSwap(ranked: seq<Doc>, i: nat, j: nat, relevant: map<Doc, real>, docs: seq<Doc>, k: nat, weight: nat -> real)
    requires i < j < |ranked| && j < k && Discount(weight) && Gain(Ideal(relevant, docs, k), weight) > 0.0
    ensures var ideal := Gain(Ideal(relevant, docs, k), weight);
            var better := Grade(relevant, ranked[j]) - Grade(relevant, ranked[i]);
            var gained := Ndcg(ranked[i := ranked[j]][j := ranked[i]], relevant, docs, k, weight)
                          - Ndcg(ranked, relevant, docs, k, weight);
            gained == better * (weight(i) - weight(j)) / ideal && (better >= 0.0 ==> gained >= 0.0)
  {
    hide Ideal, Gain, GainOf, Ndcg, Grade, Discount;
    var swapped := ranked[i := ranked[j]][j := ranked[i]];
    var a, b := Grade(relevant, ranked[i]), Grade(relevant, ranked[j]);
    var ideal := Gain(Ideal(relevant, docs, k), weight);
    NdcgIs(ranked, relevant, docs, k, weight);
    NdcgIs(swapped, relevant, docs, k, weight);
    GainSwap(ranked, i, j, relevant, k, weight);
    Parts(GainOf(ranked, relevant, k, weight), (b - a) * (weight(i) - weight(j)), ideal);
    Falls(weight, i, j);
    if b >= a {
      Scaled(b - a, 0.0, weight(i) - weight(j));
      NotNegative((b - a) * (weight(i) - weight(j)), ideal);
    }
  }

  lemma NotNegative(x: real, y: real)
    requires x >= 0.0 && y > 0.0
    ensures x / y >= 0.0
  {
  }

  lemma GainSwap(ranked: seq<Doc>, i: nat, j: nat, relevant: map<Doc, real>, k: nat, weight: nat -> real)
    requires i < j < |ranked| && j < k
    ensures GainOf(ranked[i := ranked[j]][j := ranked[i]], relevant, k, weight) ==
            GainOf(ranked, relevant, k, weight)
            + (Grade(relevant, ranked[j]) - Grade(relevant, ranked[i])) * (weight(i) - weight(j))
  {
    hide Gain, Grade;
    var grades := Grades(relevant, First(ranked, k));
    var a, b := grades[i], grades[j];
    assert Grades(relevant, First(ranked[i := ranked[j]][j := ranked[i]], k)) == grades[i := b][j := a];
    GainChange(grades, i, b, weight);
    GainChange(grades[i := b], j, a, weight);
    Turned(a, b, weight(i), weight(j));
  }

  lemma Turned(a: real, b: real, high: real, low: real)
    ensures (b - a) * high + (a - b) * low == (b - a) * (high - low)
  {
  }

  lemma {:induction false} Falls(weight: nat -> real, i: nat, j: nat)
    requires Discount(weight) && i <= j
    ensures weight(j) <= weight(i)
    decreases j
  {
    if i < j {
      Falls(weight, i, j - 1);
    }
  }
}
