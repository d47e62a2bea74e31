/** Scoring documents through an index of postings, against the formula per document. Tokens are given. */
module Bm25 {

  type Word(==, !new)

  /** A document that has a word, and how often. */
  datatype Posting = Posting(index: nat, tf: nat)

  function Count(words: seq<Word>, w: Word): nat {
    if words == [] then 0 else Count(words[..|words| - 1], w) + if words[|words| - 1] == w then 1 else 0
  }

  /** The documents that have a word, in order. */
  function PostingsOf(documents: seq<seq<Word>>, w: Word): seq<Posting> {
    if documents == [] then []
    else
      var n := |documents| - 1;
      PostingsOf(documents[..n], w) + if Count(documents[n], w) > 0 then [Posting(n, Count(documents[n], w))] else []
  }

  // ---------------------------------------------------------------- the words of a text, counted

  /** Each word once, in the order of its first occurrence. */
  function Words(words: seq<Word>): seq<Word> {
    if words == [] then []
    else
      var rest := Words(words[..|words| - 1]);
      if words[|words| - 1] in rest then rest else rest + [words[|words| - 1]]
  }

  ghost predicate Distinct(words: seq<Word>) {
    forall i, j | 0 <= i < j < |words| :: words[i] != words[j]
  }

  lemma {:induction false} WordsAre(words: seq<Word>)
    ensures Distinct(Words(words))
    ensures forall w :: w in Words(words) <==> Count(words, w) > 0
  {
    if words != [] {
      WordsAre(words[..|words| - 1]);
    }
  }

  // ---------------------------------------------------------------- building the index

  /** The index holds exactly the postings of every word that occurs. */
  ghost predicate Indexes(postings: map<Word, seq<Posting>>, documents: seq<seq<Word>>) {
    forall w :: (w in postings <==> PostingsOf(documents, w) != []) && (w in postings ==> postings[w] == PostingsOf(documents, w))
  }

  /** Some words of the last document have been entered. */
  ghost predicate Entered(postings: map<Word, seq<Posting>>, before: seq<seq<Word>>, document: seq<Word>, done: seq<Word>) {
    forall w ::
      var list := PostingsOf(if w in done then before + [document] else before, w);
      (w in postings <==> list != []) && (w in postings ==> postings[w] == list)
  }

  lemma PostingsMore(before: seq<seq<Word>>, document: seq<Word>, w: Word)
    ensures PostingsOf(before + [document], w) ==
            PostingsOf(before, w) + if Count(document, w) > 0 then [Posting(|before|, Count(document, w))] else []
  {
    assert (before + [document])[..|before|] == before;
  }

  lemma EnteredAll(postings: map<Word, seq<Posting>>, before: seq<seq<Word>>, document: seq<Word>)
    requires Entered(postings, before, document, Words(document))
    ensures Indexes(postings, before + [document])
  {
    WordsAre(document);
    forall w
      ensures (w in postings <==> PostingsOf(before + [document], w) != [])
              && (w in postings ==> postings[w] == PostingsOf(before + [document], w))
    {
      PostingsMore(before, document, w);
      if w !in Words(document) {
        assert PostingsOf(before + [document], w) == PostingsOf(before, w) + [];
      }
    }
  }

  /** One posting appended, for a word not yet entered. */
  lemma WordEntered(postings: map<Word, seq<Posting>>, before: seq<seq<Word>>, document: seq<Word>, words: seq<Word>, k: nat)
    requires k < |words| && Distinct(words) && Count(document, words[k]) > 0
    requires Entered(postings, before, document, words[..k])
    ensures var found := if words[k] in postings then postings[words[k]] else [];
            Entered(postings[words[k] := found + [Posting(|before|, Count(document, words[k]))]], before, document, words[..k + 1])
  {
    hide PostingsOf, Count;
    assert words[..k + 1] == words[..k] + [words[k]] && words[k] !in words[..k];
    PostingsMore(before, document, words[k]);
  }

  lemma NoneEntered(postings: map<Word, seq<Posting>>, before: seq<seq<Word>>, document: seq<Word>)
    requires Indexes(postings, before)
    ensures Entered(postings, before, document, [])
  {
  }

  lemma NoDocuments()
    ensures Indexes(map[], [])
  {
  }

  datatype Index = Index(lengths: seq<nat>, postings: map<Word, seq<Posting>>, average: real, idf: map<Word, real>)

  function Total(lengths: seq<nat>): nat {
    if lengths == [] then 0 else Total(lengths[..|lengths| - 1]) + lengths[|lengths| - 1]
  }

  function Average(lengths: seq<nat>): real {
    if lengths == [] then 0.0 else Total(lengths) as real / |lengths| as real
  }

  function Lengths(documents: seq<seq<Word>>): seq<nat> {
    seq(|documents|, i requires 0 <= i < |documents| => |documents[i]|)
  }

  /** The index of some documents; rarity says what a word is worth, by how many documents there are and how many of them
      have it. */
  ghost predicate IndexOf(index: Index, documents: seq<seq<Word>>, rarity: (nat, nat) -> real) {
    && index.lengths == Lengths(documents) && Indexes(index.postings, documents) && index.average == Average(Lengths(documents))
    && index.idf.Keys == index.postings.Keys
    && forall w | w in index.idf :: index.idf[w] == rarity(|documents|, |PostingsOf(documents, w)|)
  }

  method Build(documents: seq<seq<Word>>, rarity: (nat, nat) -> real) returns (index: Index)
    ensures IndexOf(index, documents, rarity)
  {
    hide PostingsOf, Total;
    var lengths, postings := Enter(documents);
    assert lengths == Lengths(documents);
    var total: nat := 0;
    NoTotal(lengths[..0]);
    for i := 0 to |lengths|
      invariant total == Total(lengths[..i])
    {
      TotalMore(lengths, i);
      total := total + lengths[i];
    }
    assert lengths[..|lengths|] == lengths;
    var average := if lengths != [] then total as real / |lengths| as real else 0.0;
    index := Index(lengths, postings, average, map w | w in postings :: rarity(|documents|, |postings[w]|));
  }

  lemma NoTotal(lengths: seq<nat>)
    requires lengths == []
    ensures Total(lengths) == 0
  {
  }

  lemma TotalMore(lengths: seq<nat>, i: nat)
    requires i < |lengths|
    ensures Total(lengths[..i + 1]) == Total(lengths[..i]) + lengths[i]
  {
    assert lengths[..i + 1][..i] == lengths[..i];
  }

  method Enter(documents: seq<seq<Word>>) returns (lengths: seq<nat>, postings: map<Word, seq<Posting>>)
    ensures |lengths| == |documents| && forall i | 0 <= i < |documents| :: lengths[i] == |documents[i]|
    ensures Indexes(postings, documents)
  {
    hide Indexes, Entered, PostingsOf, Words, Distinct;
    lengths, postings := [], map[];
    NoDocuments();
    for index := 0 to |documents|
      invariant |lengths| == index && forall i | 0 <= i < index :: lengths[i] == |documents[i]|
      invariant Indexes(postings, documents[..index])
    {
      var document := documents[index];
      var words := Words(document);
      ghost var before := documents[..index];
      assert documents[..index + 1] == before + [document];
      WordsAre(document);
      NoneEntered(postings, before, document);
      lengths := lengths + [|document|];
      for k := 0 to |words|
        invariant Entered(postings, before, document, words[..k])
      {
        var word := words[k];
        WordEntered(postings, before, document, words, k);
        var found := if word in postings then postings[word] else [];
        postings := postings[word := found + [Posting(index, Count(document, word))]];
      }
      assert words[..|words|] == words;
      EnteredAll(postings, before, document);
    }
    assert documents[..|documents|] == documents;
  }

  // ---------------------------------------------------------------- scoring

  function Ratio(x: real, y: real): real {
    if y == 0.0 then 0.0 else x / y
  }

  /** How often a word occurs, dampened in a document longer than the average. */
  function Norm(tf: nat, length: nat, average: real, k1: real, b: real): real {
    tf as real + k1 * (1.0 - b + b * Ratio(length as real, average))
  }

  /** What one posting of a word counts. */
  function Okapi(idf: real, tf: nat, length: nat, average: real, k1: real, b: real): real {
    Ratio(idf * tf as real * (k1 + 1.0), Norm(tf, length, average, k1, b))
  }

  lemma NormPositive(tf: nat, length: nat, average: real, k1: real, b: real)
    requires tf > 0 && average > 0.0 && k1 >= 0.0 && 0.0 <= b <= 1.0
    ensures Norm(tf, length, average, k1, b) > 0.0
  {
    var share := Ratio(length as real, average);
    assert share >= 0.0;
    var spread := 1.0 - b + b * share;
    assert b * share >= 0.0;
    assert k1 * spread >= 0.0;
  }

  lemma {:induction false} AveragePositive(lengths: seq<nat>, i: nat)
    requires i < |lengths| && lengths[i] > 0
    ensures Average(lengths) > 0.0
  {
    hide Total;
    TotalAtLeast(lengths, i);
  }

  lemma {:induction false} TotalAtLeast(lengths: seq<nat>, i: nat)
    requires i < |lengths|
    ensures Total(lengths) >= lengths[i]
  {
    if i < |lengths| - 1 {
      TotalAtLeast(lengths[..|lengths| - 1], i);
    }
  }

  /** The formula, from the documents alone. */
  ghost function WeightIn(documents: seq<seq<Word>>, k1: real, b: real, rarity: (nat, nat) -> real): (Word, nat, nat) -> real {
    (w, i: nat, tf: nat) =>
      if i < |documents| then
        Okapi(rarity(|documents|, |PostingsOf(documents, w)|), tf, |documents[i]|, Average(Lengths(documents)), k1, b)
      else 0.0
  }

  /** And as the index gives it. */
  function WeightBy(index: Index, k1: real, b: real): (Word, nat, nat) -> real {
    (w, i: nat, tf: nat) =>
      if w in index.idf && i < |index.lengths| then Okapi(index.idf[w], tf, index.lengths[i], index.average, k1, b) else 0.0
  }

  /** What the query's words count for one document, word by word of the query. */
  function Direct(query: seq<Word>, documents: seq<seq<Word>>, i: nat, weight: (Word, nat, nat) -> real): real
    requires i < |documents|
  {
    if query == [] then 0.0
    else Direct(query[..|query| - 1], documents, i, weight) + Part(query[|query| - 1], documents[i], i, weight)
  }

  /** One occurrence of a query word: nothing when the document lacks it. */
  function Part(w: Word, document: seq<Word>, i: nat, weight: (Word, nat, nat) -> real): real {
    if Count(document, w) > 0 then weight(w, i, Count(document, w)) else 0.0
  }

  // ---------------------------------------------------------------- what is counted

  /** A word counts as often as it is among the words. */
  lemma {:induction false} CountIs(words: seq<Word>, w: Word)
    ensures Count(words, w) == multiset(words)[w]
  {
    if words != [] {
      var n := |words| - 1;
      CountIs(words[..n], w);
      assert words == words[..n] + [words[n]];
    }
  }

  /** A word has as many postings as there are documents it is in. */
  lemma {:induction false} PostingsCount(documents: seq<seq<Word>>, w: Word)
    ensures |PostingsOf(documents, w)| == |set i | 0 <= i < |documents| && w in documents[i]|
  {
    hide Count;
    if documents != [] {
      var n := |documents| - 1;
      PostingsCount(documents[..n], w);
      CountIs(documents[n], w);
      LastHolds(documents, w);
    }
  }

  lemma LastHolds(documents: seq<seq<Word>>, w: Word)
    requires documents != []
    ensures var n := |documents| - 1;
            |set i | 0 <= i < |documents| && w in documents[i]| ==
            |set i | 0 <= i < n && w in documents[..n][i]| + if w in documents[n] then 1 else 0
  {
    var n := |documents| - 1;
    var before, all := (set i | 0 <= i < n && w in documents[..n][i]), (set i | 0 <= i < |documents| && w in documents[i]);
    assert all == before + if w in documents[n] then {n} else {};
  }

  function Joined(documents: seq<seq<Word>>): seq<Word> {
    if documents == [] then [] else Joined(documents[..|documents| - 1]) + documents[|documents| - 1]
  }

  /** The average length is that of all the words together, shared out evenly. */
  lemma AverageIs(documents: seq<seq<Word>>)
    ensures Average(Lengths(documents)) * |documents| as real == |Joined(documents)| as real
  {
    TotalIs(documents);
  }

  lemma {:induction false} TotalIs(documents: seq<seq<Word>>)
    ensures Total(Lengths(documents)) == |Joined(documents)|
  {
    if documents != [] {
      var n := |documents| - 1;
      TotalIs(documents[..n]);
      assert Lengths(documents)[..n] == Lengths(documents[..n]);
    }
  }

  // ---------------------------------------------------------------- what the parameters do

  /** What one occurrence of a word in a query counts for a document. */
  ghost function Worth(w: Word, documents: seq<seq<Word>>, i: nat, k1: real, b: real, rarity: (nat, nat) -> real): real
    requires i < |documents|
  {
    Part(w, documents[i], i, WeightIn(documents, k1, b, rarity))
  }

  /** How rare a word is among the documents. */
  ghost function Idf(w: Word, documents: seq<seq<Word>>, rarity: (nat, nat) -> real): real {
    rarity(|documents|, |PostingsOf(documents, w)|)
  }

  /** A query is worth what its words are, one after the other. */
  lemma DirectAdds(query: seq<Word>, w: Word, documents: seq<seq<Word>>, i: nat, k1: real, b: real,
                   rarity: (nat, nat) -> real)
    requires i < |documents|
    ensures var weight := WeightIn(documents, k1, b, rarity);
            Direct(query + [w], documents, i, weight) == Direct(query, documents, i, weight) + Worth(w, documents, i, k1, b, rarity)
    ensures Direct([], documents, i, WeightIn(documents, k1, b, rarity)) == 0.0
  {
    assert (query + [w])[..|query|] == query;
  }

  lemma WorthOkapi(w: Word, documents: seq<seq<Word>>, i: nat, k1: real, b: real, rarity: (nat, nat) -> real)
    requires i < |documents| && Count(documents[i], w) > 0
    ensures var average := Average(Lengths(documents));
            && average > 0.0 && |documents[i]| > 0
            && Worth(w, documents, i, k1, b, rarity) ==
               Okapi(Idf(w, documents, rarity), Count(documents[i], w), |documents[i]|, average, k1, b)
  {
    hide Average, Okapi;
    CountWithin(documents[i], w);
    AveragePositive(Lengths(documents), i);
  }

  /** How long a document is, compared with the average. */
  ghost function Share(documents: seq<seq<Word>>, i: nat): real
    requires i < |documents|
  {
    Ratio(|documents[i]| as real, Average(Lengths(documents)))
  }

  /** What the norm of a word adds to its number of occurrences. */
  function Rest(share: real, k1: real, b: real): real {
    k1 * (1.0 - b + b * share)
  }

  /** What so many occurrences are worth of the most they can be. */
  function Portion(most: real, tf: nat, rest: real): real {
    Ratio(most * tf as real, tf as real + rest)
  }

  lemma WorthIs(w: Word, documents: seq<seq<Word>>, i: nat, k1: real, b: real, rarity: (nat, nat) -> real)
    requires i < |documents| && Count(documents[i], w) > 0
    ensures Share(documents, i) > 0.0
    ensures Worth(w, documents, i, k1, b, rarity) ==
            Portion(Idf(w, documents, rarity) * (k1 + 1.0), Count(documents[i], w), Rest(Share(documents, i), k1, b))
  {
    hide Average, Worth, Idf;
    WorthOkapi(w, documents, i, k1, b, rarity);
    Reorder(Idf(w, documents, rarity), Count(documents[i], w) as real, k1 + 1.0);
  }

  lemma Reorder(x: real, y: real, z: real)
    ensures x * y * z == x * z * y
  {
  }

  /** Without b the length of a document does not matter, and neither does b at the average length; with b in full the
      length counts in proportion to the average. */
  lemma LengthCounts(w: Word, documents: seq<seq<Word>>, i: nat, k1: real, b: real, rarity: (nat, nat) -> real)
    requires i < |documents| && Count(documents[i], w) > 0 && k1 > 0.0 && 0.0 <= b <= 1.0
    ensures var most, tf := Idf(w, documents, rarity) * (k1 + 1.0) * Count(documents[i], w) as real, Count(documents[i], w) as real;
            var worth, share := Worth(w, documents, i, k1, b, rarity), Share(documents, i);
            && (b == 0.0 || share == 1.0 ==> worth * (tf + k1) == most)
            && (b == 1.0 ==> worth * (tf + k1 * share) == most)
  {
    hide Average, Worth, Idf, Portion, Share, Rest;
    var share, tf := Share(documents, i), Count(documents[i], w);
    WorthIs(w, documents, i, k1, b, rarity);
    RestEnds(share, k1, b);
    RestPositive(share, k1, b);
    PortionTimes(Idf(w, documents, rarity) * (k1 + 1.0), tf, Rest(share, k1, b));
    SameTimes(Worth(w, documents, i, k1, b, rarity), tf as real + Rest(share, k1, b), tf as real + k1);
    SameTimes(Worth(w, documents, i, k1, b, rarity), tf as real + Rest(share, k1, b), tf as real + k1 * share);
  }

  lemma PortionTimes(most: real, tf: nat, rest: real)
    requires tf > 0 && rest > 0.0
    ensures Portion(most, tf, rest) * (tf as real + rest) == most * tf as real
  {
  }

  lemma SameTimes(x: real, y: real, z: real)
    ensures y == z ==> x * y == x * z
  {
  }

  lemma RestEnds(share: real, k1: real, b: real)
    ensures b == 0.0 || share == 1.0 ==> Rest(share, k1, b) == k1
    ensures b == 1.0 ==> Rest(share, k1, b) == k1 * share
  {
  }

  /** Between those ends what b does goes in a straight line. */
  lemma RestMixes(share: real, k1: real, b: real)
    ensures Rest(share, k1, b) == (1.0 - b) * Rest(share, k1, 0.0) + b * Rest(share, k1, 1.0)
  {
    RestEnds(share, k1, 0.0);
    RestEnds(share, k1, 1.0);
    assert k1 * (b * share) == b * (k1 * share);
    assert k1 * (1.0 - b + b * share) == (1.0 - b) * k1 + k1 * (b * share);
  }

  /** Of two documents as long as each other the one that has a rare word more often is worth more for it, and never as
      much as k1 + 1 times the word's rarity. */
  lemma MoreOften(w: Word, documents: seq<seq<Word>>, i: nat, j: nat, k1: real, b: real, rarity: (nat, nat) -> real)
    requires i < |documents| && j < |documents| && |documents[i]| == |documents[j]|
    requires 0 < Count(documents[i], w) < Count(documents[j], w)
    requires k1 > 0.0 && 0.0 <= b <= 1.0 && Idf(w, documents, rarity) > 0.0
    ensures Worth(w, documents, i, k1, b, rarity) < Worth(w, documents, j, k1, b, rarity)
    ensures Worth(w, documents, j, k1, b, rarity) < Idf(w, documents, rarity) * (k1 + 1.0)
  {
    hide Average, Worth, Idf, Rest, Portion;
    WorthIs(w, documents, i, k1, b, rarity);
    WorthIs(w, documents, j, k1, b, rarity);
    RestPositive(Share(documents, i), k1, b);
    Product(Idf(w, documents, rarity), k1 + 1.0);
    Saturates(Idf(w, documents, rarity) * (k1 + 1.0), Count(documents[i], w), Count(documents[j], w),
              Rest(Share(documents, i), k1, b));
  }

  /** Of two documents that have a rare word as often as each other the longer one is worth less for it. */
  lemma Longer(w: Word, documents: seq<seq<Word>>, i: nat, j: nat, k1: real, b: real, rarity: (nat, nat) -> real)
    requires i < |documents| && j < |documents| && |documents[i]| < |documents[j]|
    requires 0 < Count(documents[i], w) == Count(documents[j], w)
    requires k1 > 0.0 && 0.0 < b <= 1.0 && Idf(w, documents, rarity) > 0.0
    ensures Worth(w, documents, j, k1, b, rarity) < Worth(w, documents, i, k1, b, rarity)
  {
    hide Average, Worth, Idf, Rest, Portion, Share;
    WorthIs(w, documents, i, k1, b, rarity);
    WorthIs(w, documents, j, k1, b, rarity);
    RestPositive(Share(documents, i), k1, b);
    ShareRises(documents, i, j);
    RestRises(Share(documents, i), Share(documents, j), k1, b);
    Product(Idf(w, documents, rarity), k1 + 1.0);
    Smaller(Idf(w, documents, rarity) * (k1 + 1.0), Count(documents[i], w), Rest(Share(documents, i), k1, b),
            Rest(Share(documents, j), k1, b));
  }

  lemma ShareRises(documents: seq<seq<Word>>, i: nat, j: nat)
    requires i < |documents| && j < |documents| && |documents[i]| < |documents[j]|
    ensures Share(documents, i) < Share(documents, j)
  {
    hide Average, Ratio;
    AveragePositive(Lengths(documents), j);
    RatioRises(|documents[i]| as real, |documents[j]| as real, Average(Lengths(documents)));
  }

  lemma RestPositive(share: real, k1: real, b: real)
    requires share > 0.0 && k1 > 0.0 && 0.0 <= b <= 1.0
    ensures Rest(share, k1, b) > 0.0
  {
    if b > 0.0 {
      Product(b, share);
    }
    Product(k1, 1.0 - b + b * share);
  }

  lemma RestRises(x: real, y: real, k1: real, b: real)
    requires x < y && k1 > 0.0 && b > 0.0
    ensures Rest(x, k1, b) < Rest(y, k1, b)
  {
    hide Rest;
    TimesRises(b, x, y);
    RestOf(x, k1, b, 1.0 - b + b * x);
    RestOf(y, k1, b, 1.0 - b + b * y);
    TimesRises(k1, 1.0 - b + b * x, 1.0 - b + b * y);
  }

  lemma RestOf(share: real, k1: real, b: real, mix: real)
    requires mix == 1.0 - b + b * share
    ensures Rest(share, k1, b) == k1 * mix
  {
  }

  lemma RatioRises(x: real, y: real, z: real)
    requires x < y && z > 0.0
    ensures Ratio(x, z) < Ratio(y, z)
  {
    TimesBack(x, z);
    TimesBack(y, z);
    if Ratio(x, z) >= Ratio(y, z) {
      NoLess(z, Ratio(y, z), Ratio(x, z));
    }
  }

  lemma TimesBack(x: real, z: real)
    requires z > 0.0
    ensures z * Ratio(x, z) == x
  {
  }

  lemma TimesRises(k: real, x: real, y: real)
    requires k > 0.0 && x < y
    ensures k * x < k * y
  {
  }

  lemma NoLess(k: real, x: real, y: real)
    requires k > 0.0 && x <= y
    ensures k * x <= k * y
  {
  }

  lemma Product(x: real, y: real)
    requires x > 0.0 && y > 0.0
    ensures x * y > 0.0
  {
  }

  /** A fraction is less than another when the products across are. */
  lemma Across(p: real, q: real, r: real, s: real)
    requires q > 0.0 && s > 0.0 && p * s < r * q
    ensures Ratio(p, q) < Ratio(r, s)
  {
    hide Ratio;
    TimesBack(p, q);
    TimesBack(r, s);
    var x, y := Ratio(p, q), Ratio(r, s);
    Product(q, s);
    Reorder(q, x, s);
    Reorder(s, y, q);
    if x >= y {
      NoLess(q * s, y, x);
    }
  }

  lemma PortionIs(most: real, tf: nat, x: real, rest: real)
    requires x == tf as real
    ensures Portion(most, tf, rest) == Ratio(most * x, x + rest)
  {
  }

  lemma Saturates(most: real, few: nat, more: nat, rest: real)
    requires most > 0.0 && 0 < few < more && rest > 0.0
    ensures Portion(most, few, rest) < Portion(most, more, rest) < most
  {
    hide Ratio;
    var x, y := few as real, more as real;
    TimesRises(rest, x, y);
    assert x * (y + rest) < y * (x + rest);
    TimesRises(most, x * (y + rest), y * (x + rest));
    Regroup(most, x, y + rest);
    Regroup(most, y, x + rest);
    Across(most * x, x + rest, most * y, y + rest);
    TimesRises(most, y, y + rest);
    Across(most * y, y + rest, most, 1.0);
    Whole(most);
    PortionIs(most, few, x, rest);
    PortionIs(most, more, y, rest);
  }

  lemma Regroup(x: real, y: real, z: real)
    ensures x * y * z == x * (y * z)
  {
  }

  lemma Whole(m: real)
    ensures Ratio(m, 1.0) == m
  {
  }

  lemma Smaller(most: real, tf: nat, low: real, high: real)
    requires most > 0.0 && tf > 0 && 0.0 < low < high
    ensures Portion(most, tf, high) < Portion(most, tf, low)
  {
    hide Ratio;
    var x := tf as real;
    Product(most, x);
    TimesRises(most * x, x + low, x + high);
    Across(most * x, x + high, most * x, x + low);
    PortionIs(most, tf, x, high);
    PortionIs(most, tf, x, low);
  }

  function Times(count: nat, x: real): real {
    count as real * x
  }

  /** The same sum over distinct words, each taken times its number of occurrences in the query. */
  function Grouped(words: seq<Word>, query: seq<Word>, document: seq<Word>, i: nat, weight: (Word, nat, nat) -> real): real {
    if words == [] then 0.0
    else
      var w := words[|words| - 1];
      Grouped(words[..|words| - 1], query, document, i, weight) + Times(Count(query, w), Part(w, document, i, weight))
  }

  lemma {:induction false} OneMoreWord(words: seq<Word>, query: seq<Word>, x: Word, document: seq<Word>, i: nat,
                                       weight: (Word, nat, nat) -> real)
    requires Distinct(words)
    ensures Grouped(words, query + [x], document, i, weight) ==
            Grouped(words, query, document, i, weight) + if x in words then Part(x, document, i, weight) else 0.0
  {
    hide Times, Part;
    assert (query + [x])[..|query|] == query;
    if words != [] {
      var n := |words| - 1;
      OneMoreWord(words[..n], query, x, document, i, weight);
      assert words == words[..n] + [words[n]];
      TimesMore(Count(query, words[n]), Part(words[n], document, i, weight));
    }
  }

  lemma TimesMore(count: nat, x: real)
    ensures Times(count + 1, x) == Times(count, x) + x
  {
  }

  lemma TimesNothing(count: nat, x: real)
    ensures Times(0, x) == 0.0 == Times(count, 0.0)
  {
  }

  lemma {:induction false} NoneGrouped(words: seq<Word>, document: seq<Word>, i: nat, weight: (Word, nat, nat) -> real)
    ensures Grouped(words, [], document, i, weight) == 0.0
  {
    if words != [] {
      NoneGrouped(words[..|words| - 1], document, i, weight);
      TimesNothing(0, Part(words[|words| - 1], document, i, weight));
    }
  }

  /** Counting each distinct word of a query as often as it occurs is counting every occurrence. */
  lemma {:induction false} GroupedIsDirect(words: seq<Word>, query: seq<Word>, documents: seq<seq<Word>>, i: nat,
                                           weight: (Word, nat, nat) -> real)
    requires Distinct(words) && i < |documents| && forall w | w in query :: w in words
    ensures Grouped(words, query, documents[i], i, weight) == Direct(query, documents, i, weight)
  {
    if query == [] {
      NoneGrouped(words, documents[i], i, weight);
    } else {
      var n := |query| - 1;
      GroupedIsDirect(words, query[..n], documents, i, weight);
      assert query == query[..n] + [query[n]];
      OneMoreWord(words, query[..n], query[n], documents[i], i, weight);
    }
  }

  function Score(found: map<nat, real>, i: nat): real {
    if i in found then found[i] else 0.0
  }

  predicate Mentions(list: seq<Posting>, i: nat) {
    list != [] && (list[|list| - 1].index == i || Mentions(list[..|list| - 1], i))
  }

  /** What some postings of a word add to one document's score, for a word the query holds so many times. */
  function Gain(list: seq<Posting>, i: nat, word: Word, count: nat, weight: (Word, nat, nat) -> real): real {
    if list == [] then 0.0
    else
      var p := list[|list| - 1];
      Gain(list[..|list| - 1], i, word, count, weight)
      + if p.index == i then Times(count, weight(word, i, p.tf)) else 0.0
  }

  /** The postings of a word speak of the documents that have it, once each. */
  lemma {:induction false} PostingsSpeak(documents: seq<seq<Word>>, i: nat, word: Word, count: nat,
                                         weight: (Word, nat, nat) -> real)
    ensures Mentions(PostingsOf(documents, word), i) <==> i < |documents| && Count(documents[i], word) > 0
    ensures Gain(PostingsOf(documents, word), i, word, count, weight) ==
            if i < |documents| then Times(count, Part(word, documents[i], i, weight)) else 0.0
  {
    hide Times, Count;
    if documents != [] {
      var n := |documents| - 1;
      var before := PostingsOf(documents[..n], word);
      PostingsSpeak(documents[..n], i, word, count, weight);
      assert documents[..n] + [documents[n]] == documents;
      if Count(documents[n], word) > 0 {
        assert (before + [Posting(n, Count(documents[n], word))])[..|before|] == before;
      } else {
        assert before + [] == before;
        TimesNothing(count, 0.0);
      }
    }
  }

  /** The loop over one word's postings. */
  method AddWord(found0: map<nat, real>, word: Word, count: nat, list: seq<Posting>, weight: (Word, nat, nat) -> real)
      returns (found: map<nat, real>)
    ensures forall i: nat :: i in found <==> i in found0 || Mentions(list, i)
    ensures forall i: nat :: Score(found, i) == Score(found0, i) + Gain(list, i, word, count, weight)
  {
    found := found0;
    for n := 0 to |list|
      invariant forall i: nat :: i in found <==> i in found0 || Mentions(list[..n], i)
      invariant forall i: nat :: Score(found, i) == Score(found0, i) + Gain(list[..n], i, word, count, weight)
    {
      var p := list[n];
      assert list[..n + 1][..n] == list[..n];
      found := found[p.index := (if p.index in found then found[p.index] else 0.0)
                                + Times(count, weight(word, p.index, p.tf))];
    }
    assert list[..|list|] == list;
  }

  predicate Shares(words: seq<Word>, document: seq<Word>) {
    words != [] && (Count(document, words[|words| - 1]) > 0 || Shares(words[..|words| - 1], document))
  }

  /** The scores after some words of the query: theirs, for the documents that have one of them. */
  ghost predicate Scored(found: map<nat, real>, words: seq<Word>, query: seq<Word>, documents: seq<seq<Word>>,
                         weight: (Word, nat, nat) -> real) {
    forall i: nat ::
      && (i in found <==> i < |documents| && Shares(words, documents[i]))
      && (i < |documents| ==> Score(found, i) == Grouped(words, query, documents[i], i, weight))
  }

  /** Exactly the documents with a word of the query are scored, each by the formula summed over every occurrence of a
      word in the query. */
  method Scores(query: seq<Word>, index: Index, ghost documents: seq<seq<Word>>, k1: real, b: real,
                ghost rarity: (nat, nat) -> real) returns (found: map<nat, real>)
    requires IndexOf(index, documents, rarity)
    ensures forall i: nat :: i in found <==> i < |documents| && exists w :: w in query && Count(documents[i], w) > 0
    ensures forall i | i in found :: i < |documents| && found[i] == Direct(query, documents, i, WeightIn(documents, k1, b, rarity))
  {
    found := map[];
    ghost var weight := WeightIn(documents, k1, b, rarity);
    var words := Words(query);
    WordsAre(query);
    for n := 0 to |words|
      invariant Scored(found, words[..n], query, documents, weight)
    {
      hide Indexes, IndexOf, PostingsOf, Scored, Words, Count, WeightBy, WeightIn;
      var word := words[n];
      var list := if word in index.postings then index.postings[word] else [];
      PostingsFound(index, documents, rarity, word);
      ghost var before := found;
      found := AddWord(found, word, Count(query, word), list, WeightBy(index, k1, b));
      forall i: nat ensures Score(found, i) == Score(before, i) + Gain(list, i, word, Count(query, word), weight) {
        SameGain(index, documents, k1, b, rarity, i, word, Count(query, word));
      }
      WordAdded(before, found, words, n, query, documents, weight);
    }
    assert words[..|words|] == words;
    AllScored(found, words, query, documents, weight);
  }

  /** The formula by the index is the one by the documents. */
  lemma SameGain(index: Index, documents: seq<seq<Word>>, k1: real, b: real, rarity: (nat, nat) -> real, i: nat, word: Word,
                 count: nat)
    requires IndexOf(index, documents, rarity)
    ensures var list := PostingsOf(documents, word);
            Gain(list, i, word, count, WeightBy(index, k1, b)) == Gain(list, i, word, count, WeightIn(documents, k1, b, rarity))
  {
    hide Okapi, Average, Gain;
    if word in index.idf {
      forall j: nat, tf: nat | j < |documents|
        ensures WeightBy(index, k1, b)(word, j, tf) == WeightIn(documents, k1, b, rarity)(word, j, tf)
      {
      }
      PostingsWithin(documents, word);
      SameGains(PostingsOf(documents, word), i, word, count, WeightBy(index, k1, b), WeightIn(documents, k1, b, rarity),
                |documents|);
    } else {
      assert PostingsOf(documents, word) == [];
      NoGain(i, word, count, WeightBy(index, k1, b));
      NoGain(i, word, count, WeightIn(documents, k1, b, rarity));
    }
  }

  lemma NoGain(i: nat, word: Word, count: nat, weight: (Word, nat, nat) -> real)
    ensures Gain([], i, word, count, weight) == 0.0
  {
  }

  lemma {:induction false} PostingsWithin(documents: seq<seq<Word>>, word: Word)
    ensures forall k | 0 <= k < |PostingsOf(documents, word)| ::
              var p := PostingsOf(documents, word)[k];
              p.index < |documents| && p.tf == Count(documents[p.index], word) > 0
  {
    if documents != [] {
      PostingsWithin(documents[..|documents| - 1], word);
    }
  }

  lemma {:induction false} CountWithin(words: seq<Word>, w: Word)
    ensures Count(words, w) <= |words|
  {
    if words != [] {
      CountWithin(words[..|words| - 1], w);
    }
  }

  /** With the parameters in the ranges they are meant for, scoring divides by no zero: for every posting of an index the
      average length is positive, and so is the norm. */
  lemma NoZeroDivisor(index: Index, documents: seq<seq<Word>>, rarity: (nat, nat) -> real, k1: real, b: real, word: Word,
                      k: nat)
    requires IndexOf(index, documents, rarity) && k1 >= 0.0 && 0.0 <= b <= 1.0
    requires word in index.postings && k < |index.postings[word]|
    ensures var p := index.postings[word][k];
            && p.index < |index.lengths| && index.average > 0.0
            && Norm(p.tf, index.lengths[p.index], index.average, k1, b) > 0.0
  {
    hide Norm, Average;
    PostingsWithin(documents, word);
    var p := index.postings[word][k];
    CountWithin(documents[p.index], word);
    AveragePositive(Lengths(documents), p.index);
    NormPositive(p.tf, index.lengths[p.index], index.average, k1, b);
  }

  lemma {:induction false} SameGains(list: seq<Posting>, i: nat, word: Word, count: nat, f: (Word, nat, nat) -> real,
                                     g: (Word, nat, nat) -> real, size: nat)
    requires forall k | 0 <= k < |list| :: list[k].index < size
    requires forall j: nat, tf: nat | j < size :: f(word, j, tf) == g(word, j, tf)
    ensures Gain(list, i, word, count, f) == Gain(list, i, word, count, g)
  {
    if list != [] {
      SameGains(list[..|list| - 1], i, word, count, f, g, size);
    }
  }

  lemma PostingsFound(index: Index, documents: seq<seq<Word>>, rarity: (nat, nat) -> real, word: Word)
    requires IndexOf(index, documents, rarity)
    ensures (if word in index.postings then index.postings[word] else []) == PostingsOf(documents, word)
  {
  }

  lemma WordAdded(found0: map<nat, real>, found: map<nat, real>, words: seq<Word>, n: nat, query: seq<Word>,
                  documents: seq<seq<Word>>, weight: (Word, nat, nat) -> real)
    requires n < |words| && Scored(found0, words[..n], query, documents, weight)
    requires forall i: nat :: i in found <==> i in found0 || Mentions(PostingsOf(documents, words[n]), i)
    requires forall i: nat :: Score(found, i) ==
               Score(found0, i) + Gain(PostingsOf(documents, words[n]), i, words[n], Count(query, words[n]), weight)
    ensures Scored(found, words[..n + 1], query, documents, weight)
  {
    hide PostingsOf, Count, Mentions, Gain, Times, Part, Score;
    assert words[..n + 1][..n] == words[..n];
    forall i: nat
      ensures i in found <==> i < |documents| && Shares(words[..n + 1], documents[i])
      ensures i < |documents| ==> Score(found, i) == Grouped(words[..n + 1], query, documents[i], i, weight)
    {
      PostingsSpeak(documents, i, words[n], Count(query, words[n]), weight);
    }
  }

  lemma {:induction false} SharesSome(words: seq<Word>, document: seq<Word>)
    ensures Shares(words, document) <==> exists w :: w in words && Count(document, w) > 0
  {
    if words != [] {
      var n := |words| - 1;
      SharesSome(words[..n], document);
      assert words == words[..n] + [words[n]];
      assert words[n] in words;
    }
  }

  lemma {:induction false} Occurs(words: seq<Word>, w: Word)
    ensures w in words <==> Count(words, w) > 0
  {
    if words != [] {
      Occurs(words[..|words| - 1], w);
      assert words == words[..|words| - 1] + [words[|words| - 1]];
    }
  }

  lemma AllScored(found: map<nat, real>, words: seq<Word>, query: seq<Word>, documents: seq<seq<Word>>,
                  weight: (Word, nat, nat) -> real)
    requires Scored(found, words, query, documents, weight) && Distinct(words)
    requires forall w :: w in words <==> Count(query, w) > 0
    ensures forall i: nat :: i in found <==> i < |documents| && exists w :: w in query && Count(documents[i], w) > 0
    ensures forall i | i in found :: i < |documents| && found[i] == Direct(query, documents, i, weight)
  {
    forall w ensures w in query <==> w in words {
      Occurs(query, w);
    }
    forall i: nat | i < |documents|
      ensures Shares(words, documents[i]) <==> exists w :: w in query && Count(documents[i], w) > 0
      ensures Grouped(words, query, documents[i], i, weight) == Direct(query, documents, i, weight)
    {
      SharesSome(words, documents[i]);
      GroupedIsDirect(words, query, documents, i, weight);
    }
  }
}
