/** Cutting a text into overlapping windows at whitespace. Characters and what counts as whitespace are given. */
module Chunk {
  import opened Wrappers

  type Char(==, !new)

  datatype Span = Span(start: nat, end: nat)

  datatype Bad = BadSize | BadOverlap

  predicate White(text: seq<Char>, space: Char -> bool, i: int) {
    0 <= i < |text| && space(text[i])
  }

  predicate Black(text: seq<Char>, space: Char -> bool, i: int) {
    0 <= i < |text| && !space(text[i])
  }

  /** A word starts here: a character that is not whitespace, with none but whitespace right before it. */
  predicate WordStart(text: seq<Char>, space: Char -> bool, i: int) {
    Black(text, space, i) && !Black(text, space, i - 1)
  }

  /** A word ends just before here. */
  predicate WordEnd(text: seq<Char>, space: Char -> bool, i: int) {
    Black(text, space, i - 1) && !Black(text, space, i)
  }

  // ---------------------------------------------------------------- finding words

  /** The first character at or after i that is not whitespace. */
  function SkipSpace(text: seq<Char>, space: Char -> bool, i: int): (j: nat)
    ensures j <= |text| && (i <= |text| ==> i <= j)
    ensures j < |text| ==> Black(text, space, j) && i <= j
    ensures forall k | i <= k < j :: !Black(text, space, k)
    decreases |text| - i
  {
    if i < 0 then SkipSpace(text, space, 0)
    else if i >= |text| then |text|
    else if space(text[i]) then SkipSpace(text, space, i + 1)
    else i
  }

  /** The first whitespace at or after i, or the end. */
  function FindSpace(text: seq<Char>, space: Char -> bool, i: nat): (j: nat)
    requires i <= |text|
    ensures i <= j <= |text| && (j < |text| ==> White(text, space, j))
    ensures forall k | i <= k < j :: Black(text, space, k)
    decreases |text| - i
  {
    if i == |text| || space(text[i]) then i else FindSpace(text, space, i + 1)
  }

  /** Where a word begins nearest to the right of i, i included; from within a word that is the one behind it. */
  function NextWord(text: seq<Char>, space: Char -> bool, i: int): (j: nat)
    ensures j <= |text| && (i <= |text| ==> i <= j)
    ensures j < |text| ==> WordStart(text, space, j)
    ensures forall k | i <= k < j :: !WordStart(text, space, k)
  {
    if 0 < i < |text| && !space(text[i - 1]) && !space(text[i])
    then SkipSpace(text, space, FindSpace(text, space, i))
    else SkipSpace(text, space, i)
  }

  /** The last whitespace from low to high, both included. */
  method LastSpace(text: seq<Char>, space: Char -> bool, low: nat, high: nat) returns (last: Option<nat>)
    ensures last.None? ==> forall k | low <= k <= high :: !White(text, space, k)
    ensures last.Some? ==> low <= last.value <= high && White(text, space, last.value)
    ensures last.Some? ==> forall k | last.value < k <= high :: !White(text, space, k)
  {
    last := None;
    var i := low;
    while i <= high && i < |text|
      invariant low <= i
      invariant i <= high + 1 || last.None?
      invariant last.None? ==> forall k | low <= k < i :: !White(text, space, k)
      invariant last.Some? ==> low <= last.value < i && last.value <= high && White(text, space, last.value)
      invariant last.Some? ==> forall k | last.value < k < i :: !White(text, space, k)
    {
      if space(text[i]) { last := Some(i); }
      i := i + 1;
    }
  }

  // ---------------------------------------------------------------- what a span may be

  /** One window: never empty, never too long, bounded by characters that are not whitespace. */
  predicate Framed(text: seq<Char>, space: Char -> bool, chars: nat, s: Span) {
    s.start < s.end <= |text| && s.end - s.start <= chars
    && Black(text, space, s.start) && Black(text, space, s.end - 1)
  }

  predicate NoWhite(text: seq<Char>, space: Char -> bool, low: int, high: int) {
    forall k | low <= k <= high :: !White(text, space, k)
  }

  predicate NoWordStart(text: seq<Char>, space: Char -> bool, low: int, high: int) {
    forall j | low <= j < high :: !WordStart(text, space, j)
  }

  /** Where a window ends: as far as it can reach, inside a word, when text goes on behind its reach and its second half
      has no whitespace; and otherwise at the last word end within reach. */
  ghost predicate CutWell(text: seq<Char>, space: Char -> bool, chars: nat, s: Span) {
    if s.start + chars < |text| && NoWhite(text, space, s.start + chars / 2, s.start + chars) then s.end == s.start + chars
    else WordEnd(text, space, s.end) && forall j | s.end < j <= s.start + chars :: !WordEnd(text, space, j)
  }

  /** Where the window after a starts. The overlap begins so many characters before a's end. When a word starts between
      there and a's own start, the next window is past a; otherwise it is at the first word start of a within the overlap;
      and when there is none, at the overlap's beginning if a reaches back so far, and past a if not. */
  ghost predicate Continues(text: seq<Char>, space: Char -> bool, overlap: nat, a: Span, start: nat) {
    var low := a.end - overlap;
    if !NoWordStart(text, space, low, a.start + 1) then start == SkipSpace(text, space, a.end)
    else if !NoWordStart(text, space, Larger(a.start + 1, low), a.end) then
      Larger(a.start + 1, low) <= start < a.end && WordStart(text, space, start)
      && NoWordStart(text, space, Larger(a.start + 1, low), start)
    else start == SkipSpace(text, space, if low > a.start then low else a.end)
  }

  function Larger(a: int, b: int): int {
    if a >= b then a else b
  }

  /** What is promised of the next window: it starts further on, shares at most the overlap with a, skips nothing but
      whitespace, and starts inside a word only when no word starts from the overlap's beginning to a's end, and then
      exactly at that beginning. */
  ghost predicate StepsOn(text: seq<Char>, space: Char -> bool, overlap: nat, a: Span, start: nat) {
    && a.start < start && a.end - start <= overlap
    && (forall i | a.end <= i < start :: !Black(text, space, i))
    && (start < |text| && !WordStart(text, space, start) ==>
          start == a.end - overlap && NoWordStart(text, space, a.end - overlap, a.end + 1))
  }

  ghost predicate Follows(text: seq<Char>, space: Char -> bool, overlap: nat, a: Span, b: Span) {
    Continues(text, space, overlap, a, b.start) && StepsOn(text, space, overlap, a, b.start) && a.end <= b.end
  }

  ghost predicate Chunks(text: seq<Char>, space: Char -> bool, chars: nat, overlap: nat, spans: seq<Span>) {
    && (forall k | 0 <= k < |spans| :: Framed(text, space, chars, spans[k]) && CutWell(text, space, chars, spans[k]))
    && (forall k | 0 < k < |spans| :: Follows(text, space, overlap, spans[k - 1], spans[k]))
    && (spans != [] ==> spans[0].start == SkipSpace(text, space, 0))
    && (forall k | 0 <= k < |spans| - 1 :: spans[k].start + chars < |text|)
  }

  /** Nothing is left after the last window: it reaches the end of the text, or only whitespace follows. */
  ghost predicate Complete(text: seq<Char>, space: Char -> bool, chars: nat, overlap: nat, spans: seq<Span>) {
    if spans == [] then SkipSpace(text, space, 0) == |text|
    else
      var last := spans[|spans| - 1];
      last.start + chars >= |text| || Continues(text, space, overlap, last, |text|)
  }

  predicate Within(spans: seq<Span>, i: nat) {
    exists k | 0 <= k < |spans| :: spans[k].start <= i < spans[k].end
  }

  /** Every character before i that is not whitespace is in a window. */
  ghost predicate Covered(text: seq<Char>, space: Char -> bool, spans: seq<Span>, i: int) {
    forall k: nat | k < i && Black(text, space, k) :: Within(spans, k)
  }

  // ---------------------------------------------------------------- the cut and the continuation

  /** Where the window from start ends. */
  method Cut(text: seq<Char>, space: Char -> bool, chars: nat, start: nat) returns (end: nat)
    requires chars >= 2 && Black(text, space, start)
    ensures Framed(text, space, chars, Span(start, end)) && CutWell(text, space, chars, Span(start, end))
  {
    var limit := start + chars;
    if limit >= |text| {
      end := |text|;
    } else {
      var cut := LastSpace(text, space, start + chars / 2, limit);
      end := if cut.Some? then cut.value else limit;
      if cut.None? {
        assert !White(text, space, end - 1);
        return;
      }
    }
    ghost var cut := end;
    while end > start && space(text[end - 1])
      invariant start < end <= cut
      invariant forall i | end <= i < cut :: !Black(text, space, i)
    {
      end := end - 1;
    }
    assert cut < |text| ==> White(text, space, cut);
    forall j | end < j <= limit ensures !WordEnd(text, space, j) {
      if j <= cut {
        assert !Black(text, space, j - 1);
      } else {
        assert !White(text, space, j);
      }
    }
  }

  /** Between a window's end and its middle there is only whitespace. */
  lemma CutReaches(text: seq<Char>, space: Char -> bool, chars: nat, s: Span, i: nat)
    requires Framed(text, space, chars, s) && CutWell(text, space, chars, s) && s.end <= i < s.start + chars / 2
    ensures !Black(text, space, i)
  {
    if Black(text, space, i) {
      NextEnd(text, space, i);
      BlackRun(text, space, i, FindSpace(text, space, i), s.start + chars / 2, s.start + chars);
    }
  }

  lemma NextEnd(text: seq<Char>, space: Char -> bool, i: nat)
    requires Black(text, space, i)
    ensures FindSpace(text, space, i) > i && WordEnd(text, space, FindSpace(text, space, i))
  {
  }

  lemma BlackRun(text: seq<Char>, space: Char -> bool, i: nat, j: nat, low: nat, high: nat)
    requires forall k | i <= k < j :: Black(text, space, k)
    ensures i <= low && high < j ==> NoWhite(text, space, low, high)
  {
    forall k | i <= k < j ensures !White(text, space, k) {
      assert Black(text, space, k);
    }
  }

  /** Where the next window starts, given one that does not reach the end of the text. */
  method Continue(text: seq<Char>, space: Char -> bool, chars: nat, overlap: nat, a: Span) returns (start: nat)
    requires Framed(text, space, chars, a) && a.start + chars < |text|
    ensures start <= |text| && Continues(text, space, overlap, a, start) && (start < |text| ==> Black(text, space, start))
  {
    var following: int := NextWord(text, space, a.end - overlap);
    if !(a.start < following <= a.end) {
      following := if a.end - overlap > a.start then a.end - overlap else a.end;
    }
    start := SkipSpace(text, space, following);
    ghost var next, low := NextWord(text, space, a.end - overlap), a.end - overlap;
    assert !WordStart(text, space, a.end);
    if next < |text| && next >= low {
      assert WordStart(text, space, next);
    }
  }

  /** What is promised of the window after a follows from where it starts. */
  lemma ContinuesOn(text: seq<Char>, space: Char -> bool, chars: nat, overlap: nat, a: Span, start: nat)
    requires Framed(text, space, chars, a) && CutWell(text, space, chars, a) && overlap < chars / 2
    requires Continues(text, space, overlap, a, start)
    ensures StepsOn(text, space, overlap, a, start)
  {
    var low := a.end - overlap;
    assert !WordStart(text, space, a.end);
    if low > a.start && NoWordStart(text, space, low, a.end) {
      InsideWord(text, space, low, a.end);
    }
  }

  /** Where no word starts in a range that ends in a word, all of it is inside that word. */
  lemma {:induction false} InsideWord(text: seq<Char>, space: Char -> bool, low: nat, high: nat)
    requires low <= high && Black(text, space, high - 1) && NoWordStart(text, space, low, high)
    ensures low < high ==> Black(text, space, low) && Black(text, space, low - 1)
    decreases high - low
  {
    if low + 1 < high {
      InsideWord(text, space, low + 1, high);
    }
    assert low < high ==> !WordStart(text, space, low);
  }

  /** Exactly when the window after a shares text with it. A window longer than the overlap always does, unless there is no
      overlap; one no longer than that does only if no word starts from the overlap's beginning to its own start, which is
      then inside a word, and one does after it. */
  lemma Shares(text: seq<Char>, space: Char -> bool, chars: nat, overlap: nat, a: Span, start: nat)
    requires Framed(text, space, chars, a) && Continues(text, space, overlap, a, start)
    ensures start < a.end <==>
            if a.end - a.start > overlap then overlap > 0
            else NoWordStart(text, space, a.end - overlap, a.start + 1) && !NoWordStart(text, space, a.start + 1, a.end)
  {
    var low := a.end - overlap;
    if low > a.start && overlap > 0 && NoWordStart(text, space, low, a.end) {
      InsideWord(text, space, low, a.end);
    }
  }

  /** So a window no longer than the overlap that starts on a word shares nothing with the next. */
  lemma ShortSharesNothing(text: seq<Char>, space: Char -> bool, chars: nat, overlap: nat, a: Span, start: nat)
    requires Framed(text, space, chars, a) && Continues(text, space, overlap, a, start)
    requires a.end - a.start <= overlap && WordStart(text, space, a.start)
    ensures start >= a.end
  {
    Shares(text, space, chars, overlap, a, start);
  }

  /** Two words, whitespace, and one character at the end. */
  function Sparse(ink: Char, blank: Char): (text: seq<Char>)
    ensures |text| == 1000
  {
    [ink, ink, blank, ink, ink] + seq(994, _ => blank) + [ink]
  }

  /** It is cut into two windows that share nothing, with an overlap of 199 asked for. */
  lemma SparseSharesNothing(space: Char -> bool, ink: Char, blank: Char, spans: seq<Span>)
    requires space(blank) && !space(ink)
    requires Chunks(Sparse(ink, blank), space, 400, 199, spans) && Complete(Sparse(ink, blank), space, 400, 199, spans)
    ensures spans == [Span(0, 5), Span(999, 1000)]
  {
    hide Chunks, Complete;
    var text := Sparse(ink, blank);
    assert White(text, space, 200);
    assert WordStart(text, space, 0) && WordEnd(text, space, 5) && SkipSpace(text, space, 0) == 0;
    assert forall i | 5 <= i < 999 :: !Black(text, space, i);
    SkipTo(text, space, 5, 999);
    var two := [Span(0, 5), Span(999, 1000)];
    assert Framed(text, space, 400, two[0]) && CutWell(text, space, 400, two[0]);
    assert Framed(text, space, 400, two[1]) && CutWell(text, space, 400, two[1]);
    assert Continues(text, space, 199, two[0], 999);
    ContinuesOn(text, space, 400, 199, two[0], 999);
    TwoChunks(text, space, 400, 199, two);
    OnlyChunks(text, space, 400, 199, spans, two);
  }

  lemma SkipTo(text: seq<Char>, space: Char -> bool, i: nat, j: nat)
    requires i <= j && Black(text, space, j) && forall k | i <= k < j :: !Black(text, space, k)
    ensures SkipSpace(text, space, i) == j
  {
    var at := SkipSpace(text, space, i);
    assert at <= j;
    assert Black(text, space, at);
  }

  lemma TwoChunks(text: seq<Char>, space: Char -> bool, chars: nat, overlap: nat, two: seq<Span>)
    requires |two| == 2 && (forall k | 0 <= k < 2 :: Framed(text, space, chars, two[k]) && CutWell(text, space, chars, two[k]))
    requires Continues(text, space, overlap, two[0], two[1].start) && StepsOn(text, space, overlap, two[0], two[1].start)
    requires two[0].end <= two[1].end && two[0].start == SkipSpace(text, space, 0)
    requires two[0].start + chars < |text| <= two[1].start + chars
    ensures Chunks(text, space, chars, overlap, two) && Complete(text, space, chars, overlap, two)
  {
    hide Framed, CutWell, Continues, StepsOn;
  }

  // ---------------------------------------------------------------- the windows are determined

  lemma OneCut(text: seq<Char>, space: Char -> bool, chars: nat, a: Span, b: Span)
    requires a.start == b.start && Framed(text, space, chars, a) && Framed(text, space, chars, b)
    requires CutWell(text, space, chars, a) && CutWell(text, space, chars, b)
    ensures a == b
  {
  }

  lemma OneNext(text: seq<Char>, space: Char -> bool, overlap: nat, a: Span, x: nat, y: nat)
    requires Continues(text, space, overlap, a, x) && Continues(text, space, overlap, a, y)
    ensures x == y
  {
  }

  lemma {:induction false} SamePrefix(text: seq<Char>, space: Char -> bool, chars: nat, overlap: nat, xs: seq<Span>,
                                      ys: seq<Span>, k: nat)
    requires Chunks(text, space, chars, overlap, xs) && Chunks(text, space, chars, overlap, ys)
    requires k < |xs| && k < |ys|
    ensures xs[k] == ys[k]
  {
    hide Framed, CutWell, Continues, StepsOn;
    if k > 0 {
      SamePrefix(text, space, chars, overlap, xs, ys, k - 1);
      assert Follows(text, space, overlap, xs[k - 1], xs[k]) && Follows(text, space, overlap, ys[k - 1], ys[k]);
      OneNext(text, space, overlap, xs[k - 1], xs[k].start, ys[k].start);
    }
    OneCut(text, space, chars, xs[k], ys[k]);
  }

  lemma NoLonger(text: seq<Char>, space: Char -> bool, chars: nat, overlap: nat, xs: seq<Span>, ys: seq<Span>)
    requires Chunks(text, space, chars, overlap, xs) && Chunks(text, space, chars, overlap, ys)
    requires Complete(text, space, chars, overlap, xs)
    ensures |ys| <= |xs|
  {
    hide CutWell, Continues, StepsOn;
    if |ys| > |xs| {
      var n := |xs|;
      assert Framed(text, space, chars, ys[n]);
      if n > 0 {
        SamePrefix(text, space, chars, overlap, xs, ys, n - 1);
        assert Follows(text, space, overlap, ys[n - 1], ys[n]);
        if xs[n - 1].start + chars < |text| {
          OneNext(text, space, overlap, ys[n - 1], ys[n].start, |text|);
        }
      }
    }
  }

  /** No other list of windows meets what is said of the result. */
  lemma OnlyChunks(text: seq<Char>, space: Char -> bool, chars: nat, overlap: nat, xs: seq<Span>, ys: seq<Span>)
    requires Chunks(text, space, chars, overlap, xs) && Complete(text, space, chars, overlap, xs)
    requires Chunks(text, space, chars, overlap, ys) && Complete(text, space, chars, overlap, ys)
    ensures xs == ys
  {
    hide Chunks, Complete;
    NoLonger(text, space, chars, overlap, xs, ys);
    NoLonger(text, space, chars, overlap, ys, xs);
    forall k | 0 <= k < |xs| ensures xs[k] == ys[k] {
      SamePrefix(text, space, chars, overlap, xs, ys, k);
    }
  }

  /** The windows of a text: every character that is not whitespace is in one. */
  method ChunkText(text: seq<Char>, space: Char -> bool, chars: int, overlap: int) returns (r: Result<seq<Span>, Bad>)
    ensures r == Err(BadSize) <==> !(200 <= chars <= 4000)
    ensures r == Err(BadOverlap) <==> 200 <= chars <= 4000 && !(0 <= overlap < chars / 2)
    ensures r.Ok? ==> chars >= 0 && overlap >= 0 && Chunks(text, space, chars, overlap, r.value)
    ensures r.Ok? ==> Complete(text, space, chars, overlap, r.value) && Covered(text, space, r.value, |text|)
  {
    hide Chunks, Framed, CutWell, Continues, Black, Covered, Within;
    if !(200 <= chars <= 4000) { return Err(BadSize); }
    if !(0 <= overlap < chars / 2) { return Err(BadOverlap); }
    var spans: seq<Span> := [];
    var start := SkipSpace(text, space, 0);
    NoChunks(text, space, chars, overlap);
    while start < |text|
      invariant start <= |text| && (start < |text| ==> Black(text, space, start))
      invariant Chunks(text, space, chars, overlap, spans) && Covered(text, space, spans, start)
      invariant spans != [] ==> Continues(text, space, overlap, spans[|spans| - 1], start)
      invariant spans != [] ==> spans[|spans| - 1].start + chars < |text|
      invariant spans == [] ==> start == SkipSpace(text, space, 0)
      decreases |text| - start
    {
      var span, last := Window(text, space, chars, overlap, spans, start);
      spans := spans + [span];
      if last { return Ok(spans); }
      start := Next(text, space, chars, overlap, spans, span);
    }
    return Ok(spans);
  }

  /** The next window, and whether it reaches the end of the text. */
  method Window(text: seq<Char>, space: Char -> bool, chars: nat, overlap: nat, ghost spans: seq<Span>, start: nat)
      returns (span: Span, last: bool)
    requires 2 <= chars && overlap < chars / 2 && Black(text, space, start)
    requires Chunks(text, space, chars, overlap, spans) && Covered(text, space, spans, start)
    requires spans != [] ==> Continues(text, space, overlap, spans[|spans| - 1], start)
    requires spans != [] ==> spans[|spans| - 1].start + chars < |text|
    requires spans == [] ==> start == SkipSpace(text, space, 0)
    ensures span.start == start && Framed(text, space, chars, span) && CutWell(text, space, chars, span)
    ensures Chunks(text, space, chars, overlap, spans + [span]) && Covered(text, space, spans + [span], span.end)
    ensures last <==> start + chars >= |text|
    ensures last ==> Covered(text, space, spans + [span], |text|)
  {
    hide Chunks, Framed, CutWell, Continues, StepsOn, Black, Covered, Within;
    var end := Cut(text, space, chars, start);
    span, last := Span(start, end), start + chars >= |text|;
    if spans != [] {
      LastFramed(text, space, chars, overlap, spans);
      ContinuesOn(text, space, chars, overlap, spans[|spans| - 1], start);
      EndsNoEarlier(text, space, chars, overlap, spans[|spans| - 1], span);
    }
    ChunksMore(text, space, chars, overlap, spans, span);
    Reaches(text, space, spans, span);
    if last {
      LastWordEnd(text, space, chars, span);
      AllCovered(text, space, spans + [span], end);
    }
  }

  method Next(text: seq<Char>, space: Char -> bool, chars: nat, overlap: nat, ghost spans: seq<Span>, span: Span)
      returns (start: nat)
    requires Framed(text, space, chars, span) && CutWell(text, space, chars, span) && overlap < chars / 2
    requires Covered(text, space, spans, span.end) && span.start + chars < |text|
    ensures start <= |text| && Continues(text, space, overlap, span, start) && span.start < start
    ensures (start < |text| ==> Black(text, space, start)) && Covered(text, space, spans, start)
  {
    hide Framed, CutWell, Black, Covered, Continues;
    start := Continue(text, space, chars, overlap, span);
    ContinuesOn(text, space, chars, overlap, span, start);
    CoveredOn(text, space, overlap, spans, span, start);
  }

  /** Behind a window that reaches the end of the text there is only whitespace. */
  lemma LastWordEnd(text: seq<Char>, space: Char -> bool, chars: nat, s: Span)
    requires Framed(text, space, chars, s) && CutWell(text, space, chars, s) && s.start + chars >= |text|
    ensures forall i | s.end <= i :: !Black(text, space, i)
  {
    forall i | s.end <= i ensures !Black(text, space, i) {
      if Black(text, space, i) {
        NextEnd(text, space, i);
      }
    }
  }

  lemma LastFramed(text: seq<Char>, space: Char -> bool, chars: nat, overlap: nat, spans: seq<Span>)
    requires Chunks(text, space, chars, overlap, spans) && spans != []
    ensures Framed(text, space, chars, spans[|spans| - 1]) && CutWell(text, space, chars, spans[|spans| - 1])
  {
  }

  lemma NoChunks(text: seq<Char>, space: Char -> bool, chars: nat, overlap: nat)
    ensures Chunks(text, space, chars, overlap, []) && Covered(text, space, [], SkipSpace(text, space, 0))
  {
  }

  lemma ChunksMore(text: seq<Char>, space: Char -> bool, chars: nat, overlap: nat, spans: seq<Span>, span: Span)
    requires Chunks(text, space, chars, overlap, spans)
    requires Framed(text, space, chars, span) && CutWell(text, space, chars, span)
    requires spans != [] ==> Follows(text, space, overlap, spans[|spans| - 1], span)
    requires if spans == [] then span.start == SkipSpace(text, space, 0) else spans[|spans| - 1].start + chars < |text|
    ensures Chunks(text, space, chars, overlap, spans + [span])
  {
    hide Framed, CutWell, Follows;
  }

  lemma WithinMore(before: seq<Span>, span: Span, i: nat)
    ensures Within(before, i) || span.start <= i < span.end ==> Within(before + [span], i)
  {
    var after := before + [span];
    if Within(before, i) {
      var k :| 0 <= k < |before| && before[k].start <= i < before[k].end;
      assert after[k] == before[k];
    }
    assert after[|before|] == span;
  }

  lemma Reaches(text: seq<Char>, space: Char -> bool, before: seq<Span>, span: Span)
    requires Covered(text, space, before, span.start)
    ensures Covered(text, space, before + [span], span.end)
  {
    forall i: nat | i < span.end && Black(text, space, i) ensures Within(before + [span], i) {
      WithinMore(before, span, i);
    }
  }

  lemma CoveredOn(text: seq<Char>, space: Char -> bool, overlap: nat, spans: seq<Span>, span: Span, start: nat)
    requires Covered(text, space, spans, span.end) && StepsOn(text, space, overlap, span, start)
    ensures Covered(text, space, spans, start)
  {
  }

  lemma AllCovered(text: seq<Char>, space: Char -> bool, spans: seq<Span>, end: nat)
    requires Covered(text, space, spans, end) && forall i | end <= i :: !Black(text, space, i)
    ensures Covered(text, space, spans, |text|)
  {
  }

  /** A window ends no earlier than the one before it: it runs past its own middle, or up to the last word in reach. */
  lemma EndsNoEarlier(text: seq<Char>, space: Char -> bool, chars: nat, overlap: nat, a: Span, b: Span)
    requires Framed(text, space, chars, a) && Framed(text, space, chars, b) && overlap < chars / 2
    requires StepsOn(text, space, overlap, a, b.start) && CutWell(text, space, chars, b)
    ensures a.end <= b.end
  {
    if b.end <= a.end - 1 {
      CutReaches(text, space, chars, b, a.end - 1);
    }
    assert Black(text, space, a.end - 1);
  }
}
