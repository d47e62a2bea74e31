/** The check-digit tests that keep arbitrary digit runs from being hidden: Luhn for cards, remainder 97 for IBANs. */
module CheckDigits {
  import opened Wrappers

  type Digit = d: int | 0 <= d < 10

  // ---------------------------------------------------------------- Luhn: Annex B of ISO/IEC 7812-1

  /** What a digit adds: every second one from the right counts double, less nine when that passes nine. */
  function Weight(d: Digit, doubled: bool): Digit {
    if !doubled then d else if d > 4 then d * 2 - 9 else d * 2
  }

  function LuhnSum(digits: seq<Digit>): nat {
    if digits == [] then 0 else Weight(digits[0], (|digits| - 1) % 2 == 1) + LuhnSum(digits[1..])
  }

  predicate LuhnValid(digits: seq<Digit>) {
    LuhnSum(digits) % 10 == 0
  }

  /** The sum from the right, as the test adds it up. */
  method Luhn(digits: seq<Digit>) returns (ok: bool)
    ensures ok <==> LuhnValid(digits)
  {
    var total: nat := 0;
    for index := 0 to |digits|
      invariant total == LuhnSum(digits[|digits| - index..])
    {
      var from := |digits| - index - 1;
      var value: int := digits[from];
      if index % 2 == 1 {
        value := if value > 4 then value * 2 - 9 else value * 2;
      }
      assert digits[from..][0] == digits[from] && digits[from..][1..] == digits[from + 1..];
      total := total + value;
    }
    assert digits[0..] == digits;
    return total % 10 == 0;
  }

  /** What stands behind a part of even length does not change what the part adds. */
  lemma {:induction false} LuhnSplit(before: seq<Digit>, tail: seq<Digit>)
    requires |tail| % 2 == 0
    ensures LuhnSum(before + tail) == LuhnSum(before) + LuhnSum(tail)
  {
    if before == [] {
      assert before + tail == tail;
    } else {
      assert (before + tail)[1..] == before[1..] + tail;
      LuhnSplit(before[1..], tail);
    }
  }

  function DigitSum(n: nat): nat {
    if n < 10 then n else n % 10 + DigitSum(n / 10)
  }

  /** The sum, two digits from the right at a time: the last adds itself, the one before it the digits of its double. A
      single digit adds itself. */
  lemma LuhnPair(digits: seq<Digit>, a: Digit, b: Digit)
    ensures LuhnSum(digits + [a, b]) == LuhnSum(digits) + DigitSum(2 * a) + b
    ensures LuhnSum([b]) == b
  {
    hide LuhnSum;
    LuhnSplit(digits, [a, b]);
    LuhnTwo(a, b);
  }

  lemma LuhnTwo(a: Digit, b: Digit)
    ensures LuhnSum([a, b]) == DigitSum(2 * a) + b && LuhnSum([b]) == b
  {
    assert [a, b][1..] == [b] && [b][1..] == [];
    assert LuhnSum([b]) == b;
    DoubleDigits(a);
  }

  lemma DoubleDigits(d: Digit)
    ensures DigitSum(2 * d) == Weight(d, true)
  {
    assert 2 * d >= 10 ==> (2 * d) % 10 == 2 * d - 10 && (2 * d) / 10 == 1;
  }

  /** For every payload exactly one digit can be appended to make a valid number. */
  lemma LuhnCheckDigit(payload: seq<Digit>) returns (check: Digit)
    ensures forall d: Digit :: LuhnValid(payload + [d]) <==> d == check
    ensures (LuhnSum(payload + [0]) + check) % 10 == 0
  {
    hide LuhnSum;
    check := (10 - LuhnSum(payload + [0]) % 10) % 10;
    forall d: Digit ensures LuhnSum(payload + [d]) == LuhnSum(payload + [0]) + d {
      LuhnLast(payload, d);
    }
  }

  /** The last digit adds itself. */
  lemma LuhnLast(payload: seq<Digit>, d: Digit)
    ensures LuhnSum(payload + [d]) == LuhnSum(payload + [0]) + d
  {
    if payload == [] {
      assert payload + [d] == [d] && payload + [0] == [0];
      LuhnPair([], 0, d);
      LuhnPair([], 0, 0);
    } else {
      var n := |payload| - 1;
      assert payload + [d] == payload[..n] + [payload[n], d];
      assert payload + [0] == payload[..n] + [payload[n], 0];
      LuhnPair(payload[..n], payload[n], d);
      LuhnPair(payload[..n], payload[n], 0);
    }
  }

  predicate Doubled(length: nat, i: nat)
    requires i < length
  {
    (length - 1 - i) % 2 == 1
  }

  /** Changing one digit changes the sum by that digit's weight alone. */
  lemma {:induction false} LuhnChange(digits: seq<Digit>, i: nat, d: Digit)
    requires i < |digits|
    ensures LuhnSum(digits[i := d]) + Weight(digits[i], Doubled(|digits|, i)) ==
            LuhnSum(digits) + Weight(d, Doubled(|digits|, i))
  {
    var after := digits[i := d];
    if i == 0 {
      assert after[1..] == digits[1..];
    } else {
      assert after[1..] == digits[1..][i - 1 := d];
      LuhnChange(digits[1..], i - 1, d);
    }
  }

  /** A valid number with any one digit changed is not valid. */
  lemma LuhnSingle(digits: seq<Digit>, i: nat, d: Digit)
    requires LuhnValid(digits) && i < |digits| && d != digits[i]
    ensures !LuhnValid(digits[i := d])
  {
    hide LuhnSum, Weight, Doubled;
    LuhnChange(digits, i, d);
    WeightDiffers(d, digits[i], Doubled(|digits|, i));
  }

  /** Two digits never weigh the same, and no more than nine apart. */
  lemma WeightDiffers(a: Digit, b: Digit, doubled: bool)
    requires a != b
    ensures Weight(a, doubled) != Weight(b, doubled) && -9 <= Weight(a, doubled) - Weight(b, doubled) <= 9
  {
  }

  /** A valid number with two neighbours swapped stays valid exactly when they are equal, or are 0 and 9. */
  lemma LuhnSwap(digits: seq<Digit>, i: nat)
    requires LuhnValid(digits) && i + 1 < |digits|
    ensures LuhnValid(digits[i := digits[i + 1]][i + 1 := digits[i]]) <==>
            digits[i] == digits[i + 1] || {digits[i], digits[i + 1]} == {0, 9}
  {
    hide LuhnSum, Weight;
    var a, b := digits[i], digits[i + 1];
    LuhnChange(digits, i, b);
    LuhnChange(digits[i := b], i + 1, a);
    SwapWeights(a, b, Doubled(|digits|, i));
    assert Doubled(|digits|, i + 1) == !Doubled(|digits|, i);
    PairIs(a, b);
  }

  lemma PairIs(a: Digit, b: Digit)
    ensures {a, b} == {0, 9} <==> (a == 0 && b == 9) || (a == 9 && b == 0)
  {
    if {a, b} == {0, 9} {
      assert 0 in {a, b} && 9 in {a, b};
    }
  }

  lemma SwapWeights(a: Digit, b: Digit, first: bool)
    ensures (Weight(a, first) + Weight(b, !first) - Weight(b, first) - Weight(a, !first)) % 10 == 0 <==>
            a == b || (a == 0 && b == 9) || (a == 9 && b == 0)
  {
  }

  // ---------------------------------------------------------------- IBANs: ISO 13616, ISO/IEC 7064 MOD 97-10

  /** A character of an IBAN as a number: a digit's own, a letter's from 10 to 35. */
  type Sign = v: int | 0 <= v < 36

  predicate Letter(v: Sign) {
    v >= 10
  }

  function Base(v: Sign): nat {
    if Letter(v) then 100 else 10
  }

  /** The decimal number the characters spell when each is written as its number. */
  function Number(signs: seq<Sign>): nat {
    if signs == [] then 0
    else Number(signs[..|signs| - 1]) * Base(signs[|signs| - 1]) + signs[|signs| - 1]
  }

  /** The number that digits spell in decimal. */
  function Decimal(digits: seq<Digit>): nat {
    if digits == [] then 0 else Decimal(digits[..|digits| - 1]) * 10 + digits[|digits| - 1]
  }

  /** Each character written as the digits of its number. */
  function Spelled(signs: seq<Sign>): seq<Digit> {
    if signs == [] then []
    else
      var v := signs[|signs| - 1];
      Spelled(signs[..|signs| - 1]) + if Letter(v) then [v / 10, v % 10] else [v]
  }

  lemma {:induction false} NumberSpells(signs: seq<Sign>)
    ensures Number(signs) == Decimal(Spelled(signs))
  {
    if signs != [] {
      var n := |signs| - 1;
      var v, before := signs[n], Spelled(signs[..n]);
      NumberSpells(signs[..n]);
      if Letter(v) {
        DecimalMore(before, v / 10);
        DecimalMore(before + [v / 10], v % 10);
        assert before + [v / 10, v % 10] == before + [v / 10] + [v % 10];
      } else {
        DecimalMore(before, v);
      }
    }
  }

  lemma DecimalMore(digits: seq<Digit>, d: Digit)
    ensures Decimal(digits + [d]) == Decimal(digits) * 10 + d
  {
    assert (digits + [d])[..|digits|] == digits;
  }

  function Rearranged(compact: seq<Sign>): seq<Sign>
    requires |compact| >= 4
  {
    compact[4..] + compact[..4]
  }

  predicate IbanValid(compact: seq<Sign>) {
    15 <= |compact| <= 34 && Number(Rearranged(compact)) % 97 == 1
  }

  /** How far what follows shifts what stands before it. */
  function Shift(signs: seq<Sign>): nat {
    if signs == [] then 1 else Shift(signs[..|signs| - 1]) * Base(signs[|signs| - 1])
  }

  lemma {:induction false} NumberSplit(a: seq<Sign>, b: seq<Sign>)
    ensures Number(a + b) == Number(a) * Shift(b) + Number(b)
  {
    if b == [] {
      assert a + b == a;
    } else {
      var n := |b| - 1;
      assert (a + b)[..|a + b| - 1] == a + b[..n];
      NumberSplit(a, b[..n]);
      Distribute(Number(a), Shift(b[..n]), Number(b[..n]), Base(b[n]));
    }
  }

  lemma Distribute(x: nat, s: nat, y: nat, k: nat)
    ensures (x * s + y) * k == x * (s * k) + y * k
  {
  }

  /** 10 has an inverse modulo 97, so no shift hides a difference. */
  lemma {:induction false} ShiftCancels(d: int, signs: seq<Sign>)
    requires (d * Shift(signs)) % 97 == 0
    ensures d % 97 == 0
    decreases |signs|
  {
    if signs == [] {
      assert d * 1 == d;
    } else {
      var n := |signs| - 1;
      Regroup(d, Shift(signs[..n]), Base(signs[n]));
      BaseCancels(d * Shift(signs[..n]), signs[n]);
      ShiftCancels(d, signs[..n]);
    }
  }

  lemma BaseCancels(x: int, v: Sign)
    requires (x * Base(v)) % 97 == 0
    ensures x % 97 == 0
  {
    if Letter(v) {
      assert x * 100 == x * 10 * 10;
      TenCancels(x * 10);
    }
    TenCancels(x);
  }

  lemma Regroup(a: int, b: int, c: int)
    ensures a * (b * c) == a * b * c
  {
  }

  lemma TenCancels(x: int)
    requires (x * 10) % 97 == 0
    ensures x % 97 == 0
  {
    var q := x * 10 / 97;
    assert x == 97 * (68 * q - 7 * x);
  }

  lemma NumberSplit3(before: seq<Sign>, part: seq<Sign>, after: seq<Sign>)
    ensures Number(before + part + after) ==
            (Number(before) * Shift(part) + Number(part)) * Shift(after) + Number(after)
  {
    hide *;
    NumberSplit(before + part, after);
    NumberSplit(before, part);
  }

  lemma Gap(x: int, y: int, base: int, a: int, b: int, s: int, c: int)
    requires x == (base + a) * s + c && y == (base + b) * s + c
    ensures x - y == (a - b) * s
  {
  }

  /** Texts that differ in a part, of one shift, differ in their remainder when the parts do. */
  lemma PartDiffers(before: seq<Sign>, one: seq<Sign>, other: seq<Sign>, after: seq<Sign>)
    requires Shift(one) == Shift(other) && (Number(one) - Number(other)) % 97 != 0
    ensures Number(before + one + after) % 97 != Number(before + other + after) % 97
  {
    hide *;
    NumberSplit3(before, one, after);
    NumberSplit3(before, other, after);
    var x, y := Number(before + one + after), Number(before + other + after);
    Gap(x, y, Number(before) * Shift(one), Number(one), Number(other), Shift(after), Number(after));
    SameRemainder(x, y);
    if x % 97 == y % 97 {
      ShiftCancels(Number(one) - Number(other), after);
    }
  }

  lemma SameRemainder(x: int, y: int)
    ensures x % 97 == y % 97 ==> (x - y) % 97 == 0
  {
  }

  lemma One(v: Sign)
    ensures Number([v]) == v && Shift([v]) == Base(v)
  {
    assert [v][..0] == [];
  }

  lemma Two(v: Sign, w: Sign)
    ensures Number([v, w]) == v * Base(w) + w && Shift([v, w]) == Base(v) * Base(w)
  {
    assert [v, w][..1] == [v];
    One(v);
  }

  /** In the rearranged text, one character replaced by another of its class changes the remainder. */
  lemma SignChange(signs: seq<Sign>, i: nat, v: Sign)
    requires i < |signs| && v != signs[i] && Letter(v) == Letter(signs[i])
    ensures Number(signs[i := v]) % 97 != Number(signs) % 97
  {
    hide Number, Shift;
    One(v);
    One(signs[i]);
    assert signs == signs[..i] + [signs[i]] + signs[i + 1..];
    assert signs[i := v] == signs[..i] + [v] + signs[i + 1..];
    PartDiffers(signs[..i], [v], [signs[i]], signs[i + 1..]);
  }

  function Swapped(signs: seq<Sign>, i: nat): seq<Sign>
    requires i + 1 < |signs|
  {
    signs[i := signs[i + 1]][i + 1 := signs[i]]
  }

  lemma SwapDiffers(a: Sign, b: Sign)
    requires a != b && Letter(a) == Letter(b)
    ensures ((b * Base(a) + a) - (a * Base(b) + b)) % 97 != 0
    ensures Base(a) * Base(b) == Base(b) * Base(a)
  {
    if Letter(a) {
      Remainder(b - a, 2 * (b - a));
    } else {
      Remainder(0, 9 * (b - a));
    }
  }

  /** Nothing but 0 below 97 either way leaves no remainder, whatever whole multiples are added. */
  lemma Remainder(q: int, x: int)
    requires -97 < x < 97 && x != 0
    ensures (97 * q + x) % 97 != 0
  {
    if x > 0 {
      RemainderIs(q, x);
    } else {
      RemainderIs(q - 1, x + 97);
      assert 97 * (q - 1) + (x + 97) == 97 * q + x;
    }
  }

  lemma RemainderIs(q: int, x: int)
    requires 0 <= x < 97
    ensures (97 * q + x) % 97 == x
  {
  }

  /** And so do two unequal neighbours of one class that change places. */
  lemma SignSwap(signs: seq<Sign>, i: nat)
    requires i + 1 < |signs| && signs[i] != signs[i + 1] && Letter(signs[i]) == Letter(signs[i + 1])
    ensures Number(Swapped(signs, i)) % 97 != Number(signs) % 97
  {
    hide Number, Shift;
    var a, b := signs[i], signs[i + 1];
    Two(a, b);
    Two(b, a);
    assert signs == signs[..i] + [a, b] + signs[i + 2..];
    assert Swapped(signs, i) == signs[..i] + [b, a] + signs[i + 2..];
    SwapDiffers(a, b);
    PartDiffers(signs[..i], [b, a], [a, b], signs[i + 2..]);
  }

  /** A valid IBAN with one character replaced by another of its class is not valid. */
  lemma IbanSingle(compact: seq<Sign>, i: nat, v: Sign)
    requires IbanValid(compact) && i < |compact| && v != compact[i] && Letter(v) == Letter(compact[i])
    ensures !IbanValid(compact[i := v])
  {
    var at := if i < 4 then |compact| - 4 + i else i - 4;
    assert Rearranged(compact[i := v]) == Rearranged(compact)[at := v];
    SignChange(Rearranged(compact), at, v);
  }

  /** Nor with two unequal neighbours of one class swapped, both before the fourth place or both after it. */
  lemma IbanSwap(compact: seq<Sign>, i: nat)
    requires IbanValid(compact) && i + 1 < |compact| && i != 3
    requires compact[i] != compact[i + 1] && Letter(compact[i]) == Letter(compact[i + 1])
    ensures !IbanValid(Swapped(compact, i))
  {
    var at := if i < 4 then |compact| - 4 + i else i - 4;
    assert Rearranged(Swapped(compact, i)) == Swapped(Rearranged(compact), at);
    SignSwap(Rearranged(compact), at);
  }

  /** Of 15 to 34 characters whose third and fourth are digits, those two decide: they are 98 less the remainder modulo 97
      of what the others spell, the first two behind the rest, with two zeros in place of the check digits. */
  lemma IbanChecks(compact: seq<Sign>)
    requires |compact| >= 4 && !Letter(compact[2]) && !Letter(compact[3])
    ensures IbanValid(compact) <==>
              && 15 <= |compact| <= 34
              && (10 * (compact[2] as int) + compact[3] as int) % 97 ==
                 (98 - Decimal(Spelled(compact[4..] + compact[..2] + [0, 0])) % 97) % 97
  {
    hide Number, Spelled, Decimal;
    var others, check := compact[4..] + compact[..2], [compact[2], compact[3]];
    assert Rearranged(compact) == others + check;
    NumberSpells(others + [0, 0]);
    NumberSplit(others, check);
    NumberSplit(others, [0, 0]);
    Two(compact[2], compact[3]);
    Two(0, 0);
    Complement(Number(others + [0, 0]), 10 * (compact[2] as int) + compact[3] as int);
  }

  lemma Complement(n: nat, k: nat)
    ensures (n + k) % 97 == 1 <==> k % 97 == (98 - n % 97) % 97
  {
  }

  // ---------------------------------------------------------------- finding the IBAN in a match

  /** A matched candidate: its characters, with single spaces between groups. */
  datatype Mark = Space | Shown(sign: Sign)

  function Compact(candidate: seq<Mark>): seq<Sign> {
    if candidate == [] then []
    else (if candidate[0].Shown? then [candidate[0].sign] else []) + Compact(candidate[1..])
  }

  predicate Iban(candidate: seq<Mark>) {
    IbanValid(Compact(candidate))
  }

  /** A place where the candidate may be cut: its end, or before a space. */
  predicate Boundary(candidate: seq<Mark>, n: nat) {
    n <= |candidate| && (n == |candidate| || candidate[n].Space?)
  }

  /** Where the last space stands. */
  function LastSpace(candidate: seq<Mark>): (at: Option<nat>)
    ensures at.None? <==> Space !in candidate
    ensures at.Some? ==> at.value < |candidate| && candidate[at.value].Space?
    ensures at.Some? ==> forall k | at.value < k < |candidate| :: candidate[k].Shown?
  {
    if candidate == [] then None
    else if candidate[|candidate| - 1].Space? then Some(|candidate| - 1)
    else
      assert candidate == candidate[..|candidate| - 1] + [candidate[|candidate| - 1]];
      LastSpace(candidate[..|candidate| - 1])
  }

  lemma {:induction false} CompactPrefix(candidate: seq<Mark>, n: nat)
    requires n <= |candidate|
    ensures |Compact(candidate[..n])| <= |Compact(candidate)|
  {
    if n > 0 {
      assert candidate[..n][1..] == candidate[1..][..n - 1];
      CompactPrefix(candidate[1..], n - 1);
    }
  }

  lemma NoBoundary(matched: seq<Mark>, size: nat, at: nat, n: nat)
    requires size <= |matched| && forall k | at < k < size :: matched[k].Shown?
    ensures at < n < size ==> !Boundary(matched, n)
  {
  }

  /** A match may take in groups behind the number. Of its prefixes that end with a group, the longest that is an IBAN is
      found, or there is none. */
  method TrimIban(matched: seq<Mark>) returns (end: Option<nat>)
    ensures end.Some? ==> Boundary(matched, end.value) && Iban(matched[..end.value])
    ensures end.Some? ==> forall n: nat | end.value < n && Boundary(matched, n) :: !Iban(matched[..n])
    ensures end.None? ==> forall n: nat | Boundary(matched, n) :: !Iban(matched[..n])
  {
    var candidate := matched;
    while |Compact(candidate)| >= 15
      invariant |candidate| <= |matched| && candidate == matched[..|candidate|] && Boundary(matched, |candidate|)
      invariant forall n: nat | |candidate| < n && Boundary(matched, n) :: !Iban(matched[..n])
      decreases |candidate|
    {
      if Iban(candidate) { return Some(|candidate|); }
      var at := LastSpace(candidate);
      if at.None? {
        forall n: nat | Boundary(matched, n) ensures !Iban(matched[..n]) {
          if n < |candidate| {
            assert candidate[n] in candidate;
          }
        }
        return None;
      }
      forall n: nat | at.value < n && Boundary(matched, n) ensures !Iban(matched[..n]) {
        NoBoundary(matched, |candidate|, at.value, n);
      }
      candidate := candidate[..at.value];
    }
    forall n: nat | Boundary(matched, n) ensures !Iban(matched[..n]) {
      if n <= |candidate| {
        CompactPrefix(candidate, n);
        assert candidate[..n] == matched[..n];
      }
    }
    return None;
  }
}
