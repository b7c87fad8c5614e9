/** Positional number systems: big-endian digit strings and the numbers they stand for. */
module Digits {

  function Value(digits: seq<nat>, base: nat): (n: nat)
  {
    if digits == [] then 0 else Value(digits[..|digits| - 1], base) * base + digits[|digits| - 1]
  }

  /** The digits of n without a leading zero; none at all for 0. */
  function DigitsOf(n: nat, base: nat): (digits: seq<nat>)
    requires base >= 2
    ensures forall i | 0 <= i < |digits| :: digits[i] < base
    ensures digits != [] ==> digits[0] != 0
    ensures n > 0 ==> digits != []
    decreases n
  {
    if n == 0 then [] else DigitsOf(n / base, base) + [n % base]
  }

  function Zeros(n: nat): (zeros: seq<nat>)
    ensures |zeros| == n && forall i | 0 <= i < n :: zeros[i] == 0
  {
    seq(n, _ => 0)
  }

  function LeadingZeros(digits: seq<nat>): (n: nat)
    ensures n <= |digits|
    ensures forall i | 0 <= i < n :: digits[i] == 0
    ensures n < |digits| ==> digits[n] != 0
  {
    if digits == [] || digits[0] != 0 then 0 else 1 + LeadingZeros(digits[1..])
  }

  /** Rewrites a digit string in another base, keeping the number of leading zeros. */
  function Convert(digits: seq<nat>, source: nat, target: nat): seq<nat>
    requires target >= 2
  {
    Zeros(LeadingZeros(digits)) + DigitsOf(Value(digits, source), target)
  }

  ghost predicate InBase(digits: seq<nat>, base: nat) {
    forall i | 0 <= i < |digits| :: digits[i] < base
  }

  lemma {:induction false} ValueAppended(init: seq<nat>, last: nat, base: nat)
    ensures Value(init + [last], base) == Value(init, base) * base + last
  {
    assert (init + [last])[..|init|] == init;
  }

  lemma DivMod(n: nat, base: nat)
    requires base >= 1
    ensures (n / base) * base + n % base == n
  {
  }

  lemma {:induction false} ValueOfDigits(n: nat, base: nat)
    requires base >= 2
    ensures Value(DigitsOf(n, base), base) == n
    decreases n
  {
    if n > 0 {
      var q, r := n / base, n % base;
      DivMod(n, base);
      QuotientSmaller(n, q, r, base);
      ValueOfDigits(q, base);
      ValueAppended(DigitsOf(q, base), r, base);
      assert DigitsOf(n, base) == DigitsOf(q, base) + [r];
    }
  }

  lemma QuotientSmaller(n: nat, q: nat, r: nat, base: nat)
    requires base >= 2 && n > 0 && n == q * base + r
    ensures q < n
  {
    assert q * base >= q * 2;
  }

  lemma {:induction false} DigitsOfValue(digits: seq<nat>, base: nat)
    requires base >= 2 && InBase(digits, base)
    requires digits != [] ==> digits[0] != 0
    ensures DigitsOf(Value(digits, base), base) == digits
  {
    if digits != [] {
      var init, last := digits[..|digits| - 1], digits[|digits| - 1];
      DigitsOfValue(init, base);
      var v := Value(init, base);
      QuotientAndRemainder(v, last, base);
      assert init != [] ==> v > 0;
      assert digits == init + [last];
    }
  }

  lemma QuotientAndRemainder(q: nat, r: nat, base: nat)
    requires r < base
    ensures (q * base + r) / base == q && (q * base + r) % base == r
  {
    var n := q * base + r;
    var d := n / base - q;
    assert n == (n / base) * base + n % base;
    assert d * base == r - n % base;
    assert d >= 1 ==> d * base >= base;
    assert d <= -1 ==> d * base <= 0 - base;
  }

  lemma {:induction false} ZerosAreWorthNothing(k: nat, digits: seq<nat>, base: nat)
    ensures Value(Zeros(k) + digits, base) == Value(digits, base)
    decreases k + |digits|
  {
    if digits != [] {
      ZerosAreWorthNothing(k, digits[..|digits| - 1], base);
      assert (Zeros(k) + digits)[..k + |digits| - 1] == Zeros(k) + digits[..|digits| - 1];
    } else if k > 0 {
      ZerosAreWorthNothing(k - 1, [], base);
      assert (Zeros(k) + [])[..k - 1] == Zeros(k - 1) + [];
    }
  }

  lemma {:induction false} LeadingZerosOf(k: nat, digits: seq<nat>)
    requires digits != [] ==> digits[0] != 0
    ensures LeadingZeros(Zeros(k) + digits) == k
  {
    var s := Zeros(k) + digits;
    assert forall i | 0 <= i < k :: s[i] == 0;
    assert digits != [] ==> s[k] == digits[0];
  }

  /** Converting there and back returns the same string: leading zeros and all-zero strings included. */
  lemma ConvertBack(digits: seq<nat>, source: nat, target: nat)
    requires source >= 2 && target >= 2 && InBase(digits, source)
    ensures InBase(Convert(digits, source, target), target)
    ensures Convert(Convert(digits, source, target), target, source) == digits
  {
    var k := LeadingZeros(digits);
    var rest := digits[k..];
    assert digits == Zeros(k) + rest;
    ZerosAreWorthNothing(k, rest, source);
    var n := Value(rest, source);
    ZerosAreWorthNothing(k, DigitsOf(n, target), target);
    LeadingZerosOf(k, DigitsOf(n, target));
    ValueOfDigits(n, target);
    DigitsOfValue(rest, source);
  }

  function Pow(base: nat, n: nat): nat {
    if n == 0 then 1 else base * Pow(base, n - 1)
  }

  lemma {:induction false} PowAdds(base: nat, m: nat, n: nat)
    ensures Pow(base, m + n) == Pow(base, m) * Pow(base, n)
  {
    if m > 0 {
      PowAdds(base, m - 1, n);
      assert Pow(base, m + n) == base * Pow(base, m - 1 + n);
      assert base * (Pow(base, m - 1) * Pow(base, n)) == (base * Pow(base, m - 1)) * Pow(base, n);
    }
  }

  /** A number's length and first digit, from the interval it lies in. */
  lemma {:induction false} LengthAndLead(n: nat, base: nat, len: nat, lead: nat)
    requires base >= 2 && len >= 1 && 0 < lead < base
    requires lead * Pow(base, len - 1) <= n < (lead + 1) * Pow(base, len - 1)
    ensures |DigitsOf(n, base)| == len && DigitsOf(n, base)[0] == lead
    decreases len
  {
    if len == 1 {
      assert n == lead;
      QuotientAndRemainder(0, n, base);
      assert DigitsOf(n, base) == DigitsOf(0, base) + [n];
    } else {
      var p := Pow(base, len - 2);
      QuotientBetween(n, base, p, lead);
      PowPositive(base, len - 2);
      LengthAndLead(n / base, base, len - 1, lead);
    }
  }

  lemma QuotientBetween(n: nat, base: nat, p: nat, lead: nat)
    requires base >= 2 && lead > 0
    requires lead * (base * p) <= n < (lead + 1) * (base * p)
    ensures lead * p <= n / base < (lead + 1) * p
    ensures n > 0
  {
    var q := n / base;
    DivMod(n, base);
    assert (lead * p) * base == lead * (base * p) && ((lead + 1) * p) * base == (lead + 1) * (base * p);
    if q < lead * p {
      MulGap(q, lead * p, base);
    }
    if q >= (lead + 1) * p {
      MulMonotone((lead + 1) * p, q, base);
    }
  }

  lemma MulMonotone(a: nat, b: nat, base: nat)
    requires a <= b
    ensures a * base <= b * base
  {
  }

  lemma MulGap(a: int, b: int, base: nat)
    requires a < b
    ensures a * base + base <= b * base
  {
    assert (a + 1) * base <= b * base;
  }

  lemma {:induction false} PowPositive(base: nat, n: nat)
    requires base >= 1
    ensures Pow(base, n) >= 1
  {
    if n > 0 {
      PowPositive(base, n - 1);
    }
  }

  lemma {:induction false} ValueBound(digits: seq<nat>, base: nat)
    requires base >= 2 && InBase(digits, base)
    ensures Value(digits, base) < Pow(base, |digits|)
  {
    if digits != [] {
      var init := digits[..|digits| - 1];
      ValueBound(init, base);
      MulGap(Value(init, base), Pow(base, |init|), base);
    }
  }

  lemma {:induction false} ValueSplits(head: seq<nat>, tail: seq<nat>, base: nat)
    ensures Value(head + tail, base) == Value(head, base) * Pow(base, |tail|) + Value(tail, base)
    decreases |tail|
  {
    if tail == [] {
      assert head + tail == head;
    } else {
      var init, last := tail[..|tail| - 1], tail[|tail| - 1];
      ValueSplits(head, init, base);
      assert (head + tail)[..|head + tail| - 1] == head + init;
      assert (head + tail)[|head + tail| - 1] == last;
      assert Pow(base, |tail|) == base * Pow(base, |init|);
      Distribute(Value(head, base), Pow(base, |init|), Value(init, base), base);
    }
  }

  lemma Distribute(h: nat, p: nat, v: nat, base: nat)
    ensures (h * p + v) * base == h * (base * p) + v * base
  {
    assert (h * p) * base == h * (base * p);
  }
}
