/** backoffDuration of internal/relay/dispatcher.go, in Go's 64-bit arithmetic (nanoseconds). */
module Backoff {

  const BASE: int := 500_000_000
  const CAP: int := 30_000_000_000
  const TWO63: int := 0x8000_0000_0000_0000
  const TWO64: int := 0x1_0000_0000_0000_0000

  function Pow2(n: nat): (r: nat)
    ensures r > 0
  {
    if n == 0 then 1 else 2 * Pow2(n - 1)
  }

  /** Two's complement: the int64 that an exact result wraps to. */
  function Wrap64(x: int): (r: int)
    ensures -TWO63 <= r < TWO63
    ensures -TWO63 <= x < TWO63 ==> r == x
  {
    (x + TWO63) % TWO64 - TWO63
  }

  /**
   The delay before the retry that follows a failed attempt. A power of two past the int64
   range converts to a platform's own choice of integer, `huge`.
   */
  function Duration(attempt: nat, huge: int): int
    requires attempt >= 1
  {
    var factor := if attempt - 1 < 63 then Pow2(attempt - 1) else huge;
    var d := Wrap64(BASE * factor);
    if d > CAP then CAP else d
  }

  /** The exponential backoff that the code's comment promises. */
  function Promised(attempt: nat): int
    requires attempt >= 1
  {
    var d := BASE * Pow2(attempt - 1);
    if d > CAP then CAP else d
  }

  lemma {:induction false} Pow2Adds(m: nat, n: nat)
    ensures Pow2(m + n) == Pow2(m) * Pow2(n)
  {
    if m > 0 {
      Pow2Adds(m - 1, n);
      assert Pow2(m + n) == 2 * Pow2(m - 1 + n);
    }
  }

  lemma {:induction false} Pow2Grows(m: nat, n: nat)
    requires m <= n
    ensures Pow2(m) <= Pow2(n)
  {
    if m < n {
      Pow2Grows(m, n - 1);
    }
  }

  lemma Pow2Values()
    ensures Pow2(5) == 32 && Pow2(6) == 64 && Pow2(34) == 0x4_0000_0000
  {
    assert Pow2(5) == 2 * 2 * 2 * 2 * 2 by {
      assert Pow2(1) == 2 && Pow2(2) == 4 && Pow2(3) == 8 && Pow2(4) == 16;
    }
    assert Pow2(6) == 64;
    assert Pow2(12) == 4096 by { Pow2Adds(6, 6); }
    assert Pow2(17) == 131072 by { Pow2Adds(12, 5); }
    assert Pow2(34) == 131072 * 131072 by { Pow2Adds(17, 17); }
  }

  /** Up to attempt 35 the product fits into 64 bits and the delay is the promised one. */
  lemma PromisedUpTo35(attempt: nat, huge: int)
    requires 1 <= attempt <= 35
    ensures Duration(attempt, huge) == Promised(attempt)
    ensures BASE <= Duration(attempt, huge) <= CAP
    ensures attempt >= 7 ==> Duration(attempt, huge) == CAP
  {
    Pow2Values();
    Pow2Grows(attempt - 1, 34);
    Pow2Grows(0, attempt - 1);
    if attempt >= 7 {
      Pow2Grows(6, attempt - 1);
    } else {
      Pow2Grows(attempt - 1, 5);
    }
  }

  /** The delays of all retries of a pulse that is given up at attempt `limit`. */
  function Scheduled(limit: nat, huge: int): int {
    if limit <= 1 then 0 else Scheduled(limit - 1, huge) + Duration(limit - 1, huge)
  }

  lemma {:induction false} TotalBackoff(limit: nat, huge: int)
    requires 1 <= limit <= 36
    ensures limit <= 7 ==> Scheduled(limit, huge) == BASE * (Pow2(limit - 1) - 1)
    ensures limit >= 7 ==> Scheduled(limit, huge) == 31_500_000_000 + CAP * (limit - 7)
  {
    Pow2Values();
    if limit > 1 {
      TotalBackoff(limit - 1, huge);
      PromisedUpTo35(limit - 1, huge);
      if limit <= 7 {
        Pow2Grows(limit - 2, 5);
      }
    }
  }

  lemma NeverDecreasing(attempt: nat, huge: int)
    requires 1 <= attempt <= 34
    ensures Duration(attempt, huge) <= Duration(attempt + 1, huge)
  {
    PromisedUpTo35(attempt, huge);
    PromisedUpTo35(attempt + 1, huge);
    Pow2Grows(attempt - 1, attempt);
  }

  lemma WrapDoubles(x: int)
    ensures Wrap64(2 * x) == Wrap64(2 * Wrap64(x))
  {
    var y := Wrap64(x);
    var k := (x + TWO63) / TWO64;
    assert x == y + k * TWO64;
    assert (2 * x + TWO63) == (2 * y + TWO63) + (2 * k) * TWO64;
    ModAdds(2 * y + TWO63, 2 * k);
  }

  lemma ModAdds(a: int, k: int)
    ensures (a + k * TWO64) % TWO64 == a % TWO64
  {
    var q, r := a / TWO64, a % TWO64;
    assert a + k * TWO64 == (q + k) * TWO64 + r;
    var q2, r2 := (a + k * TWO64) / TWO64, (a + k * TWO64) % TWO64;
    assert (q + k - q2) * TWO64 == r2 - r;
  }

  function Wrapped(attempt: nat): int
    requires attempt >= 1
  {
    Wrap64(BASE * Pow2(attempt - 1))
  }

  lemma WrappedNext(attempt: nat, value: int, next: int)
    requires attempt >= 1
    requires Wrapped(attempt) == value && Wrap64(2 * value) == next
    ensures Wrapped(attempt + 1) == next
  {
    WrapDoubles(BASE * Pow2(attempt - 1));
    assert Pow2(attempt) == 2 * Pow2(attempt - 1);
  }

  /** The attempts past 35 whose product happens to wrap to a large positive number. */
  const LUCKY: set<nat> := {39, 43, 44, 47, 49, 52, 53, 55}

  /** What the product wraps to, from attempt 35 on. */
  function WrapTable(attempt: nat): int {
    if attempt <= 35 then 8589934592000000000
    else if attempt == 36 then -1266874889709551616
    else if attempt == 37 then -2533749779419103232
    else if attempt == 38 then -5067499558838206464
    else if attempt == 39 then 8311744956033138688
    else if attempt == 40 then -1823254161643274240
    else if attempt == 41 then -3646508323286548480
    else if attempt == 42 then -7293016646573096960
    else if attempt == 43 then 3860710780563357696
    else if attempt == 44 then 7721421561126715392
    else if attempt == 45 then -3003900951456120832
    else if attempt == 46 then -6007801902912241664
    else if attempt == 47 then 6431140267885068288
    else if attempt == 48 then -5584463537939415040
    else if attempt == 49 then 7277816997830721536
    else if attempt == 50 then -3891110078048108544
    else if attempt == 51 then -7782220156096217088
    else if attempt == 52 then 2882303761517117440
    else if attempt == 53 then 5764607523034234880
    else if attempt == 54 then -6917529027641081856
    else if attempt == 55 then 4611686018427387904
    else if attempt == 56 then -9223372036854775808
    else 0
  }

  lemma WrapTableStep(attempt: nat)
    requires attempt >= 35
    ensures Wrap64(2 * WrapTable(attempt)) == WrapTable(attempt + 1)
  {
  }

  lemma {:induction false} WrapTableIsRight(attempt: nat)
    requires attempt >= 35
    ensures Wrapped(attempt) == WrapTable(attempt)
  {
    if attempt == 35 {
      Pow2Values();
    } else {
      WrapTableIsRight(attempt - 1);
      WrapTableStep(attempt - 1);
      WrappedNext(attempt - 1, WrapTable(attempt - 1), WrapTable(attempt));
    }
  }

  lemma PastAttempt35(attempt: nat, huge: int)
    requires 36 <= attempt <= 63
    ensures Duration(attempt, huge) == CAP <==> attempt in LUCKY
    ensures Duration(attempt, huge) != CAP ==> Duration(attempt, huge) <= 0
  {
    assert Duration(attempt, huge) == if Wrapped(attempt) > CAP then CAP else Wrapped(attempt);
    WrapTableIsRight(attempt);
  }

  lemma PromisedCap(attempt: nat)
    requires attempt >= 7
    ensures Promised(attempt) == CAP
  {
    Pow2Values();
    Pow2Grows(6, attempt - 1);
  }

  lemma ExtremesWrap(huge: int)
    requires huge == -TWO63 || huge == TWO63 - 1
    ensures Wrap64(BASE * huge) <= 0
  {
    assert Wrap64(BASE * (-TWO63)) == 0 && Wrap64(BASE * (TWO63 - 1)) == -BASE;
  }

  /**
   The comment's promise fails once the product overflows: past attempt 35 the delay is the
   promised cap for a few attempts only, and otherwise it is not positive, so the retry is
   due at once. From attempt 64 on it depends on the platform's integer for a power of two out
   of range; for the smallest and for the largest int64 the delay is not positive.
   */
  lemma PromisedExactly(attempt: nat, huge: int)
    requires 1 <= attempt
    ensures Duration(attempt, huge) == Promised(attempt)
       <==> attempt <= 35 || attempt in LUCKY || (attempt >= 64 && Wrap64(BASE * huge) >= CAP)
    ensures attempt <= 63 && Duration(attempt, huge) != Promised(attempt) ==> Duration(attempt, huge) <= 0
    ensures attempt >= 64 && (huge == -TWO63 || huge == TWO63 - 1) ==> Duration(attempt, huge) <= 0
  {
    if attempt <= 35 {
      PromisedUpTo35(attempt, huge);
    } else {
      PromisedCap(attempt);
      if attempt <= 63 {
        PastAttempt35(attempt, huge);
      } else if huge == -TWO63 || huge == TWO63 - 1 {
        ExtremesWrap(huge);
      }
    }
  }
}
