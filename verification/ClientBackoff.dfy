/** The reconnect delay, in the int64 arithmetic of time.Duration. */
module ClientBackoff {
  const SECOND := 1_000_000_000
  const MAX_DELAY := 30 * SECOND
  const TWO_63 := 0x8000_0000_0000_0000
  const TWO_64 := 0x1_0000_0000_0000_0000

  /** The int64 with the same low 64 bits. */
  function Wrap(x: int): (r: int)
    ensures -TWO_63 <= r < TWO_63
  {
    (x + TWO_63) % TWO_64 - TWO_63
  }

  function Pow2(n: nat): (p: nat)
    ensures p > 0
  {
    if n == 0 then 1 else 2 * Pow2(n - 1)
  }

  /** `1 << uint(n)` on an int64: a negative count converts to a huge one. */
  function ShiftOne(n: int): int {
    if 0 <= n < 64 then Wrap(Pow2(n)) else 0
  }

  function BackoffDuration(attempt: int): int {
    var d := Wrap(SECOND * ShiftOne(attempt - 1));
    if d > MAX_DELAY then MAX_DELAY else d
  }

  /** What the delay is meant to be: doubling from one second, capped. */
  function Intended(attempt: int): int
    requires attempt >= 1
  {
    if attempt <= 5 then SECOND * Pow2(attempt - 1) else MAX_DELAY
  }

  lemma {:induction false} Pow2Monotone(m: nat, n: nat)
    requires m <= n
    ensures Pow2(m) <= Pow2(n)
    decreases n - m
  {
    if m < n {
      Pow2Monotone(m, n - 1);
    }
  }

  lemma {:induction false} Pow2Factor(m: nat, n: nat)
    ensures Pow2(m + n) == Pow2(m) * Pow2(n)
    decreases n
  {
    if n > 0 {
      Pow2Factor(m, n - 1);
      assert Pow2(m + n) == 2 * Pow2(m + (n - 1));
      assert Pow2(m) * Pow2(n) == 2 * (Pow2(m) * Pow2(n - 1));
    }
  }

  lemma SmallPowers()
    ensures Pow2(1) == 2 && Pow2(2) == 4 && Pow2(3) == 8 && Pow2(4) == 16 && Pow2(5) == 32
    ensures Pow2(7) == 128 && Pow2(8) == 256
  {
    assert Pow2(1) == 2 && Pow2(2) == 4 && Pow2(3) == 8 && Pow2(4) == 16 && Pow2(5) == 32 && Pow2(6) == 64;
  }

  lemma SomePowers()
    ensures Pow2(5) == 32 && Pow2(32) == 0x1_0000_0000 && Pow2(33) == 0x2_0000_0000
    ensures Pow2(55) == 0x80_0000_0000_0000 && Pow2(62) == 0x4000_0000_0000_0000 && Pow2(63) == TWO_63
  {
    SmallPowers();
    Pow2Factor(8, 8);
    Pow2Factor(16, 16);
    Pow2Factor(32, 16);
    Pow2Factor(48, 7);
    Pow2Factor(55, 7);
  }

  lemma WrapFits(x: int)
    requires -TWO_63 <= x < TWO_63
    ensures Wrap(x) == x
  {
  }

  lemma WrapMultiple(q: int)
    ensures Wrap(q * TWO_64) == 0
  {
  }

  lemma FitsThrough33(p: int)
    requires 0 < p <= 0x2_0000_0000
    ensures Wrap(p) == p && Wrap(SECOND * p) == SECOND * p
  {
  }

  lemma CappedThrough34(attempt: int)
    requires 6 <= attempt <= 34
    ensures BackoffDuration(attempt) == MAX_DELAY
  {
    SomePowers();
    Pow2Monotone(attempt - 1, 33);
    Pow2Monotone(5, attempt - 1);
    FitsThrough33(Pow2(attempt - 1));
  }

  /** Up to attempt 34 the product fits, and the delay is the intended one. */
  lemma ExactThrough34(attempt: int)
    requires 1 <= attempt <= 34
    ensures BackoffDuration(attempt) == Intended(attempt)
    ensures SECOND <= Intended(attempt) <= MAX_DELAY
    ensures attempt > 1 ==> Intended(attempt - 1) <= Intended(attempt)
  {
    SmallPowers();
    if attempt <= 5 {
      FitsThrough33(Pow2(attempt - 1));
    } else {
      CappedThrough34(attempt);
    }
  }

  /** From attempt 56 on every bit of the product is shifted out: no delay. */
  lemma NoDelayFrom56(attempt: int)
    requires attempt >= 56
    ensures BackoffDuration(attempt) == 0
  {
    var n := attempt - 1;
    SomePowers();
    if n < 63 {
      Pow2Monotone(n, 62);
      WrapFits(Pow2(n));
      Pow2Factor(55, n - 55);
      assert SECOND * 0x80_0000_0000_0000 == 1_953_125 * TWO_64;
      assert SECOND * Pow2(n) == (1_953_125 * Pow2(n - 55)) * TWO_64;
      WrapMultiple(1_953_125 * Pow2(n - 55));
    } else if n == 63 {
      assert SECOND * -TWO_63 == -500_000_000 * TWO_64;
      WrapMultiple(-500_000_000);
    }
  }

  /** Attempts at which the product overflows and yet lands above the cap. */
  const LUCKY := {38, 42, 43, 46, 48, 51, 52, 54}

  // One more attempt doubles the product, before wrapping.
  lemma DelayFromPower(attempt: int, p: int)
    requires 35 <= attempt <= 55 && Pow2(attempt - 1) == p
    ensures 0 < p < TWO_63 && Pow2(attempt) == 2 * p
    ensures BackoffDuration(attempt) == if Wrap(SECOND * p) > MAX_DELAY then MAX_DELAY else Wrap(SECOND * p)
  {
    SomePowers();
    Pow2Monotone(attempt - 1, 62);
    WrapFits(p);
  }

  // 2^(n-1), spelled out.
  function Table(n: int): int
    requires 35 <= n <= 55
  {
    match n
    case 35 => 0x400000000
    case 36 => 0x800000000
    case 37 => 0x1000000000
    case 38 => 0x2000000000
    case 39 => 0x4000000000
    case 40 => 0x8000000000
    case 41 => 0x10000000000
    case 42 => 0x20000000000
    case 43 => 0x40000000000
    case 44 => 0x80000000000
    case 45 => 0x100000000000
    case 46 => 0x200000000000
    case 47 => 0x400000000000
    case 48 => 0x800000000000
    case 49 => 0x1000000000000
    case 50 => 0x2000000000000
    case 51 => 0x4000000000000
    case 52 => 0x8000000000000
    case 53 => 0x10000000000000
    case 54 => 0x20000000000000
    case _ => 0x40000000000000
  }

  lemma {:induction false} TableIsPower(n: int)
    requires 35 <= n <= 55
    ensures Pow2(n - 1) == Table(n)
  {
    if n == 35 {
      SomePowers();
    } else {
      TableIsPower(n - 1);
    }
  }

  lemma WrapsTo(x: int, q: int, r: int)
    requires x == q * TWO_64 + r && -TWO_63 <= r < TWO_63
    ensures Wrap(x) == r
  {
  }

  predicate WrapsAsListed(n: int)
    requires 35 <= n <= 55
  {
    if n in LUCKY then Wrap(SECOND * Table(n)) > MAX_DELAY else Wrap(SECOND * Table(n)) < 0
  }

  lemma WrapsThrough41(n: int)
    requires 35 <= n <= 41
    ensures WrapsAsListed(n)
  {
    match n
    case 35 => WrapsTo(SECOND * 0x400000000, 1, -1266874889709551616);
    case 36 => WrapsTo(SECOND * 0x800000000, 2, -2533749779419103232);
    case 37 => WrapsTo(SECOND * 0x1000000000, 4, -5067499558838206464);
    case 38 => WrapsTo(SECOND * 0x2000000000, 7, 8311744956033138688);
    case 39 => WrapsTo(SECOND * 0x4000000000, 15, -1823254161643274240);
    case 40 => WrapsTo(SECOND * 0x8000000000, 30, -3646508323286548480);
    case _ => WrapsTo(SECOND * 0x10000000000, 60, -7293016646573096960);
  }

  lemma WrapsThrough48(n: int)
    requires 42 <= n <= 48
    ensures WrapsAsListed(n)
  {
    match n
    case 42 => WrapsTo(SECOND * 0x20000000000, 119, 3860710780563357696);
    case 43 => WrapsTo(SECOND * 0x40000000000, 238, 7721421561126715392);
    case 44 => WrapsTo(SECOND * 0x80000000000, 477, -3003900951456120832);
    case 45 => WrapsTo(SECOND * 0x100000000000, 954, -6007801902912241664);
    case 46 => WrapsTo(SECOND * 0x200000000000, 1907, 6431140267885068288);
    case 47 => WrapsTo(SECOND * 0x400000000000, 3815, -5584463537939415040);
    case _ => WrapsTo(SECOND * 0x800000000000, 7629, 7277816997830721536);
  }

  lemma WrapsThrough55(n: int)
    requires 49 <= n <= 55
    ensures WrapsAsListed(n)
  {
    match n
    case 49 => WrapsTo(SECOND * 0x1000000000000, 15259, -3891110078048108544);
    case 50 => WrapsTo(SECOND * 0x2000000000000, 30518, -7782220156096217088);
    case 51 => WrapsTo(SECOND * 0x4000000000000, 61035, 2882303761517117440);
    case 52 => WrapsTo(SECOND * 0x8000000000000, 122070, 5764607523034234880);
    case 53 => WrapsTo(SECOND * 0x10000000000000, 244141, -6917529027641081856);
    case 54 => WrapsTo(SECOND * 0x20000000000000, 488281, 4611686018427387904);
    case _ => WrapsTo(SECOND * 0x40000000000000, 976563, -9223372036854775808);
  }

  lemma TableWraps(n: int)
    requires 35 <= n <= 55
    ensures WrapsAsListed(n)
  {
    if n <= 41 {
      WrapsThrough41(n);
    } else if n <= 48 {
      WrapsThrough48(n);
    } else {
      WrapsThrough55(n);
    }
  }

  lemma Overflowing(attempt: int)
    requires 35 <= attempt <= 55
    ensures attempt in LUCKY ==> BackoffDuration(attempt) == MAX_DELAY
    ensures attempt !in LUCKY ==> BackoffDuration(attempt) < 0
  {
    TableIsPower(attempt);
    DelayFromPower(attempt, Table(attempt));
    TableWraps(attempt);
  }

  /** The loop in Connect counts attempts without bound, and gets the intended
      delay at exactly these; at every other one it does not wait at all. */
  lemma IntendedExactlyWhen(attempt: int)
    requires attempt >= 1
    ensures BackoffDuration(attempt) == Intended(attempt) <==>
              attempt <= 34 || attempt in {38, 42, 43, 46, 48, 51, 52, 54}
    ensures Intended(attempt) ==
              [1_000_000_000, 2_000_000_000, 4_000_000_000, 8_000_000_000, 16_000_000_000, 30_000_000_000]
              [if attempt <= 6 then attempt - 1 else 5]
    ensures BackoffDuration(attempt) != Intended(attempt) ==> BackoffDuration(attempt) <= 0
  {
    SmallPowers();
    if attempt <= 34 {
      ExactThrough34(attempt);
    } else if attempt <= 55 {
      Overflowing(attempt);
    } else {
      NoDelayFrom56(attempt);
    }
  }
}
