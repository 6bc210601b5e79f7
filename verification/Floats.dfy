/** IEEE-754 numbers as bit patterns. A C++ `float` is a pattern below 2^32, a `double`
    (and a Python float) a pattern below 2^64. Every float is exactly some double. */
module Floats {
  import opened Results

  const FRAC32: nat := 0x80_0000             // 2^23
  const SIGN32: nat := 0x8000_0000           // 2^31
  const FRAC64: nat := 0x10_0000_0000_0000   // 2^52
  const SIGN64: nat := 0x8000_0000_0000_0000 // 2^63
  const DROPPED: nat := 0x2000_0000          // 2^29: a double has 29 fraction bits more

  const QUIET: nat := 0x40_0000              // the fraction bit that tells quiet NaNs
  const MAX32: nat := 0x7F7F_FFFF            // the greatest finite float
  const INF32: nat := 0x7F80_0000
  const MAX64: nat := 0x47EF_FFFF_E000_0000  // the same number as a double
  const INF64: nat := 0x7FF0_0000_0000_0000

  type float32 = n: nat | n < 0x1_0000_0000
  type float64 = n: nat | n < 0x1_0000_0000_0000_0000

  function Pow2(n: nat): (p: nat)
    ensures p > 0
  {
    if n == 0 then 1 else 2 * Pow2(n - 1)
  }

  lemma {:induction false} Pow2Sum(m: nat, n: nat)
    ensures Pow2(m + n) == Pow2(m) * Pow2(n)
  {
    if m == 0 {
    } else {
      Pow2Sum(m - 1, n);
    }
  }

  lemma Powers()
    ensures Pow2(29) == DROPPED && Pow2(52) == FRAC64
  {
    assert Pow2(4) == 16 && Pow2(8) == 0x10 * Pow2(4) && Pow2(12) == 0x10 * Pow2(8) && Pow2(13) == 2 * Pow2(12);
    Pow2Sum(13, 13);
    Pow2Sum(26, 3);
    Pow2Sum(26, 26);
    assert Pow2(3) == 8;
  }

  /** The formats: 23 and 52 fraction bits under 8 and 11 bits of exponent and the sign. */
  lemma Formats()
    ensures FRAC32 == Pow2(23) && SIGN32 == 0x100 * FRAC32 && INF32 == 0xFF * FRAC32 && MAX32 == INF32 - 1
    ensures FRAC64 == Pow2(52) && SIGN64 == 0x800 * FRAC64 && INF64 == 0x7FF * FRAC64
    ensures 2 * QUIET == FRAC32 && FRAC32 * DROPPED == FRAC64
  {
    Powers();
    assert Pow2(4) == 16 && Pow2(8) == 0x10 * Pow2(4) && Pow2(12) == 0x10 * Pow2(8);
    Pow2Sum(12, 11);
    assert Pow2(12) == 2 * Pow2(11);
  }

  lemma Regroup(a: nat, b: nat, c: nat)
    ensures a * b * c == a * (b * c)
  {
  }

  lemma Distribute(a: nat, b: nat, c: nat)
    ensures (a + b) * c == a * c + b * c
  {
  }

  lemma MulGrows(a: nat, b: nat, c: nat)
    requires a <= b
    ensures a * c <= b * c
  {
    Distribute(a, b - a, c);
  }

  lemma QuotientIs(n: nat, p: nat, q: nat, r: nat)
    requires p > 0 && n == q * p + r && r < p
    ensures n / p == q && n % p == r
  {
    var t := n / p;
    assert n == t * p + n % p;
    if t < q {
      MulGrows(t + 1, q, p);
      Distribute(t, 1, p);
    } else if t > q {
      MulGrows(q + 1, t, p);
      Distribute(q, 1, p);
    }
  }

  // ---- what a pattern without its sign stands for ----

  /** The value of a finite float's magnitude in units of 2^-1074, the least positive double. */
  function Value32(f: nat): nat {
    var e, m := f / FRAC32, f % FRAC32;
    if e == 0 then m * Pow2(925) else (FRAC32 + m) * Pow2(e + 924)
  }

  /** The same for a double. */
  function Value64(d: nat): nat {
    var e, m := d / FRAC64, d % FRAC64;
    if e == 0 then m else (FRAC64 + m) * Pow2(e - 1)
  }

  /** The distance to the next float. */
  function Gap(f: nat): (g: nat)
    ensures g > 0
  {
    var e := f / FRAC32;
    if e == 0 then Pow2(925) else Pow2(e + 924)
  }

  lemma NextFloat(f: nat)
    ensures Value32(f + 1) == Value32(f) + Gap(f)
  {
    var e, m := f / FRAC32, f % FRAC32;
    if m + 1 < FRAC32 {
      assert (f + 1) / FRAC32 == e && (f + 1) % FRAC32 == m + 1;
    } else {
      assert (f + 1) / FRAC32 == e + 1 && (f + 1) % FRAC32 == 0;
      assert e > 0 ==> Pow2(e + 925) == 2 * Pow2(e + 924);
    }
  }

  lemma {:induction false} FloatsAreOrdered(f: nat, g: nat)
    requires f <= g
    ensures Value32(f) <= Value32(g)
    decreases g - f
  {
    if f == g {
    } else {
      NextFloat(f);
      FloatsAreOrdered(f + 1, g);
    }
  }

  // ---- float to double ----

  /** Shifts a subnormal significand up until its leading one is implicit. */
  function Normalise(s: nat, e: nat): (r: (nat, nat))
    requires 874 <= e <= 897 && Pow2(926 - e) <= s && s < 2 * FRAC64
    ensures 874 <= r.0 <= e && FRAC64 <= r.1 < 2 * FRAC64
    decreases e
  {
    Powers();
    if s >= FRAC64 then (e, s) else Normalise(2 * s, e - 1)
  }

  lemma {:induction false} NormaliseKeepsValue(s: nat, e: nat)
    requires 874 <= e <= 897 && Pow2(926 - e) <= s && s < 2 * FRAC64
    ensures var (e', s') := Normalise(s, e); s' == s * Pow2(e - e')
    decreases e
  {
    Powers();
    if s >= FRAC64 {
      assert Pow2(0) == 1;
    } else {
      NormaliseKeepsValue(2 * s, e - 1);
      var (e', _) := Normalise(2 * s, e - 1);
      assert Pow2(e - e') == 2 * Pow2(e - 1 - e');
      Regroup(s, 2, Pow2(e - 1 - e'));
    }
  }

  /** A NaN as an operation returns it. */
  function Quieted(m: nat): nat
    requires m < FRAC32
  {
    if m < QUIET then m + QUIET else m
  }

  function WidenMagnitude(f: nat): (d: nat)
    requires f < SIGN32
    ensures d < SIGN64
  {
    var e, m := f / FRAC32, f % FRAC32;
    if f > INF32 then INF64 + Quieted(m) * DROPPED
    else if f == INF32 then INF64
    else if e > 0 then f * DROPPED + 896 * FRAC64
    else if m == 0 then 0
    else
      Powers();
      var (e', s) := Normalise(m * DROPPED, 897);
      e' * FRAC64 + (s - FRAC64)
  }

  /** float to double: exact for every number, subnormals included; NaNs become quiet. */
  function Widen(f: float32): (d: float64) {
    f / SIGN32 * SIGN64 + WidenMagnitude(f % SIGN32)
  }

  /** Widening changes neither value nor sign. */
  lemma WidenIsExact(f: float32)
    requires f % SIGN32 < INF32
    ensures Widen(f) / SIGN64 == f / SIGN32
    ensures Value64(Widen(f) % SIGN64) == Value32(f % SIGN32)
  {
    WidenMagnitudeIsExact(f % SIGN32);
    WidenParts(f);
  }

  lemma WidenMagnitudeIsExact(f: nat)
    requires f < INF32
    ensures Value64(WidenMagnitude(f)) == Value32(f)
  {
    if f >= FRAC32 {
      NormalIsExact(f);
    } else if f > 0 {
      SubnormalIsExact(f);
    }
  }

  lemma PowerTimesDropped(n: nat)
    ensures DROPPED * Pow2(n) == Pow2(n + 29)
  {
    Powers();
    Pow2Sum(29, n);
  }

  lemma NormalIsExact(f: nat)
    requires FRAC32 <= f < INF32
    ensures Value64(WidenMagnitude(f)) == Value32(f)
  {
    var e, m := f / FRAC32, f % FRAC32;
    NormalParts(f);
    PowerTimesDropped(e + 895);
    hide Pow2, WidenMagnitude;
    Regroup(FRAC32 + m, DROPPED, Pow2(e + 895));
  }

  lemma Chain(a: nat, b: nat, c: nat, d: nat)
    ensures a * b * c * d == a * (b * (c * d))
  {
    Regroup(a * b, c, d);
    Regroup(a, b, c * d);
  }

  lemma NormalDouble(d: nat)
    requires d >= FRAC64
    ensures Value64(d) == (FRAC64 + d % FRAC64) * Pow2(d / FRAC64 - 1)
    ensures FRAC64 <= d < 897 * FRAC64 ==>
              var s, k := FRAC64 + d % FRAC64, 926 - d / FRAC64;
              Cut(d) == (s / Pow2(k), s % Pow2(k), Pow2(k - 1))
  {
  }

  lemma SubnormalIsExact(f: nat)
    requires 0 < f < FRAC32
    ensures Value64(WidenMagnitude(f)) == Value32(f)
  {
    hide Pow2, WidenMagnitude, Value32, Value64, Normalise;
    SubnormalParts(f);
    SubnormalValue(f);
    NormalDouble(WidenMagnitude(f));
    var (e', s) := Normalise(f * DROPPED, 897);
    Pow2Sum(897 - e', e' - 1);
    PowerTimesDropped(896);
    Chain(f, DROPPED, Pow2(897 - e'), Pow2(e' - 1));
  }

  lemma NormalParts(f: nat)
    requires FRAC32 <= f < INF32
    ensures var d := WidenMagnitude(f);
            d / FRAC64 == f / FRAC32 + 896 && FRAC64 + d % FRAC64 == (FRAC32 + f % FRAC32) * DROPPED
  {
    var e, m := f / FRAC32, f % FRAC32;
    assert WidenMagnitude(f) == (e + 896) * FRAC64 + m * DROPPED;
  }

  /** The number of a double put together from exponent and significand. */
  lemma PutTogether(e: nat, s: nat)
    requires FRAC64 <= s < 2 * FRAC64
    ensures var d := e * FRAC64 + (s - FRAC64); d / FRAC64 == e && FRAC64 + d % FRAC64 == s
  {
  }

  lemma WidenSubnormal(f: nat)
    requires 0 < f < FRAC32 && Pow2(29) <= f * DROPPED
    ensures var (e, s) := Normalise(f * DROPPED, 897); WidenMagnitude(f) == e * FRAC64 + (s - FRAC64)
  {
    hide Normalise, Pow2;
  }

  lemma SubnormalParts(f: nat)
    requires 0 < f < FRAC32
    ensures Pow2(29) <= f * DROPPED < FRAC64
    ensures var (e', s) := Normalise(f * DROPPED, 897);
            var d := WidenMagnitude(f);
            && 874 <= e' <= 896 && s == f * DROPPED * Pow2(897 - e')
            && d / FRAC64 == e' && FRAC64 + d % FRAC64 == s
  {
    Powers();
    NormaliseKeepsValue(f * DROPPED, 897);
    var (e', s) := Normalise(f * DROPPED, 897);
    assert e' == 897 ==> s == f * DROPPED by { assert Pow2(0) == 1; }
    WidenSubnormal(f);
    hide Normalise, Pow2, WidenMagnitude;
    PutTogether(e', s);
  }

  // ---- double to float ----

  /** A double's magnitude cut to a float's precision: the greatest float not above it, what is
      cut off, and half of what makes up the next float. */
  function Cut(d: nat): (c: (nat, nat, nat))
    requires d <= MAX64
    ensures c.1 < 2 * c.2
  {
    var e, m := d / FRAC64, d % FRAC64;
    if e >= 897 then ((d - 896 * FRAC64) / DROPPED, d % DROPPED, DROPPED / 2)
    else
      var s := if e == 0 then m else FRAC64 + m;
      var k := if e == 0 then 925 else 926 - e;
      (s / Pow2(k), s % Pow2(k), Pow2(k - 1))
  }

  /** To the nearer float, and between two to the even one. */
  function RoundMagnitude(d: nat): nat
    requires d <= MAX64
  {
    var (q, cut, half) := Cut(d);
    if cut > half || (cut == half && q % 2 == 1) then q + 1 else q
  }

  /** double to float as the server converts: a range check, then rounding. NaNs pass the check
      and become quiet; infinities do not. */
  function Narrow(d: float64): (r: Result<float32>)
  {
    var sign, mag := d / SIGN64 * SIGN32, d % SIGN64;
    if mag > INF64 then Ok(sign + INF32 + Quieted(mag % FRAC64 / DROPPED))
    else if mag > MAX64 then Err(ConversionError)
    else
      RoundedIsFinite(mag);
      Ok(sign + RoundMagnitude(mag))
  }

  lemma RoundedIsFinite(d: nat)
    requires d <= MAX64
    ensures RoundMagnitude(d) <= MAX32 && Cut(d).0 <= MAX32
  {
    if d / FRAC64 >= 897 {
      NormalCut(d);
    } else {
      var _, _ := SubnormalCut(d);
    }
    hide Cut;
  }

  lemma NormalCut(d: nat)
    requires 897 * FRAC64 <= d <= MAX64
    ensures var (q, cut, half) := Cut(d);
            && q / FRAC32 == d / FRAC64 - 896 && half == DROPPED / 2
            && FRAC64 + d % FRAC64 == (FRAC32 + q % FRAC32) * DROPPED + cut
            && FRAC32 <= q <= MAX32 && (q == MAX32 ==> cut == 0)
  {
    var n := d - 896 * FRAC64;
    hide Pow2;
    assert n == n / DROPPED * DROPPED + n % DROPPED;
    assert d % DROPPED == n % DROPPED;
  }

  /** A subnormal result: s in units of which Pow2(k) make a float's step. */
  lemma SubnormalCut(d: nat) returns (s: nat, k: nat)
    requires d < 897 * FRAC64
    ensures s < 2 * FRAC64 && 30 <= k <= 925
    ensures Value64(d) == s * Pow2(925 - k)
    ensures Cut(d) == (s / Pow2(k), s % Pow2(k), Pow2(k - 1))
    ensures Cut(d).0 < FRAC32
  {
    var e, m := d / FRAC64, d % FRAC64;
    s, k := if e == 0 then m else FRAC64 + m, if e == 0 then 925 else 926 - e;
    assert Pow2(0) == 1;
    SmallQuotient(s, k);
  }

  lemma QuotientBelow(n: nat, p: nat, b: nat)
    requires p > 0 && n < b * p
    ensures n / p < b
  {
    var q := n / p;
    assert n == q * p + n % p;
    if q >= b {
      MulGrows(b, q, p);
    }
  }

  lemma SmallQuotient(s: nat, k: nat)
    requires s < 2 * FRAC64 && k >= 30
    ensures s / Pow2(k) < FRAC32
  {
    Powers();
    Pow2Sum(30, k - 30);
    assert Pow2(30) == 2 * DROPPED;
    MulGrows(1, Pow2(k - 30), Pow2(30));
    QuotientBelow(s, Pow2(k), FRAC32);
  }

  /** What Cut cuts off, in units of w. */
  lemma CutIsExact(d: nat) returns (w: nat)
    requires d <= MAX64
    ensures w > 0
    ensures var (q, cut, half) := Cut(d);
            Value64(d) == Value32(q) + cut * w && Gap(q) == 2 * half * w
  {
    if d / FRAC64 >= 897 {
      w := NormalCutIsExact(d);
    } else {
      w := SubnormalCutIsExact(d);
    }
  }

  lemma NormalCutIsExact(d: nat) returns (w: nat)
    requires 897 * FRAC64 <= d <= MAX64
    ensures w > 0
    ensures var (q, cut, half) := Cut(d);
            Value64(d) == Value32(q) + cut * w && Gap(q) == 2 * half * w
  {
    var e := d / FRAC64;
    var (q, cut, half) := Cut(d);
    w := Pow2(e - 1);
    NormalCut(d);
    PowerTimesDropped(e - 1);
    hide Pow2, Cut;
    Regroup(FRAC32 + q % FRAC32, DROPPED, w);
    Distribute((FRAC32 + q % FRAC32) * DROPPED, cut, w);
  }

  lemma SplitUnits(q: nat, p: nat, cut: nat, w: nat)
    ensures (q * p + cut) * w == q * (p * w) + cut * w
  {
    Distribute(q * p, cut, w);
    Regroup(q, p, w);
  }

  lemma SubnormalValue(q: nat)
    requires q < FRAC32
    ensures Value32(q) == q * Pow2(925) && Gap(q) == Pow2(925)
  {
  }

  lemma PowIsTwice(k: nat)
    requires k > 0
    ensures Pow2(k) == 2 * Pow2(k - 1)
  {
  }

  lemma QuotientAndRest(n: nat, p: nat)
    requires p > 0
    ensures n == n / p * p + n % p
  {
  }

  lemma SubnormalCutIsExact(d: nat) returns (w: nat)
    requires d < 897 * FRAC64
    ensures w > 0
    ensures var (q, cut, half) := Cut(d);
            Value64(d) == Value32(q) + cut * w && Gap(q) == 2 * half * w
  {
    var s, k := SubnormalCut(d);
    var (q, cut, half) := Cut(d);
    hide Pow2, Cut, Value64, Value32, Gap;
    w := Pow2(925 - k);
    SubnormalValue(q);
    Pow2Sum(k, 925 - k);
    PowIsTwice(k);
    QuotientAndRest(s, Pow2(k));
    SplitUnits(q, Pow2(k), cut, w);
  }

  function Distance(a: nat, b: nat): nat {
    if a < b then b - a else a - b
  }

  /** f is the finite float nearest to a value; of two equally near ones the even one. */
  predicate Nearest(f: nat, value: nat) {
    forall g: nat | g < INF32 && g != f ::
      && Distance(value, Value32(f)) <= Distance(value, Value32(g))
      && (Distance(value, Value32(f)) == Distance(value, Value32(g)) ==> f % 2 == 0)
  }

  lemma FloatsDiffer(f: nat, g: nat)
    requires f < g
    ensures Value32(f) < Value32(g)
  {
    NextFloat(f);
    FloatsAreOrdered(f + 1, g);
  }

  /** The same of the values alone: rounding up, or down, x out of y above v. */
  lemma NoValueIsNearer(v: nat, x: nat, y: nat, up: bool, other: nat)
    requires x < y && (up ==> 2 * x >= y) && (!up ==> 2 * x <= y)
    requires if up then other <= v || other > v + y else other < v || other >= v + y
    ensures var chosen := if up then v + y else v;
            && Distance(v + x, chosen) <= Distance(v + x, other)
            && (Distance(v + x, chosen) == Distance(v + x, other) ==> 2 * x == y)
  {
  }

  /** A value x above that of q, which is y below the next float, rounded to f, is no nearer
      to g. */
  lemma NoneIsNearer(q: nat, x: nat, y: nat, f: nat, g: nat)
    requires x < y == Gap(q) && g != f
    requires f == if 2 * x > y || (2 * x == y && q % 2 == 1) then q + 1 else q
    ensures var value := Value32(q) + x;
            && Distance(value, Value32(f)) <= Distance(value, Value32(g))
            && (Distance(value, Value32(f)) == Distance(value, Value32(g)) ==> f % 2 == 0)
  {
    hide Value32, Gap, Distance;
    NextFloat(q);
    if g < q {
      FloatsDiffer(g, q);
    } else if g > q + 1 {
      FloatsDiffer(q + 1, g);
    }
    NoValueIsNearer(Value32(q), x, y, f == q + 1, Value32(g));
  }

  lemma CompareHalf(cut: nat, half: nat, w: nat)
    requires w > 0
    ensures cut < half ==> 2 * (cut * w) < 2 * half * w
    ensures cut > half ==> 2 * (cut * w) > 2 * half * w
    ensures cut == half ==> 2 * (cut * w) == 2 * half * w
    ensures cut < 2 * half ==> cut * w < 2 * half * w
  {
    if cut < half {
      Distribute(cut, half - cut, w);
    } else if cut > half {
      Distribute(half, cut - half, w);
    }
    if cut < 2 * half {
      Distribute(cut, 2 * half - cut, w);
    }
  }

  lemma RoundIsNearest(d: nat)
    requires d <= MAX64
    ensures Nearest(RoundMagnitude(d), Value64(d))
  {
    hide Cut, Value64, Value32, Gap, Distance;
    var (q, cut, half) := Cut(d);
    var w := CutIsExact(d);
    CompareHalf(cut, half, w);
    var f := RoundMagnitude(d);
    forall g: nat | g < INF32 && g != f
      ensures Distance(Value64(d), Value32(f)) <= Distance(Value64(d), Value32(g))
      ensures Distance(Value64(d), Value32(f)) == Distance(Value64(d), Value32(g)) ==> f % 2 == 0
    {
      NoneIsNearer(q, cut * w, 2 * half * w, f, g);
    }
  }

  /** Main result: narrowing rounds to the nearest float, ties to even, and keeps the sign. */
  lemma NarrowIsNearest(d: float64)
    requires d % SIGN64 <= MAX64
    ensures Narrow(d).Ok? && Narrow(d).value / SIGN32 == d / SIGN64
    ensures Nearest(Narrow(d).value % SIGN32, Value64(d % SIGN64))
  {
    var mag := d % SIGN64;
    RoundedIsFinite(mag);
    RoundIsNearest(mag);
    hide RoundMagnitude, Nearest, Value64;
    QuotientIs(Narrow(d).value, SIGN32, d / SIGN64, RoundMagnitude(mag));
  }

  // ---- there and back ----

  /** The floats that come back from a double as they were: no infinity, no signalling NaN. */
  predicate Returns(f: float32) {
    var mag := f % SIGN32;
    mag < INF32 || mag >= INF32 + QUIET
  }

  lemma RoundOfWiden(f: nat)
    requires f < INF32
    ensures WidenMagnitude(f) <= MAX64 && RoundMagnitude(WidenMagnitude(f)) == f
  {
    if f >= FRAC32 {
      NormalParts(f);
      NormalCut(WidenMagnitude(f));
      hide Pow2, WidenMagnitude, Cut;
    } else if f > 0 {
      SubnormalParts(f);
      SubnormalComesBack(f);
      hide Pow2, WidenMagnitude, Cut;
    }
  }

  lemma SubnormalComesBack(f: nat)
    requires 0 < f < FRAC32
    ensures Cut(WidenMagnitude(f)).0 == f && Cut(WidenMagnitude(f)).1 == 0 && Cut(WidenMagnitude(f)).2 > 0
  {
    hide Pow2, WidenMagnitude, Normalise, Cut;
    SubnormalParts(f);
    NormalDouble(WidenMagnitude(f));
    var (e', s) := Normalise(f * DROPPED, 897);
    PowerTimesDropped(897 - e');
    Regroup(f, DROPPED, Pow2(897 - e'));
    QuotientIs(s, Pow2(926 - e'), f, 0);
  }

  /** Main result: a float sent as a double and narrowed again comes back exactly when it is no
      infinity and no signalling NaN; infinities are refused. */
  lemma NarrowOfWiden(f: float32)
    ensures Narrow(Widen(f)) == Ok(f) <==> Returns(f)
    ensures f % SIGN32 == INF32 ==> Narrow(Widen(f)).Err?
  {
    var mag := f % SIGN32;
    WidenParts(f);
    if mag < INF32 {
      RoundOfWiden(mag);
      hide RoundMagnitude, WidenMagnitude;
    } else {
      hide RoundMagnitude;
      if mag > INF32 {
        NotANumber(mag);
      }
    }
  }

  lemma WidenParts(f: float32)
    ensures Widen(f) / SIGN64 == f / SIGN32 && Widen(f) % SIGN64 == WidenMagnitude(f % SIGN32)
  {
    hide WidenMagnitude;
    QuotientIs(Widen(f), SIGN64, f / SIGN32, WidenMagnitude(f % SIGN32));
  }

  lemma NotANumber(f: nat)
    requires INF32 < f < SIGN32
    ensures WidenMagnitude(f) > INF64
    ensures Quieted(WidenMagnitude(f) % FRAC64 / DROPPED) == Quieted(f % FRAC32)
    ensures f == INF32 + f % FRAC32
  {
    var m := Quieted(f % FRAC32);
    assert WidenMagnitude(f) == INF64 + m * DROPPED;
    assert WidenMagnitude(f) % FRAC64 == m * DROPPED;
  }
}
