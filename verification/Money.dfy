/** Amounts: parsed through a binary floating-point product and truncated, sent
    to PVS through a floating-point quotient, and to GS by integer arithmetic. */
module Money {
  import opened Numerals

  const MAX_CENTS: int := 0x4_0000_0000_0000 // 2^50

  function Pow2(n: nat): (p: int)
    ensures p >= 1
  {
    if n == 0 then 1 else 2 * Pow2(n - 1)
  }

  /** m is the whole number nearest to n / d, the even one of two. */
  predicate NearestEven(n: int, d: int, m: int) {
    var gap := 2 * (m * d - n);
    -d <= gap <= d && (gap == d || gap == -d ==> m % 2 == 0)
  }

  /** The fraction a / b rounds to the float m / 2^k: m has 53 bits and is nearest,
      ties to even (section 4.3 of IEEE 754-2019). Floats from 2^53 on, whose
      exponent is positive, are not needed for amounts. */
  predicate RoundsTo(a: int, b: int, m: int, k: nat) {
    && 0x10_0000_0000_0000 * b <= a * Pow2(k) < 0x20_0000_0000_0000 * b
    && NearestEven(a * Pow2(k), b, m)
  }

  /** The decimal worth c cents is read as the float mf / 2^kf, and the float
      product of that with 100 is mp / 2^kp. */
  predicate Parsed(c: int, mf: int, kf: nat, mp: int, kp: nat) {
    RoundsTo(c, 100, mf, kf) && RoundsTo(100 * mf, Pow2(kf), mp, kp)
  }

  /** The whole part of a positive float. */
  function Truncate(m: int, k: nat): int {
    m / Pow2(k)
  }

  /** n doubled until it is at least 100 * 2^52. */
  function Scaled(n: int): int
    requires n > 0
    decreases 0x640_0000_0000_0000 - n
  {
    if n >= 0x640_0000_0000_0000 then n else Scaled(2 * n)
  }

  /** Whether parsing loses a cent, from the number of cents alone. */
  predicate LosesCent(c: int)
    requires c > 0
  {
    Scaled(c) < 0x800_0000_0000_0000 && 32 < Scaled(c) % 100 < 50
  }

  // ---------------------------------------------------------------- powers of two

  lemma {:induction false} PowersAdd(a: nat, b: nat)
    ensures Pow2(a + b) == Pow2(a) * Pow2(b)
    decreases a
  {
    if a > 0 {
      PowersAdd(a - 1, b);
      assert Pow2(a) * Pow2(b) == 2 * (Pow2(a - 1) * Pow2(b));
    }
  }

  lemma {:induction false} PowersAscend(k: nat, n: nat)
    requires k <= n
    ensures Pow2(k) <= Pow2(n)
    decreases n
  {
    if k < n { PowersAscend(k, n - 1); }
  }

  lemma ExponentAbove(k: nat, n: nat)
    requires Pow2(k) > Pow2(n)
    ensures k > n
  {
    if k <= n { PowersAscend(k, n); }
  }

  lemma SmallPowers()
    ensures Pow2(5) == 32 && Pow2(6) == 64 && Pow2(7) == 128 && Pow2(8) == 256
  {
  }

  lemma Cancel(a: int, b: int, q: int)
    requires q > 0
    ensures a <= b <==> a * q <= b * q
    ensures a < b <==> a * q < b * q
  {
  }

  lemma ProductBound(a: int, b: int, x: int, y: int)
    requires 0 <= a <= x && 0 <= b <= y
    ensures a * b <= x * y
  {
    assert x * y - a * b == x * (y - b) + (x - a) * b;
  }

  // ---------------------------------------------------------------- the float that is read

  lemma {:induction false} ScaledIs(c: int, k: nat)
    requires c > 0 && 0x640_0000_0000_0000 <= c * Pow2(k) < 0xC80_0000_0000_0000
    ensures Scaled(c) == c * Pow2(k)
    decreases k
  {
    if k > 0 {
      var h := Pow2(k - 1);
      assert c * Pow2(k) == 2 * (c * h) && (2 * c) * h == 2 * (c * h);
      assert c <= c * h by { Cancel(1, h, c); }
      ScaledIs(2 * c, k - 1);
    }
  }

  /** An amount in bounds is read with at least nine bits behind the point. */
  lemma ReadExponent(c: int, k: nat)
    requires 1 <= c <= MAX_CENTS && 0x640_0000_0000_0000 <= c * Pow2(k)
    ensures k >= 9
  {
    SmallPowers();
    if Pow2(k) <= 256 { ProductBound(c, Pow2(k), MAX_CENTS, 256); }
    ExponentAbove(k, 8);
  }

  // ---------------------------------------------------------------- the product

  lemma ExponentsApart(big: int, kf: nat, kp: nat)
    requires 0x400_0000_0000_0000 < big && big * Pow2(kp) < 0x20_0000_0000_0000 * Pow2(kf)
    ensures kp < kf
  {
    if kf <= kp {
      PowersAscend(kf, kp);
      ProductBound(0x20_0000_0000_0000, Pow2(kf), big, Pow2(kp));
    }
  }

  /** The product has 53 bits six places higher than the float read, or seven. */
  lemma ProductExponent(big: int, kf: nat, kp: nat)
    requires 0x400_0000_0000_0000 < big < 0x1000_0000_0000_0000
    requires 0x10_0000_0000_0000 * Pow2(kf) <= big * Pow2(kp) < 0x20_0000_0000_0000 * Pow2(kf)
    ensures kf == kp + if big < 0x800_0000_0000_0000 then 6 else 7
  {
    ExponentsApart(big, kf, kp);
    var j := kf - kp;
    InUnitsOfProduct(big, j, kp);
    SixOrSeven(big, j);
  }

  lemma InUnitsOfProduct(big: int, j: nat, kp: nat)
    requires 0x10_0000_0000_0000 * Pow2(j + kp) <= big * Pow2(kp) < 0x20_0000_0000_0000 * Pow2(j + kp)
    ensures 0x10_0000_0000_0000 * Pow2(j) <= big < 0x20_0000_0000_0000 * Pow2(j)
  {
    PowersAdd(j, kp);
    CancelBinade(big, Pow2(j), Pow2(kp), Pow2(j + kp));
  }

  lemma CancelBinade(big: int, w: int, q: int, p: int)
    requires q > 0 && p == w * q && 0x10_0000_0000_0000 * p <= big * q < 0x20_0000_0000_0000 * p
    ensures 0x10_0000_0000_0000 * w <= big < 0x20_0000_0000_0000 * w
  {
    Cancel(0x10_0000_0000_0000 * w, big, q);
    Cancel(big, 0x20_0000_0000_0000 * w, q);
    Regroup(0x10_0000_0000_0000, w, q);
    Regroup(0x20_0000_0000_0000, w, q);
  }

  lemma Regroup(a: int, w: int, q: int)
    ensures a * w * q == a * (w * q)
  {
  }

  lemma SixOrSeven(big: int, j: nat)
    requires 0x400_0000_0000_0000 < big < 0x1000_0000_0000_0000
    requires 0x10_0000_0000_0000 * Pow2(j) <= big < 0x20_0000_0000_0000 * Pow2(j)
    ensures j == if big < 0x800_0000_0000_0000 then 6 else 7
  {
    SmallPowers();
    ExponentAbove(j, 5);
    ExponentAbove(8, j);
  }

  lemma CancelNearest(x: int, w: int, q: int, m: int)
    requires q > 0 && NearestEven(x * q, w * q, m)
    ensures NearestEven(x, w, m)
  {
    var gap := 2 * (m * w - x);
    assert 2 * (m * (w * q) - x * q) == gap * q;
    assert (-w) * q == -(w * q);
    Cancel(-w, gap, q);
    Cancel(gap, w, q);
    Cancel(w, gap, q);
    Cancel(gap, -w, q);
  }

  /** A rounded quotient reaches the even `goal` exactly when the number rounded
      is at most half a unit short of it. */
  lemma ReachesGoal(x: int, m: int, w: int, goal: int)
    requires (w == 64 || w == 128) && NearestEven(x, w, m) && goal % 2 == 0
    ensures m >= goal <==> w * goal - x <= w / 2
    ensures -50 <= x - w * goal <= 50 ==> goal - 2 < m < goal + 2
  {
  }

  lemma WholePart(m: int, c: int, q: int)
    requires q >= 2 && c * q - q <= m < c * q + q
    ensures m / q == if m >= c * q then c else c - 1
  {
    if m >= c * q { QuotientIs(m, c, q); } else { QuotientIs(m, c - 1, q); }
  }

  lemma QuotientIs(m: int, c: int, q: int)
    requires q > 0 && c * q <= m < c * q + q
    ensures m / q == c
  {
    var r := m - c * q;
    if m / q < c { Cancel(m / q + 1, c, q); }
    if m / q > c { Cancel(c + 1, m / q, q); }
  }

  // ---------------------------------------------------------------- remainders

  lemma ModOf(m: int, d: int)
    requires 0 <= d < 100
    ensures (100 * m + d) % 100 == d
  {
  }

  lemma FourDivides(n: int, m: int)
    requires n % 64 == 0
    ensures (n - 100 * m) % 4 == 0
  {
    var a := n / 64;
    assert n - 100 * m == 4 * (16 * a - 25 * m);
  }

  lemma OnlyTheBoundary(n: int)
    requires n % 64 == 0 && 0x800_0000_0000_0000 <= n < 0x800_0000_0000_0040
    ensures n % 100 == 88
  {
    assert n == 0x800_0000_0000_0000;
  }

  /** Which multiples of 64 fall short of the nearest multiple of a hundred by
      more than half the product's unit. */
  lemma Remainders(n: int, m: int)
    requires n % 64 == 0 && -50 <= 100 * m - n <= 50
    ensures n - 100 * m > (if 100 * m < 0x800_0000_0000_0000 then 32 else 64) <==>
            n < 0x800_0000_0000_0000 && 32 < n % 100 < 50
  {
    var d := n - 100 * m;
    FourDivides(n, m);
    if d >= 0 { ModOf(m, d); } else { ModOf(m - 1, 100 + d); }
    if 100 * m < 0x800_0000_0000_0000 <= n { OnlyTheBoundary(n); }
  }

  // ---------------------------------------------------------------- parsing

  /** The product in units of itself: c cents are `goal` units, an even number. */
  lemma ProductUnits(c: int, kp: nat, j: nat) returns (q: int, goal: int)
    requires j + kp >= 9 && (j == 6 || j == 7)
    ensures q == Pow2(kp) >= 4 && goal == c * q && goal % 2 == 0
    ensures Pow2(j) * q == Pow2(j + kp) && c * Pow2(j + kp) == Pow2(j) * goal
    ensures c * Pow2(j + kp) % 64 == 0
  {
    q, goal := Pow2(kp), c * Pow2(kp);
    SmallPowers();
    PowersAdd(j, kp);
    PowersAdd(2, kp - 2);
    assert Pow2(2) == 4;
    EvenMultiple(c, Pow2(kp - 2));
    Regroup(Pow2(j), c, q);
    Regroup(c, Pow2(j), q);
    assert Pow2(j) * goal % 64 == 0 by {
      if j == 6 { MultipleOf64(goal); } else { MultipleOf64(2 * goal); }
    }
  }

  lemma EvenMultiple(c: int, h: int)
    ensures c * (4 * h) % 2 == 0
  {
    assert c * (4 * h) == 2 * (2 * (c * h));
  }

  lemma MultipleOf64(g: int)
    ensures 64 * g % 64 == 0
  {
  }

  /** A decimal worth c cents parses to c cents, but to one less for exactly the
      amounts of LosesCent; never to more. */
  lemma ParsedCents(c: int, mf: int, kf: nat, mp: int, kp: nat)
    requires 1 <= c <= MAX_CENTS && Parsed(c, mf, kf, mp, kp)
    ensures Truncate(mp, kp) == if LosesCent(c) then c - 1 else c
  {
    var n, big := c * Pow2(kf), 100 * mf;
    ScaledIs(c, kf);
    ReadExponent(c, kf);
    assert -50 <= big - n <= 50;
    ProductExponent(big, kf, kp);
    var j := kf - kp;
    var q, goal := ProductUnits(c, kp, j);
    SmallPowers();
    CancelNearest(big, Pow2(j), q, mp);
    ReachesGoal(big, mp, Pow2(j), goal);
    Remainders(n, mf);
    WholePart(mp, c, q);
  }

  /** The cent can really go missing: 1.15 is read as 5179139571476070 / 2^52, and
      the float product with 100 is the last one below 115. */
  lemma OneFifteenLosesACent()
    ensures Parsed(115, 5179139571476070, 52, 8092405580431359, 46)
    ensures Truncate(8092405580431359, 46) == 114 && LosesCent(115)
  {
    LargePowers();
    ParsedCents(115, 5179139571476070, 52, 8092405580431359, 46);
    QuotientIs(8092405580431359, 114, 70368744177664);
  }

  lemma LargePowers()
    ensures Pow2(46) == 70368744177664 && Pow2(52) == 4503599627370496
  {
    SmallPowers();
    PowersAdd(6, 6);
    PowersAdd(12, 12);
    PowersAdd(24, 24);
    PowersAdd(46, 2);
    PowersAdd(48, 4);
    assert Pow2(2) == 4 && Pow2(4) == 16;
  }

  // ---------------------------------------------------------------- every amount rounds

  lemma NearestExists(n: int, d: int) returns (m: int)
    requires d > 0
    ensures NearestEven(n, d, m)
  {
    var q, r := n / d, n % d;
    assert q * d == n - r && (q + 1) * d == n - r + d;
    m := if 2 * r < d || (2 * r == d && q % 2 == 0) then q else q + 1;
  }

  /** The binade of a fraction, searched from k places behind the point on. */
  lemma {:induction false} Binade(a: int, b: int, k: nat) returns (e: nat)
    requires a > 0 && b > 0 && a * Pow2(k) < 0x20_0000_0000_0000 * b
    ensures 0x10_0000_0000_0000 * b <= a * Pow2(e) < 0x20_0000_0000_0000 * b
    decreases 0x20_0000_0000_0000 * b - a * Pow2(k)
  {
    if 0x10_0000_0000_0000 * b <= a * Pow2(k) {
      e := k;
    } else {
      assert Pow2(k + 1) == 2 * Pow2(k);
      assert a * Pow2(k + 1) == 2 * (a * Pow2(k));
      assert a * Pow2(k) > 0 by { Cancel(0, a, Pow2(k)); }
      e := Binade(a, b, k + 1);
    }
  }

  lemma RoundingExists(a: int, b: int) returns (m: int, k: nat)
    requires 0 < a < 0x20_0000_0000_0000 * b && b > 0
    ensures RoundsTo(a, b, m, k)
  {
    assert Pow2(0) == 1;
    k := Binade(a, b, 0);
    m := NearestExists(a * Pow2(k), b);
  }

  /** Every amount is read as some float and has a product, so that the laws here
      speak of every amount. */
  lemma EveryAmountParses(c: int) returns (mf: int, kf: nat, mp: int, kp: nat)
    requires 1 <= c <= MAX_CENTS
    ensures Parsed(c, mf, kf, mp, kp)
  {
    mf, kf := RoundingExists(c, 100);
    ReadExponent(c, kf);
    SmallPowers();
    PowersAscend(9, kf);
    assert Pow2(9) == 512 && 100 * mf < 0x1000_0000_0000_0000;
    mp, kp := RoundingExists(100 * mf, Pow2(kf));
  }

  // ---------------------------------------------------------------- the two printed forms

  function Pad2(n: nat): string
    requires n < 100
  {
    if n < 10 then [Digit(0)] + Itoa(n) else Itoa(n)
  }

  /** `%d.%02d` of whole units and cents. */
  function UnitsAndCents(c: nat): string {
    Itoa(c / 100) + "." + Pad2(c % 100)
  }

  /** The numeral of n with at least three digits. */
  function AtLeast3(n: nat): (s: string)
    ensures |s| >= 3
  {
    if n < 10 then [Digit(0), Digit(0)] + Itoa(n)
    else if n < 100 then (TwoDigits(n); [Digit(0)] + Itoa(n))
    else (TwoMoreDigits(n); Itoa(n))
  }

  lemma TwoDigits(n: nat)
    requires 10 <= n < 100
    ensures Itoa(n) == [Digit(n / 10), Digit(n % 10)]
  {
    assert Itoa(n / 10) == [Digit(n / 10)];
  }

  lemma TwoMoreDigits(n: nat)
    requires n >= 100
    ensures Itoa(n) == Itoa(n / 100) + [Digit(n / 10 % 10), Digit(n % 10)]
  {
    assert n / 10 / 10 == n / 100;
    assert Itoa(n / 10) == Itoa(n / 100) + [Digit(n / 10 % 10)];
  }

  /** `%.2f`: the value rounded to n hundredths, its last two digits behind the point. */
  function Fixed2(n: nat): string {
    var s := AtLeast3(n);
    s[..|s| - 2] + "." + s[|s| - 2..]
  }

  /** n hundredths are nearest to the float m / 2^k. */
  predicate Hundredths(m: int, k: nat, n: int) {
    -Pow2(k) <= 2 * (100 * m - n * Pow2(k)) <= Pow2(k)
  }

  lemma PadIsTwoDigits(c: nat)
    requires c < 100
    ensures Pad2(c) == [Digit(c / 10), Digit(c % 10)]
  {
    if c >= 10 { TwoDigits(c); }
  }

  lemma LastTwoDigits(n: nat)
    ensures AtLeast3(n) == Itoa(n / 100) + Pad2(n % 100)
  {
    if n >= 100 {
      var q, c := n / 100, n % 100;
      assert n == 100 * q + c && n / 10 == 10 * q + c / 10;
      PadIsTwoDigits(c);
      TwoMoreDigits(n);
      assert n / 10 % 10 == c / 10 && n % 10 == c % 10;
    } else {
      assert n / 100 == 0 && n % 100 == n;
      assert Itoa(0) == [Digit(0)];
    }
  }

  lemma FormsAgree(n: nat)
    ensures Fixed2(n) == UnitsAndCents(n)
  {
    LastTwoDigits(n);
    PadIsTwoDigits(n % 100);
  }

  lemma {:induction false} ReadConcat(s: string, a: char, b: char)
    requires AllDigits(s) && '0' <= a <= '9' && '0' <= b <= '9'
    ensures AllDigits(s + [a, b])
    ensures Read(s + [a, b]) == 100 * Read(s) + 10 * (a as int - '0' as int) + (b as int - '0' as int)
  {
    var t := s + [a, b];
    assert t[..|t| - 1] == s + [a] && (s + [a])[..|s|] == s;
  }

  /** The printed amount, read without its point, is the number of cents, and the
      point stands before the last two digits. */
  lemma AmountReadsBack(c: nat)
    ensures var s := UnitsAndCents(c);
      && |s| >= 4 && s[|s| - 3] == '.'
      && AllDigits(s[..|s| - 3] + s[|s| - 2..]) && Read(s[..|s| - 3] + s[|s| - 2..]) == c
  {
    var u, p := Itoa(c / 100), Pad2(c % 100);
    ReadsBack(c / 100);
    PadIsTwoDigits(c % 100);
    ReadConcat(u, Digit(c % 100 / 10), Digit(c % 100 % 10));
    var s := UnitsAndCents(c);
    assert |p| == 2 && s == u + "." + p;
    assert s[..|s| - 3] == u && s[|s| - 2..] == p;
  }

  lemma OnlyNone(r: int, d: int, q: int)
    requires q >= 256 && -50 <= r <= 50
    ensures -q <= 2 * (r - d * q) <= q <==> d == 0
  {
    if d > 0 { Cancel(1, d, q); }
    if d < 0 { Cancel(d, -1, q); }
  }

  lemma SameCount(c: int, n: int, q: int, x: int)
    requires q >= 256 && -50 <= x - c * q <= 50
    ensures -q <= 2 * (x - n * q) <= q <==> n == c
  {
    assert (n - c) * q == n * q - c * q;
    OnlyNone(x - c * q, n - c, q);
  }

  /** PVS and GS are shown the same amount for every order, though only one of
      the two goes through floating point. */
  lemma BothSeeTheSameAmount(c: int, m: int, k: nat, n: int)
    requires 1 <= c <= MAX_CENTS && RoundsTo(c, 100, m, k)
    ensures Hundredths(m, k, n) <==> n == c
    ensures Fixed2(c) == UnitsAndCents(c)
  {
    ReadExponent(c, k);
    SmallPowers();
    PowersAscend(8, k);
    SameCount(c, n, Pow2(k), 100 * m);
    FormsAgree(c);
  }
}
