/** Crockford base 32 as the request identifiers use it: bytes are taken five at
    a time, 40 bits to 8 characters; a shorter last chunk is aligned to the left
    of its 40 bits and then its low bits are printed. */
module Crockford {
  type Byte = b: nat | b < 256

  const CROCKFORD := "0123456789ABCDEFGHJKMNPQRSTVWXYZ"
  const UINT64: nat := 0x1_0000_0000_0000_0000

  /** The weight of character k from the right. */
  function Pow32(k: nat): (p: nat)
    ensures p > 0
  {
    if k == 0 then 1 else 32 * Pow32(k - 1)
  }

  function Pow256(k: nat): (p: nat)
    ensures p > 0
  {
    if k == 0 then 1 else 256 * Pow256(k - 1)
  }

  function Value(b: seq<Byte>): nat {
    if b == [] then 0 else Value(b[..|b| - 1]) * 256 + b[|b| - 1]
  }

  function Digits(v: nat, n: nat): (d: seq<nat>)
    ensures |d| == n && forall i :: 0 <= i < n ==> d[i] < 32
  {
    if n == 0 then [] else Digits(v / 32, n - 1) + [v % 32]
  }

  function Letters(d: seq<nat>): string
    requires forall i :: 0 <= i < |d| ==> d[i] < 32
  {
    seq(|d|, i requires 0 <= i < |d| => CROCKFORD[d[i]])
  }

  function CharsFor(n: nat): nat {
    if n < 5 then (n * 8 + 4) / 5 else 8
  }

  function Aligned(chunk: seq<Byte>): nat
    requires |chunk| <= 5
  {
    Value(chunk) * Pow256(5 - |chunk|)
  }

  function EncodeChunk(chunk: seq<Byte>): string
    requires |chunk| <= 5
  {
    Letters(Digits(Aligned(chunk), CharsFor(|chunk|)))
  }

  function Encode(b: seq<Byte>): string {
    if b == [] then ""
    else if |b| <= 5 then EncodeChunk(b)
    else EncodeChunk(b[..5]) + Encode(b[5..])
  }

  // ---------------------------------------------------------------- the loops

  lemma ValueBound(b: seq<Byte>)
    ensures Value(b) < Pow256(|b|)
  {
    if b != [] { ValueBound(b[..|b| - 1]); }
  }

  lemma DivDiv(v: nat, k: nat)
    requires k < 8
    ensures v / 32 / Pow32(k) == v / Pow32(k + 1)
  {
    assert Pow32(0) == 1 && Pow32(1) == 32 && Pow32(2) == 1024 && Pow32(3) == 32768 && Pow32(4) == 1048576;
    assert Pow32(5) == 33554432 && Pow32(6) == 1073741824 && Pow32(7) == 34359738368 && Pow32(8) == 1099511627776;
    match k {
      case 0 => case 1 => case 2 => case 3 => case 4 => case 5 => case 6 => case _ =>
    }
  }

  lemma {:induction false} DigitAt(v: nat, n: nat, k: nat)
    requires k < n <= 8
    ensures Digits(v, n)[n - 1 - k] == v / Pow32(k) % 32
    decreases n
  {
    if k > 0 {
      DigitAt(v / 32, n - 1, k - 1);
      DivDiv(v, k - 1);
    }
  }

  lemma ValuePrefix(b: seq<Byte>, j: nat)
    requires j < |b|
    ensures Value(b[..j + 1]) == Value(b[..j]) * 256 + b[j]
  {
    assert b[..j + 1][..j] == b[..j];
  }

  /** A shift to the left in a 64-bit word. */
  function ShiftLeft(buf: nat, bytes: nat): nat {
    buf * Pow256(bytes) % UINT64
  }

  lemma Fits(chunk: seq<Byte>)
    requires |chunk| <= 5
    ensures Aligned(chunk) < 0x100_0000_0000 && Value(chunk) < 0x100_0000_0000
    ensures |chunk| < 5 ==> Value(chunk) < 0x1_0000_0000
  {
    ValueBound(chunk);
    var v := Value(chunk);
    assert Pow256(0) == 1 && Pow256(1) == 0x100 && Pow256(2) == 0x1_0000;
    assert Pow256(3) == 0x100_0000 && Pow256(4) == 0x1_0000_0000 && Pow256(5) == 0x100_0000_0000;
    match |chunk| {
      case 0 => case 1 => case 2 => case 3 => case 4 => case _ =>
    }
  }

  /** Gather up to five bytes in the 64-bit buffer, aligned to the left of 40 bits. */
  method Gather(b: seq<Byte>, i: nat, n: nat) returns (buf: nat)
    requires n <= 5 && i + n <= |b|
    ensures buf == Aligned(b[i..i + n])
  {
    var chunk := b[i..i + n];
    buf := 0;
    for j := 0 to n
      invariant buf == Value(chunk[..j])
    {
      ValuePrefix(chunk, j);
      Fits(chunk[..j]);
      assert chunk[j] == b[i + j] && Pow256(1) == 256;
      buf := ShiftLeft(buf, 1) + b[i + j]; // the shifted word has zeros where the byte goes
    }
    assert chunk[..n] == chunk;
    Fits(chunk);
    buf := ShiftLeft(buf, 5 - n);
  }

  /** Print the low 5 * chars bits of the buffer, highest first. */
  method Emit(buf: nat, chars: nat) returns (s: string)
    requires chars <= 8
    ensures s == Letters(Digits(buf, chars))
  {
    s := "";
    ghost var word := Letters(Digits(buf, chars));
    var k := chars - 1;
    while k >= 0
      invariant -1 <= k < chars && s == word[..chars - 1 - k]
    {
      DigitAt(buf, chars, k);
      s := s + [CROCKFORD[buf / Pow32(k) % 32]];
      k := k - 1;
    }
  }

  lemma EncodeFrom(b: seq<Byte>, i: nat)
    requires i < |b|
    ensures var n := if |b| - i > 5 then 5 else |b| - i;
      Encode(b[i..]) == EncodeChunk(b[i..i + n]) + Encode(b[i + n..])
  {
    var rest := b[i..];
    if |rest| > 5 {
      assert rest[..5] == b[i..i + 5] && rest[5..] == b[i + 5..];
    } else {
      assert rest == b[i..|b|] && b[|b|..] == [];
    }
  }

  method EncodeCrockford(b: seq<Byte>) returns (sb: string)
    ensures sb == Encode(b)
  {
    sb := "";
    var i := 0;
    assert b[0..] == b;
    while i < |b|
      invariant 0 <= i && sb + Encode(b[if i <= |b| then i else |b|..]) == Encode(b)
    {
      var n := |b| - i;
      if n > 5 { n := 5; }
      var buf := Gather(b, i, n);
      var chars := 8;
      if n < 5 { chars := (n * 8 + 4) / 5; }
      EncodeFrom(b, i);
      var word := Emit(buf, chars);
      assert (sb + word) + Encode(b[i + n..]) == sb + (word + Encode(b[i + n..]));
      sb := sb + word;
      i := i + 5;
    }
  }

  // ---------------------------------------------------------------- length and alphabet

  lemma {:induction false} LengthLaw(b: seq<Byte>)
    ensures |Encode(b)| == (8 * |b| + 4) / 5
    ensures forall i :: 0 <= i < |Encode(b)| ==> Encode(b)[i] in CROCKFORD
    decreases |b|
  {
    if |b| > 5 { LengthLaw(b[5..]); }
  }

  /** The alphabet: the digits and then the capital letters without I, L, O and U. */
  lemma AlphabetMeans(d: nat)
    requires d < 32
    ensures CROCKFORD[d] as int == d + if d < 10 then '0' as int
                                       else if d < 18 then 'A' as int - 10
                                       else if d < 20 then 'J' as int - 18
                                       else if d < 22 then 'M' as int - 20
                                       else if d < 27 then 'P' as int - 22
                                       else 'V' as int - 27
  {
  }

  // ---------------------------------------------------------------- reading whole chunks back

  lemma AlphabetAscends(d: nat, e: nat)
    requires d < e < 32
    ensures CROCKFORD[d] < CROCKFORD[e]
  {
  }

  /** The digit of a character of the alphabet. */
  ghost function DigitOf(c: char): nat
    requires c in CROCKFORD
  {
    var d :| 0 <= d < |CROCKFORD| && CROCKFORD[d] == c; d
  }

  lemma DigitOfLetter(d: nat)
    requires d < 32
    ensures CROCKFORD[d] in CROCKFORD && DigitOf(CROCKFORD[d]) == d
  {
    assert CROCKFORD[d] in CROCKFORD;
    var e := DigitOf(CROCKFORD[d]);
    if e < d { AlphabetAscends(e, d); }
    if d < e { AlphabetAscends(d, e); }
  }

  function FromDigits(d: seq<nat>): nat {
    if d == [] then 0 else FromDigits(d[..|d| - 1]) * 32 + d[|d| - 1]
  }

  function ToBytes(v: nat, n: nat): (b: seq<Byte>)
    ensures |b| == n
  {
    if n == 0 then [] else ToBytes(v / 256, n - 1) + [v % 256]
  }

  lemma {:induction false} DigitsRoundTrip(v: nat, n: nat)
    requires v < Pow32(n)
    ensures FromDigits(Digits(v, n)) == v
    decreases n
  {
    if n > 0 {
      DigitsRoundTrip(v / 32, n - 1);
      assert Digits(v, n)[..n - 1] == Digits(v / 32, n - 1);
    }
  }

  lemma {:induction false} BytesRoundTrip(b: seq<Byte>)
    ensures ToBytes(Value(b), |b|) == b
    decreases |b|
  {
    if b != [] { BytesRoundTrip(b[..|b| - 1]); }
  }

  /** Eight characters back to five bytes. */
  ghost function DecodeChunk(s: string): seq<Byte>
    requires |s| == 8 && InAlphabet(s)
  {
    ToBytes(FromDigits(seq(8, i requires 0 <= i < 8 => DigitOf(s[i]))), 5)
  }

  ghost function Decode(s: string): seq<Byte>
    requires |s| % 8 == 0 && InAlphabet(s)
  {
    if s == "" then [] else DecodeChunk(s[..8]) + Decode(s[8..])
  }

  lemma DecodeWholeChunk(b: seq<Byte>)
    requires |b| == 5
    ensures |EncodeChunk(b)| == 8 && InAlphabet(EncodeChunk(b))
    ensures DecodeChunk(EncodeChunk(b)) == b
  {
    var v, word := Value(b), EncodeChunk(b);
    Fits(b);
    assert Aligned(b) == v;
    var d := Digits(v, 8);
    assert Pow32(4) == 1048576 && Pow32(8) == 0x100_0000_0000;
    forall i | 0 <= i < 8 ensures word[i] in CROCKFORD && DigitOf(word[i]) == d[i] { DigitOfLetter(d[i]); }
    assert seq(8, i requires 0 <= i < 8 => DigitOf(word[i])) == d;
    DigitsRoundTrip(v, 8);
    BytesRoundTrip(b);
  }

  lemma EncodeUnfolds(b: seq<Byte>)
    requires |b| >= 5
    ensures Encode(b) == EncodeChunk(b[..5]) + Encode(b[5..])
  {
    if |b| == 5 { assert b[..5] == b && b[5..] == []; }
  }

  predicate InAlphabet(s: string) {
    forall i :: 0 <= i < |s| ==> s[i] in CROCKFORD
  }

  lemma DecodeUnfolds(x: string, y: string)
    requires |x| == 8 && |y| % 8 == 0 && InAlphabet(x) && InAlphabet(y)
    ensures InAlphabet(x + y) && Decode(x + y) == DecodeChunk(x) + Decode(y)
  {
    assert (x + y)[..8] == x && (x + y)[8..] == y;
  }

  lemma TakeConcat<T>(w: seq<T>, t: seq<T>, k: nat)
    requires k <= |t|
    ensures (w + t)[..|w| + k] == w + t[..k]
  {
  }

  /** The first 8m characters of s are m chunks that decode to d. */
  ghost predicate Reads(s: string, m: nat, d: seq<Byte>) {
    8 * m <= |s| && InAlphabet(s[..8 * m]) && Decode(s[..8 * m]) == d
  }

  lemma ReadsNothing(s: string, b: seq<Byte>)
    ensures Reads(s, 0, b[..0])
  {
    assert s[..0] == "" && b[..0] == [];
  }

  lemma ReadsNext(w: string, t: string, m: nat, d: seq<Byte>)
    requires |w| == 8 && InAlphabet(w) && Reads(t, m, d)
    ensures Reads(w + t, m + 1, DecodeChunk(w) + d)
  {
    TakeConcat(w, t, 8 * m);
    DecodeUnfolds(w, t[..8 * m]);
  }

  /** Whatever follows, the characters of m whole chunks give back their bytes. */
  lemma {:induction false} WholeChunksDecode(b: seq<Byte>, m: nat)
    requires 5 * m <= |b|
    ensures Reads(Encode(b), m, b[..5 * m])
    decreases m
  {
    if m == 0 {
      ReadsNothing(Encode(b), b);
    } else {
      WholeChunksDecode(b[5..], m - 1);
      ReadsWhole(b, Encode(b[5..]), m - 1, b[5..][..5 * (m - 1)]);
      assert b[..5 * m] == b[..5] + b[5..][..5 * (m - 1)];
    }
  }

  lemma ReadsWhole(b: seq<Byte>, t: string, m: nat, d: seq<Byte>)
    requires |b| >= 5 && t == Encode(b[5..]) && Reads(t, m, d)
    ensures Reads(Encode(b), m + 1, b[..5] + d)
  {
    EncodeUnfolds(b);
    DecodeWholeChunk(b[..5]);
    ReadsNext(EncodeChunk(b[..5]), t, m, d);
  }

  // ---------------------------------------------------------------- order

  /** a and b first differ at k, and a is smaller there. */
  predicate LessAt(a: seq<Byte>, b: seq<Byte>, k: nat) {
    k < |a| && k < |b| && a[..k] == b[..k] && a[k] < b[k]
  }

  /** Dictionary order of texts. */
  predicate Before(s: string, t: string) {
    exists k :: 0 <= k < |s| && k < |t| && s[..k] == t[..k] && s[k] < t[k]
  }

  lemma {:induction false} ValueOrder(a: seq<Byte>, b: seq<Byte>, k: nat)
    requires |a| == |b| && LessAt(a, b, k)
    ensures Value(a) < Value(b)
    decreases |a|
  {
    var n := |a| - 1;
    if k == n {
      assert a[..n] == b[..n];
    } else {
      assert a[..n][..k] == a[..k] && b[..n][..k] == b[..k];
      ValueOrder(a[..n], b[..n], k);
    }
  }

  lemma {:induction false} DigitsOrder(v: nat, w: nat, n: nat) returns (k: nat)
    requires v < w < Pow32(n)
    ensures k < n && Digits(v, n)[..k] == Digits(w, n)[..k] && Digits(v, n)[k] < Digits(w, n)[k]
    decreases n
  {
    var d, e := Digits(v, n), Digits(w, n);
    assert d[..n - 1] == Digits(v / 32, n - 1) && e[..n - 1] == Digits(w / 32, n - 1);
    if v / 32 < w / 32 {
      k := DigitsOrder(v / 32, w / 32, n - 1);
      assert d[..k] == d[..n - 1][..k] && e[..k] == e[..n - 1][..k];
    } else {
      k := n - 1;
    }
  }

  lemma LettersOrder(d: seq<nat>, e: seq<nat>, j: nat)
    requires (forall i :: 0 <= i < |d| ==> d[i] < 32) && (forall i :: 0 <= i < |e| ==> e[i] < 32)
    requires j < |d| && j < |e| && d[..j] == e[..j] && d[j] < e[j]
    ensures Before(Letters(d), Letters(e))
  {
    AlphabetAscends(d[j], e[j]);
    var s, t := Letters(d), Letters(e);
    assert forall i :: 0 <= i < j ==> d[i] == d[..j][i] && e[i] == e[..j][i];
    assert s[..j] == t[..j];
  }

  lemma ChunkOrder(a: seq<Byte>, b: seq<Byte>, k: nat)
    requires |a| == |b| == 5 && LessAt(a, b, k)
    ensures Before(EncodeChunk(a), EncodeChunk(b))
  {
    ValueOrder(a, b, k);
    Fits(b);
    assert Pow32(4) == 1048576 && Pow32(8) == 0x100_0000_0000;
    assert Aligned(a) == Value(a) && Aligned(b) == Value(b);
    var j := DigitsOrder(Value(a), Value(b), 8);
    LettersOrder(Digits(Value(a), 8), Digits(Value(b), 8), j);
  }

  lemma BeforeInContext(p: string, s: string, t: string, x: string, y: string)
    requires Before(s, t)
    ensures Before(p + s + x, p + t + y)
  {
    var k :| 0 <= k < |s| && k < |t| && s[..k] == t[..k] && s[k] < t[k];
    var u, w, j := p + s + x, p + t + y, |p| + k;
    assert u[..j] == p + s[..k] && w[..j] == p + t[..k];
    assert u[j] == s[k] && w[j] == t[k];
  }

  /** Inputs of one length that first differ inside a whole chunk keep their
      dictionary order. */
  lemma {:induction false} OrderPreserved(a: seq<Byte>, b: seq<Byte>, k: nat)
    requires |a| == |b| && LessAt(a, b, k) && k < 5 * (|a| / 5)
    ensures Before(Encode(a), Encode(b))
    decreases |a|
  {
    if |a| == 5 {
      ChunkOrder(a, b, k);
    } else if k < 5 {
      assert a[..5][..k] == a[..k] && b[..5][..k] == b[..k];
      ChunkOrder(a[..5], b[..5], k);
      BeforeInContext("", EncodeChunk(a[..5]), EncodeChunk(b[..5]), Encode(a[5..]), Encode(b[5..]));
      assert "" + EncodeChunk(a[..5]) == EncodeChunk(a[..5]) && "" + EncodeChunk(b[..5]) == EncodeChunk(b[..5]);
    } else {
      assert a[..5] == a[..k][..5] && b[..5] == b[..k][..5];
      assert a[5..][..k - 5] == a[..k][5..] && b[5..][..k - 5] == b[..k][5..];
      OrderPreserved(a[5..], b[5..], k - 5);
      BeforeInContext(EncodeChunk(a[..5]), Encode(a[5..]), Encode(b[5..]), "", "");
      assert Encode(a) == EncodeChunk(a[..5]) + Encode(a[5..]) + "" && Encode(b) == EncodeChunk(b[..5]) + Encode(b[5..]) + "";
    }
  }

  /** The identifier's bytes: the low 48 bits of the millisecond stamp, high byte
      first, then ten random bytes. */
  function ULIDBytes(now: nat, random: seq<Byte>): (b: seq<Byte>)
    requires |random| == 10
    ensures |b| == 16
  {
    [now / 0x100_0000_0000 % 256, now / 0x1_0000_0000 % 256, now / 0x100_0000 % 256,
     now / 0x1_0000 % 256, now / 0x100 % 256, now % 256] + random
  }

  const STAMP: nat := 0x1_0000_0000_0000

  lemma StampBytes(t: nat, r: seq<Byte>)
    requires |r| == 10
    ensures var b := ULIDBytes(t, r);
      t % STAMP == 0x100_0000_0000 * (b[0] as int) + 0x1_0000_0000 * (b[1] as int) + 0x100_0000 * (b[2] as int)
                   + 0x1_0000 * (b[3] as int) + 0x100 * (b[4] as int) + (b[5] as int)
  {
    var h := t / 0x1_0000_0000;
    Quotients(t);
    TwoBytes(t);
    TwoBytes(t / 0x1_0000);
    TwoBytes(h);
    ThreeWords(t);
  }

  lemma ThreeWords(t: nat)
    ensures t % STAMP == 0x1_0000_0000 * (t / 0x1_0000_0000 % 0x1_0000) + 0x1_0000 * (t / 0x1_0000 % 0x1_0000) + t % 0x1_0000
  {
    var h := t / 0x1_0000_0000;
    var low := 0x1_0000_0000 * (h % 0x1_0000) + 0x1_0000 * (t / 0x1_0000 % 0x1_0000) + t % 0x1_0000;
    assert t == STAMP * (h / 0x1_0000) + low && 0 <= low < STAMP;
  }

  lemma Quotients(t: nat)
    ensures t / 0x100 / 0x100 == t / 0x1_0000 && t / 0x1_0000 / 0x100 == t / 0x100_0000
    ensures t / 0x1_0000 / 0x1_0000 == t / 0x1_0000_0000 && t / 0x1_0000_0000 / 0x100 == t / 0x100_0000_0000
  {
  }

  lemma TwoBytes(t: nat)
    ensures t % 0x1_0000 == 0x100 * (t / 0x100 % 256) + t % 256
  {
    var a, q := t / 0x100, t / 0x1_0000;
    Quotients(t);
    assert t == 0x100 * a + t % 0x100 && a == 0x100 * q + a % 0x100;
  }

  lemma StampOrder(t: nat, u: nat, r: seq<Byte>, q: seq<Byte>) returns (k: nat)
    requires |r| == |q| == 10 && t % STAMP < u % STAMP
    ensures k < 6 && LessAt(ULIDBytes(t, r), ULIDBytes(u, q), k)
  {
    var a, b := ULIDBytes(t, r), ULIDBytes(u, q);
    k := 0;
    while k < 5 && a[k] == b[k]
      invariant k <= 5 && forall i :: 0 <= i < k ==> a[i] == b[i]
    {
      k := k + 1;
    }
    StampBytes(t, r);
    StampBytes(u, q);
  }

  /** An identifier with an earlier stamp sorts first, whatever its random bytes
      (stamps are compared modulo 2^48, which is all that is kept of them). */
  lemma EarlierSortsFirst(t: nat, u: nat, r: seq<Byte>, q: seq<Byte>)
    requires |r| == |q| == 10 && t % STAMP < u % STAMP
    ensures Before(Encode(ULIDBytes(t, r)), Encode(ULIDBytes(u, q)))
  {
    var k := StampOrder(t, u, r, q);
    OrderPreserved(ULIDBytes(t, r), ULIDBytes(u, q), k);
  }

  // ---------------------------------------------------------------- what the last chunk loses

  lemma LastDigit(v: nat, y: nat)
    ensures (v + 32 * y) / 32 == v / 32 + y && (v + 32 * y) % 32 == v % 32
  {
  }

  lemma Weight(x: nat, n: nat)
    requires n > 0
    ensures x * Pow32(n) == 32 * (x * Pow32(n - 1))
  {
  }

  lemma {:induction false} HighPartLost(v: nat, x: nat, n: nat)
    ensures Digits(v + x * Pow32(n), n) == Digits(v, n)
    decreases n
  {
    if n > 0 {
      Weight(x, n);
      LastDigit(v, x * Pow32(n - 1));
      HighPartLost(v / 32, x, n - 1);
    }
  }

  lemma DivMod(v: nat, p: nat) returns (low: nat, x: nat)
    requires p > 0
    ensures v == low + x * p && low == v % p < p
  {
    low, x := v % p, v / p;
  }

  /** The digits of v are those of its low part. */
  lemma LowPart(v: nat, n: nat) returns (low: nat)
    ensures low == v % Pow32(n) < Pow32(n) && Digits(v, n) == Digits(low, n)
  {
    var x;
    low, x := DivMod(v, Pow32(n));
    HighPartLost(low, x, n);
  }

  lemma SameDigitsIff(v: nat, w: nat, n: nat)
    ensures Digits(v, n) == Digits(w, n) <==> v % Pow32(n) == w % Pow32(n)
  {
    var low := LowPart(v, n);
    var low' := LowPart(w, n);
    DigitsRoundTrip(low, n);
    DigitsRoundTrip(low', n);
  }

  lemma LettersInjective(d: seq<nat>, e: seq<nat>)
    requires (forall i :: 0 <= i < |d| ==> d[i] < 32) && (forall i :: 0 <= i < |e| ==> e[i] < 32)
    requires Letters(d) == Letters(e)
    ensures d == e
  {
    assert |d| == |Letters(d)| == |Letters(e)| == |e|;
    forall i | 0 <= i < |d| ensures d[i] == e[i] {
      assert Letters(d)[i] == Letters(e)[i];
      if d[i] < e[i] { AlphabetAscends(d[i], e[i]); }
      if e[i] < d[i] { AlphabetAscends(e[i], d[i]); }
    }
  }

  /** What the text keeps of a short last chunk: its value modulo this. Nothing of
      one or two bytes, 9 bits of three and 27 bits of four. */
  function Kept(n: nat): nat
    requires n < 5
  {
    match n
    case 3 => 0x200
    case 4 => 0x800_0000
    case _ => 1
  }

  lemma PowersUsed()
    ensures Pow32(0) == 1 && Pow32(2) == 0x400 && Pow32(4) == 0x10_0000 && Pow32(5) == 0x200_0000 && Pow32(7) == 0x8_0000_0000
    ensures Pow256(1) == 0x100 && Pow256(2) == 0x1_0000 && Pow256(3) == 0x100_0000 && Pow256(4) == 0x1_0000_0000
  {
  }

  lemma OneByteLost(v: nat)
    ensures v * 0x1_0000_0000 % 0x400 == 0
  {
  }

  lemma TwoBytesLost(v: nat)
    ensures v * 0x100_0000 % 0x10_0000 == 0
  {
  }

  lemma ThreeBytesKeep(v: nat)
    ensures v * 0x1_0000 % 0x200_0000 == v % 0x200 * 0x1_0000
  {
    var q := v / 0x200;
    assert v * 0x1_0000 == q * 0x200_0000 + v % 0x200 * 0x1_0000;
  }

  lemma FourBytesKeep(v: nat)
    ensures v * 0x100 % 0x8_0000_0000 == v % 0x800_0000 * 0x100
  {
    var q := v / 0x800_0000;
    assert v * 0x100 == q * 0x8_0000_0000 + v % 0x800_0000 * 0x100;
  }

  lemma ShortValueIff(v: nat, w: nat, n: nat)
    requires n < 5
    ensures v * Pow256(5 - n) % Pow32(CharsFor(n)) == w * Pow256(5 - n) % Pow32(CharsFor(n)) <==> v % Kept(n) == w % Kept(n)
  {
    PowersUsed();
    match n {
      case 0 =>
      case 1 => OneByteLost(v); OneByteLost(w);
      case 2 => TwoBytesLost(v); TwoBytesLost(w);
      case 3 => ThreeBytesKeep(v); ThreeBytesKeep(w);
      case _ => FourBytesKeep(v); FourBytesKeep(w);
    }
  }

  lemma ShortChunkIff(x: seq<Byte>, y: seq<Byte>)
    requires |x| == |y| < 5
    ensures EncodeChunk(x) == EncodeChunk(y) <==> Value(x) % Kept(|x|) == Value(y) % Kept(|x|)
  {
    var c := CharsFor(|x|);
    ShortValueIff(Value(x), Value(y), |x|);
    SameDigitsIff(Aligned(x), Aligned(y), c);
    if EncodeChunk(x) == EncodeChunk(y) { LettersInjective(Digits(Aligned(x), c), Digits(Aligned(y), c)); }
  }

  /** Two inputs agree in all that their text keeps. */
  predicate Alike(a: seq<Byte>, b: seq<Byte>) {
    var m := 5 * (|a| / 5);
    |a| == |b| && a[..m] == b[..m] && Value(a[m..]) % Kept(|a| - m) == Value(b[m..]) % Kept(|a| - m)
  }

  lemma AlikeUnfolds(a: seq<Byte>, b: seq<Byte>)
    requires |a| == |b| >= 5
    ensures Alike(a, b) <==> a[..5] == b[..5] && Alike(a[5..], b[5..])
  {
    var m := 5 * (|a| / 5);
    assert 5 * ((|a| - 5) / 5) == m - 5;
    assert a[5..][m - 5..] == a[m..] && b[5..][m - 5..] == b[m..];
    assert a[5..][..m - 5] == a[..m][5..] && b[5..][..m - 5] == b[..m][5..];
    assert a[..5] == a[..m][..5] && b[..5] == b[..m][..5];
    assert a[..m] == a[..5] + a[..m][5..] && b[..m] == b[..5] + b[..m][5..];
  }

  lemma SplitTexts(u: string, v: string, x: string, y: string)
    requires |u| == |v|
    ensures u + x == v + y <==> u == v && x == y
  {
    assert (u + x)[..|u|] == u && (v + y)[..|u|] == v && (u + x)[|u|..] == x && (v + y)[|u|..] == y;
  }

  lemma {:induction false} SameLengthIff(a: seq<Byte>, b: seq<Byte>)
    requires |a| == |b|
    ensures Encode(a) == Encode(b) <==> Alike(a, b)
    decreases |a|
  {
    if |a| < 5 {
      ShortChunkIff(a, b);
      assert a[0..] == a && b[0..] == b && a[..0] == b[..0];
    } else {
      EncodeUnfolds(a);
      EncodeUnfolds(b);
      DecodeWholeChunk(a[..5]);
      DecodeWholeChunk(b[..5]);
      SplitTexts(EncodeChunk(a[..5]), EncodeChunk(b[..5]), Encode(a[5..]), Encode(b[5..]));
      AlikeUnfolds(a, b);
      SameLengthIff(a[5..], b[5..]);
    }
  }

  /** Exactly which inputs share their text: those of one length that agree in
      their whole chunks and in the bits kept of the last one. */
  lemma SameTextIff(a: seq<Byte>, b: seq<Byte>)
    ensures Encode(a) == Encode(b) <==> Alike(a, b)
  {
    LengthLaw(a);
    LengthLaw(b);
    if |a| == |b| { SameLengthIff(a, b); }
  }

  lemma TopBitLost(n: nat)
    requires 0 < n < 5
    ensures Value([128] + Zeros(n - 1)) % Kept(n) == 0
  {
    var z := [128] + Zeros(n - 1);
    TopBitValue(n);
    PowersUsed();
    match n { case 1 => case 2 => case 3 => case _ => }
  }

  function Zeros(n: nat): seq<Byte> {
    seq(n, _ => 0)
  }

  lemma {:induction false} TopBitValue(n: nat)
    requires 0 < n
    ensures Value([128] + Zeros(n - 1)) == 128 * Pow256(n - 1)
    decreases n
  {
    var z := [128] + Zeros(n - 1);
    if n > 1 {
      assert z[..n - 1] == [128] + Zeros(n - 2);
      TopBitValue(n - 1);
    } else {
      assert z[..0] == [];
    }
  }

  lemma {:induction false} ZeroValue(n: nat)
    ensures Value(Zeros(n)) == 0
    decreases n
  {
    if n > 0 {
      assert Zeros(n)[..n - 1] == Zeros(n - 1);
      ZeroValue(n - 1);
    }
  }

  /** The encoding can be undone exactly for lengths that are a multiple of five:
      otherwise two different inputs share their text. */
  lemma InjectiveIffWholeChunks(n: nat)
    ensures (forall a: seq<Byte>, b: seq<Byte> :: |a| == n && |b| == n && Encode(a) == Encode(b) ==> a == b) <==> n % 5 == 0
  {
    if n % 5 == 0 {
      forall a: seq<Byte>, b: seq<Byte> | |a| == n && |b| == n && Encode(a) == Encode(b) ensures a == b {
        SameTextIff(a, b);
        assert a[..n] == a && b[..n] == b;
      }
    } else {
      var m, t := 5 * (n / 5), n % 5;
      var a, b := Zeros(m) + Zeros(t), Zeros(m) + ([128] + Zeros(t - 1));
      assert a[..m] == Zeros(m) == b[..m] && a[m..] == Zeros(t) && b[m..] == [128] + Zeros(t - 1);
      ZeroValue(t);
      TopBitLost(t);
      SameTextIff(a, b);
      assert a[m] != b[m];
    }
  }
}
