/** Truncation of a logged text to a byte limit without cutting through a
    character. */
module Truncate {
  import opened Crockford

  const DOTS: seq<Byte> := [0x2E, 0x2E, 0x2E]

  /** Not a continuation byte 10xxxxxx. */
  predicate RuneStart(b: Byte) {
    b / 64 != 2
  }

  /** The largest rune start at or below i, or 0. */
  predicate IsCut(s: seq<Byte>, i: nat, cut: nat)
    requires i < |s|
  {
    && cut <= i && (cut == 0 || RuneStart(s[cut]))
    && forall j :: cut < j <= i ==> !RuneStart(s[j])
  }

  method BackUp(s: seq<Byte>, i: nat) returns (cut: nat)
    requires i < |s|
    ensures IsCut(s, i, cut)
  {
    cut := i;
    while cut > 0 && !RuneStart(s[cut])
      invariant cut <= i && forall j :: cut < j <= i ==> !RuneStart(s[j])
    {
      cut := cut - 1;
    }
  }

  /** The whole text if it fits or there is no limit; otherwise a prefix up to
      the last rune start that leaves room for the dots (no dots in three bytes). */
  method TruncateString(s: seq<Byte>, maxBytes: int) returns (r: seq<Byte>)
    ensures maxBytes <= 0 || |s| <= maxBytes ==> r == s
    ensures 0 < maxBytes < |s| ==>
              exists cut: nat :: Truncated(s, maxBytes, cut, r)
    ensures 0 < maxBytes ==> |r| <= maxBytes
    ensures ValidUTF8(s) ==> ValidUTF8(r)
    ensures ValidUTF8(s) && 0 < maxBytes < |s| ==> |r| >= maxBytes - 3
  {
    if maxBytes <= 0 || |s| <= maxBytes {
      return s;
    }
    if maxBytes <= 3 {
      var cut := BackUp(s, maxBytes);
      r := s[..cut];
      assert Truncated(s, maxBytes, cut, r);
      if ValidUTF8(s) {
        PrefixValid(s, cut);
        CutLosesLittle(s, maxBytes, cut);
      }
    } else {
      var cut := BackUp(s, maxBytes - 3);
      r := s[..cut] + DOTS;
      assert Truncated(s, maxBytes, cut, r);
      if ValidUTF8(s) {
        PrefixValid(s, cut);
        CutLosesLittle(s, maxBytes - 3, cut);
        DotsValid(s[..cut]);
      }
    }
  }

  predicate Truncated(s: seq<Byte>, maxBytes: nat, cut: nat, r: seq<Byte>)
    requires 0 < maxBytes < |s|
  {
    if maxBytes <= 3 then IsCut(s, maxBytes, cut) && r == s[..cut]
    else IsCut(s, maxBytes - 3, cut) && r == s[..cut] + DOTS
  }

  // ---------------------------------------------------------------- section 4 of RFC 3629

  predicate Tail(b: Byte) {
    0x80 <= b <= 0xBF
  }

  /** The length of the well-formed character at the front, 0 if there is none. */
  function CharLength(s: seq<Byte>): (n: nat)
    ensures n <= |s| && n <= 4
  {
    if s == [] then 0
    else if s[0] <= 0x7F then 1
    else if |s| >= 2 && 0xC2 <= s[0] <= 0xDF && Tail(s[1]) then 2
    else if |s| >= 3 && Lead3(s[0], s[1]) && Tail(s[1]) && Tail(s[2]) then 3
    else if |s| >= 4 && Lead4(s[0], s[1]) && Tail(s[1]) && Tail(s[2]) && Tail(s[3]) then 4
    else 0
  }

  predicate Lead3(a: Byte, b: Byte) {
    || (a == 0xE0 && b >= 0xA0) || (0xE1 <= a <= 0xEC) || (a == 0xED && b <= 0x9F) || (0xEE <= a <= 0xEF)
  }

  predicate Lead4(a: Byte, b: Byte) {
    || (a == 0xF0 && b >= 0x90) || (0xF1 <= a <= 0xF3) || (a == 0xF4 && b <= 0x8F)
  }

  predicate ValidUTF8(s: seq<Byte>)
    decreases |s|
  {
    s == [] || (CharLength(s) > 0 && ValidUTF8(s[CharLength(s)..]))
  }

  lemma CharInside(s: seq<Byte>, i: nat)
    requires i < CharLength(s)
    ensures RuneStart(s[i]) <==> i == 0
  {
  }

  lemma CharLengthOfPrefix(s: seq<Byte>, cut: nat)
    requires CharLength(s) <= cut <= |s| && CharLength(s) > 0
    ensures CharLength(s[..cut]) == CharLength(s)
  {
  }

  /** A prefix that ends before a rune start holds whole characters. */
  lemma {:induction false} PrefixValid(s: seq<Byte>, cut: nat)
    requires ValidUTF8(s) && cut <= |s| && (cut == 0 || cut == |s| || RuneStart(s[cut]))
    ensures ValidUTF8(s[..cut])
    decreases |s|
  {
    if cut > 0 {
      var n := CharLength(s);
      if cut < n { CharInside(s, cut); }
      CharLengthOfPrefix(s, cut);
      PrefixValid(s[n..], cut - n);
      assert s[..cut][n..] == s[n..][..cut - n];
    }
  }

  /** Aligning a cut in valid text gives up at most three bytes. */
  lemma {:induction false} CutLosesLittle(s: seq<Byte>, i: nat, cut: nat)
    requires ValidUTF8(s) && i < |s| && IsCut(s, i, cut)
    ensures i - 3 <= cut
    decreases |s|
  {
    var n := CharLength(s);
    if i >= n {
      CharInside(s[n..], 0);
      assert RuneStart(s[n]);
      assert IsCut(s[n..], i - n, cut - n) by {
        assert forall j :: cut - n < j <= i - n ==> s[n..][j] == s[n + j];
      }
      CutLosesLittle(s[n..], i - n, cut - n);
    }
  }

  lemma {:induction false} DotsValid(s: seq<Byte>)
    requires ValidUTF8(s)
    ensures ValidUTF8(s + DOTS)
    decreases |s|
  {
    if s == [] {
      assert s + DOTS == DOTS;
      assert DOTS[1..] == [0x2E, 0x2E] && DOTS[1..][1..] == [0x2E] && DOTS[1..][1..][1..] == [];
    } else {
      var n := CharLength(s);
      assert (s + DOTS)[..|s|] == s;
      CharLengthOfExtension(s, DOTS);
      assert (s + DOTS)[n..] == s[n..] + DOTS;
      DotsValid(s[n..]);
    }
  }

  lemma CharLengthOfExtension(s: seq<Byte>, t: seq<Byte>)
    requires CharLength(s) > 0
    ensures CharLength(s + t) == CharLength(s)
  {
  }
}
