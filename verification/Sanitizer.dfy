/** Redaction of a JSON body before it is logged. */
module Sanitizer {
  import opened Numerals

  /** A decoded JSON value; numbers, booleans and null are told apart by a code. */
  datatype Json = Object(fields: map<string, Json>) | Array(items: seq<Json>) | Text(text: string) | Scalar(code: int)

  const MAX_LOGGED_RUNES := 256
  const SENSITIVE: set<string> := {
    "token", "secret", "password", "client_secret", "authorization", "api_key", "access_token", "refresh_token"
  }
  const LARGE: set<string> := {"qrurl", "qrimage", "qrraw", "qr", "image"}
  const REDACTED := Text("***")

  // ---------------------------------------------------------------- texts

  /** Lower case as far as it can turn a key into one of the ASCII keys above:
      the ASCII capitals, the Kelvin sign and the dotted capital I. */
  function LowerChar(c: char): char {
    if 'A' <= c <= 'Z' then c - 'A' + 'a'
    else if c == '\U{212A}' then 'k'
    else if c == '\U{0130}' then 'i'
    else c
  }

  function Lower(s: string): string {
    seq(|s|, i requires 0 <= i < |s| => LowerChar(s[i]))
  }

  /** Bytes of a character in UTF-8. */
  function Width(c: char): nat {
    var n := c as int;
    if n < 0x80 then 1 else if n < 0x800 then 2 else if n < 0x1_0000 then 3 else 4
  }

  function ByteLength(s: string): nat {
    if s == "" then 0 else ByteLength(s[..|s| - 1]) + Width(s[|s| - 1])
  }

  function Marker(s: string): string {
    "[truncated " + Itoa(ByteLength(s)) + " bytes]"
  }

  // ---------------------------------------------------------------- the tree

  predicate Sensitive(key: string) {
    Lower(key) in SENSITIVE
  }

  function Sanitize(v: Json): Json {
    match v
    case Object(m) =>
      Object(map k | k in m ::
               if Sensitive(k) then REDACTED
               else if Lower(k) in LARGE && m[k].Text? then Text(Marker(m[k].text))
               else Sanitize(m[k]))
    case Array(xs) => Array(seq(|xs|, i requires 0 <= i < |xs| => Sanitize(xs[i])))
    case Text(s) => if |s| > MAX_LOGGED_RUNES then Text(Marker(s)) else v
    case Scalar(_) => v
  }

  /** The traversal as a loop over the keys in any order. */
  method SanitizeValue(v: Json) returns (r: Json)
    ensures r == Sanitize(v) && Logged(v, r)
    decreases v
  {
    SanitizedIsLogged(v);
    match v
    case Object(m) =>
      var out: map<string, Json> := map[];
      var rest := m.Keys;
      while rest != {}
        invariant rest <= m.Keys && out.Keys == m.Keys - rest
        invariant forall k :: k in out ==> out[k] == Sanitize(v).fields[k]
        decreases |rest|
      {
        var k :| k in rest;
        rest := rest - {k};
        if Sensitive(k) {
          out := out[k := REDACTED];
        } else if Lower(k) in LARGE && m[k].Text? {
          out := out[k := Text(Marker(m[k].text))];
        } else {
          var child := SanitizeValue(m[k]);
          out := out[k := child];
        }
      }
      r := Object(out);
    case Array(xs) =>
      var out: seq<Json> := [];
      for i := 0 to |xs|
        invariant |out| == i && forall j :: 0 <= j < i ==> out[j] == Sanitize(xs[j])
      {
        var child := SanitizeValue(xs[i]);
        out := out + [child];
      }
      r := Array(out);
    case Text(s) =>
      r := if |s| > MAX_LOGGED_RUNES then Text(Marker(s)) else v;
    case Scalar(_) =>
      r := v;
  }

  // ---------------------------------------------------------------- keys in any letter case

  /** A character that counts as this small letter: itself, its capital, and the
      two letters outside ASCII whose small form is an ASCII letter. */
  predicate SameLetter(c: char, w: char) {
    || c == w
    || ('a' <= w <= 'z' && c as int == w as int - 32)
    || (w == 'k' && c == '\U{212A}') || (w == 'i' && c == '\U{0130}')
  }

  predicate SameWord(key: string, word: string) {
    |key| == |word| && forall i :: 0 <= i < |key| ==> SameLetter(key[i], word[i])
  }

  const SECRET_WORDS: seq<string> :=
    ["token", "secret", "password", "client_secret", "authorization", "api_key", "access_token", "refresh_token"]
  const LARGE_WORDS: seq<string> := ["qrurl", "qrimage", "qrraw", "qr", "image"]

  /** One of the words, in any letter case. */
  predicate OneOf(key: string, words: seq<string>) {
    exists i :: 0 <= i < |words| && SameWord(key, words[i])
  }

  /** The keys whose values are secret, and those whose texts are too large to log. */
  predicate SecretKey(key: string) {
    OneOf(key, SECRET_WORDS)
  }

  predicate LargeKey(key: string) {
    OneOf(key, LARGE_WORDS)
  }

  /** A word of small letters and underscores. */
  predicate SmallWord(word: string) {
    forall i :: 0 <= i < |word| ==> 'a' <= word[i] <= 'z' || word[i] == '_'
  }

  lemma LetterIff(c: char, w: char)
    requires 'a' <= w <= 'z' || w == '_'
    ensures LowerChar(c) == w <==> SameLetter(c, w)
  {
  }

  lemma WordIff(key: string, word: string)
    requires SmallWord(word)
    ensures Lower(key) == word <==> SameWord(key, word)
  {
    if |key| == |word| {
      forall i | 0 <= i < |key| ensures Lower(key)[i] == word[i] <==> SameLetter(key[i], word[i]) {
        LetterIff(key[i], word[i]);
      }
      if SameWord(key, word) { assert Lower(key) == word; }
      if Lower(key) == word { assert forall i :: 0 <= i < |key| ==> Lower(key)[i] == word[i]; }
    }
  }

  lemma OneOfIff(key: string, words: seq<string>)
    requires forall i :: 0 <= i < |words| ==> SmallWord(words[i])
    ensures OneOf(key, words) <==> Lower(key) in words
  {
    if i :| 0 <= i < |words| && SameWord(key, words[i]) { WordIff(key, words[i]); }
    if Lower(key) in words {
      var i :| 0 <= i < |words| && words[i] == Lower(key);
      WordIff(key, words[i]);
    }
  }

  lemma WordsAreSmall()
    ensures forall i :: 0 <= i < |SECRET_WORDS| ==> SmallWord(SECRET_WORDS[i])
    ensures forall i :: 0 <= i < |LARGE_WORDS| ==> SmallWord(LARGE_WORDS[i])
  {
  }

  lemma SameWordSets(word: string)
    ensures word in SENSITIVE <==> word in SECRET_WORDS
    ensures word in LARGE <==> word in LARGE_WORDS
  {
  }

  /** Every key that is one of the words up to letter case is treated as it, and
      no other key is. */
  lemma KeysMean(key: string)
    ensures Sensitive(key) <==> SecretKey(key)
    ensures Lower(key) in LARGE <==> LargeKey(key)
  {
    WordsAreSmall();
    SameWordSets(Lower(key));
    OneOfIff(key, SECRET_WORDS);
    OneOfIff(key, LARGE_WORDS);
  }

  // ---------------------------------------------------------------- what is logged, exactly

  /** r is what may be logged of v: "***" under every secret key, the marker under
      every large one and for every text of more than 256 characters, and all else
      as it is, at any depth. */
  predicate Logged(v: Json, r: Json) {
    match v
    case Object(m) =>
      r.Object? && r.fields.Keys == m.Keys
      && forall k :: k in m ==>
           if SecretKey(k) then r.fields[k] == Text("***")
           else if LargeKey(k) && m[k].Text? then r.fields[k] == Text("[truncated " + Itoa(ByteLength(m[k].text)) + " bytes]")
           else Logged(m[k], r.fields[k])
    case Array(xs) =>
      r.Array? && |r.items| == |xs| && forall i :: 0 <= i < |xs| ==> Logged(xs[i], r.items[i])
    case Text(s) => r == if |s| > 256 then Text("[truncated " + Itoa(ByteLength(s)) + " bytes]") else v
    case Scalar(_) => r == v
  }

  lemma {:induction false} SanitizedIsLogged(v: Json)
    ensures Logged(v, Sanitize(v))
    decreases v
  {
    match v
    case Object(m) =>
      var r := Sanitize(v).fields;
      forall k | k in m
        ensures if SecretKey(k) then r[k] == Text("***")
                else if LargeKey(k) && m[k].Text? then r[k] == Text("[truncated " + Itoa(ByteLength(m[k].text)) + " bytes]")
                else Logged(m[k], r[k])
      {
        KeysMean(k);
        SanitizedIsLogged(m[k]);
      }
    case Array(xs) => forall i | 0 <= i < |xs| { SanitizedIsLogged(xs[i]); }
    case _ =>
  }

  // ---------------------------------------------------------------- secrets do not show

  /** Two bodies that differ only in values under secret keys, at any depth. */
  predicate SameButSecrets(a: Json, b: Json) {
    match (a, b)
    case (Object(m), Object(n)) =>
      m.Keys == n.Keys && forall k :: k in m ==> SecretKey(k) || SameButSecrets(m[k], n[k])
    case (Array(xs), Array(ys)) =>
      |xs| == |ys| && forall i :: 0 <= i < |xs| ==> SameButSecrets(xs[i], ys[i])
    case _ => a == b
  }

  /** They are logged alike: nothing of a secret value reaches the log. */
  lemma {:induction false} SecretsDoNotShow(a: Json, b: Json)
    requires SameButSecrets(a, b)
    ensures Sanitize(a) == Sanitize(b)
    decreases a
  {
    match (a, b)
    case (Object(m), Object(n)) =>
      var r, q := Sanitize(a).fields, Sanitize(b).fields;
      forall k | k in m ensures r[k] == q[k] {
        KeysMean(k);
        if !SecretKey(k) { SecretsDoNotShow(m[k], n[k]); }
      }
      assert r == q;
    case (Array(xs), Array(ys)) =>
      forall i | 0 <= i < |xs| ensures Sanitize(xs[i]) == Sanitize(ys[i]) {
        SecretsDoNotShow(xs[i], ys[i]);
      }
    case _ =>
  }

  // ---------------------------------------------------------------- what is kept

  /** Same keys, same lengths, same scalars; under secret keys only the mark. */
  predicate SameShape(v: Json, r: Json) {
    match v
    case Object(m) =>
      r.Object? && r.fields.Keys == m.Keys
      && forall k :: k in m ==> if SecretKey(k) then r.fields[k] == REDACTED else SameShape(m[k], r.fields[k])
    case Array(xs) =>
      r.Array? && |r.items| == |xs| && forall i :: 0 <= i < |xs| ==> SameShape(xs[i], r.items[i])
    case Text(_) => r.Text?
    case Scalar(_) => r == v
  }

  lemma {:induction false} ShapeIsKept(v: Json)
    ensures SameShape(v, Sanitize(v))
    decreases v
  {
    match v
    case Object(m) =>
      var r := Sanitize(v).fields;
      forall k | k in m ensures if SecretKey(k) then r[k] == REDACTED else SameShape(m[k], r[k]) {
        KeysMean(k);
        ShapeIsKept(m[k]);
      }
    case Array(xs) => forall i | 0 <= i < |xs| { ShapeIsKept(xs[i]); }
    case _ =>
  }

  // ---------------------------------------------------------------- nothing long is left

  const MAX_INT: nat := 0x7FFF_FFFF_FFFF_FFFF

  /** Every text has a length that fits the machine's integers. */
  predicate Holdable(v: Json) {
    match v
    case Object(m) => forall k :: k in m ==> Holdable(m[k])
    case Array(xs) => forall i :: 0 <= i < |xs| ==> Holdable(xs[i])
    case Text(s) => ByteLength(s) <= MAX_INT
    case Scalar(_) => true
  }

  predicate NoLongText(v: Json) {
    match v
    case Object(m) => forall k :: k in m ==> NoLongText(m[k])
    case Array(xs) => forall i :: 0 <= i < |xs| ==> NoLongText(xs[i])
    case Text(s) => |s| <= 256
    case Scalar(_) => true
  }

  function Pow10(k: nat): nat {
    if k == 0 then 1 else 10 * Pow10(k - 1)
  }

  lemma {:induction false} ItoaLength(n: nat, k: nat)
    requires n < Pow10(k) && k > 0
    ensures 1 <= |Itoa(n)| <= k
    decreases k
  {
    if n >= 10 {
      assert k > 1 by { assert Pow10(1) == 10 * Pow10(0); }
      ItoaLength(n / 10, k - 1);
    }
  }

  lemma MarkerIsShort(s: string)
    requires ByteLength(s) <= MAX_INT
    ensures |Marker(s)| <= 37
  {
    assert Pow10(5) == 100000;
    assert Pow10(10) == 10000000000;
    assert Pow10(15) == 1000000000000000;
    assert Pow10(19) == 10000000000000000000;
    ItoaLength(ByteLength(s), 19);
  }

  lemma {:induction false} NothingLongIsLeft(v: Json)
    requires Holdable(v)
    ensures NoLongText(Sanitize(v))
    decreases v
  {
    match v
    case Object(m) =>
      forall k | k in m ensures NoLongText(Sanitize(v).fields[k]) {
        if m[k].Text? { MarkerIsShort(m[k].text); }
        NothingLongIsLeft(m[k]);
      }
    case Array(xs) => forall i | 0 <= i < |xs| { NothingLongIsLeft(xs[i]); }
    case Text(s) => MarkerIsShort(s);
    case Scalar(_) =>
  }

  // ---------------------------------------------------------------- sanitizing twice

  lemma {:induction false} ByteLengthOfConcat(s: string, t: string)
    ensures ByteLength(s + t) == ByteLength(s) + ByteLength(t)
    decreases |t|
  {
    if t == "" {
      assert s + t == s;
    } else {
      assert (s + t)[..|s + t| - 1] == s + t[..|t| - 1];
      ByteLengthOfConcat(s, t[..|t| - 1]);
    }
  }

  lemma {:induction false} ByteLengthOfAscii(s: string)
    requires forall i :: 0 <= i < |s| ==> s[i] < '\U{80}'
    ensures ByteLength(s) == |s|
    decreases |s|
  {
    if s != "" { ByteLengthOfAscii(s[..|s| - 1]); }
  }

  lemma {:induction false} ItoaIsAscii(n: nat)
    ensures forall i :: 0 <= i < |Itoa(n)| ==> Itoa(n)[i] < '\U{80}'
    ensures |Itoa(n)| <= 1 + n / 10
    decreases n
  {
    if n >= 10 { ItoaIsAscii(n / 10); }
  }

  lemma {:induction false} ItoaInjective(m: nat, n: nat)
    requires Itoa(m) == Itoa(n)
    ensures m == n
    decreases m
  {
    ItoaNonEmpty(m / 10);
    ItoaNonEmpty(n / 10);
    var s, t := Itoa(m), Itoa(n);
    assert s[|s| - 1] == t[|t| - 1];
    if m >= 10 && n >= 10 {
      assert s[..|s| - 1] == Itoa(m / 10) && t[..|t| - 1] == Itoa(n / 10);
      ItoaInjective(m / 10, n / 10);
    }
  }

  lemma ItoaNonEmpty(n: nat)
    ensures |Itoa(n)| >= 1
  {
  }

  lemma MarkerLength(s: string)
    ensures ByteLength(Marker(s)) == 18 + |Itoa(ByteLength(s))|
  {
    var d := Itoa(ByteLength(s));
    ItoaIsAscii(ByteLength(s));
    ByteLengthOfAscii("[truncated " + d + " bytes]");
  }

  /** The mark of a mark is the same mark only for texts of twenty bytes. */
  lemma MarkerStable(s: string)
    ensures Marker(Marker(s)) == Marker(s) <==> ByteLength(s) == 20
  {
    var n := ByteLength(s);
    var n' := ByteLength(Marker(s));
    MarkerLength(s);
    ItoaIsAscii(n);
    if n == 20 {
      assert Itoa(20) == Itoa(2) + [Digit(0)];
    }
    if Marker(Marker(s)) == Marker(s) {
      assert Marker(s)[11..|Marker(s)| - 7] == Itoa(n);
      assert Marker(Marker(s))[11..|Marker(Marker(s))| - 7] == Itoa(n');
      ItoaInjective(n, n');
      ItoaNonEmpty(n);
      assert Itoa(n) == Itoa(n / 10) + [Digit(n % 10)];
      assert |Itoa(n / 10)| == 1;
    }
  }

  /** Texts under large-field keys, outside redacted values, have twenty bytes. */
  predicate Stable(v: Json) {
    match v
    case Object(m) =>
      forall k :: k in m && !SecretKey(k) ==>
        if LargeKey(k) && m[k].Text? then ByteLength(m[k].text) == 20 else Stable(m[k])
    case Array(xs) => forall i :: 0 <= i < |xs| ==> Stable(xs[i])
    case _ => true
  }

  /** Sanitizing twice is sanitizing once exactly for those bodies. */
  lemma {:induction false} IdempotentIffStable(v: Json)
    requires Holdable(v)
    ensures Sanitize(Sanitize(v)) == Sanitize(v) <==> Stable(v)
    decreases v
  {
    match v
    case Object(m) =>
      var r := Sanitize(v).fields;
      var q := Sanitize(Object(r)).fields;
      forall k | k in m && !SecretKey(k)
        ensures q[k] == r[k] <==> if LargeKey(k) && m[k].Text? then ByteLength(m[k].text) == 20 else Stable(m[k])
      {
        KeysMean(k);
        if LargeKey(k) && m[k].Text? {
          MarkerStable(m[k].text);
        } else {
          IdempotentIffStable(m[k]);
          ShapeIsKept(m[k]);
        }
      }
      assert Sanitize(Sanitize(v)) == Sanitize(v) <==> q == r;
      forall k | k in m && SecretKey(k) ensures q[k] == r[k] { KeysMean(k); }
      assert q == r <==> forall k :: k in m ==> q[k] == r[k];
    case Array(xs) =>
      var r := Sanitize(v).items;
      forall i | 0 <= i < |xs| ensures Sanitize(r[i]) == r[i] <==> Stable(xs[i]) {
        IdempotentIffStable(xs[i]);
      }
      var q := Sanitize(Array(r)).items;
      assert q == r <==> forall i :: 0 <= i < |xs| ==> q[i] == r[i];
    case Text(s) => MarkerIsShort(s);
    case Scalar(_) =>
  }
}
