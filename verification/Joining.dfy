/** The join of the SET list, and why no part of it can be mistaken for another. */
module Joining {
  function Join(parts: seq<string>, sep: string): string
    decreases |parts|
  {
    if parts == [] then ""
    else if |parts| == 1 then parts[0]
    else Join(parts[..|parts| - 1], sep) + sep + parts[|parts| - 1]
  }

  method JoinString(parts: seq<string>, sep: string) returns (result: string)
    ensures result == Join(parts, sep)
  {
    result := "";
    for i := 0 to |parts|
      invariant result == Join(parts[..i], sep)
    {
      assert parts[..i + 1][..i] == parts[..i];
      if i > 0 {
        result := result + sep;
      }
      result := result + parts[i];
    }
    assert parts[..|parts|] == parts;
  }

  predicate Plain(p: string) {
    ',' !in p
  }

  /** Cut a text behind every ", ". */
  function Split(s: string): (parts: seq<string>)
    ensures parts != []
  {
    if s == "" then [""]
    else if s[0] == ',' && |s| >= 2 then [""] + Split(s[2..])
    else var rest := Split(s[1..]); [[s[0]] + rest[0]] + rest[1..]
  }

  lemma {:induction false} SplitPlain(p: string)
    requires Plain(p)
    ensures Split(p) == [p]
    decreases |p|
  {
    if p != "" {
      SplitPlain(p[1..]);
      assert p[0] in p && [p[0]] + p[1..] == p;
    }
  }

  lemma {:induction false} SplitFirst(p: string, rest: string)
    requires Plain(p)
    ensures Split(p + ", " + rest) == [p] + Split(rest)
    decreases |p|
  {
    var s := p + ", " + rest;
    if p == "" {
      assert s[2..] == rest;
    } else {
      assert s[1..] == p[1..] + ", " + rest;
      SplitFirst(p[1..], rest);
      assert p[0] in p && [p[0]] + p[1..] == p;
      var tail := [p[1..]] + Split(rest);
      assert tail[0] == p[1..] && tail[1..] == Split(rest);
    }
  }

  lemma {:induction false} JoinFirst(parts: seq<string>, sep: string)
    requires |parts| >= 2
    ensures Join(parts, sep) == parts[0] + sep + Join(parts[1..], sep)
    decreases |parts|
  {
    var n := |parts| - 1;
    if n == 1 {
      assert parts[..1] == [parts[0]] && parts[1..] == [parts[1]];
    } else {
      JoinFirst(parts[..n], sep);
      assert parts[..n][1..] == parts[1..][..n - 1];
      var mid := Join(parts[1..][..n - 1], sep);
      assert (parts[0] + sep + mid) + sep + parts[n] == parts[0] + sep + (mid + sep + parts[n]);
    }
  }

  /** A SET list of comma-free parts reads back as exactly those parts, in order. */
  lemma {:induction false} SplitUndoesJoin(parts: seq<string>)
    requires parts != [] && forall p :: p in parts ==> Plain(p)
    ensures Split(Join(parts, ", ")) == parts
    decreases |parts|
  {
    if |parts| == 1 {
      SplitPlain(parts[0]);
    } else {
      JoinFirst(parts, ", ");
      SplitFirst(parts[0], Join(parts[1..], ", "));
      SplitUndoesJoin(parts[1..]);
    }
  }
}
