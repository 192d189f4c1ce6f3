/**
 Searching, splitting and joining strings.
 */
module Strings {
  /** The last position of c in s, or -1. */
  function LastIndex(s: string, c: char): (i: int)
    ensures -1 <= i < |s|
    ensures i == -1 ==> c !in s
    ensures i >= 0 ==> s[i] == c && c !in s[i + 1..]
  {
    if s == [] then -1
    else if s[|s| - 1] == c then |s| - 1
    else
      var i := LastIndex(s[..|s| - 1], c);
      assert i >= 0 ==> s[i + 1..] == s[..|s| - 1][i + 1..] + [s[|s| - 1]];
      i
  }

  /** The first position of c in s, or -1. */
  function FirstIndex(s: string, c: char): (i: int)
    ensures -1 <= i < |s|
    ensures i == -1 ==> c !in s
    ensures i >= 0 ==> s[i] == c && c !in s[..i]
  {
    if s == [] then -1
    else if s[0] == c then 0
    else
      var i := FirstIndex(s[1..], c);
      assert i >= 0 ==> s[..i + 1] == [s[0]] + s[1..][..i];
      if i == -1 then -1 else i + 1
  }

  lemma {:induction false} LastIs(a: string, c: char, b: string)
    requires c !in b
    ensures LastIndex(a + [c] + b, c) == |a|
  {
    var s := a + [c] + b;
    if b != [] {
      assert s[..|s| - 1] == a + [c] + b[..|b| - 1];
      LastIs(a, c, b[..|b| - 1]);
      assert b[|b| - 1] in b;
    }
  }

  lemma {:induction false} FirstIs(a: string, c: char, b: string)
    requires c !in a
    ensures FirstIndex(a + [c] + b, c) == |a|
  {
    var s := a + [c] + b;
    if a != [] {
      assert s[1..] == a[1..] + [c] + b;
      FirstIs(a[1..], c, b);
    }
  }

  lemma NotThere(s: string, c: char)
    requires c !in s
    ensures FirstIndex(s, c) == -1 && LastIndex(s, c) == -1
  {
  }

  function Split(s: string, c: char): (parts: seq<string>)
    ensures parts != []
    decreases |s|
  {
    var i := LastIndex(s, c);
    if i == -1 then [s] else Split(s[..i], c) + [s[i + 1..]]
  }

  function Join(parts: seq<string>, c: char): string
    requires parts != []
  {
    if |parts| == 1 then parts[0] else Join(parts[..|parts| - 1], c) + [c] + parts[|parts| - 1]
  }

  lemma {:induction false} SplitJoin(parts: seq<string>, c: char)
    requires parts != [] && forall p :: p in parts ==> c !in p
    ensures Split(Join(parts, c), c) == parts
  {
    var last, init := parts[|parts| - 1], parts[..|parts| - 1];
    assert parts == init + [last];
    if init == [] {
      NotThere(last, c);
    } else {
      LastIs(Join(init, c), c, last);
      var s := Join(parts, c);
      assert s[..|Join(init, c)|] == Join(init, c) && s[|Join(init, c)| + 1..] == last;
      SplitJoin(init, c);
    }
  }
}
