/**
 What a basic string over several lines means in TOML v0.4.0 (section "String"), read from left to right and without regard
 to how the parser goes about it; and which texts the parser gives that meaning.
 */
module TomlReading {
  import opened Bytes
  import Utf8
  import opened TomlStrings
  import opened TomlMultiline
  import opened Wrappers

  /**
   The meaning of the rest of a string: a backslash before the end of a line drops itself, the end and the whitespace behind
   it (trim); other escapes stand for runes; all else stands for itself. Bug is the meaning of what is no string.
   */
  function Reading(s: bytes, m: Mode, digits: bytes, isSpace: SpaceTest, trim: bool): Unescaped
    decreases |s|
  {
    if s == [] then if m.Text? then Runes([]) else Bug
    else
      match m
      case Text =>
        var d := Utf8.Decode(s);
        if s[0] == BACKSLASH then Reading(s[1..], Escape, [], isSpace, false)
        else if trim && isSpace(d.rune) then Reading(s[d.width..], Text, [], isSpace, true)
        else Prepend([d.rune], Reading(s[d.width..], Text, [], isSpace, false))
      case Escape =>
        if s[0] == LF then Reading(s[1..], Text, [], isSpace, true)
        else if s[0] == CR && |s| > 1 && s[1] == LF then Reading(s[2..], Text, [], isSpace, true)
        else if SimpleEscape(s[0]) >= 0 then Prepend([SimpleEscape(s[0])], Reading(s[1..], Text, [], isSpace, false))
        else if s[0] == LOWER_U then Reading(s[1..], Hex(4), [], isSpace, false)
        else if s[0] == UPPER_U then Reading(s[1..], Hex(8), [], isSpace, false)
        else Bug
      case Hex(left) =>
        if !IsHexDigit(s[0]) then Bug
        else if left > 1 then Reading(s[1..], Hex(left - 1), digits + [s[0]], isSpace, false)
        else if !Utf8.ValidRune(HexValue(digits + [s[0]])) then NotARune
        else Prepend([HexValue(digits + [s[0]])], Reading(s[1..], Text, [], isSpace, false))
  }

  predicate StartsCRLF(s: bytes) {
    |s| >= 2 && s[0] == CR && s[1] == LF
  }

  /** The meaning of a whole string: a newline right behind the opening quotes is no part of it. */
  function Meaning(s: bytes, isSpace: SpaceTest): Unescaped {
    if s != [] && s[0] == LF then Reading(s[1..], Text, [], isSpace, false)
    else if StartsCRLF(s) then Reading(s[2..], Text, [], isSpace, false)
    else Reading(s, Text, [], isSpace, false)
  }

  /** One text after another. */
  function Then(u: Unescaped, v: Unescaped): Unescaped {
    if u.Runes? then Prepend(u.rs, v) else u
  }

  lemma ThenPrepend(a: seq<int>, u: Unescaped, v: Unescaped)
    ensures Then(Prepend(a, u), v) == Prepend(a, Then(u, v))
  {
    if u.Runes? {
      PrependPrepend(a, u.rs, v);
    }
  }

  lemma ThenNothing(u: Unescaped)
    ensures Then(u, Runes([])) == u && Then(Runes([]), u) == u && Then(NotARune, u) == NotARune && Then(Bug, u) == Bug
  {
    assert u.Runes? ==> u.rs + [] == u.rs && [] + u.rs == u.rs;
  }

  // ---------------------------------------------------------------- one rune or escape

  /** Decoding a well-formed rune looks at its own bytes only. */
  lemma DecodeFront(s: bytes, x: bytes)
    requires s != [] && !Utf8.Broken(s)
    ensures Utf8.Decode(s[..Utf8.Decode(s).width] + x) == Utf8.Decode(s)
  {
    var w := Utf8.Decode(s).width;
    var t := s[..w] + x;
    assert forall i :: 0 <= i < w ==> t[i] == s[i];
  }

  lemma UnescapeText(s: bytes, x: bytes)
    requires s != [] && s[0] != BACKSLASH && !Utf8.Broken(s)
    ensures var d := Utf8.Decode(s); Unescape(s[..d.width] + x) == Prepend([d.rune], Unescape(x))
  {
    hide Utf8.Decode, Utf8.Broken;
    DecodeFront(s, x);
    var w := Utf8.Decode(s).width;
    assert (s[..w] + x)[w..] == x && (s[..w] + x)[0] == s[0];
  }

  lemma UnescapeSimple(c: byte, x: bytes)
    requires SimpleEscape(c) >= 0
    ensures Unescape([BACKSLASH, c] + x) == Prepend([SimpleEscape(c)], Unescape(x))
  {
    var t := [BACKSLASH, c] + x;
    assert t[0] == BACKSLASH && t[1] == c && t[2..] == x;
  }

  lemma UnescapeHex(c: byte, digits: bytes, x: bytes)
    requires c == LOWER_U || c == UPPER_U
    requires |digits| == (if c == LOWER_U then 4 else 8) && AllHex(digits)
    ensures Unescape([BACKSLASH, c] + digits + x) ==
            if Utf8.ValidRune(HexValue(digits)) then Prepend([HexValue(digits)], Unescape(x)) else NotARune
  {
    hide AllHex, HexValue, Utf8.ValidRune;
    var t, k := [BACKSLASH, c] + digits + x, |digits|;
    assert t[0] == BACKSLASH && t[1] == c && t[2..2 + k] == digits && t[2 + k..] == x;
  }

  /** Text without backslashes stays when it is not trimmed. */
  lemma {:induction false} StripPlain(s: bytes, w: nat, isSpace: SpaceTest)
    requires w <= |s| && forall i :: 0 <= i < w ==> s[i] != BACKSLASH
    ensures Strip(s, isSpace, false) == s[..w] + Strip(s[w..], isSpace, false)
    decreases w
  {
    if w > 0 {
      StripPlain(s[1..], w - 1, isSpace);
      assert s[..w] == [s[0]] + s[1..][..w - 1] && s[1..][w - 1..] == s[w..];
    } else {
      assert s[..0] == [] && s[0..] == s;
    }
  }

  lemma OneKept(s: bytes, isSpace: SpaceTest, trim: bool)
    requires s != [] && !AtEol(s) && (trim ==> s[0] == BACKSLASH)
    ensures Strip(s, isSpace, trim) == [s[0]] + Strip(s[1..], isSpace, false)
  {
  }

  lemma StripBehind(s: bytes, w: nat, isSpace: SpaceTest)
    requires 2 <= w <= |s| && forall i :: 2 <= i < w ==> s[i] != BACKSLASH
    ensures Strip(s[2..], isSpace, false) == s[2..w] + Strip(s[w..], isSpace, false)
  {
    hide Strip;
    var rest := s[2..];
    StripPlain(rest, w - 2, isSpace);
    assert rest[..w - 2] == s[2..w] && rest[w - 2..] == s[w..];
  }

  /** An escape is kept, too, if its second byte does not end a line. */
  lemma StripEscape(s: bytes, w: nat, isSpace: SpaceTest, trim: bool)
    requires 2 <= w <= |s| && s[0] == BACKSLASH && s[1] != LF && !AtEol(s[1..])
    requires forall i :: 2 <= i < w ==> s[i] != BACKSLASH
    ensures Strip(s, isSpace, trim) == [BACKSLASH, s[1]] + s[2..w] + Strip(s[w..], isSpace, false)
  {
    hide Strip;
    StripBehind(s, w, isSpace);
    assert s[1..][1..] == s[2..];
    OneKept(s[1..], isSpace, false);
    OneKept(s, isSpace, trim);
    var tail := Strip(s[w..], isSpace, false);
    assert [BACKSLASH] + ([s[1]] + (s[2..w] + tail)) == [BACKSLASH, s[1]] + s[2..w] + tail;
  }

  lemma {:induction false} ReadHex(s: bytes, k: nat, digits: bytes, isSpace: SpaceTest)
    requires 1 <= k <= |s| && AllHex(s[..k])
    ensures var v := HexValue(digits + s[..k]);
            Reading(s, Hex(k), digits, isSpace, false) ==
            if Utf8.ValidRune(v) then Prepend([v], Reading(s[k..], Text, [], isSpace, false)) else NotARune
    decreases k
  {
    hide HexValue, Utf8.ValidRune, AllHex, Prepend;
    AllHexFront(s, k);
    if k > 1 {
      ReadHex(s[1..], k - 1, digits + [s[0]], isSpace);
      assert digits + s[..k] == digits + [s[0]] + s[1..][..k - 1];
    } else {
      assert s[..1] == [s[0]];
    }
  }

  /** The digits of an escape that the lexer accepts. */
  lemma {:induction false} LexedHex(s: bytes, k: nat)
    requires k >= 1 && MultiAfter(s, Hex(k)) == Some(Text)
    ensures |s| >= k && AllHex(s[..k]) && MultiAfter(s[k..], Text) == Some(Text)
    ensures EscapesCR(s, Hex(k)) == EscapesCR(s[k..], Text) && BackslashEndsLine(s, Hex(k)) == BackslashEndsLine(s[k..], Text)
    decreases k
  {
    hide MultiAfter, AllHex, IsHexDigit;
    if s == [] {
      EmptyComplete(Hex(k));
      return;
    }
    MultiFront(s, Hex(k));
    if k > 1 {
      LexedHex(s[1..], k - 1);
    } else {
      NoHex();
      assert s[1..][..0] == [];
    }
    AllHexFront(s, k);
  }

  // ---------------------------------------------------------------- the parser's value is the meaning

  /** A text the parser has no trouble with. */
  predicate Plain(p: bytes) {
    MultiEscaped(p) && !BackslashEndsLine(p, Text) && !EscapesCR(p, Text) && Utf8.Valid(p)
  }

  lemma PlainRest(p: bytes, w: nat)
    requires Plain(p) && p != [] && p[0] != BACKSLASH && w == Utf8.Decode(p).width
    ensures Plain(p[w..]) && !Utf8.Broken(p)
  {
    hide Utf8.Decode;
    SkipBytes(p, w);
  }

  /** Bytes of ASCII are runes. */
  lemma {:induction false} ValidRest(p: bytes, w: nat)
    requires Utf8.Valid(p) && w <= |p| && forall i :: 0 <= i < w ==> p[i] < 0x80
    ensures Utf8.Valid(p[w..])
    decreases w
  {
    if w > 0 {
      ValidRest(p[1..], w - 1);
      assert p[1..][w - 1..] == p[w..];
    } else {
      assert p[0..] == p;
    }
  }

  lemma PlainEol(p: bytes)
    requires Plain(p) && AtEol(p)
    ensures Plain(p[2..])
  {
    SkipEol(p);
    ValidRest(p, 2);
  }

  /** How long the escape at the front of a plain text is, and that plain text follows. */
  function EscapeWidth(p: bytes): (w: nat)
    ensures w >= 2
  {
    if |p| < 2 then 2 else if p[1] == LOWER_U then 6 else if p[1] == UPPER_U then 10 else 2
  }

  lemma PlainEscape(p: bytes)
    requires Plain(p) && p != [] && p[0] == BACKSLASH && !AtEol(p)
    ensures |p| >= 2 && p[1] != CR && p[1] != LF && !AtEol(p[1..])
    ensures p[1] == LOWER_U || p[1] == UPPER_U || SimpleEscape(p[1]) >= 0
    ensures var w := EscapeWidth(p); w <= |p| && AllHex(p[2..w]) && Plain(p[w..])
  {
    hide AllHex, Utf8.Valid, MultiAfter, BackslashEndsLine, EscapesCR;
    OneByte(p, Text);
    var q := p[1..];
    if q == [] {
      EmptyComplete(Escape);
    }
    OneByte(q, Escape);
    assert q[0] != CR && q[0] != LF;
    assert q[1..] == p[2..];
    if SimpleEscape(p[1]) >= 0 {
      NoHex();
      assert p[2..2] == [];
      ValidRest(p, 2);
    } else {
      var k := EscapeWidth(p) - 2;
      LexedHex(p[2..], k);
      Behind(p, k);
      HexIsAscii(p[2..2 + k]);
      assert forall i :: 2 <= i < 2 + k ==> p[i] == p[2..2 + k][i - 2];
      ValidRest(p, 2 + k);
    }
  }

  lemma HexIsAscii(s: bytes)
    requires AllHex(s)
    ensures forall i :: 0 <= i < |s| ==> s[i] < 0x80 && s[i] != BACKSLASH
  {
    forall i | 0 <= i < |s|
      ensures s[i] < 0x80 && s[i] != BACKSLASH
    {
      assert s[i] in s;
    }
  }

  /** An escape, finished. */
  predicate Escaped(p: bytes) {
    && |p| >= EscapeWidth(p) && p[0] == BACKSLASH && p[1] != LF && p[1] != CR && AllHex(p[2..EscapeWidth(p)])
    && (p[1] == LOWER_U || p[1] == UPPER_U || SimpleEscape(p[1]) >= 0)
  }

  /** The meaning of an escape at the front. */
  lemma ReadEscape(p: bytes, isSpace: SpaceTest, trim: bool)
    requires Escaped(p)
    ensures var w := EscapeWidth(p);
            Reading(p, Text, [], isSpace, trim) ==
            if SimpleEscape(p[1]) >= 0 then Prepend([SimpleEscape(p[1])], Reading(p[w..], Text, [], isSpace, false))
            else if Utf8.ValidRune(HexValue(p[2..w])) then Prepend([HexValue(p[2..w])], Reading(p[w..], Text, [], isSpace, false))
            else NotARune
  {
    hide Prepend, HexValue, Utf8.ValidRune, AllHex, Utf8.Decode;
    var q := p[1..];
    assert q[1..] == p[2..] && q[0] == p[1];
    assert Reading(p, Text, [], isSpace, trim) == Reading(q, Escape, [], isSpace, false);
    if SimpleEscape(p[1]) < 0 {
      var k := EscapeWidth(p) - 2;
      Behind(p, k);
      assert Reading(q, Escape, [], isSpace, false) == Reading(p[2..], Hex(k), [], isSpace, false);
      ReadHex(p[2..], k, [], isSpace);
      assert [] + p[2..][..k] == p[2..2 + k];
    }
  }

  lemma EscapeReads(p: bytes, q: bytes, isSpace: SpaceTest, trim: bool)
    requires Plain(p) && p != [] && p[0] == BACKSLASH && !AtEol(p) && Stops(q)
    ensures EscapeWidth(p) <= |p| && Plain(p[EscapeWidth(p)..])
    ensures var rest := p[EscapeWidth(p)..];
            Unescape(Strip(rest + q, isSpace, false)) == Then(Reading(rest, Text, [], isSpace, false), Unescape(Strip(q, isSpace, false)))
            ==> Unescape(Strip(p + q, isSpace, trim)) == Then(Reading(p, Text, [], isSpace, trim), Unescape(Strip(q, isSpace, false)))
  {
    hide Plain, Strip, Unescape, Reading, HexValue, Utf8.ValidRune, AllHex, Prepend, Then;
    PlainEscape(p);
    ReadEscape(p, isSpace, trim);
    var w, s := EscapeWidth(p), p + q;
    var rest, v := p[w..], Unescape(Strip(q, isSpace, false));
    assert s[0] == p[0] && s[1] == p[1] && s[2..w] == p[2..w] && s[w..] == rest + q;
    assert !AtEol(s[1..]) by {
      if |p| > 2 {
        assert s[1..][1] == p[1..][1];
      }
    }
    HexIsAscii(p[2..w]);
    assert forall i :: 2 <= i < w ==> s[i] == p[2..w][i - 2];
    StripEscape(s, w, isSpace, trim);
    var x := Strip(rest + q, isSpace, false);
    if SimpleEscape(p[1]) >= 0 {
      assert [BACKSLASH, s[1]] + s[2..w] + x == [BACKSLASH, p[1]] + x;
      UnescapeSimple(p[1], x);
      ThenPrepend([SimpleEscape(p[1])], Reading(rest, Text, [], isSpace, false), v);
    } else {
      UnescapeHex(p[1], p[2..w], x);
      ThenPrepend([HexValue(p[2..w])], Reading(rest, Text, [], isSpace, false), v);
      ThenNothing(v);
    }
  }

  /** Nothing, or a backslash that is not at the end of a line. */
  predicate Stops(q: bytes) {
    q == [] || (q[0] == BACKSLASH && !AtEol(q))
  }

  lemma SpaceReads(p: bytes, w: nat, isSpace: SpaceTest)
    requires p != [] && p[0] != BACKSLASH && isSpace(Utf8.Decode(p).rune) && w == Utf8.Decode(p).width
    ensures Reading(p, Text, [], isSpace, true) == Reading(p[w..], Text, [], isSpace, true)
  {
  }

  lemma TextReads(p: bytes, isSpace: SpaceTest, trim: bool)
    requires p != [] && p[0] != BACKSLASH && !(trim && isSpace(Utf8.Decode(p).rune))
    ensures var d := Utf8.Decode(p);
            Reading(p, Text, [], isSpace, trim) == Prepend([d.rune], Reading(p[d.width..], Text, [], isSpace, false))
  {
  }

  lemma EolReads(p: bytes, isSpace: SpaceTest, trim: bool)
    requires AtEol(p)
    ensures Reading(p, Text, [], isSpace, trim) == Reading(p[2..], Text, [], isSpace, true)
  {
    assert p[1..][1..] == p[2..];
    assert Reading(p, Text, [], isSpace, trim) == Reading(p[1..], Escape, [], isSpace, false);
  }

  lemma StopsStrip(q: bytes, isSpace: SpaceTest, trim: bool)
    requires Stops(q)
    ensures Strip(q, isSpace, trim) == Strip(q, isSpace, false)
  {
  }

  /** What follows a plain text does not change how its first rune decodes. */
  lemma DecodesAhead(p: bytes, q: bytes)
    requires p != [] && Stops(q)
    ensures Utf8.Decode(p + q) == Utf8.Decode(p)
  {
    DecodesTheSame(p + q, p);
  }

  /** Undoing escapes in what is left of a plain text gives its meaning, then the value of what follows. */
  lemma {:induction false} StripReads(p: bytes, q: bytes, isSpace: SpaceTest, trim: bool)
    requires Plain(p) && Stops(q)
    ensures Unescape(Strip(p + q, isSpace, trim)) ==
            Then(Reading(p, Text, [], isSpace, trim), Unescape(Strip(q, isSpace, false)))
    decreases |p|
  {
    hide Plain, Unescape, Reading, Prepend, Then, Strip, Utf8.Decode, Utf8.Broken, Stops;
    var s, v := p + q, Unescape(Strip(q, isSpace, false));
    if p == [] {
      assert s == q;
      StopsStrip(q, isSpace, trim);
      NoReading(isSpace, trim);
      ThenNothing(v);
    } else if AtEol(p) {
      PlainEol(p);
      StripReads(p[2..], q, isSpace, true);
      EolReads(p, isSpace, trim);
      assert s[2..] == p[2..] + q;
      EolStrips(s, isSpace, trim);
    } else if p[0] == BACKSLASH {
      EscapeReads(p, q, isSpace, trim);
      StripReads(p[EscapeWidth(p)..], q, isSpace, false);
    } else {
      var d := Utf8.Decode(p);
      DecodesAhead(p, q);
      PlainRest(p, d.width);
      assert s[d.width..] == p[d.width..] + q && s[..d.width] == p[..d.width] && s[0] == p[0];
      if trim && isSpace(d.rune) {
        StripReads(p[d.width..], q, isSpace, true);
        SpaceReads(p, d.width, isSpace);
        SpaceStrips(s, isSpace);
      } else {
        StripReads(p[d.width..], q, isSpace, false);
        TextReads(p, isSpace, trim);
        TextStrips(s, isSpace, trim);
        UnescapeText(p, Strip(s[d.width..], isSpace, false));
        ThenPrepend([d.rune], Reading(p[d.width..], Text, [], isSpace, false), v);
      }
    }
  }

  lemma NoReading(isSpace: SpaceTest, trim: bool)
    ensures Reading([], Text, [], isSpace, trim) == Runes([])
  {
  }

  lemma EolStrips(s: bytes, isSpace: SpaceTest, trim: bool)
    requires AtEol(s)
    ensures Strip(s, isSpace, trim) == Strip(s[2..], isSpace, true)
  {
  }

  lemma SpaceStrips(s: bytes, isSpace: SpaceTest)
    requires s != [] && s[0] != BACKSLASH && isSpace(Utf8.Decode(s).rune)
    ensures Strip(s, isSpace, true) == Strip(s[Utf8.Decode(s).width..], isSpace, true)
  {
  }

  lemma TextStrips(s: bytes, isSpace: SpaceTest, trim: bool)
    requires s != [] && s[0] != BACKSLASH && !(trim && isSpace(Utf8.Decode(s).rune))
    ensures var w := Utf8.Decode(s).width;
            Strip(s, isSpace, trim) == s[..w] + Strip(s[w..], isSpace, false)
  {
    StripPlain(s, Utf8.Decode(s).width, isSpace);
    assert Strip(s, isSpace, trim) == Strip(s, isSpace, false);
  }

  /** What is read of two texts is read of one after the other. */
  lemma {:induction false} ReadingAppend(p: bytes, q: bytes, isSpace: SpaceTest, trim: bool)
    requires Plain(p) && Stops(q)
    ensures Reading(p + q, Text, [], isSpace, trim) ==
            Then(Reading(p, Text, [], isSpace, trim), Reading(q, Text, [], isSpace, false))
    decreases |p|
  {
    hide Plain, Reading, Prepend, Then, Utf8.Decode, Utf8.Broken, Stops, Escaped, HexValue, Utf8.ValidRune, AllHex;
    var s, v := p + q, Reading(q, Text, [], isSpace, false);
    if p == [] {
      assert s == q;
      StopsReading(q, isSpace, trim);
      NoReading(isSpace, trim);
      ThenNothing(v);
    } else if AtEol(p) {
      PlainEol(p);
      ReadingAppend(p[2..], q, isSpace, true);
      EolReads(p, isSpace, trim);
      assert s[2..] == p[2..] + q;
      EolReads(s, isSpace, trim);
    } else if p[0] == BACKSLASH {
      PlainEscape(p);
      var w := EscapeWidth(p);
      ReadingAppend(p[w..], q, isSpace, false);
      assert s[w..] == p[w..] + q && s[2..w] == p[2..w] && s[0] == p[0] && s[1] == p[1];
      EscapedBoth(p, s);
      ReadEscape(p, isSpace, trim);
      ReadEscape(s, isSpace, trim);
      var u := Reading(p[w..], Text, [], isSpace, false);
      ThenPrepend([SimpleEscape(p[1])], u, v);
      ThenPrepend([HexValue(p[2..w])], u, v);
      ThenNothing(v);
    } else {
      var d := Utf8.Decode(p);
      DecodesAhead(p, q);
      PlainRest(p, d.width);
      assert s[d.width..] == p[d.width..] + q && s[0] == p[0];
      if trim && isSpace(d.rune) {
        ReadingAppend(p[d.width..], q, isSpace, true);
        SpaceReads(p, d.width, isSpace);
        SpaceReads(s, d.width, isSpace);
      } else {
        ReadingAppend(p[d.width..], q, isSpace, false);
        TextReads(p, isSpace, trim);
        TextReads(s, isSpace, trim);
        ThenPrepend([d.rune], Reading(p[d.width..], Text, [], isSpace, false), v);
      }
    }
  }

  lemma EscapedBoth(p: bytes, s: bytes)
    requires p <= s && |p| >= EscapeWidth(p) && p[0] == BACKSLASH && p[1] != LF && p[1] != CR && AllHex(p[2..EscapeWidth(p)])
    requires p[1] == LOWER_U || p[1] == UPPER_U || SimpleEscape(p[1]) >= 0
    ensures Escaped(p) && Escaped(s) && EscapeWidth(s) == EscapeWidth(p)
  {
    hide AllHex;
    assert s[2..EscapeWidth(p)] == p[2..EscapeWidth(p)];
  }

  lemma StopsReading(q: bytes, isSpace: SpaceTest, trim: bool)
    requires Stops(q)
    ensures Reading(q, Text, [], isSpace, trim) == Reading(q, Text, [], isSpace, false)
  {
  }

  /** The meaning, but for a carriage return and line feed behind the opening quotes, which are kept. */
  function Kept(s: bytes, isSpace: SpaceTest): Unescaped {
    if s != [] && s[0] == LF then Reading(s[1..], Text, [], isSpace, false) else Reading(s, Text, [], isSpace, false)
  }

  lemma KeptIsMeaning(s: bytes, isSpace: SpaceTest)
    ensures Kept(s, isSpace) == if StartsCRLF(s) then Prepend([0x0D, 0x0A], Meaning(s, isSpace)) else Meaning(s, isSpace)
  {
    if StartsCRLF(s) {
      assert s[1..][1..] == s[2..];
      hide Prepend;
      TextReads(s, isSpace, false);
      TextReads(s[1..], isSpace, false);
      PrependPrepend([0x0D], [0x0A], Meaning(s, isSpace));
      assert [0x0D] + [0x0A] == [0x0D, 0x0A];
    }
  }

  /** Where whitespace is removed no line feed is left at the front. */
  lemma {:induction false} TrimmedStart(s: bytes, isSpace: SpaceTest)
    ensures var t := Strip(s, isSpace, true); t == [] || t[0] != LF
    decreases |s|
  {
    hide Utf8.Decode;
    if s == [] {
    } else if AtEol(s) {
      TrimmedStart(s[2..], isSpace);
    } else if isSpace(Utf8.Decode(s).rune) {
      TrimmedStart(s[Utf8.Decode(s).width..], isSpace);
    }
  }

  /** The newline behind the opening quotes. */
  lemma FirstNewline(s: bytes, isSpace: SpaceTest)
    ensures StripFirstNewline(Strip(s, isSpace, false)) ==
            if s != [] && s[0] == LF then Strip(s[1..], isSpace, false) else Strip(s, isSpace, false)
  {
    if s == [] {
    } else if AtEol(s) {
      EolStrips(s, isSpace, false);
      TrimmedStart(s[2..], isSpace);
    } else {
      OneKept(s, isSpace, false);
      assert ([s[0]] + Strip(s[1..], isSpace, false))[1..] == Strip(s[1..], isSpace, false);
    }
  }

  /** The value of a plain text with anything behind it. */
  lemma ValueReads(p: bytes, q: bytes, isSpace: SpaceTest)
    requires Plain(p) && Stops(q)
    ensures Value(p + q, isSpace) == Then(Kept(p, isSpace), Unescape(Strip(q, isSpace, false)))
  {
    hide Strip, Unescape, Reading, Then, Plain, Prepend;
    FirstNewline(p + q, isSpace);
    if p != [] && p[0] == LF {
      assert (p + q)[1..] == p[1..] + q && Utf8.Decode(p).width == 1;
      PlainRest(p, 1);
      StripReads(p[1..], q, isSpace, false);
    } else {
      StripReads(p, q, isSpace, false);
    }
  }

  /**
   A text of UTF-8 that the lexer accepts, with no escaped backslash at the end of a line: if it means anything, the parser's
   value is that if and only if no line end is escaped as a carriage return and line feed and the text does not start with them.
   */
  lemma MeaningExactly(s: bytes, isSpace: SpaceTest)
    requires MultiEscaped(s) && !BackslashEndsLine(s, Text) && Utf8.Valid(s)
    ensures !EscapesCR(s, Text) ==> Value(s, isSpace) == Kept(s, isSpace)
    ensures !EscapesCR(s, Text) && !StartsCRLF(s) ==> Value(s, isSpace) == Meaning(s, isSpace)
    ensures Meaning(s, isSpace).Runes? ==>
              (Value(s, isSpace) == Meaning(s, isSpace) <==> !EscapesCR(s, Text) && !StartsCRLF(s))
  {
    hide Value, Strip, Unescape, Reading, MultiAfter, BackslashEndsLine, EscapesCR, Utf8.Valid, Meaning, Kept, LexedFault;
    KeptIsMeaning(s, isSpace);
    if EscapesCR(s, Text) {
      MultilineExactly(s, isSpace);
    } else {
      ValueReads(s, [], isSpace);
      assert s + [] == s;
      NothingBehind(Kept(s, isSpace), isSpace);
      LineIsMore(Meaning(s, isSpace));
    }
  }

  lemma LineIsMore(u: Unescaped)
    ensures u.Runes? ==> Prepend([0x0D, 0x0A], u) != u
  {
    if u.Runes? {
      assert |[0x0D, 0x0A] + u.rs| == |u.rs| + 2;
    }
  }

  lemma NothingBehind(u: Unescaped, isSpace: SpaceTest)
    ensures Then(u, Unescape(Strip([], isSpace, false))) == u
  {
    ThenNothing(u);
  }

  /**
   An escaped backslash at the end of a line, behind a plain text: it means a backslash and a line feed, but the parser takes
   the first backslash and whatever the next line starts with for an escape.
   */
  lemma TornValue(p: bytes, rest: bytes, isSpace: SpaceTest)
    requires Plain(p)
    ensures var s, next := p + ESCAPED_EOL + rest, Strip(rest, isSpace, true);
            && Kept(s, isSpace) == Then(Kept(p, isSpace), Prepend([0x5C, 0x0A], Reading(rest, Text, [], isSpace, false)))
            && Value(s, isSpace) == Then(Kept(p, isSpace), Unescape([BACKSLASH] + next))
  {
    hide Strip, Unescape, Reading, Then, Plain, Prepend, Value, Utf8.Decode, StripFirstNewline;
    var q := ESCAPED_EOL + rest;
    assert p + q == p + ESCAPED_EOL + rest;
    assert q[0] == BACKSLASH && q[1] == BACKSLASH && q[2] == LF && q[2..] == [LF] + rest && q[1..][2..] == rest;
    ValueReads(p, q, isSpace);
    OneKept(q, isSpace, false);
    EolStrips(q[1..], isSpace, false);
    TornReading(rest, isSpace);
    if p != [] && p[0] == LF {
      assert (p + q)[1..] == p[1..] + q;
      PlainNewline(p);
      ReadingAppend(p[1..], q, isSpace, false);
    } else {
      ReadingAppend(p, q, isSpace, false);
    }
  }

  lemma PlainNewline(p: bytes)
    requires Plain(p) && p != [] && p[0] == LF
    ensures Plain(p[1..])
  {
    PlainRest(p, 1);
  }

  lemma TornReading(rest: bytes, isSpace: SpaceTest)
    ensures Reading(ESCAPED_EOL + rest, Text, [], isSpace, false) == Prepend([0x5C, 0x0A], Reading(rest, Text, [], isSpace, false))
  {
    hide Reading, HexValue, Utf8.ValidRune, AllHex, Utf8.Decode, Prepend;
    var q, r := ESCAPED_EOL + rest, Reading(rest, Text, [], isSpace, false);
    assert q[0] == BACKSLASH && q[1] == BACKSLASH && q[2] == LF && q[2..] == [LF] + rest && q[2..][1..] == rest;
    NoHex();
    assert q[2..2] == [];
    ReadEscape(q, isSpace, false);
    TextReads(q[2..], isSpace, false);
    PrependPrepend([0x5C], [0x0A], r);
    assert [0x5C] + [0x0A] == [0x5C, 0x0A];
  }

  /** So the parser's value is the meaning if and only if that escape and all that follows come out as the backslash and the lines do. */
  lemma TornExactly(p: bytes, rest: bytes, isSpace: SpaceTest)
    requires Plain(p)
    ensures var s, next := p + ESCAPED_EOL + rest, Strip(rest, isSpace, true);
            Value(s, isSpace) == Kept(s, isSpace) <==>
            !Kept(p, isSpace).Runes?
            || Unescape([BACKSLASH] + next) == Prepend([0x5C, 0x0A], Reading(rest, Text, [], isSpace, false))
  {
    hide Strip, Unescape, Reading, Plain, Value, Kept, Then, Prepend;
    TornValue(p, rest, isSpace);
    var next := Strip(rest, isSpace, true);
    ThenCancels(Kept(p, isSpace), Unescape([BACKSLASH] + next), Prepend([0x5C, 0x0A], Reading(rest, Text, [], isSpace, false)));
  }

  lemma ThenCancels(u: Unescaped, v: Unescaped, w: Unescaped)
    ensures Then(u, v) == Then(u, w) <==> !u.Runes? || v == w
  {
    if u.Runes? && v.Runes? && w.Runes? && Then(u, v) == Then(u, w) {
      assert v.rs == (u.rs + v.rs)[|u.rs|..] && w.rs == (u.rs + w.rs)[|u.rs|..];
    }
  }

  /** So unless the next line, without its whitespace, starts with a backslash, u or U, the parser's value is another one or none. */
  lemma TornDiffers(p: bytes, rest: bytes, isSpace: SpaceTest)
    requires Plain(p) && Kept(p + ESCAPED_EOL + rest, isSpace).Runes?
    requires var next := Strip(rest, isSpace, true); next != [] ==> next[0] !in {BACKSLASH, LOWER_U, UPPER_U}
    ensures Value(p + ESCAPED_EOL + rest, isSpace) != Kept(p + ESCAPED_EOL + rest, isSpace)
  {
    hide Strip, Unescape, Reading, Plain, Value, Kept;
    TornValue(p, rest, isSpace);
    var u, next := Kept(p, isSpace), Strip(rest, isSpace, true);
    var v := Unescape([BACKSLASH] + next);
    FirstOfEscape(next);
    var k := |u.rs|;
    assert Kept(p + ESCAPED_EOL + rest, isSpace).rs[k] == 0x5C;
    if v.Runes? {
      assert Value(p + ESCAPED_EOL + rest, isSpace).rs[k] == v.rs[0];
    }
  }

  lemma FirstOfEscape(next: bytes)
    requires next != [] ==> next[0] !in {BACKSLASH, LOWER_U, UPPER_U}
    ensures var v := Unescape([BACKSLASH] + next); v.Runes? ==> v.rs != [] && v.rs[0] != 0x5C
  {
    var t := [BACKSLASH] + next;
    assert t[0] == BACKSLASH && (next != [] ==> t[1] == next[0]);
    assert SimpleEscape(0x5C) == 0x5C;
  }

  /** A carriage return and line feed that the parser keeps, and one that it panics on. */
  lemma ReturnExamples(isSpace: SpaceTest)
    requires !isSpace(0x78)
    ensures Meaning([CR, LF, 0x78], isSpace) == Runes([0x78]) && Value([CR, LF, 0x78], isSpace) == Runes([0x0D, 0x0A, 0x78])
    ensures Meaning([BACKSLASH, CR, LF, 0x78], isSpace) == Runes([0x78])
    ensures Value([BACKSLASH, CR, LF, 0x78], isSpace).Bug?
  {
    LineMeans(isSpace);
    LineKept(isSpace);
    EscapedReturnMeans(isSpace);
    EscapedReturnPanics(isSpace);
  }

  lemma OneRune(c: byte, isSpace: SpaceTest, trim: bool)
    requires c < 0x80 && c != BACKSLASH && !isSpace(c as int)
    ensures Reading([c], Text, [], isSpace, trim) == Runes([c as int]) && Strip([c], isSpace, trim) == [c]
  {
    assert [c][1..] == [];
    TextReads([c], isSpace, trim);
    NoReading(isSpace, false);
    assert [c as int] + [] == [c as int];
    TextStrips([c], isSpace, trim);
    assert [c][..1] + [] == [c];
  }

  lemma LineMeans(isSpace: SpaceTest)
    requires !isSpace(0x78)
    ensures Meaning([CR, LF, 0x78], isSpace) == Runes([0x78])
  {
    assert [CR, LF, 0x78][2..] == [0x78];
    OneRune(0x78, isSpace, false);
  }

  lemma LineKept(isSpace: SpaceTest)
    requires !isSpace(0x78)
    ensures Value([CR, LF, 0x78], isSpace) == Runes([0x0D, 0x0A, 0x78])
  {
    var s: bytes := [CR, LF, 0x78];
    StripPlain(s, 3, isSpace);
    assert s[..3] == s && s[3..] == [] && Strip([], isSpace, false) == [] && s + [] == s;
    UnescapeAscii(s);
  }

  /** ASCII without a backslash stands for itself. */
  lemma {:induction false} UnescapeAscii(s: bytes)
    requires forall i :: 0 <= i < |s| ==> s[i] < 0x80 && s[i] != BACKSLASH
    ensures Unescape(s) == Runes(seq(|s|, i requires 0 <= i < |s| => s[i] as int))
    decreases |s|
  {
    if s != [] {
      UnescapeAscii(s[1..]);
      assert FirstPiece(s) == Took(s[0] as int, 1);
    }
  }

  lemma EscapedReturnMeans(isSpace: SpaceTest)
    requires !isSpace(0x78)
    ensures Meaning([BACKSLASH, CR, LF, 0x78], isSpace) == Runes([0x78])
  {
    var s: bytes := [BACKSLASH, CR, LF, 0x78];
    assert s[1..] == [CR, LF, 0x78] && s[1..][2..] == [0x78];
    assert Reading(s, Text, [], isSpace, false) == Reading(s[1..], Escape, [], isSpace, false);
    OneRune(0x78, isSpace, true);
  }

  lemma EscapedReturnPanics(isSpace: SpaceTest)
    ensures Value([BACKSLASH, CR, LF, 0x78], isSpace).Bug?
  {
    var s: bytes := [BACKSLASH, CR, LF, 0x78];
    assert s[1..] == [CR, LF, 0x78];
    assert FirstFault(s, Text, [], isSpace, false) == FirstFault(s[1..], Escape, [], isSpace, false);
    PanicsExactly(s, isSpace);
  }

  /** The bytes of a rune with an escaped line end between them are no UTF-8, but a rune to the parser. */
  lemma TornRune(isSpace: SpaceTest)
    requires !isSpace(0x20AC) && !isSpace(0xFFFD)
    ensures var s := [0xE2, BACKSLASH, LF, 0x82, 0xAC];
            Value(s, isSpace) == Runes([0x20AC]) && Kept(s, isSpace) == Runes([0xFFFD, 0xFFFD, 0xFFFD])
  {
    var s: bytes := [0xE2, BACKSLASH, LF, 0x82, 0xAC];
    RuneJoined(isSpace);
    assert s[1..] == [BACKSLASH, LF, 0x82, 0xAC] && s[1..][2..] == [0x82, 0xAC];
    assert s[1..][2..][1..] == [0xAC] && [0xAC][1..] == [];
    TextReads(s, isSpace, false);
    EolReads(s[1..], isSpace, false);
    TextReads([0x82, 0xAC], isSpace, true);
    TextReads([0xAC], isSpace, false);
    NoReading(isSpace, false);
    assert [0xFFFD] + ([0xFFFD] + ([0xFFFD] + [])) == [0xFFFD, 0xFFFD, 0xFFFD];
  }

  lemma RuneJoined(isSpace: SpaceTest)
    requires !isSpace(0xFFFD)
    ensures Value([0xE2, BACKSLASH, LF, 0x82, 0xAC], isSpace) == Runes([0x20AC])
  {
    var s: bytes := [0xE2, BACKSLASH, LF, 0x82, 0xAC];
    assert s[1..] == [BACKSLASH, LF, 0x82, 0xAC] && s[1..][2..] == [0x82, 0xAC];
    var tail: bytes := [0x82, 0xAC];
    TextStrips(tail, isSpace, true);
    assert tail[1..] == [0xAC] && tail[..1] == [0x82];
    TextStrips([0xAC], isSpace, false);
    assert [0xAC][..1] == [0xAC] && [0xAC][1..] == [] && Strip([], isSpace, false) == [];
    assert Strip(tail, isSpace, true) == [0x82] + ([0xAC] + []) == tail;
    EolStrips(s[1..], isSpace, false);
    OneKept(s, isSpace, false);
    var t: bytes := [0xE2, 0x82, 0xAC];
    assert [0xE2] + tail == t && t[3..] == [];
    assert Utf8.Decode(t) == Utf8.Decoded(0x20AC, 3);
    assert Unescape(t[3..]) == Runes([]);
    assert [0x20AC] + [] == [0x20AC];
  }
}
