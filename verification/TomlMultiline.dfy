/**
 Basic strings over several lines: what the parser makes of the text that the lexer accepts between three quotes
 and three quotes. It removes each backslash at the end of a line with the whitespace that follows, and then undoes the escapes.
 */
module TomlMultiline {
  import opened Bytes
  import Utf8
  import opened TomlStrings
  import opened Wrappers

  /** unicode.IsSpace: all that matters is that a line feed is a space and a backslash is none. */
  type SpaceTest = f: int -> bool | f(0x0A) && !f(0x5C) witness c => c == 0x0A

  function TrimLeft(s: bytes, isSpace: SpaceTest): (t: bytes)
    ensures |t| <= |s|
  {
    if s != [] && isSpace(Utf8.Decode(s).rune) then TrimLeft(s[Utf8.Decode(s).width..], isSpace) else s
  }

  /** A backslash at the end of a line. */
  predicate AtEol(s: bytes) {
    |s| >= 2 && s[0] == BACKSLASH && s[1] == LF
  }

  /** The text before the first backslash at the end of a line. */
  function FirstLine(s: bytes): (p: bytes)
    ensures |p| <= |s| && p == s[..|p|] && !AtEol(p) && (|p| < |s| ==> AtEol(s[|p|..]))
  {
    if s == [] || AtEol(s) then []
    else
      var p := FirstLine(s[1..]);
      assert |p| < |s[1..]| ==> s[1..][|p|..] == s[1 + |p|..];
      [s[0]] + p
  }

  /** The lines of s, split at each backslash at the end of one. */
  function Lines(s: bytes): (lines: seq<bytes>)
    ensures |lines| >= 1
  {
    var p := FirstLine(s);
    if |p| == |s| then [s] else [p] + Lines(s[|p| + 2..])
  }

  function Joined(lines: seq<bytes>): bytes {
    if lines == [] then [] else lines[0] + Joined(lines[1..])
  }

  /** What is left of s; at the start of a continued line whitespace goes, too. */
  function Strip(s: bytes, isSpace: SpaceTest, trim: bool): (t: bytes)
    decreases |s|
  {
    if s == [] then []
    else if AtEol(s) then Strip(s[2..], isSpace, true)
    else if trim && isSpace(Utf8.Decode(s).rune) then Strip(s[Utf8.Decode(s).width..], isSpace, true)
    else [s[0]] + Strip(s[1..], isSpace, false)
  }

  // ---------------------------------------------------------------- lines split, trimmed and joined

  lemma FirstLineStart(s: bytes)
    requires s != [] && !AtEol(s)
    ensures FirstLine(s) != [] && FirstLine(s)[0] == s[0] && FirstLine(s[1..]) == FirstLine(s)[1..]
  {
  }

  /** A line without a backslash at the end of one is kept; what follows is a continued line. */
  lemma {:induction false} StripLine(s: bytes, isSpace: SpaceTest)
    ensures var p := FirstLine(s);
            Strip(s, isSpace, false) == p + if |p| == |s| then [] else Strip(s[|p| + 2..], isSpace, true)
    decreases |s|
  {
    hide Utf8.Decode, FirstLine;
    var p := FirstLine(s);
    if s == [] || AtEol(s) {
      NoFirstLine(s, isSpace);
    } else {
      FirstLineStart(s);
      StripLine(s[1..], isSpace);
      var q := FirstLine(s[1..]);
      assert |p| < |s| ==> s[1..][|q| + 2..] == s[|p| + 2..];
      assert p == [s[0]] + q;
    }
  }

  /** What follows the first line of s, when there is more. */
  function Later(s: bytes, isSpace: SpaceTest): bytes {
    var p := FirstLine(s);
    if |p| == |s| then [] else Strip(s[|p| + 2..], isSpace, true)
  }

  lemma LaterDrops(s: bytes, w: nat, isSpace: SpaceTest)
    requires w <= |FirstLine(s)| && FirstLine(s[w..]) == FirstLine(s)[w..]
    ensures Later(s[w..], isSpace) == Later(s, isSpace)
  {
    hide Strip, FirstLine;
    var p := FirstLine(s);
    assert |p| < |s| ==> s[w..][|p| - w + 2..] == s[|p| + 2..];
  }

  /** A continued line loses the whitespace it starts with. */
  lemma {:induction false} StripContinued(s: bytes, isSpace: SpaceTest)
    ensures Strip(s, isSpace, true) == TrimLeft(FirstLine(s), isSpace) + Later(s, isSpace)
    decreases |s|
  {
    hide Utf8.Decode, FirstLine, Later;
    var p := FirstLine(s);
    if s == [] || AtEol(s) {
      NoFirstLine(s, isSpace);
    } else {
      FirstLineDecodes(s);
      if isSpace(Utf8.Decode(s).rune) {
        var w := Utf8.Decode(s).width;
        StripContinued(s[w..], isSpace);
        LaterDrops(s, w, isSpace);
      } else {
        StripLine(s[1..], isSpace);
        FirstLineStart(s);
        LaterDrops(s, 1, isSpace);
        LaterIs(s[1..], isSpace);
        assert [s[0]] + p[1..] == p;
        assert [s[0]] + (p[1..] + Later(s, isSpace)) == p + Later(s, isSpace);
      }
    }
  }

  lemma NoFirstLine(s: bytes, isSpace: SpaceTest)
    requires s == [] || AtEol(s)
    ensures FirstLine(s) == [] && Later(s, isSpace) == if s == [] then [] else Strip(s[2..], isSpace, true)
  {
  }

  lemma LaterIs(s: bytes, isSpace: SpaceTest)
    ensures var p := FirstLine(s); Later(s, isSpace) == if |p| == |s| then [] else Strip(s[|p| + 2..], isSpace, true)
  {
  }

  /** A rune does not reach over the end of a line. */
  lemma FirstLineDecodes(s: bytes)
    requires s != [] && !AtEol(s)
    ensures var p, w := FirstLine(s), Utf8.Decode(s).width;
            p != [] && Utf8.Decode(p) == Utf8.Decode(s) && w <= |p| && FirstLine(s[w..]) == p[w..]
  {
    hide Utf8.Decode, FirstLine;
    FirstLineStart(s);
    DecodesTheSame(s, FirstLine(s));
    FirstLineRun(s, Utf8.Decode(s).width);
  }

  lemma {:induction false} FirstLineRun(s: bytes, w: nat)
    requires s != [] && !AtEol(s) && 1 <= w <= |s| && forall i :: 1 <= i < w ==> s[i] >= 0x80
    ensures w <= |FirstLine(s)| && FirstLine(s[w..]) == FirstLine(s)[w..]
    decreases w
  {
    hide FirstLine;
    FirstLineStart(s);
    if w > 1 {
      FirstLineRun(s[1..], w - 1);
      assert s[1..][w - 1..] == s[w..] && FirstLine(s)[1..][w - 1..] == FirstLine(s)[w..];
    }
  }

  lemma DecodesTheSame(s: bytes, p: bytes)
    requires p != [] && p <= s && (|p| < |s| ==> s[|p|] < 0x80)
    ensures Utf8.Decode(p) == Utf8.Decode(s)
  {
    hide Utf8.Decode;
    if s[0] >= 0x80 {
      var k := 1;
      while k < 4 && k < |p| && p[k] >= 0x80
        invariant 1 <= k <= 4 && k <= |p| && forall i :: 0 <= i < k ==> p[i] >= 0x80
      {
        k := k + 1;
      }
      Utf8.DecodeLocal(p, s, k);
    }
  }

  /** The lines, each but the first without the whitespace it starts with. */
  function Trimmed(lines: seq<bytes>, isSpace: SpaceTest): seq<bytes> {
    seq(|lines|, i requires 0 <= i < |lines| => if i == 0 then lines[0] else TrimLeft(lines[i], isSpace))
  }

  function AllTrimmed(lines: seq<bytes>, isSpace: SpaceTest): seq<bytes> {
    seq(|lines|, i requires 0 <= i < |lines| => TrimLeft(lines[i], isSpace))
  }

  lemma {:induction false} StripContinuedLines(s: bytes, isSpace: SpaceTest)
    ensures Joined(AllTrimmed(Lines(s), isSpace)) == Strip(s, isSpace, true)
    decreases |s|
  {
    hide Strip, TrimLeft, FirstLine;
    StripContinued(s, isSpace);
    var p, all := FirstLine(s), AllTrimmed(Lines(s), isSpace);
    if |p| < |s| {
      StripContinuedLines(s[|p| + 2..], isSpace);
      assert all[1..] == AllTrimmed(Lines(s[|p| + 2..]), isSpace);
    } else {
      assert p == s && all[1..] == [];
    }
  }

  /** Splitting, trimming and joining is going through the text once. */
  lemma StripIsSplitTrimJoin(s: bytes, isSpace: SpaceTest)
    ensures Joined(Trimmed(Lines(s), isSpace)) == Strip(s, isSpace, false)
  {
    hide Strip, TrimLeft, FirstLine;
    StripLine(s, isSpace);
    var p, all := FirstLine(s), Trimmed(Lines(s), isSpace);
    if |p| < |s| {
      StripContinuedLines(s[|p| + 2..], isSpace);
      assert all[1..] == AllTrimmed(Lines(s[|p| + 2..]), isSpace);
    } else {
      assert p == s && all[1..] == [];
    }
  }

  /** Removes each backslash at the end of a line, with the whitespace that follows. */
  method StripEscapedWhitespace(s: bytes, isSpace: SpaceTest) returns (t: bytes)
    ensures t == Strip(s, isSpace, false)
  {
    var lines := Lines(s);
    var esc := lines;
    for i := 1 to |esc|
      invariant |esc| == |lines| && forall k :: 0 <= k < |lines| ==>
        esc[k] == if 1 <= k < i then TrimLeft(lines[k], isSpace) else lines[k]
    {
      esc := esc[i := TrimLeft(esc[i], isSpace)];
    }
    StripIsSplitTrimJoin(s, isSpace);
    assert esc == Trimmed(lines, isSpace);
    t := Joined(esc);
  }

  function StripFirstNewline(s: bytes): bytes {
    if s != [] && s[0] == LF then s[1..] else s
  }

  /** The value of a string over several lines. */
  function Value(s: bytes, isSpace: SpaceTest): Unescaped {
    Unescape(StripFirstNewline(Strip(s, isSpace, false)))
  }

  // ---------------------------------------------------------------- when undoing the escapes fails

  /** Read from mode m, an escape is begun right before a carriage return. */
  predicate EscapesCR(s: bytes, m: Mode) {
    s != [] &&
    ((m.Escape? && s[0] == CR) || (NextMultiMode(m, s[0]).Some? && EscapesCR(s[1..], NextMultiMode(m, s[0]).value)))
  }

  /** Read from mode m, an escaped backslash is the last byte of a line. */
  predicate BackslashEndsLine(s: bytes, m: Mode) {
    s != [] &&
    ((m.Escape? && AtEol(s)) || (NextMultiMode(m, s[0]).Some? && BackslashEndsLine(s[1..], NextMultiMode(m, s[0]).value)))
  }

  /** The mode after a text, read from its front. */
  lemma {:induction false} MultiFront(s: bytes, m: Mode)
    requires s != []
    ensures MultiAfter(s, m) ==
            match NextMultiMode(m, s[0]) case None => None case Some(next) => MultiAfter(s[1..], next)
    decreases |s|
  {
    if |s| > 1 {
      MultiFront(s[..|s| - 1], m);
      assert s[..|s| - 1][1..] == s[1..][..|s| - 2];
      assert s[1..][|s| - 2] == s[|s| - 1];
    } else {
      assert s[..0] == [] && s[1..] == [];
    }
  }

  lemma {:induction false} SkipBytes(s: bytes, w: nat)
    requires w <= |s| && forall i :: 0 <= i < w ==> s[i] != BACKSLASH
    ensures MultiAfter(s, Text) == MultiAfter(s[w..], Text) && EscapesCR(s, Text) == EscapesCR(s[w..], Text)
    ensures BackslashEndsLine(s, Text) == BackslashEndsLine(s[w..], Text)
    decreases w
  {
    if w > 0 {
      MultiFront(s, Text);
      SkipBytes(s[1..], w - 1);
      assert s[1..][w - 1..] == s[w..];
    }
  }

  /** A backslash at the end of a line, between the escapes. */
  lemma SkipEol(s: bytes)
    requires AtEol(s)
    ensures MultiAfter(s, Text) == MultiAfter(s[2..], Text) && EscapesCR(s, Text) == EscapesCR(s[2..], Text)
    ensures BackslashEndsLine(s, Text) == BackslashEndsLine(s[2..], Text)
  {
    MultiFront(s, Text);
    MultiFront(s[1..], Escape);
    assert s[1..][1..] == s[2..];
  }

  /**
   A text as the lexer accepts it, with no escaped backslash at the end of a line: what is left of it is well escaped if and
   only if no escape is begun before a carriage return.
   */
  lemma {:induction false} StripWellEscaped(s: bytes, m: Mode, isSpace: SpaceTest, trim: bool)
    requires MultiAfter(s, m) == Some(Text) && !BackslashEndsLine(s, m)
    requires (trim ==> m.Text?) && (m.Escape? && s != [] ==> s[0] != LF)
    ensures Complete(Strip(s, isSpace, trim), m) <==> !EscapesCR(s, m)
    decreases |s|
  {
    hide Utf8.Decode, Complete, MultiAfter, EscapesCR, BackslashEndsLine;
    if s == [] {
      EmptyComplete(m);
    } else if m.Text? && AtEol(s) {
      SkipEol(s);
      StripWellEscaped(s[2..], Text, isSpace, true);
    } else if trim && isSpace(Utf8.Decode(s).rune) {
      var w := Utf8.Decode(s).width;
      SkipBytes(s, w);
      StripWellEscaped(s[w..], Text, isSpace, true);
    } else {
      OneByte(s, m);
      var rest := Strip(s[1..], isSpace, false);
      CompleteFront(s[0], rest, m);
      var next := NextMultiMode(m, s[0]);
      if !(m.Escape? && s[0] == CR) {
        StripWellEscaped(s[1..], next.value, isSpace, false);
      }
    }
  }

  lemma EmptyComplete(m: Mode)
    ensures Complete([], m) <==> m.Text?
    ensures MultiAfter([], m) == Some(m) && !EscapesCR([], m)
  {
  }

  lemma CompleteFront(c: byte, rest: bytes, m: Mode)
    ensures Complete([c] + rest, m) <==> NextMode(m, c).Some? && Complete(rest, NextMode(m, c).value)
  {
    assert ([c] + rest)[1..] == rest;
  }

  lemma OneByte(s: bytes, m: Mode)
    requires s != [] && MultiAfter(s, m) == Some(Text) && !BackslashEndsLine(s, m)
    ensures var next := NextMultiMode(m, s[0]);
            && next.Some? && MultiAfter(s[1..], next.value) == Some(Text) && !BackslashEndsLine(s[1..], next.value)
            && (EscapesCR(s, m) <==> (m.Escape? && s[0] == CR) || EscapesCR(s[1..], next.value))
            && !(m.Escape? && AtEol(s))
  {
    MultiFront(s, m);
  }

  /** Digits of an escape, read one by one. */
  lemma {:induction false} HexComplete(s: bytes, k: nat)
    requires 1 <= k <= |s| && AllHex(s[..k])
    ensures Complete(s, Hex(k)) <==> Complete(s[k..], Text)
    decreases k
  {
    assert IsHexDigit(s[..k][0]);
    if k > 1 {
      assert s[1..][..k - 1] == s[..k][1..] && s[1..][k - 1..] == s[k..];
      HexComplete(s[1..], k - 1);
    }
  }

  lemma Behind(s: bytes, k: nat)
    requires |s| >= 2 + k
    ensures s[2..][..k] == s[2..2 + k] && s[2..][k..] == s[2 + k..]
  {
  }

  lemma EscapeComplete(s: bytes)
    requires |s| >= 2 && s[0] == BACKSLASH && FirstPiece(s).Took?
    ensures Complete(s, Text) <==> Complete(s[FirstPiece(s).width..], Text)
  {
    hide Utf8.Decode, Utf8.ValidRune, HexValue, Complete;
    CompleteFront(s[0], s[1..], Text);
    CompleteFront(s[1], s[2..], Escape);
    assert s == [s[0]] + s[1..] && s[1..] == [s[1]] + s[2..];
    if SimpleEscape(s[1]) < 0 {
      var k := if s[1] == LOWER_U then 4 else 8;
      Behind(s, k);
      HexComplete(s[2..], k);
    }
  }

  /** Only a well-escaped text has a value. */
  lemma {:induction false} RunesAreWellEscaped(s: bytes)
    requires Unescape(s).Runes?
    ensures WellEscaped(s)
    decreases |s|
  {
    if s != [] {
      var width := FirstPiece(s).width;
      RunesAreWellEscaped(s[width..]);
      hide Complete, FirstPiece;
      if s[0] != BACKSLASH {
        TextPiece(s);
        CompleteSkip(s, width);
      } else {
        BackslashPiece(s);
        EscapeComplete(s);
      }
    }
  }

  lemma TextPiece(s: bytes)
    requires s != [] && s[0] != BACKSLASH
    ensures FirstPiece(s).Took? && forall i :: 0 <= i < FirstPiece(s).width ==> s[i] != BACKSLASH
  {
    hide Utf8.Decode;
  }

  lemma BackslashPiece(s: bytes)
    requires s != [] && s[0] == BACKSLASH && FirstPiece(s).Took?
    ensures |s| >= 2
  {
  }

  lemma NewlineComplete(s: bytes)
    ensures Complete(StripFirstNewline(s), Text) <==> Complete(s, Text)
  {
  }

  /** What comes first in a text: an escape that is none or has no end, or one of an impossible rune. */
  datatype Fault = NoFault | BadEscape | BadRune

  /** The digits of an escape so far, with one more. */
  function OneDigit(m: Mode, digits: bytes, c: byte): bytes {
    if m.Hex? then digits + [c] else []
  }

  predicate Impossible(m: Mode, digits: bytes, c: byte) {
    m.Hex? && m.left <= 1 && !Utf8.ValidRune(HexValue(digits + [c]))
  }

  /** The first fault of a text that has no line ends to remove. */
  function TextFault(t: bytes, m: Mode, digits: bytes): Fault {
    if t == [] then if m.Text? then NoFault else BadEscape
    else if NextMode(m, t[0]).None? then BadEscape
    else if Impossible(m, digits, t[0]) then BadRune
    else TextFault(t[1..], NextMode(m, t[0]).value, OneDigit(m, digits, t[0]))
  }

  /**
   The first fault of the text itself, read the way the parser does: a backslash at the end of a line goes first, with the
   whitespace behind it, even where it is the second half of an escape, and the escapes are read across the gap.
   */
  function FirstFault(s: bytes, m: Mode, digits: bytes, isSpace: SpaceTest, trim: bool): Fault
    decreases |s|
  {
    if s == [] then if m.Text? then NoFault else BadEscape
    else if AtEol(s) then FirstFault(s[2..], m, digits, isSpace, true)
    else if trim && isSpace(Utf8.Decode(s).rune) then FirstFault(s[Utf8.Decode(s).width..], m, digits, isSpace, true)
    else if NextMode(m, s[0]).None? then BadEscape
    else if Impossible(m, digits, s[0]) then BadRune
    else FirstFault(s[1..], NextMode(m, s[0]).value, OneDigit(m, digits, s[0]), isSpace, false)
  }

  /** The first fault as the lexer reads the text, to whom only an escape before a carriage return looks good when it is not. */
  function LexedFault(s: bytes, m: Mode, digits: bytes): Fault {
    if s == [] then if m.Text? then NoFault else BadEscape
    else if (m.Escape? && s[0] == CR) || NextMultiMode(m, s[0]).None? then BadEscape
    else if Impossible(m, digits, s[0]) then BadRune
    else LexedFault(s[1..], NextMultiMode(m, s[0]).value, OneDigit(m, digits, s[0]))
  }

  lemma {:induction false} StripFault(s: bytes, m: Mode, digits: bytes, isSpace: SpaceTest, trim: bool)
    ensures TextFault(Strip(s, isSpace, trim), m, digits) == FirstFault(s, m, digits, isSpace, trim)
    decreases |s|
  {
    hide Utf8.Decode, HexValue, Utf8.ValidRune;
    if s == [] {
    } else if AtEol(s) {
      StripFault(s[2..], m, digits, isSpace, true);
    } else if trim && isSpace(Utf8.Decode(s).rune) {
      StripFault(s[Utf8.Decode(s).width..], m, digits, isSpace, true);
    } else {
      var rest := Strip(s[1..], isSpace, false);
      assert ([s[0]] + rest)[1..] == rest;
      if NextMode(m, s[0]).Some? && !Impossible(m, digits, s[0]) {
        StripFault(s[1..], NextMode(m, s[0]).value, OneDigit(m, digits, s[0]), isSpace, false);
      }
    }
  }

  lemma AllHexFront(t: bytes, k: nat)
    requires 1 <= k <= |t|
    ensures AllHex(t[..k]) <==> IsHexDigit(t[0]) && AllHex(t[1..][..k - 1])
    ensures t[..k] == [t[0]] + t[1..][..k - 1] && t[1..][k - 1..] == t[k..]
  {
    assert t[..k] == [t[0]] + t[1..][..k - 1];
  }

  lemma OneFault(t: bytes, m: Mode, digits: bytes)
    requires t != []
    ensures TextFault(t, m, digits) ==
            if NextMode(m, t[0]).None? then BadEscape
            else if Impossible(m, digits, t[0]) then BadRune
            else TextFault(t[1..], NextMode(m, t[0]).value, OneDigit(m, digits, t[0]))
  {
  }

  /** Digits of an escape, read one by one. */
  lemma {:induction false} HexFault(t: bytes, k: nat, digits: bytes)
    requires k >= 1
    ensures TextFault(t, Hex(k), digits) ==
            if |t| < k || !AllHex(t[..k]) then BadEscape
            else if !Utf8.ValidRune(HexValue(digits + t[..k])) then BadRune
            else TextFault(t[k..], Text, [])
    decreases k
  {
    if t == [] {
      return;
    }
    hide HexValue, Utf8.ValidRune, TextFault, AllHex, IsHexDigit;
    OneFault(t, Hex(k), digits);
    if |t| >= k {
      AllHexFront(t, k);
    }
    if k > 1 {
      HexFault(t[1..], k - 1, digits + [t[0]]);
      assert |t| >= k ==> digits + t[..k] == digits + [t[0]] + t[1..][..k - 1];
    } else {
      NoHex();
      assert t[..1] == [t[0]] && t[1..][..0] == [];
      TextAnyDigits(t[1..], digits + [t[0]]);
    }
  }

  lemma NoHex()
    ensures AllHex([])
  {
  }

  lemma TextAnyDigits(t: bytes, digits: bytes)
    ensures TextFault(t, Text, digits) == TextFault(t, Text, [])
  {
  }

  lemma {:induction false} SkipFault(t: bytes, w: nat)
    requires w <= |t| && forall i :: 0 <= i < w ==> t[i] != BACKSLASH
    ensures TextFault(t, Text, []) == TextFault(t[w..], Text, [])
    decreases w
  {
    if w > 0 {
      SkipFault(t[1..], w - 1);
      assert t[1..][w - 1..] == t[w..];
    }
  }

  /** An escape at the front. */
  lemma EscapeFault(t: bytes)
    requires t != [] && t[0] == BACKSLASH
    ensures var p := FirstPiece(t);
            TextFault(t, Text, []) ==
            if p.Took? then TextFault(t[p.width..], Text, []) else if p.why.NotARune? then BadRune else BadEscape
  {
    hide HexValue, Utf8.ValidRune, Utf8.Decode;
    assert TextFault(t, Text, []) == TextFault(t[1..], Escape, []);
    if |t| > 1 {
      assert t[1..][1..] == t[2..];
      if SimpleEscape(t[1]) < 0 && (t[1] == LOWER_U || t[1] == UPPER_U) {
        var k := if t[1] == LOWER_U then 4 else 8;
        HexFault(t[2..], k, []);
        if |t| >= 2 + k {
          Behind(t, k);
          assert [] + t[2..][..k] == t[2..2 + k];
        }
      }
    }
  }

  /** Undoing the escapes fails for the first fault. */
  lemma {:induction false} UnescapeFault(t: bytes)
    ensures Unescape(t).Bug? <==> TextFault(t, Text, []).BadEscape?
    ensures Unescape(t).NotARune? <==> TextFault(t, Text, []).BadRune?
    decreases |t|
  {
    if t != [] {
      hide TextFault, Utf8.Decode;
      if t[0] == BACKSLASH {
        EscapeFault(t);
      } else {
        TextPiece(t);
        SkipFault(t, FirstPiece(t).width);
      }
      hide FirstPiece;
      if FirstPiece(t).Took? {
        UnescapeFault(t[FirstPiece(t).width..]);
      }
    } else {
      assert TextFault(t, Text, []).NoFault?;
    }
  }

  lemma NewlineFault(t: bytes)
    ensures TextFault(StripFirstNewline(t), Text, []) == TextFault(t, Text, [])
  {
  }

  /**
   Any text: the parser panics on it if and only if the first fault is an escape that is none, refuses it if and only if the
   first fault is an impossible rune, and gives it a value if and only if there is no fault.
   */
  lemma PanicsExactly(s: bytes, isSpace: SpaceTest)
    ensures var u, f := Value(s, isSpace), FirstFault(s, Text, [], isSpace, false);
            (u.Bug? <==> f.BadEscape?) && (u.NotARune? <==> f.BadRune?) && (u.Runes? <==> f.NoFault?)
  {
    hide Strip, Unescape, FirstFault, TextFault;
    StripFault(s, Text, [], isSpace, false);
    var t := Strip(s, isSpace, false);
    NewlineFault(t);
    UnescapeFault(StripFirstNewline(t));
  }

  lemma {:induction false} SkipLexed(s: bytes, w: nat)
    requires w <= |s| && forall i :: 0 <= i < w ==> s[i] != BACKSLASH
    ensures LexedFault(s, Text, []) == LexedFault(s[w..], Text, [])
    decreases w
  {
    if w > 0 {
      SkipLexed(s[1..], w - 1);
      assert s[1..][w - 1..] == s[w..];
    }
  }

  lemma EolLexed(s: bytes)
    requires AtEol(s)
    ensures LexedFault(s, Text, []) == LexedFault(s[2..], Text, [])
  {
    assert s[1..][1..] == s[2..];
    assert LexedFault(s, Text, []) == LexedFault(s[1..], Escape, []);
  }

  lemma LexedAnyDigits(s: bytes, digits: bytes)
    ensures LexedFault(s, Text, digits) == LexedFault(s, Text, [])
  {
  }

  lemma {:induction false} FaultAnyDigits(s: bytes, digits: bytes, isSpace: SpaceTest, trim: bool)
    ensures FirstFault(s, Text, digits, isSpace, trim) == FirstFault(s, Text, [], isSpace, trim)
    decreases |s|
  {
    hide Utf8.Decode;
    if AtEol(s) {
      FaultAnyDigits(s[2..], digits, isSpace, true);
    } else if s != [] && trim && isSpace(Utf8.Decode(s).rune) {
      FaultAnyDigits(s[Utf8.Decode(s).width..], digits, isSpace, true);
    }
  }

  /** Where no escaped backslash ends a line, both readings of the text agree. */
  lemma {:induction false} FaultsAgree(s: bytes, m: Mode, digits: bytes, isSpace: SpaceTest, trim: bool)
    requires MultiAfter(s, m) == Some(Text) && !BackslashEndsLine(s, m)
    requires (trim ==> m.Text?) && (m.Escape? && s != [] ==> s[0] != LF) && (m.Text? ==> digits == [])
    ensures FirstFault(s, m, digits, isSpace, trim) == LexedFault(s, m, digits)
    decreases |s|
  {
    hide Utf8.Decode, MultiAfter, BackslashEndsLine, HexValue, Utf8.ValidRune, EscapesCR;
    if s == [] {
      EmptyComplete(m);
    } else if m.Text? && AtEol(s) {
      SkipEol(s);
      EolLexed(s);
      FaultsAgree(s[2..], Text, [], isSpace, true);
    } else if trim && isSpace(Utf8.Decode(s).rune) {
      var w := Utf8.Decode(s).width;
      SkipBytes(s, w);
      SkipLexed(s, w);
      FaultsAgree(s[w..], Text, [], isSpace, true);
    } else {
      OneByte(s, m);
      var next := NextMultiMode(m, s[0]);
      if !(m.Escape? && s[0] == CR) && !Impossible(m, digits, s[0]) {
        var more := OneDigit(m, digits, s[0]);
        if next.value.Text? {
          LexedAnyDigits(s[1..], more);
          FaultAnyDigits(s[1..], more, isSpace, false);
          FaultsAgree(s[1..], Text, [], isSpace, false);
        } else {
          FaultsAgree(s[1..], next.value, more, isSpace, false);
        }
      }
    }
  }

  /** A text as the lexer accepts it has no other bad escape than one before a carriage return. */
  lemma {:induction false} OnlyCR(s: bytes, m: Mode, digits: bytes)
    requires MultiAfter(s, m) == Some(Text)
    ensures LexedFault(s, m, digits).BadEscape? ==> EscapesCR(s, m)
    decreases |s|
  {
    hide MultiAfter, HexValue, Utf8.ValidRune;
    if s == [] {
      EmptyComplete(m);
    } else {
      MultiFront(s, m);
      if !(m.Escape? && s[0] == CR) && !Impossible(m, digits, s[0]) {
        OnlyCR(s[1..], NextMultiMode(m, s[0]).value, OneDigit(m, digits, s[0]));
      }
    }
  }

  /**
   A text as the lexer accepts it, with no escaped backslash at the end of a line: the parser panics on it if and only if the
   first fault is an escape begun before a carriage return.
   */
  lemma MultilineExactly(s: bytes, isSpace: SpaceTest)
    requires MultiEscaped(s) && !BackslashEndsLine(s, Text)
    ensures var u, f := Value(s, isSpace), LexedFault(s, Text, []);
            && (u.Bug? <==> f.BadEscape?) && (u.NotARune? <==> f.BadRune?) && (u.Runes? <==> f.NoFault?)
            && (u.Bug? ==> EscapesCR(s, Text)) && (EscapesCR(s, Text) ==> !u.Runes?)
  {
    hide Complete, Strip, Unescape, EscapesCR, MultiAfter, BackslashEndsLine, FirstFault, LexedFault;
    FaultsAgree(s, Text, [], isSpace, false);
    PanicsExactly(s, isSpace);
    OnlyCR(s, Text, []);
    StripWellEscaped(s, Text, isSpace, false);
    var t := StripFirstNewline(Strip(s, isSpace, false));
    NewlineComplete(Strip(s, isSpace, false));
    if Unescape(t).Runes? {
      RunesAreWellEscaped(t);
    }
  }

  const ESCAPED_EOL: bytes := [BACKSLASH, BACKSLASH, LF]

  /**
   An escaped backslash at the end of a line is torn apart: its second half goes with the line's end, and its first half
   makes an escape with what the next line starts with. So the text is well escaped only if that line can be read so.
   */
  lemma {:induction false} TornApart(p: bytes, rest: bytes, m: Mode, isSpace: SpaceTest, trim: bool)
    requires MultiAfter(p, m) == Some(Text) && !BackslashEndsLine(p, m)
    requires (trim ==> m.Text?) && (m.Escape? && p != [] ==> p[0] != LF)
    ensures Complete(Strip(p + ESCAPED_EOL + rest, isSpace, trim), m) <==>
            !EscapesCR(p, m) && Complete(Strip(rest, isSpace, true), Escape)
    decreases |p|
  {
    hide Utf8.Decode, Complete, MultiAfter, EscapesCR, BackslashEndsLine;
    var s := p + ESCAPED_EOL + rest;
    if p == [] {
      EmptyComplete(m);
      TornHere(rest, isSpace, trim);
      assert s == ESCAPED_EOL + rest;
    } else if m.Text? && AtEol(p) {
      SkipEol(p);
      TornApart(p[2..], rest, Text, isSpace, true);
      assert s[2..] == p[2..] + ESCAPED_EOL + rest;
    } else {
      OneByte(p, m);
      assert !AtEol(s) by {
        NotYet(p, rest, m);
      }
      DecodesTheSame(s, p);
      if trim && isSpace(Utf8.Decode(s).rune) {
        var w := Utf8.Decode(s).width;
        SkipBytes(p, w);
        TornApart(p[w..], rest, Text, isSpace, true);
        assert s[w..] == p[w..] + ESCAPED_EOL + rest;
      } else {
        assert s[1..] == p[1..] + ESCAPED_EOL + rest;
        CompleteFront(s[0], Strip(s[1..], isSpace, false), m);
        if !(m.Escape? && s[0] == CR) {
          TornApart(p[1..], rest, NextMultiMode(m, s[0]).value, isSpace, false);
        }
      }
    }
  }

  lemma NotYet(p: bytes, rest: bytes, m: Mode)
    requires p != [] && !(m.Text? && AtEol(p)) && !(m.Escape? && AtEol(p)) && MultiAfter(p, m) == Some(Text)
    ensures !AtEol(p + ESCAPED_EOL + rest)
  {
    hide MultiAfter;
    MultiFront(p, m);
    var s := p + ESCAPED_EOL + rest;
    assert s[0] == p[0];
    if |p| == 1 {
      assert s[1] == ESCAPED_EOL[0];
    } else {
      assert s[1] == p[1];
    }
  }

  lemma TornHere(rest: bytes, isSpace: SpaceTest, trim: bool)
    ensures Complete(Strip(ESCAPED_EOL + rest, isSpace, trim), Text) <==> Complete(Strip(rest, isSpace, true), Escape)
  {
    hide Complete;
    var s := ESCAPED_EOL + rest;
    assert s[0] == BACKSLASH && s[1] == BACKSLASH && s[2] == LF;
    assert s[1..][2..] == rest && AtEol(s[1..]);
    assert Strip(s, isSpace, trim) == [BACKSLASH] + Strip(rest, isSpace, true);
    CompleteFront(BACKSLASH, Strip(rest, isSpace, true), Text);
  }

  /** Before an x that tears off a BUG; before an n it is a newline instead of a backslash. */
  lemma TornExamples(isSpace: SpaceTest)
    requires !isSpace(0x78) && !isSpace(0x6E)
    ensures MultiEscaped(ESCAPED_EOL + [0x78]) && Value(ESCAPED_EOL + [0x78], isSpace) == Bug
    ensures MultiEscaped(ESCAPED_EOL + [0x6E]) && Value(ESCAPED_EOL + [0x6E], isSpace) == Runes([0x0A])
  {
    TornExample(0x78, isSpace);
    TornExample(0x6E, isSpace);
  }

  /** An escape begun before a carriage return is accepted by the lexer and panics in the parser. */
  lemma EscapedReturnIsABug(isSpace: SpaceTest)
    ensures MultiEscaped([BACKSLASH, CR]) && Value([BACKSLASH, CR], isSpace) == Bug
  {
    hide Unescape;
    var s := [BACKSLASH, CR];
    MultiOneMore([], BACKSLASH, Text);
    MultiOneMore([BACKSLASH], CR, Text);
    assert [] + [BACKSLASH] == [BACKSLASH] && [BACKSLASH] + [CR] == s;
    assert s[1..] == [CR] && [CR][1..] == [];
    assert Strip([CR], isSpace, false) == [CR] + [] == [CR];
    assert Strip(s, isSpace, false) == [BACKSLASH] + [CR] == s;
    BackslashReturn();
  }

  lemma BackslashReturn()
    ensures Unescape([BACKSLASH, CR]) == Bug
  {
  }

  lemma TornExample(c: byte, isSpace: SpaceTest)
    requires !isSpace(c) && c < 0x80 && c != BACKSLASH
    ensures MultiEscaped(ESCAPED_EOL + [c])
    ensures Value(ESCAPED_EOL + [c], isSpace) == Unescape([BACKSLASH, c])
  {
    hide Unescape;
    var s := ESCAPED_EOL + [c];
    MultiOneMore([], BACKSLASH, Text);
    MultiOneMore([BACKSLASH], BACKSLASH, Text);
    MultiOneMore([BACKSLASH, BACKSLASH], LF, Text);
    MultiOneMore(ESCAPED_EOL, c, Text);
    assert [] + [BACKSLASH] == [BACKSLASH] && [BACKSLASH] + [BACKSLASH] == [BACKSLASH, BACKSLASH];
    assert [BACKSLASH, BACKSLASH] + [LF] == ESCAPED_EOL;
    assert s[..3] == ESCAPED_EOL && s[..3][..2] == [BACKSLASH, BACKSLASH] && s[..3][..2][..1] == [BACKSLASH];
    assert s[1..][2..] == [c] && s[1..] == [BACKSLASH, LF, c];
    assert Strip([c], isSpace, true) == [c] by {
      assert [c][1..] == [];
    }
    assert Strip(s, isSpace, false) == [BACKSLASH] + [c];
    assert [BACKSLASH] + [c] == [BACKSLASH, c];
  }

  /** The parser's value of a string over several lines. */
  method ParseMultiline(s: bytes, isSpace: SpaceTest) returns (u: Unescaped)
    ensures u == Value(s, isSpace)
    ensures var f := FirstFault(s, Text, [], isSpace, false);
            (u.Bug? <==> f.BadEscape?) && (u.NotARune? <==> f.BadRune?) && (u.Runes? <==> f.NoFault?)
    ensures MultiEscaped(s) && !BackslashEndsLine(s, Text) ==> (u.Bug? <==> LexedFault(s, Text, []).BadEscape?)
  {
    hide Strip, Unescape, EscapesCR, MultiEscaped, BackslashEndsLine, FirstFault, LexedFault;
    var t := StripEscapedWhitespace(s, isSpace);
    u := ReplaceEscapes(StripFirstNewline(t));
    PanicsExactly(s, isSpace);
    if MultiEscaped(s) && !BackslashEndsLine(s, Text) {
      MultilineExactly(s, isSpace);
    }
  }
}
