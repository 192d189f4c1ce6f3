/**
 Single-line basic strings of TOML v0.4.0 (section "String"): what the lexer
 accepts between two quotes, how the parser undoes the escapes, and how the
 encoder writes them.
 */
module TomlStrings {
  import opened Bytes
  import Utf8
  import opened Wrappers

  const QUOTE: byte := 0x22
  const BACKSLASH: byte := 0x5C
  const LF: byte := 0x0A
  const CR: byte := 0x0D
  const TAB: byte := 0x09
  const LOWER_U: byte := 0x75
  const UPPER_U: byte := 0x55

  /** Where a reader stands: in plain text, just after a backslash, or with hexadecimal digits still to come. */
  datatype Mode = Text | Escape | Hex(left: nat)

  /** The byte an escape letter stands for: b t n f r " and backslash. */
  function SimpleEscape(c: int): int {
    if c == 0x62 then 0x08 else if c == 0x74 then 0x09 else if c == 0x6E then 0x0A
    else if c == 0x66 then 0x0C else if c == 0x72 then 0x0D
    else if c == 0x22 then 0x22 else if c == 0x5C then 0x5C else -1
  }

  predicate IsHexDigit(c: int) {
    0x30 <= c <= 0x39 || 0x61 <= c <= 0x66 || 0x41 <= c <= 0x46
  }

  /** The mode after one more byte; None when no string may continue that way. */
  function NextMode(m: Mode, c: byte): Option<Mode> {
    match m
    case Text => if c == BACKSLASH then Some(Escape) else Some(Text)
    case Escape =>
      if SimpleEscape(c) >= 0 then Some(Text)
      else if c == LOWER_U then Some(Hex(4))
      else if c == UPPER_U then Some(Hex(8))
      else None
    case Hex(left) =>
      if !IsHexDigit(c) then None else if left <= 1 then Some(Text) else Some(Hex(left - 1))
  }

  /** The position of the quote that closes the string being read at p, if the string is well formed. */
  function Scan(input: bytes, p: nat, m: Mode): (q: Option<nat>)
    requires p <= |input|
    decreases |input| - p
  {
    if p == |input| then None
    else if m == Text && input[p] == QUOTE then Some(p)
    else if m == Text && input[p] in {0, LF, CR} then None
    else
      match NextMode(m, input[p])
      case None => None
      case Some(m') => Scan(input, p + 1, m')
  }

  lemma ScanText(input: bytes, p: nat)
    requires p <= |input|
    ensures Scan(input, p, Text) ==
            if p == |input| || input[p] in {0, LF, CR} then None
            else if input[p] == QUOTE then Some(p)
            else if input[p] == BACKSLASH then Scan(input, p + 1, Escape)
            else Scan(input, p + 1, Text)
  {
  }

  lemma ScanEscape(input: bytes, p: nat)
    requires p <= |input|
    ensures Scan(input, p, Escape) ==
            if p == |input| then None
            else if SimpleEscape(input[p]) >= 0 then Scan(input, p + 1, Text)
            else if input[p] == LOWER_U then Scan(input, p + 1, Hex(4))
            else if input[p] == UPPER_U then Scan(input, p + 1, Hex(8))
            else None
  {
  }

  /** Every escape begun in s, read from mode m, is finished in s. */
  predicate Complete(s: bytes, m: Mode) {
    if s == [] then m == Text
    else
      match NextMode(m, s[0])
      case None => false
      case Some(m') => Complete(s[1..], m')
  }

  predicate WellEscaped(s: bytes) {
    Complete(s, Text)
  }

  lemma {:induction false} ScanIsComplete(input: bytes, p: nat, m: Mode)
    requires p <= |input| && Scan(input, p, m).Some?
    ensures var q := Scan(input, p, m).value;
            p <= q < |input| && input[q] == QUOTE && Complete(input[p..q], m)
    decreases |input| - p
  {
    if !(m == Text && input[p] == QUOTE) {
      ScanIsComplete(input, p + 1, NextMode(m, input[p]).value);
      var q := Scan(input, p, m).value;
      assert input[p..q][1..] == input[p + 1..q];
    }
  }

  lemma ScanIsWellEscaped(input: bytes, p: nat)
    requires p <= |input| && Scan(input, p, Text).Some?
    ensures var q := Scan(input, p, Text).value;
            p <= q < |input| && input[q] == QUOTE && WellEscaped(input[p..q])
  {
    ScanIsComplete(input, p, Text);
  }

  /** Bytes past ASCII never end a string nor start an escape, so a whole rune may be skipped at once. */
  lemma {:induction false} ScanSkip(input: bytes, p: nat, w: nat)
    requires p + w <= |input| && forall i :: p <= i < p + w ==> input[i] >= 0x80
    ensures Scan(input, p, Text) == Scan(input, p + w, Text)
    decreases w
  {
    if w > 0 {
      ScanSkip(input, p + 1, w - 1);
    }
  }

  /** What undoing the escapes yields: runes, a complaint about an impossible rune, or a fault in the lexer. */
  datatype Unescaped = Runes(rs: seq<int>) | NotARune | Bug

  function HexDigit(c: byte): int {
    if c <= 0x39 then c - 0x30 else if c >= 0x61 then c - 0x57 else c - 0x37
  }

  function HexValue(s: bytes): int {
    if s == [] then 0 else HexValue(s[..|s| - 1]) * 16 + HexDigit(s[|s| - 1])
  }

  predicate AllHex(s: bytes) {
    forall c :: c in s ==> IsHexDigit(c)
  }

  function Prepend(rs: seq<int>, u: Unescaped): Unescaped {
    if u.Runes? then Runes(rs + u.rs) else u
  }

  /** One rune of the result with the number of bytes it took, or the reason to stop. */
  datatype Piece = Took(rune: int, width: nat) | Stop(why: Unescaped)

  function HexPiece(s: bytes, digits: nat): Piece {
    if |s| < 2 + digits || !AllHex(s[2..2 + digits]) then Stop(Bug)
    else if !Utf8.ValidRune(HexValue(s[2..2 + digits])) then Stop(NotARune)
    else Took(HexValue(s[2..2 + digits]), 2 + digits)
  }

  function FirstPiece(s: bytes): (p: Piece)
    requires s != []
    ensures p.Took? ==> 1 <= p.width <= |s|
    ensures p.Stop? ==> !p.why.Runes?
  {
    if s[0] != BACKSLASH then var d := Utf8.Decode(s); Took(d.rune, d.width)
    else if |s| == 1 then Stop(Bug)
    else if SimpleEscape(s[1]) >= 0 then Took(SimpleEscape(s[1]), 2)
    else if s[1] == LOWER_U then HexPiece(s, 4)
    else if s[1] == UPPER_U then HexPiece(s, 8)
    else Stop(Bug)
  }

  function Unescape(s: bytes): Unescaped {
    if s == [] then Runes([])
    else
      match FirstPiece(s)
      case Stop(why) => why
      case Took(rune, width) => Prepend([rune], Unescape(s[width..]))
  }

  lemma {:induction false} CompleteSkip(s: bytes, w: nat)
    requires w <= |s| && forall i :: 0 <= i < w ==> s[i] != BACKSLASH
    ensures Complete(s, Text) == Complete(s[w..], Text)
    decreases w
  {
    if w > 0 {
      CompleteSkip(s[1..], w - 1);
      assert s[1..][w - 1..] == s[w..];
    }
  }

  lemma {:induction false} CompleteHex(s: bytes, k: nat)
    requires k >= 1 && Complete(s, Hex(k))
    ensures |s| >= k && AllHex(s[..k]) && Complete(s[k..], Text)
    decreases k
  {
    if k > 1 {
      CompleteHex(s[1..], k - 1);
      assert s[1..][k - 1..] == s[k..];
      assert s[..k] == [s[0]] + s[1..][..k - 1];
    }
  }

  /** On a string whose escapes are complete, undoing them stays in bounds and off every BUG branch. */
  lemma {:induction false} WellEscapedHasNoBug(s: bytes)
    requires WellEscaped(s)
    ensures !Unescape(s).Bug?
    decreases |s|
  {
    if s != [] {
      if s[0] != BACKSLASH {
        var d := Utf8.Decode(s);
        CompleteSkip(s, d.width);
        WellEscapedHasNoBug(s[d.width..]);
      } else {
        assert Complete(s[1..], Escape);
        assert s[1..][1..] == s[2..];
        if s[1] == LOWER_U || s[1] == UPPER_U {
          var k := if s[1] == LOWER_U then 4 else 8;
          CompleteHex(s[2..], k);
          assert s[2..][k..] == s[2 + k..] && s[2..][..k] == s[2..2 + k];
          WellEscapedHasNoBug(s[2 + k..]);
        } else {
          WellEscapedHasNoBug(s[2..]);
        }
      }
    }
  }

  lemma PrependPrepend(a: seq<int>, b: seq<int>, u: Unescaped)
    ensures Prepend(a, Prepend(b, u)) == Prepend(a + b, u)
  {
    if u.Runes? {
      assert a + (b + u.rs) == a + b + u.rs;
    }
  }

  lemma UnescapeOneMore(s: bytes, r: nat, replaced: seq<int>, rune: int, width: nat)
    requires r < |s| && FirstPiece(s[r..]) == Took(rune, width)
    requires Unescape(s) == Prepend(replaced, Unescape(s[r..]))
    ensures r + width <= |s|
    ensures Unescape(s) == Prepend(replaced + [rune], Unescape(s[r + width..]))
  {
    var t := s[r..];
    assert Unescape(t) == Prepend([rune], Unescape(t[width..]));
    assert t[width..] == s[r + width..];
    PrependPrepend(replaced, [rune], Unescape(s[r + width..]));
  }

  /** Undoes the escapes of a basic string in one left-to-right pass. */
  method ReplaceEscapes(s: bytes) returns (u: Unescaped)
    ensures u == Unescape(s)
    ensures WellEscaped(s) ==> !u.Bug?
  {
    var replaced: seq<int> := [];
    var r := 0;
    if WellEscaped(s) {
      WellEscapedHasNoBug(s);
    }
    while r < |s|
      invariant r <= |s|
      invariant Unescape(s) == Prepend(replaced, Unescape(s[r..]))
    {
      var rune, width;
      if s[r] != BACKSLASH {
        var d := Utf8.Decode(s[r..]);
        rune, width := d.rune, d.width;
      } else if r + 1 >= |s| {
        return Bug;
      } else {
        var c := s[r + 1];
        if SimpleEscape(c) >= 0 {
          rune, width := SimpleEscape(c), 2;
        } else if c == LOWER_U || c == UPPER_U {
          var k := if c == LOWER_U then 4 else 8;
          if r + 2 + k > |s| {
            return Bug;
          }
          var digits := s[r + 2..r + 2 + k];
          assert s[r..][2..2 + k] == digits;
          if !AllHex(digits) {
            return Bug;
          }
          rune, width := HexValue(digits), 2 + k;
          if !Utf8.ValidRune(rune) {
            return NotARune;
          }
        } else {
          return Bug;
        }
      }
      assert FirstPiece(s[r..]) == Took(rune, width);
      UnescapeOneMore(s, r, replaced, rune, width);
      replaced := replaced + [rune];
      r := r + width;
    }
    u := Runes(replaced);
  }

  /** The encoder's replacer, byte by byte. */
  function QuoteByte(b: byte): bytes {
    if b == TAB then [BACKSLASH, 0x74]
    else if b == LF then [BACKSLASH, 0x6E]
    else if b == CR then [BACKSLASH, 0x72]
    else if b == QUOTE || b == BACKSLASH then [BACKSLASH, b]
    else [b]
  }

  function Quoted(s: bytes): bytes {
    if s == [] then [] else QuoteByte(s[0]) + Quoted(s[1..])
  }

  lemma QuotedStart(s: bytes)
    ensures s == [] <==> Quoted(s) == []
    ensures s != [] ==> Quoted(s)[0] != QUOTE
  {
  }

  /** What the encoder writes for a string value. */
  method WriteQuoted(s: bytes) returns (text: bytes)
    ensures text == [QUOTE] + Quoted(s) + [QUOTE]
  {
    text := [QUOTE];
    for i := 0 to |s|
      invariant text + Quoted(s[i..]) == [QUOTE] + Quoted(s)
    {
      assert s[i..][1..] == s[i + 1..];
      text := text + QuoteByte(s[i]);
    }
    text := text + [QUOTE];
  }

  /** The text w stands at position p of the input. */
  predicate At(input: bytes, p: nat, w: bytes) {
    p + |w| <= |input| && forall i :: 0 <= i < |w| ==> input[p + i] == w[i]
  }

  lemma AtParts(input: bytes, p: nat, v: bytes, w: bytes)
    requires At(input, p, v + w)
    ensures At(input, p, v) && At(input, p + |v|, w)
  {
    forall i | 0 <= i < |v| ensures input[p + i] == v[i] {
      assert (v + w)[i] == v[i];
    }
    forall i | 0 <= i < |w| ensures input[p + |v| + i] == w[i] {
      assert (v + w)[|v| + i] == w[i] && input[p + (|v| + i)] == (v + w)[|v| + i];
    }
  }

  lemma ScanQuotedByte(input: bytes, p: nat, b: byte)
    requires At(input, p, QuoteByte(b)) && p + |QuoteByte(b)| < |input|
    ensures Scan(input, p, Text) == if b == 0 then None else Scan(input, p + |QuoteByte(b)|, Text)
  {
    hide Scan;
    var head := QuoteByte(b);
    assert input[p + 0] == head[0];
    ScanText(input, p);
    if |head| == 2 {
      assert input[p + 1] == head[1];
      ScanEscape(input, p + 1);
    }
  }

  /** The lexer finds the end of a quoted text exactly where the encoder put it, unless the text holds a NUL byte. */
  lemma {:induction false} ScanQuoted(input: bytes, p: nat, s: bytes)
    requires At(input, p, Quoted(s) + [QUOTE])
    ensures Scan(input, p, Text) == if 0 in s then None else Some(p + |Quoted(s)|)
    decreases |s|
  {
    if s == [] {
      ScanClosed(input, p);
      assert Quoted(s) + [QUOTE] == [QUOTE];
    } else {
      hide *;
      ScanQuotedHead(input, p, s);
      ScanQuoted(input, p + |QuoteByte(s[0])|, s[1..]);
    }
  }

  lemma ScanQuotedHead(input: bytes, p: nat, s: bytes)
    requires s != [] && At(input, p, Quoted(s) + [QUOTE])
    ensures var next := p + |QuoteByte(s[0])|;
            && next <= |input| && At(input, next, Quoted(s[1..]) + [QUOTE])
            && Scan(input, p, Text) == (if s[0] == 0 then None else Scan(input, next, Text))
            && p + |Quoted(s)| == next + |Quoted(s[1..])|
    ensures 0 in s <==> s[0] == 0 || 0 in s[1..]
  {
    hide *;
    var head, rest := QuoteByte(s[0]), Quoted(s[1..]) + [QUOTE];
    QuotedStep(s);
    AtParts(input, p, head, rest);
    AtInside(input, p + |head|, rest);
    ScanQuotedByte(input, p, s[0]);
  }

  lemma QuotedStep(s: bytes)
    requires s != []
    ensures Quoted(s) + [QUOTE] == QuoteByte(s[0]) + (Quoted(s[1..]) + [QUOTE])
    ensures |Quoted(s)| == |QuoteByte(s[0])| + |Quoted(s[1..])|
    ensures 0 in s <==> s[0] == 0 || 0 in s[1..]
  {
    hide QuoteByte;
    assert s == [s[0]] + s[1..];
  }

  lemma ScanClosed(input: bytes, p: nat)
    ensures At(input, p, [QUOTE]) ==> p <= |input| && Scan(input, p, Text) == Some(p)
  {
    if At(input, p, [QUOTE]) {
      assert input[p + 0] == [QUOTE][0];
      hide Scan;
      ScanText(input, p);
    }
  }

  lemma AtInside(input: bytes, p: nat, w: bytes)
    requires At(input, p, w)
    ensures p + |w| <= |input|
  {
  }

  lemma {:induction false} QuotedHigh(s: bytes, k: nat)
    requires k <= |s| && forall i :: 0 <= i < k ==> s[i] >= 0x80
    ensures |Quoted(s)| >= k && Quoted(s)[..k] == s[..k] && Quoted(s)[k..] == Quoted(s[k..])
    decreases k
  {
    if k > 0 {
      QuotedHigh(s[1..], k - 1);
      assert Quoted(s) == [s[0]] + Quoted(s[1..]);
      assert s[1..][k - 1..] == s[k..];
      assert s[..k] == [s[0]] + s[1..][..k - 1];
    }
  }

  lemma QuotedRun(s: bytes) returns (k: nat)
    requires s != [] && s[0] >= 0x80
    ensures var t := Quoted(s);
            && 1 <= k <= 4 && k <= |s| && k <= |t|
            && (forall i :: 0 <= i < k ==> s[i] == t[i] >= 0x80)
            && (k < 4 ==> (k < |s| ==> s[k] < 0x80) && (k < |t| ==> t[k] < 0x80))
  {
    var t := Quoted(s);
    k := 1;
    while k < 4 && k < |s| && s[k] >= 0x80
      invariant 1 <= k <= 4 && k <= |s| && forall i :: 0 <= i < k ==> s[i] >= 0x80
    {
      k := k + 1;
    }
    QuotedHigh(s, k);
    QuotedLow(s[k..]);
    hide Quoted;
    forall i | 0 <= i < k ensures t[i] == s[i] {
      assert t[i] == t[..k][i] == s[..k][i];
    }
    if k < |s| {
      assert s[k..][0] == s[k];
      assert k < |t| ==> t[k] == t[k..][0];
    } else {
      assert t[k..] == [];
    }
  }

  lemma QuotedLow(s: bytes)
    ensures s == [] ==> Quoted(s) == []
    ensures s != [] && s[0] < 0x80 ==> Quoted(s) != [] && Quoted(s)[0] < 0x80
  {
  }

  /** Quoting keeps every multi-byte sequence, well formed or not. */
  lemma DecodeQuoted(s: bytes)
    requires s != [] && s[0] >= 0x80
    ensures Quoted(s) != [] && Quoted(s)[0] == s[0] && Utf8.Decode(Quoted(s)) == Utf8.Decode(s)
  {
    hide Quoted, Utf8.Decode;
    var k := QuotedRun(s);
    Utf8.DecodeLocal(s, Quoted(s), k);
  }

  lemma FirstPieceQuoted(s: bytes)
    requires s != []
    ensures var d, t := Utf8.Decode(s), Quoted(s);
            && t != []
            && FirstPiece(t).Took? && FirstPiece(t).rune == d.rune
            && t[FirstPiece(t).width..] == Quoted(s[d.width..])
  {
    var d, t := Utf8.Decode(s), Quoted(s);
    if s[0] >= 0x80 {
      DecodeQuoted(s);
      QuotedHigh(s, d.width);
    } else {
      var head := QuoteByte(s[0]);
      assert t == head + Quoted(s[1..]);
      assert t[|head|..] == Quoted(s[1..]);
      assert t[0] == head[0];
      if |head| == 2 {
        assert t[1] == head[1];
      }
    }
  }

  /** Undoing the escapes of a quoted text gives runes whose encoding is s itself, or longer than s when s is not UTF-8. */
  lemma {:induction false} UnescapeQuoted(s: bytes)
    ensures var u := Unescape(Quoted(s));
            && u.Runes?
            && (if Utf8.Valid(s) then Utf8.EncodeAll(u.rs) == s else |Utf8.EncodeAll(u.rs)| > |s|)
    decreases |s|
  {
    if s != [] {
      FirstPieceQuoted(s);
      var d := Utf8.Decode(s);
      var rest := s[d.width..];
      UnescapeQuoted(rest);
      UnescapeQuotedStep(s, d, Unescape(Quoted(rest)).rs);
    }
  }

  lemma UnescapeQuotedStep(s: bytes, d: Utf8.Decoded, tail: seq<int>)
    requires s != [] && d == Utf8.Decode(s)
    requires var rest := s[d.width..];
             if Utf8.Valid(rest) then Utf8.EncodeAll(tail) == rest else |Utf8.EncodeAll(tail)| > |rest|
    ensures var out := Utf8.EncodeAll([d.rune] + tail);
            if Utf8.Valid(s) then out == s else |out| > |s|
  {
    Utf8.EncodeDecode(s);
    assert ([d.rune] + tail)[1..] == tail;
    assert s == s[..d.width] + s[d.width..];
  }

  // ---------------------------------------------------------------- strings over several lines

  /** In a string over several lines a backslash may also stand before the end of a line. */
  function NextMultiMode(m: Mode, c: byte): Option<Mode> {
    if m.Escape? && (c == LF || c == CR) then Some(Text) else NextMode(m, c)
  }

  /** The mode after all of s; None when the lexer refuses it. */
  function MultiAfter(s: bytes, m: Mode): Option<Mode> {
    if s == [] then Some(m)
    else
      match MultiAfter(s[..|s| - 1], m)
      case None => None
      case Some(before) => NextMultiMode(before, s[|s| - 1])
  }

  /** What the lexer accepts between three quotes and three quotes, as far as escapes go. */
  predicate MultiEscaped(s: bytes) {
    MultiAfter(s, Text) == Some(Text)
  }

  lemma MultiOneMore(s: bytes, c: byte, m: Mode)
    ensures MultiAfter(s + [c], m) == match MultiAfter(s, m) case None => None case Some(before) => NextMultiMode(before, c)
  {
    assert (s + [c])[..|s|] == s;
  }

  /** Bytes past ASCII are text. */
  lemma {:induction false} MultiSkip(input: bytes, start: nat, p: nat, w: nat, m: Mode)
    requires start <= p && p + w <= |input| && forall i :: p <= i < p + w ==> input[i] >= 0x80
    requires MultiAfter(input[start..p], m) == Some(Text)
    ensures MultiAfter(input[start..p + w], m) == Some(Text)
    decreases w
  {
    if w > 0 {
      MultiSkip(input, start, p, w - 1, m);
      assert input[start..p + w] == input[start..p + w - 1] + [input[p + w - 1]];
      MultiOneMore(input[start..p + w - 1], input[p + w - 1], m);
    }
  }
}
