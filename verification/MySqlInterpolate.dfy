/**
 Client-side interpolation: each placeholder of a query is replaced by a literal, strings with their
 special characters escaped. A server that reads the literal by section 9.1.1 of the MySQL Reference
 Manual ("String Literals") gets the argument back.
 */
module MySqlInterpolate {
  import opened Bytes
  import opened MySqlBuffer
  import opened MySqlLenEnc
  import opened Slices
  import opened Wrappers

  const QUOTE: byte := 0x27
  const BACKSLASH: byte := 0x5c
  const MARK: byte := 0x3f

  // Floats and times come with their text.
  datatype Arg =
    | Nil
    | Int(value: int)
    | Float(text: bytes)
    | Bool(on: bool)
    | Time(text: bytes)
    | NilSlice
    | Slice(data: bytes)
    | Str(data: bytes)
    | Unsupported

  // ---------------------------------------------------------------- escaping

  /** The letter that stands for a byte behind a backslash, if the byte needs one. */
  function EscapeLetter(c: byte): Option<byte> {
    if c == 0x00 then Some(0x30) else if c == 0x0a then Some(0x6e) else if c == 0x0d then Some(0x72)
    else if c == 0x1a then Some(0x5a) else if c == QUOTE || c == 0x22 || c == BACKSLASH then Some(c)
    else None
  }

  function EscapeByte(c: byte, backslashes: bool): (e: bytes)
    ensures 1 <= |e| <= 2
  {
    if backslashes then
      match EscapeLetter(c)
      case Some(letter) => [BACKSLASH, letter]
      case None => [c]
    else if c == QUOTE then [QUOTE, QUOTE]
    else [c]
  }

  function Escape(v: bytes, backslashes: bool): (e: bytes)
    ensures |v| <= |e| <= 2 * |v|
  {
    if v == [] then [] else Escape(v[..|v| - 1], backslashes) + EscapeByte(v[|v| - 1], backslashes)
  }

  /** What a byte behind a backslash means: LIKE's \% and \_ keep their backslash, unknown ones lose it. */
  function Unescaped(c: byte): bytes {
    if c == 0x30 then [0x00] else if c == 0x62 then [0x08] else if c == 0x6e then [0x0a]
    else if c == 0x72 then [0x0d] else if c == 0x74 then [0x09] else if c == 0x5a then [0x1a]
    else if c == 0x25 || c == 0x5f then [BACKSLASH, c]
    else [c]
  }

  /** The server: the string behind an opening quote, and what follows its closing quote. */
  function ReadLiteral(b: bytes, backslashes: bool): Option<(bytes, bytes)> {
    if b == [] then None
    else if b[0] == QUOTE then
      if |b| > 1 && b[1] == QUOTE then Prepend([QUOTE], ReadLiteral(b[2..], backslashes))
      else Some(([], b[1..]))
    else if backslashes && b[0] == BACKSLASH then
      if |b| == 1 then None else Prepend(Unescaped(b[1]), ReadLiteral(b[2..], backslashes))
    else Prepend([b[0]], ReadLiteral(b[1..], backslashes))
  }

  function Prepend(v: bytes, read: Option<(bytes, bytes)>): Option<(bytes, bytes)> {
    match read
    case None => None
    case Some((value, rest)) => Some((v + value, rest))
  }

  lemma ReadOne(c: byte, rest: bytes, backslashes: bool)
    ensures ReadLiteral(EscapeByte(c, backslashes) + rest, backslashes) == Prepend([c], ReadLiteral(rest, backslashes))
  {
    var e := EscapeByte(c, backslashes);
    var b := e + rest;
    assert b[|e|..] == rest;
    assert b[0] == e[0] && (|e| == 2 ==> b[1] == e[1]);
  }

  lemma {:induction false} ReadEscaped(v: bytes, rest: bytes, backslashes: bool)
    ensures ReadLiteral(Escape(v, backslashes) + rest, backslashes) == Prepend(v, ReadLiteral(rest, backslashes))
  {
    hide ReadLiteral, EscapeByte;
    if v == [] {
      assert [] + rest == rest;
      PrependNothing(ReadLiteral(rest, backslashes));
    } else {
      var init, last := v[..|v| - 1], v[|v| - 1];
      var tail := EscapeByte(last, backslashes) + rest;
      assert Escape(v, backslashes) + rest == Escape(init, backslashes) + tail;
      ReadEscaped(init, tail, backslashes);
      ReadOne(last, rest, backslashes);
      PrependTwice(init, [last], ReadLiteral(rest, backslashes));
      assert init + [last] == v;
    }
  }

  lemma PrependNothing(read: Option<(bytes, bytes)>)
    ensures Prepend([], read) == read
  {
    if read.Some? {
      assert [] + read.value.0 == read.value.0;
    }
  }

  lemma PrependTwice(a: bytes, b: bytes, read: Option<(bytes, bytes)>)
    ensures Prepend(a, Prepend(b, read)) == Prepend(a + b, read)
  {
    if read.Some? {
      assert a + (b + read.value.0) == a + b + read.value.0;
    }
  }

  /**
   Every escaped string is read back as it was, in both modes, exactly when the literal
   is not followed by another quote.
   */
  lemma LiteralRoundTrip(v: bytes, rest: bytes, backslashes: bool)
    ensures ReadLiteral(Escape(v, backslashes) + [QUOTE] + rest, backslashes) == Some((v, rest))
            <==> (rest == [] || rest[0] != QUOTE)
  {
    var after := [QUOTE] + rest;
    assert Escape(v, backslashes) + [QUOTE] + rest == Escape(v, backslashes) + after;
    ReadEscaped(v, after, backslashes);
    assert v + [] == v;
    assert after[1..] == rest;
    if rest != [] && rest[0] == QUOTE && ReadLiteral(after, backslashes).Some? {
      assert |ReadLiteral(after, backslashes).value.0| > 0;
    }
  }

  /** Writes v, escaped, from start on. */
  method EscapeAt(arr: array<byte>, start: nat, v: bytes, backslashes: bool) returns (pos: nat)
    requires start + 2 * |v| <= arr.Length
    modifies arr
    ensures start <= pos <= start + 2 * |v| && arr[start..pos] == Escape(v, backslashes)
    ensures forall k :: 0 <= k < start ==> arr[k] == old(arr[k])
  {
    hide Escape, EscapeByte;
    pos := start;
    EscapeNothing(backslashes);
    for i := 0 to |v|
      invariant start <= pos <= start + 2 * i
      invariant arr[start..pos] == Escape(v[..i], backslashes)
      invariant forall k :: 0 <= k < start ==> arr[k] == old(arr[k])
    {
      EscapeNext(v, i, backslashes);
      ghost var done, at := arr[start..pos], pos;
      pos := PutEscaped(arr, pos, v[i], backslashes);
      assert arr[start..at] == done;
      assert arr[start..pos] == arr[start..at] + arr[at..pos];
    }
    assert v[..|v|] == v;
  }

  lemma Joined(s: bytes, a: nat, b: nat, c: nat)
    requires a <= b <= c <= |s|
    ensures s[a..c] == s[a..b] + s[b..c]
  {
  }

  /** Escapes v behind the contents of buf; all writes stay inside the 2 * |v| bytes reserved for them. */
  method EscapeInto(buf: ByteSlice, v: bytes, backslashes: bool) returns (r: ByteSlice)
    requires ValidSlice(buf)
    modifies buf.arr
    ensures ValidSlice(r) && ((r.arr == buf.arr && r.off == buf.off) || fresh(r.arr))
    ensures r.arr[r.off..r.off + r.len] == old(buf.arr[buf.off..buf.off + buf.len]) + Escape(v, backslashes)
    ensures forall i :: 0 <= i < buf.off ==> buf.arr[i] == old(buf.arr[i])
  {
    hide Escape;
    var reserved := Reserve(buf, 2 * |v|);
    var start := reserved.off + buf.len;
    ghost var before := reserved.arr[reserved.off..start];
    var pos := EscapeAt(reserved.arr, start, v, backslashes);
    r := reserved.(len := pos - reserved.off);
    assert r.arr[r.off..start] == before;
    Joined(r.arr[..], r.off, start, pos);
    assert r.arr[..][r.off..pos] == r.arr[r.off..pos] && r.arr[..][r.off..start] == before;
  }

  method PutEscaped(arr: array<byte>, pos: nat, c: byte, backslashes: bool) returns (next: nat)
    requires pos + 2 <= arr.Length
    modifies arr
    ensures pos < next <= pos + 2 && arr[pos..next] == EscapeByte(c, backslashes)
    ensures forall k :: 0 <= k < pos ==> arr[k] == old(arr[k])
  {
    next := pos + 2;
    if backslashes {
      match EscapeLetter(c) {
        case Some(letter) =>
          arr[pos], arr[pos + 1] := BACKSLASH, letter;
        case None =>
          arr[pos] := c;
          next := pos + 1;
      }
    } else if c == QUOTE {
      arr[pos], arr[pos + 1] := QUOTE, QUOTE;
    } else {
      arr[pos] := c;
      next := pos + 1;
    }
  }

  /** The slice lengthened by extra bytes, moved to a larger array if it has to be. */
  method Reserve(buf: ByteSlice, extra: nat) returns (r: ByteSlice)
    requires ValidSlice(buf)
    ensures ValidSlice(r) && r.len == buf.len + extra
    ensures r == buf.(len := buf.len + extra) || (fresh(r.arr) && r.off == 0 && r.arr.Length == 2 * buf.len + extra)
    ensures r.arr[r.off..r.off + buf.len] == buf.arr[buf.off..buf.off + buf.len]
  {
    r := buf.(len := buf.len + extra);
    if buf.arr.Length - buf.off < buf.len + extra {
      var arr := new byte[2 * buf.len + extra](_ => 0);
      forall i | 0 <= i < buf.len {
        arr[i] := buf.arr[buf.off + i];
      }
      r := ByteSlice(arr, 0, buf.len + extra);
    }
  }

  lemma EscapeNothing(backslashes: bool)
    ensures Escape([], backslashes) == []
  {
  }

  lemma EscapeNext(v: bytes, i: nat, backslashes: bool)
    requires i < |v|
    ensures Escape(v[..i + 1], backslashes) == Escape(v[..i], backslashes) + EscapeByte(v[i], backslashes)
  {
    assert v[..i + 1][..i] == v[..i];
  }

  // ---------------------------------------------------------------- the whole query

  function Marks(query: bytes): nat {
    if query == [] then 0 else (if query[0] == MARK then 1 else 0) + Marks(query[1..])
  }

  function SignedDecimal(n: int): bytes {
    if n < 0 then [0x2d] + Decimal(-n) else Decimal(n)
  }

  const NULL_TEXT: bytes := [0x4e, 0x55, 0x4c, 0x4c]

  const BINARY_PREFIX: bytes := [0x5f, 0x62, 0x69, 0x6e, 0x61, 0x72, 0x79]

  predicate IsNull(a: Arg) {
    a.Nil? || a.NilSlice?
  }

  /** The literal for an argument. */
  function Literal(a: Arg, backslashes: bool): bytes {
    match a
    case Int(value) => SignedDecimal(value)
    case Float(text) => text
    case Bool(on) => [if on then 0x31 else 0x30]
    case Time(text) => [QUOTE] + text + [QUOTE]
    case Slice(data) => BINARY_PREFIX + [QUOTE] + Escape(data, backslashes) + [QUOTE]
    case Str(data) => [QUOTE] + Escape(data, backslashes) + [QUOTE]
    case _ => NULL_TEXT
  }

  /** The query with its k-th placeholder replaced by the literal for the k-th argument. */
  function Interpolated(query: bytes, args: seq<Arg>, backslashes: bool): bytes
    requires Marks(query) == |args|
  {
    if query == [] then []
    else if query[0] == MARK then Literal(args[0], backslashes) + Interpolated(query[1..], args[1..], backslashes)
    else [query[0]] + Interpolated(query[1..], args, backslashes)
  }

  /**
   No argument is of an unsupported kind, and the text up to any argument other than an untyped nil
   leaves room for a packet header; used bytes come before the query.
   */
  predicate Fits(query: bytes, args: seq<Arg>, used: nat, limit: int, backslashes: bool)
    requires Marks(query) == |args|
    decreases |query|
  {
    if query == [] then true
    else if query[0] == MARK then
      var now := used + |Literal(args[0], backslashes)|;
      !args[0].Unsupported? && (args[0].Nil? || now + 4 <= limit) && Fits(query[1..], args[1..], now, limit, backslashes)
    else Fits(query[1..], args, used + 1, limit, backslashes)
  }

  lemma {:induction false} MarksAppend(a: bytes, b: bytes)
    ensures Marks(a + b) == Marks(a) + Marks(b)
  {
    if a == [] {
      assert a + b == b;
    } else {
      MarksAppend(a[1..], b);
      assert (a + b)[1..] == a[1..] + b;
    }
  }

  lemma {:induction false} InterpolatedAppend(a: bytes, b: bytes, argsA: seq<Arg>, argsB: seq<Arg>, backslashes: bool)
    requires Marks(a) == |argsA| && Marks(b) == |argsB|
    ensures Marks(a + b) == |argsA + argsB|
    ensures Interpolated(a + b, argsA + argsB, backslashes) ==
            Interpolated(a, argsA, backslashes) + Interpolated(b, argsB, backslashes)
  {
    hide Literal;
    MarksAppend(a, b);
    if a == [] {
      assert a + b == b && argsA + argsB == argsB;
    } else {
      assert (a + b)[1..] == a[1..] + b;
      if a[0] == MARK {
        assert (argsA + argsB)[1..] == argsA[1..] + argsB;
        InterpolatedAppend(a[1..], b, argsA[1..], argsB, backslashes);
      } else {
        InterpolatedAppend(a[1..], b, argsA, argsB, backslashes);
      }
    }
  }

  /** What a query and its arguments come to begins with a quote: one of its own, or that of a string or time. */
  predicate StartsQuoted(query: bytes, args: seq<Arg>)
    requires Marks(query) == |args|
  {
    query != [] &&
    if query[0] != MARK then query[0] == QUOTE
    else if args[0].Float? then
      if args[0].text == [] then StartsQuoted(query[1..], args[1..]) else args[0].text[0] == QUOTE
    else args[0].Str? || args[0].Time?
  }

  lemma {:induction false} QuotedStart(query: bytes, args: seq<Arg>, backslashes: bool)
    requires Marks(query) == |args|
    ensures var text := Interpolated(query, args, backslashes);
            text != [] && text[0] == QUOTE <==> StartsQuoted(query, args)
    decreases |query|
  {
    hide Escape;
    if query != [] && query[0] == MARK {
      LiteralCases(args[0], backslashes);
      if args[0].Float? && args[0].text == [] {
        QuotedStart(query[1..], args[1..], backslashes);
        assert [] + Interpolated(query[1..], args[1..], backslashes) == Interpolated(query[1..], args[1..], backslashes);
      } else {
        LiteralStart(args[0], backslashes);
      }
    }
  }

  lemma LiteralStart(a: Arg, backslashes: bool)
    requires a.Float? ==> a.text != []
    ensures var l := Literal(a, backslashes);
            l != [] && (l[0] == QUOTE <==> a.Str? || a.Time? || (a.Float? && a.text[0] == QUOTE))
  {
    hide Escape;
    if a.Int? {
      DecimalStart(if a.value < 0 then -a.value else a.value);
    }
  }

  lemma {:induction false} DecimalStart(n: nat)
    ensures Decimal(n) != [] && 0x30 <= Decimal(n)[0] <= 0x39
  {
    if n >= 10 {
      DecimalStart(n / 10);
    }
  }

  /**
   Where a placeholder stands, the text reads back as the argument: after the opening quote of the
   literal for data, a server reads data and goes on with the rest, exactly when the query does not go
   on with a quote, nor with the placeholder of another string or time.
   */
  lemma PlaceholderRoundTrip(before: bytes, after: bytes, argsBefore: seq<Arg>, argsAfter: seq<Arg>, arg: Arg,
                             backslashes: bool)
    requires Marks(before) == |argsBefore| && Marks(after) == |argsAfter| && (arg.Str? || arg.Slice?)
    ensures Marks(before + [MARK] + after) == |argsBefore + [arg] + argsAfter|
    ensures var text := Interpolated(before + [MARK] + after, argsBefore + [arg] + argsAfter, backslashes);
            var at := |Interpolated(before, argsBefore, backslashes)| + (if arg.Slice? then |BINARY_PREFIX| else 0);
            && at < |text| && text[at] == QUOTE
            && (ReadLiteral(text[at + 1..], backslashes) == Some((arg.data, Interpolated(after, argsAfter, backslashes)))
                <==> !StartsQuoted(after, argsAfter))
  {
    hide Escape, ReadLiteral, Interpolated, Literal, StartsQuoted;
    var lead := Interpolated(before, argsBefore, backslashes);
    var rest := Interpolated(after, argsAfter, backslashes);
    OneMark(arg, backslashes);
    InterpolatedAppend(before, [MARK], argsBefore, [arg], backslashes);
    InterpolatedAppend(before + [MARK], after, argsBefore + [arg], argsAfter, backslashes);
    QuotedStart(after, argsAfter, backslashes);
    LiteralCases(arg, backslashes);
    CutLiteral(lead, if arg.Slice? then BINARY_PREFIX else [], Escape(arg.data, backslashes), rest);
    LiteralRoundTrip(arg.data, rest, backslashes);
  }

  /** What stands behind the opening quote of a literal. */
  lemma CutLiteral(lead: bytes, open: bytes, body: bytes, rest: bytes)
    ensures var text, at := lead + (open + [QUOTE] + body + [QUOTE]) + rest, |lead| + |open|;
            at < |text| && text[at] == QUOTE && text[at + 1..] == body + [QUOTE] + rest
    ensures lead + ([QUOTE] + body + [QUOTE]) + rest == lead + ([] + [QUOTE] + body + [QUOTE]) + rest
  {
    assert [] + [QUOTE] + body + [QUOTE] == [QUOTE] + body + [QUOTE];
  }

  lemma OneMark(arg: Arg, backslashes: bool)
    ensures Marks([MARK]) == 1 && Interpolated([MARK], [arg], backslashes) == Literal(arg, backslashes)
  {
    assert [MARK][1..] == [] && [arg][1..] == [];
    assert Marks([]) == 0;
    assert Literal(arg, backslashes) + [] == Literal(arg, backslashes);
  }

  datatype Result = Text(sql: bytes) | Skip | InvalidConn

  /** The position of the first byte c in s from position `from` on, or -1. */
  method IndexByte(s: bytes, from: nat, c: byte) returns (at: int)
    requires from <= |s|
    ensures at == -1 ==> c !in s[from..]
    ensures at != -1 ==> from <= at < |s| && s[at] == c && c !in s[from..at]
  {
    for i := from to |s|
      invariant c !in s[from..i]
    {
      if s[i] == c {
        return i;
      }
    }
    return -1;
  }

  lemma LiteralCases(a: Arg, backslashes: bool)
    ensures a.Int? ==> Literal(a, backslashes) == SignedDecimal(a.value)
    ensures a.Float? ==> Literal(a, backslashes) == a.text
    ensures a.Bool? ==> Literal(a, backslashes) == [if a.on then 0x31 else 0x30]
    ensures a.Time? ==> Literal(a, backslashes) == [QUOTE] + a.text + [QUOTE]
    ensures a.Slice? ==> Literal(a, backslashes) == BINARY_PREFIX + [QUOTE] + Escape(a.data, backslashes) + [QUOTE]
    ensures a.Str? ==> Literal(a, backslashes) == [QUOTE] + Escape(a.data, backslashes) + [QUOTE]
    ensures IsNull(a) || a.Unsupported? ==> Literal(a, backslashes) == NULL_TEXT
  {
  }

  /** Some query text and the literal for the argument behind it. */
  method AppendPiece(buf: ByteSlice, plain: bytes, arg: Arg, backslashes: bool) returns (r: ByteSlice)
    requires ValidSlice(buf)
    modifies buf.arr
    ensures ValidSlice(r) && (r.arr == buf.arr || fresh(r.arr))
    ensures r.arr[r.off..r.off + r.len] == old(buf.arr[buf.off..buf.off + buf.len]) + (plain + Literal(arg, backslashes))
  {
    hide Literal;
    ghost var before := buf.arr[buf.off..buf.off + buf.len];
    r := Append(buf, plain);
    r := AppendLiteral(r, arg, backslashes);
    assert before + plain + Literal(arg, backslashes) == before + (plain + Literal(arg, backslashes));
  }

  /** The literal for an argument behind the contents of buf. */
  method AppendLiteral(buf: ByteSlice, arg: Arg, backslashes: bool) returns (r: ByteSlice)
    requires ValidSlice(buf)
    modifies buf.arr
    ensures ValidSlice(r) && ((r.arr == buf.arr && r.off == buf.off) || fresh(r.arr))
    ensures r.arr[r.off..r.off + r.len] == old(buf.arr[buf.off..buf.off + buf.len]) + Literal(arg, backslashes)
  {
    hide Escape, SignedDecimal, Literal;
    LiteralCases(arg, backslashes);
    if arg.Slice? {
      r := AppendQuoted(buf, BINARY_PREFIX + [QUOTE], arg.data, backslashes);
    } else if arg.Str? {
      r := AppendQuoted(buf, [QUOTE], arg.data, backslashes);
    } else {
      var plain :=
        if arg.Int? then SignedDecimal(arg.value)
        else if arg.Float? then arg.text
        else if arg.Bool? then [if arg.on then 0x31 else 0x30]
        else if arg.Time? then [QUOTE] + arg.text + [QUOTE]
        else NULL_TEXT;
      r := Append(buf, plain);
    }
  }

  method AppendQuoted(buf: ByteSlice, open: bytes, data: bytes, backslashes: bool) returns (r: ByteSlice)
    requires ValidSlice(buf)
    modifies buf.arr
    ensures ValidSlice(r) && ((r.arr == buf.arr && r.off == buf.off) || fresh(r.arr))
    ensures r.arr[r.off..r.off + r.len] ==
            old(buf.arr[buf.off..buf.off + buf.len]) + (open + Escape(data, backslashes) + [QUOTE])
  {
    hide Escape;
    ghost var before := buf.arr[buf.off..buf.off + buf.len];
    r := Append(buf, open);
    r := EscapeInto(r, data, backslashes);
    ghost var now := r.arr[r.off..r.off + r.len];
    assert now == before + open + Escape(data, backslashes);
    r := Append(r, [QUOTE]);
    assert before + open + Escape(data, backslashes) + [QUOTE] == before + (open + Escape(data, backslashes) + [QUOTE]);
  }

  /** Text without a placeholder stands for itself. */
  lemma {:induction false} PlainText(text: bytes, query: bytes, args: seq<Arg>, used: nat, limit: int, backslashes: bool)
    requires MARK !in text
    ensures Marks(text + query) == Marks(query)
    ensures Marks(query) == |args| ==>
      Interpolated(text + query, args, backslashes) == text + Interpolated(query, args, backslashes)
      && (Fits(text + query, args, used, limit, backslashes) <==> Fits(query, args, used + |text|, limit, backslashes))
  {
    if text == [] {
      assert text + query == query;
    } else {
      var all := text + query;
      assert all[1..] == text[1..] + query && all[0] == text[0] != MARK;
      PlainText(text[1..], query, args, used + 1, limit, backslashes);
      assert [text[0]] + text[1..] == text;
    }
  }

  lemma MarkFirst(query: bytes, args: seq<Arg>, used: nat, limit: int, backslashes: bool)
    requires query != [] && query[0] == MARK && Marks(query) == |args|
    ensures args != [] && Marks(query[1..]) == |args| - 1
    ensures Interpolated(query, args, backslashes) == Literal(args[0], backslashes) + Interpolated(query[1..], args[1..], backslashes)
    ensures Fits(query, args, used, limit, backslashes) <==>
            var now := used + |Literal(args[0], backslashes)|;
            !args[0].Unsupported? && (args[0].Nil? || now + 4 <= limit) && Fits(query[1..], args[1..], now, limit, backslashes)
  {
  }

  lemma NoText(backslashes: bool, used: nat, limit: int)
    ensures Marks([]) == 0 && Interpolated([], [], backslashes) == [] && Fits([], [], used, limit, backslashes)
  {
  }

  lemma Regroup(a: bytes, b: bytes, c: bytes)
    ensures a + (b + c) == a + b + c
  {
  }

  /** What remains up to and with the first placeholder, at position q. */
  lemma OnePiece(query: bytes, q: nat, args: seq<Arg>, used: nat, limit: int, backslashes: bool)
    requires q < |query| && query[q] == MARK && MARK !in query[..q] && Marks(query) == |args|
    ensures args != [] && Marks(query[q + 1..]) == |args| - 1
    ensures var piece := query[..q] + Literal(args[0], backslashes);
            && Interpolated(query, args, backslashes) == piece + Interpolated(query[q + 1..], args[1..], backslashes)
            && (Fits(query, args, used, limit, backslashes) <==>
                 !args[0].Unsupported? && (args[0].Nil? || used + |piece| + 4 <= limit)
                 && Fits(query[q + 1..], args[1..], used + |piece|, limit, backslashes))
  {
    hide Marks, Interpolated, Fits, Literal;
    var plain, rest := query[..q], query[q..];
    assert query == plain + rest && rest[1..] == query[q + 1..];
    PlainText(plain, rest, args, used, limit, backslashes);
    MarkFirst(rest, args, used + q, limit, backslashes);
    Regroup(plain, Literal(args[0], backslashes), Interpolated(query[q + 1..], args[1..], backslashes));
  }

  /** What remains when there is no placeholder left. */
  lemma LastPiece(query: bytes, args: seq<Arg>, used: nat, limit: int, backslashes: bool)
    requires MARK !in query && Marks(query) == |args|
    ensures args == [] && Interpolated(query, args, backslashes) == query && Fits(query, args, used, limit, backslashes)
  {
    hide Marks, Interpolated, Fits;
    assert query + [] == query;
    PlainText(query, [], args, used, limit, backslashes);
    NoText(backslashes, used + |query|, limit);
  }

  /** The query has been replaced up to i, using the first argPos arguments and giving text. */
  predicate Progress(query: bytes, args: seq<Arg>, limit: int, backslashes: bool, i: nat, argPos: nat, text: bytes) {
    && i <= |query| && argPos <= |args| && Marks(query) == |args| && Marks(query[i..]) == |args[argPos..]|
    && Interpolated(query, args, backslashes) == text + Interpolated(query[i..], args[argPos..], backslashes)
    && (Fits(query, args, 0, limit, backslashes) <==> Fits(query[i..], args[argPos..], |text|, limit, backslashes))
  }

  lemma ProgressStart(query: bytes, args: seq<Arg>, limit: int, backslashes: bool)
    requires Marks(query) == |args|
    ensures Progress(query, args, limit, backslashes, 0, 0, [])
  {
    hide Marks, Interpolated, Fits;
    assert query[0..] == query && args[0..] == args;
  }

  lemma ProgressPiece(query: bytes, args: seq<Arg>, limit: int, backslashes: bool, i: nat, argPos: nat, text: bytes, q: nat)
    requires Progress(query, args, limit, backslashes, i, argPos, text)
    requires i <= q < |query| && query[q] == MARK && MARK !in query[i..q]
    ensures argPos < |args| && Marks(query) == |args|
    ensures var arg, more := args[argPos], text + (query[i..q] + Literal(args[argPos], backslashes));
            if arg.Unsupported? || (!arg.Nil? && |more| + 4 > limit) then !Fits(query, args, 0, limit, backslashes)
            else Progress(query, args, limit, backslashes, q + 1, argPos + 1, more)
  {
    hide Marks, Interpolated, Fits, Literal;
    var rest, later := query[i..], args[argPos..];
    assert rest[..q - i] == query[i..q];
    OnePiece(rest, q - i, later, |text|, limit, backslashes);
    assert rest[q - i + 1..] == query[q + 1..] && later[1..] == args[argPos + 1..];
    Regroup(text, query[i..q] + Literal(args[argPos], backslashes), Interpolated(query[q + 1..], args[argPos + 1..], backslashes));
  }

  lemma ProgressEnd(query: bytes, args: seq<Arg>, limit: int, backslashes: bool, i: nat, argPos: nat, text: bytes)
    requires Progress(query, args, limit, backslashes, i, argPos, text) && MARK !in query[i..]
    ensures argPos == |args| && Marks(query) == |args|
    ensures Fits(query, args, 0, limit, backslashes)
    ensures Interpolated(query, args, backslashes) == text + query[i..]
  {
    hide Marks, Interpolated, Fits;
    LastPiece(query[i..], args[argPos..], |text|, limit, backslashes);
  }

  method CountMarks(query: bytes) returns (n: nat)
    ensures n == Marks(query)
  {
    n := 0;
    for i := 0 to |query|
      invariant n + Marks(query[i..]) == Marks(query)
    {
      assert query[i..][1..] == query[i + 1..];
      n := n + if query[i] == MARK then 1 else 0;
    }
  }

  /** Replaces the placeholders of a query, or declines; the driver's read buffer serves as scratch memory. */
  method InterpolateParams(buffer: Buffer, query: bytes, args: seq<Arg>, limit: int, backslashes: bool) returns (result: Result)
    requires buffer.Valid()
    modifies buffer.buf
    ensures buffer.Valid()
    ensures result == InvalidConn <==> Marks(query) == |args| && old(buffer.Unread()) != []
    ensures result.Text? <==>
            Marks(query) == |args| && old(buffer.Unread()) == [] && Fits(query, args, 0, limit, backslashes)
    ensures result.Text? ==> result.sql == Interpolated(query, args, backslashes)
  {
    hide Marks, Interpolated, Fits, Literal, Progress;
    var marks := CountMarks(query);
    if marks != |args| {
      return Skip;
    }
    var lent := buffer.TakeCompleteBuffer();
    if lent == null {
      return InvalidConn;
    }
    var buf := ByteSlice(lent, 0, 0);
    ghost var text: bytes := [];
    var argPos, i := 0, 0;
    ProgressStart(query, args, limit, backslashes);
    while i < |query|
      invariant 0 <= i <= |query| && 0 <= argPos
      invariant ValidSlice(buf) && (buf.arr == lent || fresh(buf.arr))
      invariant buf.arr[buf.off..buf.off + buf.len] == text
      invariant Progress(query, args, limit, backslashes, i, argPos, text)
    {
      var q := IndexByte(query, i, MARK);
      if q == -1 {
        break;
      }
      ProgressPiece(query, args, limit, backslashes, i, argPos, text, q);
      var arg := args[argPos];
      if arg.Unsupported? {
        return Skip;
      }
      buf := AppendPiece(buf, query[i..q], arg, backslashes);
      text := text + (query[i..q] + Literal(arg, backslashes));
      i := q + 1;
      argPos := argPos + 1;
      if !arg.Nil? && buf.len + 4 > limit {
        return Skip;
      }
    }
    ProgressEnd(query, args, limit, backslashes, i, argPos, text);
    buf := Append(buf, query[i..]);
    if argPos != |args| {
      return Skip;
    }
    result := Result.Text(buf.arr[buf.off..buf.off + buf.len]);
  }
}
