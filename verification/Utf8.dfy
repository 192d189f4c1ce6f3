/**
 UTF-8 as Go's unicode/utf8 package reads and writes it: an ill-formed byte
 decodes to the replacement rune and consumes one byte.
 */
module Utf8 {
  import opened Bytes

  const RUNE_ERROR: int := 0xFFFD

  datatype Decoded = Decoded(rune: int, width: nat)

  predicate ValidRune(r: int) {
    0 <= r < 0xD800 || 0xE000 <= r <= 0x10FFFF
  }

  /** Length announced by a leading byte; 0 when no sequence starts with it. */
  function SequenceLength(lead: byte): nat {
    if lead < 0x80 then 1
    else if lead < 0xC2 then 0
    else if lead < 0xE0 then 2
    else if lead < 0xF0 then 3
    else if lead < 0xF5 then 4
    else 0
  }

  /** Whether `second` may follow `lead`: rules out overlong forms, surrogates and runes past 0x10FFFF. */
  predicate SecondOk(lead: byte, second: byte) {
    (if lead == 0xE0 then 0xA0 else if lead == 0xF0 then 0x90 else 0x80) <= second
    <= (if lead == 0xED then 0x9F else if lead == 0xF4 then 0x8F else 0xBF)
  }

  predicate Continuation(b: byte) {
    0x80 <= b <= 0xBF
  }

  /** Six more bits, taken from a continuation byte. */
  function Shift(r: int, b: byte): int {
    r * 0x40 + (b as int - 0x80)
  }

  function Decode(s: bytes): (d: Decoded)
    requires s != []
    ensures 1 <= d.width <= 4 && d.width <= |s|
    ensures s[0] < 0x80 ==> d == Decoded(s[0], 1)
    ensures s[0] >= 0x80 ==> d.rune >= 0x80
    ensures forall i :: 0 <= i < d.width && s[0] >= 0x80 ==> s[i] >= 0x80
    ensures d.width > 1 ==> ValidRune(d.rune)
  {
    var bad := Decoded(RUNE_ERROR, 1);
    var n := SequenceLength(s[0]);
    if n == 0 || |s| < n then bad
    else if n == 1 then Decoded(s[0], 1)
    else if !SecondOk(s[0], s[1]) then bad
    else if n == 2 then Decoded(Shift(s[0] as int - 0xC0, s[1]), 2)
    else if !Continuation(s[2]) then bad
    else if n == 3 then Decoded(Shift(Shift(s[0] as int - 0xE0, s[1]), s[2]), 3)
    else if !Continuation(s[3]) then bad
    else Decoded(Shift(Shift(Shift(s[0] as int - 0xF0, s[1]), s[2]), s[3]), 4)
  }

  function Encode(r: int): (b: bytes)
    ensures 1 <= |b| <= 4
  {
    if 0 <= r < 0x80 then [r]
    else if 0 <= r < 0x800 then [0xC0 + r / 0x40, 0x80 + r % 0x40]
    else if !ValidRune(r) then [0xEF, 0xBF, 0xBD]
    else if r < 0x10000 then [0xE0 + r / 0x1000, 0x80 + r / 0x40 % 0x40, 0x80 + r % 0x40]
    else [0xF0 + r / 0x40000, 0x80 + r / 0x1000 % 0x40, 0x80 + r / 0x40 % 0x40, 0x80 + r % 0x40]
  }

  function EncodeAll(rs: seq<int>): bytes {
    if rs == [] then [] else Encode(rs[0]) + EncodeAll(rs[1..])
  }

  /** Whether s starts with an ill-formed sequence. */
  predicate Broken(s: bytes)
    requires s != []
  {
    s[0] >= 0x80 && Decode(s).width == 1
  }

  predicate Valid(s: bytes) {
    s == [] || (!Broken(s) && Valid(s[Decode(s).width..]))
  }

  lemma Unshift(r: int, b: byte)
    requires r >= 0 && Continuation(b)
    ensures Shift(r, b) / 0x40 == r && 0x80 + Shift(r, b) % 0x40 == b
  {
  }

  lemma EncodeDecode3(s: bytes)
    requires |s| >= 3 && Decode(s).width == 3
    ensures Encode(Decode(s).rune) == s[..3]
  {
    var r1 := Shift(s[0] as int - 0xE0, s[1]);
    var r := Shift(r1, s[2]);
    Unshift(s[0] as int - 0xE0, s[1]);
    Unshift(r1, s[2]);
    assert r / 0x1000 == r / 0x40 / 0x40;
    assert 0x800 <= r < 0x10000;
    assert s[..3] == [s[0], s[1], s[2]];
  }

  lemma EncodeDecode4(s: bytes)
    requires |s| >= 4 && Decode(s).width == 4
    ensures Encode(Decode(s).rune) == s[..4]
  {
    var r1 := Shift(s[0] as int - 0xF0, s[1]);
    var r2 := Shift(r1, s[2]);
    var r := Shift(r2, s[3]);
    Unshift(s[0] as int - 0xF0, s[1]);
    Unshift(r1, s[2]);
    Unshift(r2, s[3]);
    assert r / 0x1000 == r / 0x40 / 0x40;
    assert r / 0x40000 == r / 0x40 / 0x40 / 0x40;
    assert 0x10000 <= r;
    assert s[..4] == [s[0], s[1], s[2], s[3]];
  }

  /** Writing back a decoded rune restores its bytes, unless they were ill-formed: then it is longer. */
  lemma EncodeDecode(s: bytes)
    requires s != []
    ensures var d := Decode(s);
            if Broken(s) then |Encode(d.rune)| == 3 else Encode(d.rune) == s[..d.width]
  {
    var d := Decode(s);
    if d.width == 1 {
      assert s[..1] == [s[0]];
    } else if d.width == 2 {
      Unshift(s[0] as int - 0xC0, s[1]);
      assert s[..2] == [s[0], s[1]];
    } else if d.width == 3 {
      EncodeDecode3(s);
    } else {
      EncodeDecode4(s);
    }
  }

  /** Decoding looks at no more than the run of bytes past ASCII, cut after four. */
  lemma DecodeLocal(s: bytes, t: bytes, k: nat)
    requires 1 <= k <= 4 && k <= |s| && k <= |t|
    requires forall i :: 0 <= i < k ==> s[i] == t[i] >= 0x80
    requires k < 4 ==> (k < |s| ==> s[k] < 0x80) && (k < |t| ==> t[k] < 0x80)
    ensures Decode(s) == Decode(t)
  {
  }
}
