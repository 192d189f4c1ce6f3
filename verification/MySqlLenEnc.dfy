/**
 Length-encoded integers and strings (section "Protocol::LengthEncodedInteger"),
 and decimal numbers as byte strings.
 */
module MySqlLenEnc {
  import opened Bytes

  const TWO63: int := 0x8000_0000_0000_0000

  /** The signed 64-bit integer with the same low bits as x. */
  function Signed(x: int): (w: int)
    ensures -TWO63 <= w < TWO63
  {
    (x + TWO63) % TWO64 - TWO63
  }

  // A slice that is too short for the width its first byte announces makes the source panic.
  datatype IntRead = IntRead(num: nat, isNull: bool, n: nat) | IntPanic

  datatype StrRead = Str(value: bytes, isNull: bool, n: nat) | Truncated(missing: int) | StrPanic

  datatype Skipped = Skipped(n: int) | SkipTruncated(missing: int) | SkipPanic

  function IntegerWidth(first: byte): nat {
    if first == 0xfc then 3 else if first == 0xfd then 4 else if first == 0xfe then 9 else 1
  }

  function ReadInteger(b: bytes): IntRead {
    if b == [] || b[0] == 0xfb then IntRead(0, true, 1)
    else if |b| < IntegerWidth(b[0]) then IntPanic
    else if b[0] < 0xfc || b[0] == 0xff then IntRead(b[0], false, 1)
    else IntRead(FromLittleEndian(b[1..IntegerWidth(b[0])]), false, IntegerWidth(b[0]))
  }

  function Integer(n: nat): (b: bytes)
    ensures |b| >= 1
  {
    if n <= 250 then [n]
    else if n <= 0xffff then [0xfc] + LittleEndian(n, 2)
    else if n <= 0xff_ffff then [0xfd] + LittleEndian(n, 3)
    else [0xfe] + LittleEndian(n, 8)
  }

  lemma Pow256Values()
    ensures Pow256(2) == 0x1_0000 && Pow256(3) == 0x100_0000 && Pow256(8) == TWO64
  {
    assert Pow256(4) == 256 * Pow256(3);
    assert Pow256(6) == 256 * Pow256(5);
    assert Pow256(7) == 256 * Pow256(6);
  }

  lemma {:induction false} FromLittleEndianBound(b: bytes)
    ensures FromLittleEndian(b) < Pow256(|b|)
  {
    if b != [] {
      FromLittleEndianBound(b[1..]);
      var b0: int := b[0];
      assert FromLittleEndian(b) == b0 + 256 * FromLittleEndian(b[1..]);
    }
  }

  /** Every 64-bit number is read back, whatever follows it, with its exact width. */
  lemma IntegerRoundTrip(n: nat, rest: bytes)
    requires n < TWO64
    ensures ReadInteger(Integer(n) + rest) == IntRead(n, false, |Integer(n)|)
  {
    hide LittleEndian, FromLittleEndian, Pow256;
    Pow256Values();
    var b := Integer(n) + rest;
    var w := |Integer(n)| - 1;
    if n > 250 {
      LittleEndianRoundTrip(n, w);
      assert b[0] == Integer(n)[0];
      assert b[1..w + 1] == LittleEndian(n, w);
    }
  }

  function ReadString(b: bytes): StrRead {
    match ReadInteger(b)
    case IntPanic => StrPanic
    case IntRead(num, isNull, n) =>
      if num < 1 then Str([], isNull, n)
      else if num + n >= TWO63 then StrPanic
      else if |b| >= num + n then Str(b[n..n + num], false, n + num)
      else Truncated(n + num)
  }

  /** Passes over a string; a length that does not fit a signed integer wraps round unnoticed. */
  function SkipString(b: bytes): Skipped {
    match ReadInteger(b)
    case IntPanic => SkipPanic
    case IntRead(num, _, n) =>
      if num < 1 then Skipped(n)
      else if |b| >= Signed(num + n) then Skipped(Signed(num + n))
      else SkipTruncated(Signed(num + n))
  }

  function String(s: bytes): (b: bytes)
    requires |s| < TWO63 - 9
  {
    Integer(|s|) + s
  }

  lemma StringRoundTrip(s: bytes, rest: bytes)
    requires |s| < TWO63 - 9
    ensures ReadString(String(s) + rest) == Str(s, false, |String(s)|)
  {
    hide Integer;
    IntegerRoundTrip(|s|, s + rest);
    var b, n := String(s) + rest, |Integer(|s|)|;
    assert b == Integer(|s|) + (s + rest);
    IntegerSize(|s|);
    assert b[n..n + |s|] == s;
  }

  lemma IntegerSize(n: nat)
    ensures |Integer(n)| <= 9
  {
  }

  /**
   Skipping a string and reading it agree on every input: on success they consume the same count, and they run
   short together. They part only on lengths of at least 2^63 less the prefix, where reading panics.
   */
  lemma SkipAgrees(b: bytes)
    ensures ReadString(b).Str? ==> SkipString(b) == Skipped(ReadString(b).n)
    ensures ReadString(b).Truncated? ==> SkipString(b) == SkipTruncated(ReadString(b).missing)
    ensures SkipString(b) == SkipPanic ==> ReadString(b) == StrPanic
    ensures SkipString(b) != SkipPanic && ReadString(b) == StrPanic <==>
            ReadInteger(b).IntRead? && ReadInteger(b).num + ReadInteger(b).n >= TWO63
  {
    if ReadInteger(b).IntRead? && ReadInteger(b).num >= 1 {
      var num, n := ReadInteger(b).num, ReadInteger(b).n;
      assert num + n < TWO63 ==> Signed(num + n) == num + n;
    }
  }

  /** One value of a row: a string, or SQL NULL. */
  datatype Value = Null | Text(text: bytes)

  function EncodeValue(v: Value): bytes
    requires v.Text? ==> |v.text| < TWO63 - 9
  {
    if v.Null? then [0xfb] else String(v.text)
  }

  predicate Encodable(values: seq<Value>) {
    forall v :: v in values && v.Text? ==> |v.text| < TWO63 - 9
  }

  function EncodeValues(values: seq<Value>): bytes
    requires Encodable(values)
  {
    if values == [] then [] else EncodeValue(values[0]) + EncodeValues(values[1..])
  }

  lemma ValueRoundTrip(v: Value, rest: bytes)
    requires v.Text? ==> |v.text| < TWO63 - 9
    ensures var read := ReadString(EncodeValue(v) + rest);
            read == Str(if v.Null? then [] else v.text, v.Null?, |EncodeValue(v)|)
  {
    if v.Text? {
      StringRoundTrip(v.text, rest);
    }
  }

  datatype ValuesRead = Values(values: seq<Value>) | ValuesFailed(reason: StrRead)

  function AsValue(read: StrRead): Value
    requires read.Str?
  {
    if read.isNull then Null else Text(read.value)
  }

  /**
   The first count values of a row, or the reason why one of them cannot be read. An exhausted row
   yields one NULL more, whose width already lies outside it.
   */
  function ReadValues(b: bytes, count: nat): ValuesRead {
    if count == 0 then Values([])
    else
      var read := ReadString(b);
      if !read.Str? then ValuesFailed(read)
      else
        var later := if read.n <= |b| then ReadValues(b[read.n..], count - 1)
                     else if count == 1 then Values([])
                     else ValuesFailed(StrPanic);
        if later.ValuesFailed? then later else Values([AsValue(read)] + later.values)
  }

  lemma ReadValuesStep(v: Value, tail: bytes, count: nat)
    requires v.Text? ==> |v.text| < TWO63 - 9
    ensures ReadValues(tail, count).Values? ==>
      ReadValues(EncodeValue(v) + tail, count + 1) == Values([v] + ReadValues(tail, count).values)
  {
    hide ReadString, EncodeValue;
    var b := EncodeValue(v) + tail;
    ValueRoundTrip(v, tail);
    assert b[|EncodeValue(v)|..] == tail;
  }

  /** Any list of values, with NULLs among them, is read back in order, whatever follows it. */
  lemma {:induction false} ValuesRoundTrip(values: seq<Value>, rest: bytes)
    requires Encodable(values)
    ensures ReadValues(EncodeValues(values) + rest, |values|) == Values(values)
  {
    hide EncodeValue;
    if values != [] {
      hide ReadValues;
      assert values[0] in values;
      var tail := EncodeValues(values[1..]) + rest;
      assert EncodeValues(values) + rest == EncodeValue(values[0]) + tail;
      ReadValuesStep(values[0], tail, |values| - 1);
      ValuesRoundTrip(values[1..], rest);
    }
  }

  lemma ReadStringAdvances(b: bytes)
    ensures ReadString(b).Str? ==> 1 <= ReadString(b).n <= |b| + 1
    ensures ReadString(b).Str? && b != [] ==> ReadString(b).n <= |b|
  {
  }

  /** Reads count values off a row with a moving position. */
  method ReadRow(data: bytes, count: nat) returns (dest: seq<Value>, failure: StrRead)
    ensures ReadValues(data, count) == if failure.Str? then Values(dest) else ValuesFailed(failure)
  {
    hide ReadString;
    dest, failure := [], Str([], true, 0);
    var pos: nat := 0;
    for i := 0 to count
      invariant failure.Str?
      invariant var later := if pos <= |data| then ReadValues(data[pos..], count - i)
                             else if count == i then Values([])
                             else ValuesFailed(StrPanic);
                ReadValues(data, count) == if later.ValuesFailed? then later else Values(dest + later.values)
    {
      if pos > |data| {
        failure := StrPanic;
        return;
      }
      ghost var row := data[pos..];
      var read := ReadString(data[pos..]);
      ReadStringAdvances(row);
      if !read.Str? {
        failure := read;
        return;
      }
      if read.n <= |row| {
        assert row[read.n..] == data[pos + read.n..];
        ghost var later := ReadValues(row[read.n..], count - i - 1);
        assert later.Values? ==> dest + ([AsValue(read)] + later.values) == dest + [AsValue(read)] + later.values;
      }
      dest := dest + [AsValue(read)];
      pos := pos + read.n;
    }
  }

  /** The decimal digits of n. */
  function Decimal(n: nat): (s: bytes)
    ensures |s| > 0 && forall d :: d in s ==> 0x30 <= d <= 0x39
  {
    if n < 10 then [0x30 + n] else Decimal(n / 10) + [0x30 + n % 10]
  }

  /** The number a digit string stands for. */
  function DecimalValue(s: bytes): int {
    if s == [] then 0
    else
      var last: int := s[|s| - 1];
      10 * DecimalValue(s[..|s| - 1]) + (last - 0x30) % 256
  }

  lemma {:induction false} DecimalRoundTrip(n: nat)
    ensures DecimalValue(Decimal(n)) == n
  {
    if n >= 10 {
      DecimalRoundTrip(n / 10);
      assert Decimal(n)[..|Decimal(n)| - 1] == Decimal(n / 10);
    }
  }

  function Pow10(k: nat): (p: nat)
    ensures p > 0
  {
    if k == 0 then 1 else 10 * Pow10(k - 1)
  }

  lemma {:induction false} DecimalSize(n: nat, k: nat)
    requires 0 < k && n < Pow10(k)
    ensures |Decimal(n)| <= k
  {
    if n >= 10 {
      assert Pow10(1) == 10;
      DecimalSize(n / 10, k - 1);
    }
  }

  /** Fills an array of twenty bytes from its end; the index stays inside it for every 64-bit n. */
  method Uint64ToString(n: nat) returns (s: bytes)
    requires n < TWO64
    ensures s == Decimal(n)
  {
    var a := new byte[20](_ => 0);
    var i: int := 20;
    var m: nat := n;
    assert n < Pow10(20) by {
      assert Pow10(5) == 100000 && Pow10(10) == Pow10(5) * 100000;
      assert Pow10(15) == Pow10(10) * 100000 && Pow10(20) == Pow10(15) * 100000;
    }
    while m >= 10
      invariant 1 <= i <= 20 && m < Pow10(i)
      invariant Decimal(n) == Decimal(m) + a[i..]
    {
      assert Pow10(i) == 10 * Pow10(i - 1);
      assert Pow10(0) == 1;
      i := i - 1;
      var q := m / 10;
      ghost var later := a[i + 1..];
      a[i] := (m - q * 10) + 0x30;
      assert a[i..] == [m % 10 + 0x30] + later;
      assert Decimal(m) + later == Decimal(q) + a[i..];
      m := q;
    }
    i := i - 1;
    ghost var later := a[i + 1..];
    a[i] := m + 0x30;
    assert a[i..] == Decimal(m) + later;
    s := a[i..];
  }

  lemma SignedStep(x: int, d: int)
    ensures Signed(Signed(x) * 10 + d) == Signed(10 * x + d)
  {
    var k := (x + TWO63) / TWO64;
    assert Signed(x) == x - k * TWO64;
    SignedShift(10 * x + d, -10 * k);
    assert Signed(x) * 10 + d == 10 * x + d + -10 * k * TWO64;
  }

  lemma SignedShift(x: int, k: int)
    ensures Signed(x + k * TWO64) == Signed(x)
  {
    var y := x + TWO63;
    assert (y + k * TWO64) % TWO64 == y % TWO64;
  }

  /** Folds the digits in a signed 64-bit integer. */
  method StringToInt(b: bytes) returns (val: int)
    ensures val == Signed(DecimalValue(b))
  {
    val := 0;
    for i := 0 to |b|
      invariant val == Signed(DecimalValue(b[..i]))
    {
      var digit: int := b[i];
      assert b[..i + 1][..i] == b[..i];
      SignedStep(DecimalValue(b[..i]), (digit - 0x30) % 256);
      val := Signed(Signed(val * 10) + (digit - 0x30) % 256);
      SignedAdd(DecimalValue(b[..i]), (digit - 0x30) % 256);
    }
    assert b[..|b|] == b;
  }

  lemma SignedAdd(x: int, d: int)
    ensures Signed(Signed(Signed(x) * 10) + d) == Signed(Signed(x) * 10 + d)
  {
    var y := Signed(x) * 10;
    var k := (y + TWO63) / TWO64;
    assert Signed(y) == y - k * TWO64;
    SignedShift(y + d, -k);
  }

  /** Printing and reading a number gives it back exactly when it fits a signed 64-bit integer. */
  method DecimalThereAndBack(n: nat) returns (val: int)
    requires n < TWO64
    ensures val == n <==> n < TWO63
  {
    var s := Uint64ToString(n);
    val := StringToInt(s);
    DecimalRoundTrip(n);
  }
}
