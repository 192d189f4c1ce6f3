/**
 Executing a prepared statement (sections "COM_STMT_EXECUTE" and "COM_STMT_SEND_LONG_DATA"): long
 arguments are sent ahead in chunks, the others travel in the packet itself behind a bitmap of the
 NULLs and a list of types. A server that follows the protocol gets all arguments back.
 */
module MySqlExecute {
  import opened Bytes
  import opened MySqlLenEnc
  import opened MySqlBuffer
  import opened MySqlPackets
  import opened Slices
  import opened Wrappers

  const COM_STMT_EXECUTE: byte := 0x17
  const COM_STMT_SEND_LONG_DATA: byte := 0x18

  const TYPE_TINY: byte := 0x01
  const TYPE_DOUBLE: byte := 0x05
  const TYPE_NULL: byte := 0x06
  const TYPE_LONG_LONG: byte := 0x08
  const TYPE_STRING: byte := 0xfe

  // A float is given by its bits, a time by its text.
  datatype Arg =
    | Nil
    | Int(value: int)
    | Float(bits: nat)
    | Bool(on: bool)
    | NilSlice
    | Slice(data: bytes)
    | Str(data: bytes)
    | Time(text: bytes)
    | Unsupported

  predicate ValidArg(a: Arg) {
    match a
    case Int(value) => -TWO63 <= value < TWO63
    case Float(bits) => bits < TWO64
    case Slice(data) => |data| < TWO63 - 9
    case Str(data) => |data| < TWO63 - 9
    case Time(text) => |text| <= 64
    case _ => true
  }

  predicate ValidArgs(args: seq<Arg>) {
    forall a :: a in args ==> ValidArg(a)
  }

  predicate IsNull(a: Arg) {
    a.Nil? || a.NilSlice?
  }

  /** Arguments of this size or more are sent ahead. */
  predicate IsLong(a: Arg, threshold: nat) {
    (a.Slice? || a.Str?) && |a.data| >= threshold
  }

  function TypeOf(a: Arg): byte {
    match a
    case Int(_) => TYPE_LONG_LONG
    case Float(_) => TYPE_DOUBLE
    case Bool(_) => TYPE_TINY
    case Slice(_) => TYPE_STRING
    case Str(_) => TYPE_STRING
    case Time(_) => TYPE_STRING
    case _ => TYPE_NULL
  }

  function Unsigned(x: int): nat {
    x % TWO64
  }

  /** What an argument contributes to the packet itself. */
  function Inline(a: Arg, threshold: nat): bytes
    requires ValidArg(a)
  {
    match a
    case Int(value) => LittleEndian(Unsigned(value), 8)
    case Float(bits) => LittleEndian(bits, 8)
    case Bool(on) => [if on then 1 else 0]
    case Slice(data) => if |data| < threshold then String(data) else []
    case Str(data) => if |data| < threshold then String(data) else []
    case Time(text) => String(text)
    case _ => []
  }

  function Inlines(args: seq<Arg>, threshold: nat): bytes
    requires ValidArgs(args)
  {
    if args == [] then [] else Inlines(args[..|args| - 1], threshold) + Inline(args[|args| - 1], threshold)
  }

  function Types(args: seq<Arg>): (b: bytes)
    ensures |b| == 2 * |args|
  {
    if args == [] then [] else Types(args[..|args| - 1]) + [TypeOf(args[|args| - 1]), 0]
  }

  function Bit(args: seq<Arg>, i: nat): (b: nat)
    ensures b < 2
  {
    if i < |args| && IsNull(args[i]) then 1 else 0
  }

  function Pow2(k: nat): nat {
    if k == 0 then 1 else 2 * Pow2(k - 1)
  }

  /** Bits for `width` arguments from position `from` on, the first one lowest. */
  function Bits(args: seq<Arg>, from: nat, width: nat): (n: nat)
    ensures n < Pow2(width)
    decreases width
  {
    if width == 0 then 0 else Bit(args, from) + 2 * Bits(args, from + 1, width - 1)
  }

  function MaskByte(args: seq<Arg>, j: nat): byte {
    assert Pow2(8) == 256 by { assert Pow2(4) == 16; }
    Bits(args, 8 * j, 8)
  }

  /** The bitmap of the NULLs, one bit an argument, in a given number of bytes. */
  function Mask(args: seq<Arg>, size: nat): (m: bytes)
    ensures |m| == size
  {
    seq(size, j requires 0 <= j < size => MaskByte(args, j))
  }

  function MaskSize(count: nat): nat {
    (count + 7) / 8
  }

  function Prefix(id: nat): (b: bytes)
    ensures |b| == 10
  {
    [COM_STMT_EXECUTE] + LittleEndian(id, 4) + [0, 1, 0, 0, 0]
  }

  /** The payload of the packet that executes a statement. */
  function Execute(args: seq<Arg>, id: nat, threshold: nat): bytes
    requires ValidArgs(args)
  {
    if args == [] then Prefix(id)
    else Prefix(id) + (Mask(args, MaskSize(|args|)) + ([1] + (Types(args) + Inlines(args, threshold))))
  }

  function LongHeader(id: nat, param: nat): (b: bytes)
    ensures |b| == 7
  {
    [COM_STMT_SEND_LONG_DATA] + LittleEndian(id, 4) + LittleEndian(param, 2)
  }

  /** The payloads that send one long argument, at most size bytes of it at a time. */
  function LongData(arg: bytes, id: nat, param: nat, size: nat): seq<bytes>
    requires size > 0
  {
    if arg == [] then []
    else
      var k := Min(size, |arg|);
      [LongHeader(id, param) + arg[..k]] + LongData(arg[k..], id, param, size)
  }

  /** How much of an argument goes into one packet. Only with a limit of 9 or more is any argument sent that way. */
  function ChunkSize(limit: int): (size: nat)
    ensures size > 0
  {
    if limit >= 9 then limit - 8 else 1
  }

  /** No argument has to be sent ahead that does not fit into packets of this size. */
  predicate Sendable(args: seq<Arg>, threshold: nat, limit: int) {
    limit >= 9 || forall a :: a in args ==> !IsLong(a, threshold)
  }

  /** How the loop that sends an argument ahead comes out: it ends, is still going on, or slices out of bounds. */
  datatype LongOutcome = Ended(result: WriteResult) | GoesOn | Panics

  datatype LongRun = LongRun(payloads: seq<bytes>, outcome: LongOutcome)

  /** The first rounds of that loop, over a network that takes every write, for any limit on the size of packets. */
  function LongRounds(arg: bytes, id: nat, param: nat, limit: int, rounds: nat): LongRun
    decreases rounds
  {
    if arg == [] then LongRun([], Ended(Sent))
    else if rounds == 0 then LongRun([], GoesOn)
    else
      var pktLen := PacketLength(|arg|, limit);
      if pktLen < 0 then LongRun([], Panics)
      else
        var command := (LongHeader(id, param) + arg)[..pktLen];
        if pktLen < 7 then LongRun([command], Panics)
        else
          var later := LongRounds(arg[pktLen - 7..], id, param, limit, rounds - 1);
          LongRun([command] + later.payloads, later.outcome)
  }

  /** The length of the next packet when so much of the argument is left. */
  function PacketLength(argLen: nat, limit: int): (n: int)
    ensures n <= limit - 1 && n <= 7 + argLen
  {
    if 7 + argLen < limit - 1 then 7 + argLen else limit - 1
  }

  function Repeated(command: bytes, n: nat): seq<bytes> {
    seq(n, _ => command)
  }

  /** With room for a byte of the argument in every packet the loop sends the chunks and ends. */
  lemma {:induction false} LongRoundsEnd(arg: bytes, id: nat, param: nat, limit: int, rounds: nat)
    requires limit >= 9 && rounds >= |arg|
    ensures LongRounds(arg, id, param, limit, rounds) == LongRun(LongData(arg, id, param, limit - 8), Ended(Sent))
    decreases rounds
  {
    hide LongHeader;
    if arg != [] {
      var k := Min(limit - 8, |arg|);
      assert PacketLength(|arg|, limit) == 7 + k;
      assert (LongHeader(id, param) + arg)[..7 + k] == LongHeader(id, param) + arg[..k];
      LongRoundsEnd(arg[k..], id, param, limit, rounds - 1);
    }
  }

  /** With room for the command's head only, it sends heads for ever. */
  lemma {:induction false} LongRoundsForever(arg: bytes, id: nat, param: nat, rounds: nat)
    requires arg != []
    ensures LongRounds(arg, id, param, 8, rounds) == LongRun(Repeated(LongHeader(id, param), rounds), GoesOn)
    decreases rounds
  {
    hide LongHeader;
    var head := LongHeader(id, param);
    if rounds > 0 {
      assert PacketLength(|arg|, 8) == 7 && (head + arg)[..7] == head && arg[0..] == arg;
      LongRoundsForever(arg, id, param, rounds - 1);
      assert [head] + Repeated(head, rounds - 1) == Repeated(head, rounds);
    }
  }

  /** With less room, what is left of the argument is sliced out of bounds. */
  lemma LongRoundsPanic(arg: bytes, id: nat, param: nat, limit: int, rounds: nat)
    requires arg != [] && limit < 8 && rounds > 0
    ensures LongRounds(arg, id, param, limit, rounds)
            == LongRun(if limit < 1 then [] else [LongHeader(id, param)[..limit - 1]], Panics)
  {
    hide LongHeader;
    assert PacketLength(|arg|, limit) == limit - 1;
    assert limit >= 1 ==> (LongHeader(id, param) + arg)[..limit - 1] == LongHeader(id, param)[..limit - 1];
  }

  /** The loop comes to its end if and only if there is nothing to send or a packet has room for a byte of it. */
  lemma LongDataEndsExactly(arg: bytes, id: nat, param: nat, limit: int)
    ensures (exists rounds :: LongRounds(arg, id, param, limit, rounds).outcome.Ended?) <==> arg == [] || limit >= 9
    ensures (forall rounds :: LongRounds(arg, id, param, limit, rounds).outcome.GoesOn?) <==> arg != [] && limit == 8
    ensures arg != [] && limit < 8 ==> forall rounds :: rounds > 0 ==> LongRounds(arg, id, param, limit, rounds).outcome.Panics?
  {
    if arg == [] {
      assert LongRounds(arg, id, param, limit, 0).outcome.Ended?;
    } else if limit >= 9 {
      LongRoundsEnd(arg, id, param, limit, |arg|);
      assert LongRounds(arg, id, param, limit, |arg|).outcome.Ended?;
    } else if limit == 8 {
      forall rounds
        ensures LongRounds(arg, id, param, limit, rounds).outcome.GoesOn?
      {
        LongRoundsForever(arg, id, param, rounds);
      }
    } else {
      forall rounds | rounds > 0
        ensures LongRounds(arg, id, param, limit, rounds).outcome.Panics?
      {
        LongRoundsPanic(arg, id, param, limit, rounds);
      }
      LongRoundsPanic(arg, id, param, limit, |arg|);
      assert !LongRounds(arg, id, param, limit, |arg|).outcome.GoesOn?;
    }
  }

  /** The payloads that send one argument ahead: none unless it is long. */
  function OneLong(a: Arg, id: nat, param: nat, threshold: nat, size: nat): seq<bytes>
    requires size > 0
  {
    if IsLong(a, threshold) then LongData(a.data, id, param, size) else []
  }

  /** The payloads that send all long arguments, in order. */
  function LongCommands(args: seq<Arg>, id: nat, threshold: nat, size: nat): seq<bytes>
    requires size > 0
  {
    if args == [] then []
    else
      var last := |args| - 1;
      LongCommands(args[..last], id, threshold, size) + OneLong(args[last], id, last, threshold, size)
  }

  // ---------------------------------------------------------------- the server

  datatype Received = Missing | Integer64(u: nat) | Double(bits: nat) | Tiny(b: byte) | Chars(text: bytes)

  predicate BitSet(n: nat, k: nat) {
    if k == 0 then n % 2 == 1 else BitSet(n / 2, k - 1)
  }

  /** The value at the front of the values, by its type, and the rest. */
  function TakeValue(kind: byte, b: bytes): Option<(Received, bytes)> {
    if kind == TYPE_TINY then if |b| < 1 then None else Some((Tiny(b[0]), b[1..]))
    else if kind == TYPE_LONG_LONG then if |b| < 8 then None else Some((Integer64(FromLittleEndian(b[..8])), b[8..]))
    else if kind == TYPE_DOUBLE then if |b| < 8 then None else Some((Double(FromLittleEndian(b[..8])), b[8..]))
    else if kind == TYPE_STRING then
      var read := ReadString(b);
      if !read.Str? || read.n > |b| || read.isNull then None else Some((Chars(read.value), b[read.n..]))
    else None
  }

  /** Arguments i, i+1, … of a statement with count parameters; those sent ahead are looked up in long. */
  function TakeValues(i: nat, count: nat, mask: bytes, types: bytes, values: bytes, long: map<nat, bytes>)
    : Option<seq<Received>>
    requires i <= count && |mask| == MaskSize(count) && |types| == 2 * count
    decreases count - i
  {
    if i == count then if values == [] then Some([]) else None
    else
      var taken :=
        if BitSet(mask[i / 8], i % 8) then Some((Missing, values))
        else if i in long then Some((Chars(long[i]), values))
        else TakeValue(types[2 * i], values);
      if taken.None? then None
      else
        var later := TakeValues(i + 1, count, mask, types, taken.value.1, long);
        if later.None? then None else Some([taken.value.0] + later.value)
  }

  /** The arguments in an execute payload. */
  function TakeExecute(payload: bytes, id: nat, count: nat, long: map<nat, bytes>): Option<seq<Received>> {
    if |payload| < 10 || payload[..10] != Prefix(id) then None
    else if count == 0 then if |payload| == 10 then Some([]) else None
    else
      var m := MaskSize(count);
      if |payload| < 11 + m + 2 * count || payload[10 + m] != 1 then None
      else
        TakeValues(0, count, payload[10..10 + m], payload[11 + m..11 + m + 2 * count], payload[11 + m + 2 * count..], long)
  }

  /** More of a parameter has arrived. */
  function Extended(before: map<nat, bytes>, param: nat, more: bytes): map<nat, bytes> {
    before[param := (if param in before then before[param] else []) + more]
  }

  /** What the server has been sent ahead, after these payloads. */
  function TakeLong(payloads: seq<bytes>, id: nat, before: map<nat, bytes>): Option<map<nat, bytes>> {
    if payloads == [] then Some(before)
    else
      var p := payloads[0];
      if |p| < 7 || p[0] != COM_STMT_SEND_LONG_DATA || p[1..5] != LittleEndian(id, 4) then None
      else
        var param := FromLittleEndian(p[5..7]);
        TakeLong(payloads[1..], id, Extended(before, param, p[7..]))
  }

  /** What the server should end up with. */
  function Meant(a: Arg): Received {
    match a
    case Int(value) => Integer64(Unsigned(value))
    case Float(bits) => Double(bits)
    case Bool(on) => Tiny(if on then 1 else 0)
    case Slice(data) => Chars(data)
    case Str(data) => Chars(data)
    case Time(text) => Chars(text)
    case _ => Missing
  }

  function MeantAll(args: seq<Arg>, from: nat): seq<Received>
    requires from <= |args|
    decreases |args| - from
  {
    if from == |args| then [] else [Meant(args[from])] + MeantAll(args, from + 1)
  }

  // ---------------------------------------------------------------- the server recovers the arguments

  lemma {:induction false} BitOfBits(args: seq<Arg>, from: nat, width: nat, k: nat)
    requires k < width
    ensures BitSet(Bits(args, from, width), k) <==> Bit(args, from + k) == 1
    decreases width
  {
    if k > 0 {
      assert Bits(args, from, width) / 2 == Bits(args, from + 1, width - 1);
      BitOfBits(args, from + 1, width - 1, k - 1);
    }
  }

  /** Each bit of the bitmap tells about its own argument. */
  lemma MaskBit(args: seq<Arg>, i: nat)
    requires i < |args|
    ensures i / 8 < MaskSize(|args|)
    ensures BitSet(Mask(args, MaskSize(|args|))[i / 8], i % 8) <==> IsNull(args[i])
  {
    hide BitSet, Bits;
    BitOfBits(args, 8 * (i / 8), 8, i % 8);
  }

  lemma {:induction false} TypeAt(args: seq<Arg>, i: nat)
    requires i < |args|
    ensures Types(args)[2 * i] == TypeOf(args[i])
  {
    if i < |args| - 1 {
      TypeAt(args[..|args| - 1], i);
    }
  }

  /** Inlines, peeled off the front. */
  lemma {:induction false} InlinesFront(args: seq<Arg>, i: nat, threshold: nat)
    requires ValidArgs(args) && i < |args|
    ensures Inlines(args[i..], threshold) == Inline(args[i], threshold) + Inlines(args[i + 1..], threshold)
    decreases |args|
  {
    hide Inline;
    var rest, last := args[i..], |args| - 1;
    if i == last {
      assert rest[..0] == [] && rest[0] == args[i] && args[i + 1..] == [];
    } else {
      assert rest[..|rest| - 1] == args[..last][i..] && rest[|rest| - 1] == args[last];
      assert args[i + 1..][..|rest| - 2] == args[..last][i + 1..] && args[i + 1..][|rest| - 2] == args[last];
      InlinesFront(args[..last], i, threshold);
    }
  }

  lemma OneValue(a: Arg, threshold: nat, rest: bytes)
    requires ValidArg(a) && !IsNull(a) && !a.Unsupported? && !IsLong(a, threshold)
    ensures TakeValue(TypeOf(a), Inline(a, threshold) + rest) == Some((Meant(a), rest))
  {
    hide LittleEndian, FromLittleEndian, String, ReadString;
    Pow256Values();
    var b := Inline(a, threshold) + rest;
    match a {
      case Int(value) =>
        LittleEndianRoundTrip(Unsigned(value), 8);
        assert b[..8] == LittleEndian(Unsigned(value), 8) && b[8..] == rest;
      case Float(bits) =>
        LittleEndianRoundTrip(bits, 8);
        assert b[..8] == LittleEndian(bits, 8) && b[8..] == rest;
      case Bool(on) =>
        assert b[1..] == rest;
      case Slice(data) =>
        StringRoundTrip(data, rest);
        assert b[|String(data)|..] == rest;
      case Str(data) =>
        StringRoundTrip(data, rest);
        assert b[|String(data)|..] == rest;
      case Time(text) =>
        StringRoundTrip(text, rest);
        assert b[|String(text)|..] == rest;
    }
  }

  /** The long arguments, by position. */
  predicate HoldsLong(long: map<nat, bytes>, args: seq<Arg>, threshold: nat) {
    && (forall i :: i in long ==> i < |args| && IsLong(args[i], threshold))
    && (forall i :: 0 <= i < |args| && IsLong(args[i], threshold) ==> i in long && long[i] == args[i].data)
  }

  predicate Supported(args: seq<Arg>) {
    forall a :: a in args ==> ValidArg(a) && !a.Unsupported?
  }

  lemma {:induction false} ValuesRecovered(args: seq<Arg>, i: nat, threshold: nat, long: map<nat, bytes>)
    requires Supported(args) && i <= |args| && HoldsLong(long, args, threshold)
    ensures TakeValues(i, |args|, Mask(args, MaskSize(|args|)), Types(args), Inlines(args[i..], threshold), long) ==
            Some(MeantAll(args, i))
    decreases |args| - i
  {
    hide Mask, Types, Inline, Inlines, TakeValue, BitSet, MaskSize;
    if i == |args| {
      assert args[i..] == [] && Inlines([], threshold) == [] by { NoInlines(threshold); }
    } else {
      var a := args[i];
      assert a in args;
      MaskBit(args, i);
      TypeAt(args, i);
      InlinesFront(args, i, threshold);
      var rest := Inlines(args[i + 1..], threshold);
      ValuesRecovered(args, i + 1, threshold, long);
      if IsNull(a) || IsLong(a, threshold) {
        NotInline(a, threshold);
        assert [] + rest == rest;
      } else {
        OneValue(a, threshold, rest);
      }
    }
  }

  lemma NoInlines(threshold: nat)
    ensures Inlines([], threshold) == []
  {
  }

  lemma NotInline(a: Arg, threshold: nat)
    requires ValidArg(a) && (IsNull(a) || IsLong(a, threshold))
    ensures Inline(a, threshold) == []
  {
  }

  /** A decoder of the execute packet that knows what was sent ahead recovers every argument. */
  lemma ExecuteRecovered(args: seq<Arg>, id: nat, threshold: nat, long: map<nat, bytes>)
    requires Supported(args) && HoldsLong(long, args, threshold)
    ensures TakeExecute(Execute(args, id, threshold), id, |args|, long) == Some(MeantAll(args, 0))
  {
    hide Mask, Types, Inlines, Inline, Prefix, TakeValues, TakeExecute, MeantAll, MaskSize, HoldsLong, BitSet;
    if args == [] {
      NoArgs(id, long);
    } else {
      ValuesRecovered(args, 0, threshold, long);
      assert args[0..] == args;
      TakeParts(id, |args|, Mask(args, MaskSize(|args|)), Types(args), Inlines(args, threshold), long);
    }
  }

  lemma NoArgs(id: nat, long: map<nat, bytes>)
    ensures TakeExecute(Prefix(id), id, 0, long) == Some([])
    ensures MeantAll([], 0) == []
  {
    hide TakeValues, Prefix;
    assert Prefix(id)[..10] == Prefix(id);
  }

  lemma TakeParts(id: nat, count: nat, mask: bytes, types: bytes, values: bytes, long: map<nat, bytes>)
    requires count > 0 && |mask| == MaskSize(count) && |types| == 2 * count
    ensures TakeExecute(Prefix(id) + (mask + ([1] + (types + values))), id, count, long) ==
            TakeValues(0, count, mask, types, values, long)
  {
    hide TakeValues, Prefix, MaskSize;
    Parts(Prefix(id), mask, types, values);
  }

  lemma Parts(prefix: bytes, mask: bytes, types: bytes, values: bytes)
    requires |prefix| == 10
    ensures var p, m, t := prefix + (mask + ([1] + (types + values))), |mask|, |types|;
            && |p| >= 11 + m + t && p[..10] == prefix && p[10..10 + m] == mask && p[10 + m] == 1
            && p[11 + m..11 + m + t] == types && p[11 + m + t..] == values
  {
  }

  lemma TakeOneLong(id: nat, param: nat, chunk: bytes, more: seq<bytes>, before: map<nat, bytes>)
    requires param < 0x1_0000
    ensures TakeLong([LongHeader(id, param) + chunk] + more, id, before) ==
            TakeLong(more, id, Extended(before, param, chunk))
  {
    hide LongHeader, LittleEndian, FromLittleEndian, Extended;
    var h, p := LongHeader(id, param), LongHeader(id, param) + chunk;
    LongHeaderParts(id, param);
    assert p[0] == h[0] && p[1..5] == h[1..5] && p[5..7] == h[5..7] && p[7..] == chunk;
    assert ([p] + more)[1..] == more;
  }

  lemma ExtendedTwice(before: map<nat, bytes>, param: nat, a: bytes, b: bytes)
    ensures Extended(Extended(before, param, a), param, b) == Extended(before, param, a + b)
  {
    var had := if param in before then before[param] else [];
    assert had + a + b == had + (a + b);
  }

  /** The chunks of a long argument add up to it. */
  lemma {:induction false} LongDataRecovered(arg: bytes, id: nat, param: nat, size: nat, later: seq<bytes>, before: map<nat, bytes>)
    requires size > 0 && param < 0x1_0000
    ensures TakeLong(LongData(arg, id, param, size) + later, id, before) ==
            if arg == [] then TakeLong(later, id, before) else TakeLong(later, id, Extended(before, param, arg))
    decreases |arg|
  {
    hide LongHeader, TakeLong, Extended;
    if arg == [] {
      assert [] + later == later;
    } else {
      var k := Min(size, |arg|);
      var more := LongData(arg[k..], id, param, size) + later;
      assert LongData(arg, id, param, size) + later == [LongHeader(id, param) + arg[..k]] + more;
      TakeOneLong(id, param, arg[..k], more, before);
      LongDataRecovered(arg[k..], id, param, size, later, Extended(before, param, arg[..k]));
      ExtendedTwice(before, param, arg[..k], arg[k..]);
      assert arg[..k] + arg[k..] == arg;
      assert k == |arg| ==> arg[..k] == arg;
    }
  }

  lemma LongHeaderParts(id: nat, param: nat)
    requires param < 0x1_0000
    ensures LongHeader(id, param)[0] == COM_STMT_SEND_LONG_DATA && LongHeader(id, param)[1..5] == LittleEndian(id, 4)
    ensures FromLittleEndian(LongHeader(id, param)[5..7]) == param
  {
    hide LittleEndian, FromLittleEndian;
    Pow256Values();
    LittleEndianRoundTrip(param, 2);
    assert LongHeader(id, param)[5..7] == LittleEndian(param, 2);
  }

  function LongMap(args: seq<Arg>, threshold: nat): map<nat, bytes> {
    map i: nat | i < |args| && IsLong(args[i], threshold) :: args[i].data
  }

  lemma {:induction false} LongRecovered(args: seq<Arg>, id: nat, threshold: nat, size: nat, later: seq<bytes>)
    requires size > 0 && threshold > 0 && |args| <= 0x1_0000
    ensures TakeLong(LongCommands(args, id, threshold, size) + later, id, map[]) ==
            TakeLong(later, id, LongMap(args, threshold))
  {
    hide TakeLong, LongData;
    if args == [] {
      assert [] + later == later && LongMap(args, threshold) == map[];
    } else {
      var last, init := |args| - 1, args[..|args| - 1];
      var chunks := if IsLong(args[last], threshold) then LongData(args[last].data, id, last, size) else [];
      assert LongCommands(args, id, threshold, size) + later == LongCommands(init, id, threshold, size) + (chunks + later);
      LongRecovered(init, id, threshold, size, chunks + later);
      var before := LongMap(init, threshold);
      if IsLong(args[last], threshold) {
        LongDataRecovered(args[last].data, id, last, size, later, before);
        assert [] + args[last].data == args[last].data;
        assert before[last := args[last].data] == LongMap(args, threshold);
      } else {
        assert chunks + later == later && before == LongMap(args, threshold);
      }
    }
  }

  /**
   What the server has after the payloads sent ahead and the execute payload: every argument, long or
   short, as it was meant.
   */
  lemma StatementRecovered(args: seq<Arg>, id: nat, threshold: nat, size: nat)
    requires Supported(args) && size > 0 && threshold > 0 && |args| <= 0x1_0000
    ensures var long := TakeLong(LongCommands(args, id, threshold, size), id, map[]);
            long.Some? && TakeExecute(Execute(args, id, threshold), id, |args|, long.value) == Some(MeantAll(args, 0))
  {
    hide TakeExecute, Execute, LongCommands;
    LongRecovered(args, id, threshold, size, []);
    assert LongCommands(args, id, threshold, size) + [] == LongCommands(args, id, threshold, size);
    ExecuteRecovered(args, id, threshold, LongMap(args, threshold));
  }

  lemma {:induction false} LongDataBounds(arg: bytes, id: nat, param: nat, size: nat)
    requires size > 0
    ensures forall p :: p in LongData(arg, id, param, size) ==> 7 < |p| <= 7 + size
    decreases |arg|
  {
    if arg != [] {
      LongDataBounds(arg[Min(size, |arg|)..], id, param, size);
    }
  }

  // ---------------------------------------------------------------- on the wire

  /** Commands one after another, each starting the sequence numbers anew. */
  function Wire(commands: seq<bytes>): bytes {
    if commands == [] then [] else Frames(commands[0], 0) + Wire(commands[1..])
  }

  /** Reads count commands off the wire. */
  function ReadCommands(wire: bytes, count: nat): Option<(seq<bytes>, bytes)>
    decreases count
  {
    if count == 0 then Some(([], wire))
    else
      var packet := Parse(wire, 0, []);
      if !packet.Whole? then None
      else
        var later := ReadCommands(packet.rest, count - 1);
        if later.None? then None else Some(([packet.payload] + later.value.0, later.value.1))
  }

  lemma ReadCommand(command: bytes, later: bytes, count: nat)
    requires command != []
    ensures var read := ReadCommands(later, count);
            ReadCommands(Frames(command, 0) + later, count + 1) ==
            if read.None? then None else Some(([command] + read.value.0, read.value.1))
  {
    hide Parse, Frames;
    ParseFrames(command, 0, later, []);
    assert [] + command == command;
  }

  /** Commands sent back to back are read back one by one. */
  lemma {:induction false} WireRead(commands: seq<bytes>, rest: bytes)
    requires forall c :: c in commands ==> c != []
    ensures ReadCommands(Wire(commands) + rest, |commands|) == Some((commands, rest))
  {
    hide Frames;
    if commands == [] {
      assert [] + rest == rest;
    } else {
      hide ReadCommands;
      var later := Wire(commands[1..]) + rest;
      assert forall c :: c in commands[1..] ==> c in commands;
      assert commands[0] in commands;
      assert Wire(commands) + rest == Frames(commands[0], 0) + later;
      ReadCommand(commands[0], later, |commands| - 1);
      WireRead(commands[1..], rest);
      assert [commands[0]] + commands[1..] == commands;
    }
  }

  lemma {:induction false} WireAppend(a: seq<bytes>, b: seq<bytes>)
    ensures Wire(a + b) == Wire(a) + Wire(b)
  {
    hide Frames;
    if a == [] {
      assert a + b == b;
    } else {
      assert (a + b)[1..] == a[1..] + b;
      WireAppend(a[1..], b);
    }
  }

  lemma WireOne(command: bytes, later: seq<bytes>)
    ensures Wire([command] + later) == Frames(command, 0) + Wire(later)
    ensures Wire([command]) == Frames(command, 0)
  {
    assert ([command] + later)[1..] == later;
    assert Wire([]) == [];
  }

  // ---------------------------------------------------------------- the client

  datatype ExecResult = Done | ArgCount | BusyBuffer | BadType | Network(result: WriteResult)

  /** The values are still behind the head, in the same array, or have outgrown it. */
  ghost predicate Placed(values: ByteSlice, data: array<byte>, pos: nat)
  {
    if values.arr == data then values.off == pos
    else values.arr.Length - values.off > data.Length - pos && pos + values.len > data.Length
  }

  lemma StartPlaced(data: array<byte>, pos: nat)
    requires pos <= data.Length
    ensures Placed(ByteSlice(data, pos, 0), data, pos)
  {
  }

  method Joined(a: array<byte>, n: nat, b: ByteSlice) returns (c: array<byte>)
    requires 4 <= n <= a.Length && ValidSlice(b)
    ensures fresh(c) && c.Length == n + b.len && c[4..] == a[4..n] + b.arr[b.off..b.off + b.len]
  {
    c := new byte[n + b.len](_ => 0);
    forall i | 0 <= i < n {
      c[i] := a[i];
    }
    forall i | 0 <= i < b.len {
      c[n + i] := b.arr[b.off + i];
    }
    assert c[4..n] == a[4..n] && c[n..] == b.arr[b.off..b.off + b.len];
    assert c[4..] == c[4..n] + c[n..];
  }

  class Stmt {
    const mc: Conn
    const id: nat
    const paramCount: nat

    constructor (mc: Conn, id: nat, paramCount: nat)
      ensures this.mc == mc && this.id == id && this.paramCount == paramCount
    {
      this.mc, this.id, this.paramCount := mc, id, paramCount;
    }

    /** Sends one command, starting the sequence numbers anew. */
    method Send(data: array<byte>, lo: nat, hi: nat) returns (result: WriteResult)
      requires lo + 4 <= hi <= data.Length
      modifies mc`sequence, mc`closed, mc.net`sent, mc.net`writeScript, data
      ensures result == PacketTooLarge <==> hi - lo - 4 > mc.maxAllowedPacket
      ensures result == Sent ==> mc.net.sent == old(mc.net.sent) + Frames(old(data[lo + 4..hi]), 0)
      ensures TakesAll(old(mc.net.writeScript)) ==>
        TakesAll(mc.net.writeScript) && (result == Sent || result == PacketTooLarge)
      ensures forall i :: 0 <= i < lo || hi <= i < data.Length ==> data[i] == old(data[i])
    {
      hide WriteAll, Frames, TakesAll;
      mc.sequence := 0;
      ghost var payload := data[lo + 4..hi];
      SentMeansFrames(payload, 0, mc.net.writeScript, mc.canceled);
      if TakesAll(mc.net.writeScript) {
        FullNetworkSends(payload, 0, mc.net.writeScript, mc.canceled);
      }
      NeverTooLarge(payload, 0, mc.net.writeScript, mc.canceled);
      result := mc.WritePacket(data, lo, hi);
    }

    /**
     Sends an argument ahead. All chunks are cut from one array: the header of the next
     one is written over the end of the one that has just gone out.
     */
    method WriteCommandLongData(param: nat, arg: bytes) returns (result: WriteResult)
      requires mc.maxAllowedPacket >= 9
      modifies mc`sequence, mc`closed, mc.net`sent, mc.net`writeScript
      ensures result == Sent ==>
        mc.net.sent == old(mc.net.sent) + Wire(LongData(arg, id, param, mc.maxAllowedPacket - 8))
        && mc.sequence == 0
      ensures result != PacketTooLarge
      ensures TakesAll(old(mc.net.writeScript)) ==> TakesAll(mc.net.writeScript) && result == Sent
    {
      hide TakesAll, LongData, Wire, LongRounds;
      LongRoundsEnd(arg, id, param, mc.maxAllowedPacket, |arg|);
      var outcome := LongDataLoop(param, arg, |arg|);
      result := outcome.result;
    }

    /** That loop, for any limit on the size of packets, stopped after so many rounds if it has not ended by then. */
    method LongDataLoop(param: nat, arg: bytes, rounds: nat) returns (outcome: LongOutcome)
      modifies mc`sequence, mc`closed, mc.net`sent, mc.net`writeScript
      ensures (outcome.Ended? && outcome.result != Sent)
        || (outcome == LongRounds(arg, id, param, mc.maxAllowedPacket, rounds).outcome
            && mc.net.sent == old(mc.net.sent) + Wire(LongRounds(arg, id, param, mc.maxAllowedPacket, rounds).payloads))
      ensures outcome.Ended? ==> outcome.result != PacketTooLarge
      ensures outcome == Ended(Sent) ==> mc.sequence == 0
      ensures TakesAll(old(mc.net.writeScript)) ==> TakesAll(mc.net.writeScript) && !(outcome.Ended? && outcome.result != Sent)
    {
      hide Frames, TakesAll, Wire, LongRounds, LongHeader;
      var limit := mc.maxAllowedPacket;
      var data := new byte[11 + |arg|](_ => 0);
      forall i | 0 <= i < |arg| {
        data[11 + i] := arg[i];
      }
      assert data[11..] == arg;
      ghost var whole := LongRounds(arg, id, param, limit, rounds);
      var at, argLen, left := 0, |arg|, rounds;
      assert mc.net.sent + Wire(whole.payloads) == mc.net.sent + Wire(LongRounds(data[at + 11..], id, param, limit, left).payloads);
      while argLen > 0
        invariant 0 <= at && 0 <= argLen && at + 11 + argLen == data.Length && 0 <= left
        invariant old(mc.net.sent) + Wire(whole.payloads)
                  == mc.net.sent + Wire(LongRounds(data[at + 11..], id, param, limit, left).payloads)
        invariant whole.outcome == LongRounds(data[at + 11..], id, param, limit, left).outcome
        invariant TakesAll(old(mc.net.writeScript)) ==> TakesAll(mc.net.writeScript)
        decreases left
      {
        ghost var rest := data[at + 11..];
        LongRoundsStep(rest, id, param, limit, left, mc.net.sent);
        if left == 0 {
          return GoesOn;
        }
        var pktLen := PacketLength(argLen, limit);
        if pktLen < 0 {
          return Panics;
        }
        PutLongHeader(data, at, param);
        ghost var command := (LongHeader(id, param) + rest)[..pktLen];
        assert data[at + 4..at + 4 + pktLen] == command by {
          assert data[at + 4..] == data[at + 4..at + 11] + data[at + 11..];
          assert data[at + 4..at + 4 + pktLen] == data[at + 4..][..pktLen];
        }
        var result := Send(data, at, at + 4 + pktLen);
        if result != Sent {
          return Ended(result);
        }
        if pktLen < 7 {
          return Panics;
        }
        at := at + pktLen - 7;
        argLen := argLen - (pktLen - 7);
        left := left - 1;
        assert data[at + 11..] == rest[pktLen - 7..];
      }
      assert data[at + 11..] == [];
      NoRounds(id, param, limit, left, mc.net.sent);
      mc.sequence := 0;
      outcome := Ended(Sent);
    }

    method PutLongHeader(data: array<byte>, at: nat, param: nat)
      requires at + 11 <= data.Length
      modifies data
      ensures data[at + 4..at + 11] == LongHeader(id, param)
      ensures data[at + 11..] == old(data[at + 11..])
    {
      FourBytes(id);
      TwoBytes(param);
      data[at + 4] := COM_STMT_SEND_LONG_DATA;
      data[at + 5], data[at + 6], data[at + 7], data[at + 8] :=
        id % 256, id / 256 % 256, id / 0x1_0000 % 256, id / 0x100_0000 % 256;
      data[at + 9], data[at + 10] := param % 256, param / 256 % 256;
    }

    /** Notes the type of argument i, and its bit when it is NULL. */
    method PutType(data: array<byte>, i: nat, ghost args: seq<Arg>, isNull: bool, kind: byte)
      requires i < |args| == paramCount && HeadSize(paramCount) <= data.Length
      requires Head(data[..HeadSize(paramCount)], args, i, id)
      requires kind == TypeOf(args[i]) && isNull == IsNull(args[i])
      modifies data
      ensures Head(data[..HeadSize(paramCount)], args, i + 1, id)
      ensures forall k :: HeadSize(paramCount) <= k < data.Length ==> data[k] == old(data[k])
    {
      hide Head, SetBit, IsNull, TypeOf;
      ghost var head := data[..HeadSize(paramCount)];
      assert |head| == HeadSize(paramCount);
      if isNull {
        SetBitByte(data[14 + i / 8], i % 8);
        data[14 + i / 8] := SetBit(data[14 + i / 8], i % 8);
      }
      var at := 15 + MaskSize(paramCount) + 2 * i;
      data[at] := kind;
      data[at + 1] := 0x00;
      HeadNext(head, data[..HeadSize(paramCount)], args, i, id);
    }

    /** Puts the value of an argument behind the others, or sends it ahead. */
    method PutValue(param: nat, arg: Arg, values: ByteSlice, threshold: nat) returns (after: ByteSlice, result: ExecResult)
      requires ValidArg(arg) && !IsNull(arg) && !arg.Unsupported? && ValidSlice(values)
      requires mc.maxAllowedPacket >= 9 || !IsLong(arg, threshold)
      modifies values.arr, mc`sequence, mc`closed, mc.net`sent, mc.net`writeScript
      ensures ValidSlice(after)
      ensures result == Done ==>
        && after.arr[after.off..after.off + after.len] ==
           old(values.arr[values.off..values.off + values.len]) + Inline(arg, threshold)
        && mc.net.sent == old(mc.net.sent) + Wire(OneLong(arg, id, param, threshold, ChunkSize(mc.maxAllowedPacket)))
      ensures result == Done || (result.Network? && result.result != Sent)
      ensures (after.arr == values.arr && after.off == values.off) || fresh(after.arr)
      ensures after.arr != values.arr ==>
        after.arr.Length - after.off > values.arr.Length - values.off && values.off + after.len > values.arr.Length
      ensures after.len >= values.len
      ensures forall k :: 0 <= k < values.off ==> values.arr[k] == old(values.arr[k])
      ensures TakesAll(old(mc.net.writeScript)) ==> TakesAll(mc.net.writeScript) && result == Done
    {
      hide TakesAll, LongData, Wire, LittleEndian, String, Inline, Frames, LongRounds, Unsigned, OneLong;
      LongCases(arg, id, param, threshold, ChunkSize(mc.maxAllowedPacket));
      WireNone(mc.net.sent);
      InlineCases(arg, threshold);
      after, result := values, Done;
      ghost var sent := mc.net.sent;
      if arg.Int? {
        after := Append(values, LittleEndian(Unsigned(arg.value), 8));
      } else if arg.Float? {
        after := Append(values, LittleEndian(arg.bits, 8));
      } else if arg.Bool? {
        after := Append(values, if arg.on then [0x01] else [0x00]);
      } else if arg.Time? {
        after := Append(values, String(arg.text));
      } else if |arg.data| < threshold {
        after := Append(values, String(arg.data));
      } else {
        var r := WriteCommandLongData(param, arg.data);
        assert values.arr[values.off..values.off + values.len] + [] == values.arr[values.off..values.off + values.len];
        if r != Sent {
          result := Network(r);
        }
      }
    }

    /** Lays out the packet up to the values, in a larger array when the lent one cannot hold it. */
    method PutHead(lent: array<byte>, ghost args: seq<Arg>) returns (data: array<byte>)
      requires |args| == paramCount && paramCount > 0 && lent.Length >= DEFAULT_BUF_SIZE
      modifies lent
      ensures HeadSize(paramCount) <= data.Length && Head(data[..HeadSize(paramCount)], args, 0, id)
      ensures data == lent || (fresh(data) && data.Length == HeadSize(paramCount) >= lent.Length)
    {
      hide Prefix, Head;
      PutPrefix(lent);
      data := lent;
      var maskLen, typesLen := MaskSize(paramCount), 1 + 2 * paramCount;
      if 14 + maskLen + typesLen >= lent.Length {
        data := new byte[14 + maskLen + typesLen](_ => 0);
        forall i | 0 <= i < 14 {
          data[i] := lent[i];
        }
        assert data[4..14] == lent[4..14];
      } else {
        forall i | 0 <= i < maskLen {
          data[14 + i] := 0;
        }
      }
      assert forall k :: 14 <= k < 14 + maskLen ==> data[k] == 0;
      data[14 + maskLen] := 0x01;
      ghost var h := data[..HeadSize(paramCount)];
      assert h[4..14] == data[4..14];
      HeadStart(h, args, id);
    }

    method PutPrefix(data: array<byte>)
      requires data.Length >= 14
      modifies data
      ensures data[4..14] == Prefix(id)
    {
      FourBytes(id);
      hide LittleEndian;
      data[4] := COM_STMT_EXECUTE;
      data[5], data[6], data[7], data[8] := id % 256, id / 256 % 256, id / 0x1_0000 % 256, id / 0x100_0000 % 256;
      data[9] := 0x00;
      data[10], data[11], data[12], data[13] := 0x01, 0x00, 0x00, 0x00;
    }

    /** One argument: its type, its NULL bit, and its value. */
    method PutArg(data: array<byte>, i: nat, args: seq<Arg>, values: ByteSlice, threshold: nat)
      returns (after: ByteSlice, result: ExecResult)
      requires i < |args| == paramCount && ValidArg(args[i]) && !args[i].Unsupported?
      requires mc.maxAllowedPacket >= 9 || !IsLong(args[i], threshold)
      requires HeadSize(paramCount) <= data.Length && Head(data[..HeadSize(paramCount)], args, i, id)
      requires ValidSlice(values) && Placed(values, data, HeadSize(paramCount))
      modifies data, values.arr, mc`sequence, mc`closed, mc.net`sent, mc.net`writeScript
      ensures ValidSlice(after) && Placed(after, data, HeadSize(paramCount))
      ensures after.arr == data || after.arr == values.arr || fresh(after.arr)
      ensures result == Done ==>
        && Head(data[..HeadSize(paramCount)], args, i + 1, id)
        && after.arr[after.off..after.off + after.len] ==
           old(values.arr[values.off..values.off + values.len]) + Inline(args[i], threshold)
        && mc.net.sent == old(mc.net.sent) + Wire(OneLong(args[i], id, i, threshold, ChunkSize(mc.maxAllowedPacket)))
      ensures result == Done || (result.Network? && result.result != Sent)
      ensures TakesAll(old(mc.net.writeScript)) ==> TakesAll(mc.net.writeScript) && result == Done
    {
      hide Head, Inline, LongData, Wire, TakesAll, OneLong, TypeOf;
      after, result := values, Done;
      PutType(data, i, args, IsNull(args[i]), TypeOf(args[i]));
      assert values.arr[values.off..values.off + values.len] == old(values.arr[values.off..values.off + values.len]);
      if IsNull(args[i]) {
        NullAddsNothing(args[i], id, i, threshold, ChunkSize(mc.maxAllowedPacket), mc.net.sent);
        return;
      }
      ghost var head := data[..HeadSize(paramCount)];
      after, result := PutValue(i, args[i], values, threshold);
      assert data[..HeadSize(paramCount)] == head;
    }

    /** All arguments, one after another, behind the head or sent ahead. */
    method PutArgs(data: array<byte>, args: seq<Arg>, threshold: nat) returns (values: ByteSlice, result: ExecResult)
      requires |args| == paramCount && ValidArgs(args) && Sendable(args, threshold, mc.maxAllowedPacket)
      requires HeadSize(paramCount) <= data.Length && Head(data[..HeadSize(paramCount)], args, 0, id)
      modifies data, mc`sequence, mc`closed, mc.net`sent, mc.net`writeScript
      ensures ValidSlice(values)
      ensures result == Done ==>
        && Head(data[..HeadSize(paramCount)], args, |args|, id)
        && values.arr[values.off..values.off + values.len] == Inlines(args, threshold)
        && mc.net.sent == old(mc.net.sent) + Wire(LongCommands(args, id, threshold, ChunkSize(mc.maxAllowedPacket)))
      ensures result == BadType ==>
        exists k :: 0 <= k < |args| && args[k].Unsupported? && Supported(args[..k])
          && mc.net.sent == old(mc.net.sent) + Wire(LongCommands(args[..k], id, threshold, ChunkSize(mc.maxAllowedPacket)))
      ensures result == Done ==> Supported(args)
      ensures result == Done || result == BadType || (result.Network? && result.result != Sent)
      ensures Placed(values, data, HeadSize(paramCount)) && (values.arr == data || fresh(values.arr))
      ensures TakesAll(old(mc.net.writeScript)) ==> TakesAll(mc.net.writeScript)
      ensures TakesAll(old(mc.net.writeScript)) ==> result == if Supported(args) then Done else BadType
    {
      hide Head, Inlines, Inline, LongCommands, Wire, TakesAll, OneLong, Placed;
      values, result := ByteSlice(data, HeadSize(paramCount), 0), Done;
      assert Placed(values, data, HeadSize(paramCount)) by { StartPlaced(data, HeadSize(paramCount)); }
      ghost var size := ChunkSize(mc.maxAllowedPacket);
      NoneYet(args, id, threshold, size, mc.net.sent);
      for i := 0 to |args|
        invariant ValidSlice(values) && result == Done
        invariant Head(data[..HeadSize(paramCount)], args, i, id)
        invariant values.arr[values.off..values.off + values.len] == Inlines(args[..i], threshold)
        invariant mc.net.sent == old(mc.net.sent) + Wire(LongCommands(args[..i], id, threshold, size))
        invariant Placed(values, data, HeadSize(paramCount)) && (values.arr == data || fresh(values.arr))
        invariant TakesAll(old(mc.net.writeScript)) ==> TakesAll(mc.net.writeScript)
        invariant Supported(args[..i])
      {
        assert args[i] in args;
        SupportedMore(args, i);
        OneMore(args, i, id, threshold, size, old(mc.net.sent));
        if args[i].Unsupported? {
          result := BadType;
          return;
        }
        values, result := PutArg(data, i, args, values, threshold);
        if result != Done {
          return;
        }
      }
      assert args[..|args|] == args;
    }

    /** Puts the values behind the head, in memory of their own if they outgrew the lent one. */
    method Join(head: array<byte>, values: ByteSlice) returns (data: array<byte>, hi: nat)
      requires mc.buf.Valid() && mc.buf.length == 0 && ValidSlice(values) && HeadSize(paramCount) <= head.Length
      requires Placed(values, head, HeadSize(paramCount))
      requires head == mc.buf.buf || head.Length >= mc.buf.buf.Length
      modifies mc.buf`buf
      ensures mc.buf.Valid() && HeadSize(paramCount) <= hi <= data.Length
      ensures data[4..hi] == head[4..HeadSize(paramCount)] + values.arr[values.off..values.off + values.len]
      ensures data == head || fresh(data)
    {
      var pos := HeadSize(paramCount);
      data, hi := head, pos + values.len;
      if values.arr.Length - values.off == head.Length - pos {
        assert head[4..hi] == head[4..pos] + head[pos..hi];
      } else {
        data := Joined(head, pos, values);
        assert data[4..hi] == data[4..];
        mc.buf.buf := data;
      }
    }

    /** Builds the packet of a statement that has parameters. */
    method Assemble(lent: array<byte>, args: seq<Arg>, threshold: nat) returns (data: array<byte>, hi: nat, result: ExecResult)
      requires |args| == paramCount > 0 && ValidArgs(args) && Sendable(args, threshold, mc.maxAllowedPacket)
      requires mc.buf.Valid() && mc.buf.length == 0 && lent == mc.buf.buf
      modifies lent, mc`sequence, mc`closed, mc.net`sent, mc.net`writeScript, mc.buf`buf
      ensures mc.buf.Valid() && 4 <= hi <= data.Length
      ensures data == lent || fresh(data)
      ensures result == Done ==>
        && data[4..hi] == Execute(args, id, threshold)
        && mc.net.sent == old(mc.net.sent) + Wire(LongCommands(args, id, threshold, ChunkSize(mc.maxAllowedPacket)))
      ensures result == BadType ==>
        exists k :: 0 <= k < |args| && args[k].Unsupported? && Supported(args[..k])
          && mc.net.sent == old(mc.net.sent) + Wire(LongCommands(args[..k], id, threshold, ChunkSize(mc.maxAllowedPacket)))
      ensures result == Done ==> Supported(args)
      ensures result == Done || result == BadType || (result.Network? && result.result != Sent)
      ensures TakesAll(old(mc.net.writeScript)) ==> TakesAll(mc.net.writeScript)
      ensures TakesAll(old(mc.net.writeScript)) ==> result == if Supported(args) then Done else BadType
    {
      hide Head, Inlines, LongCommands, Wire, TakesAll, Execute, Supported;
      data := PutHead(lent, args);
      hi := 4;
      var values;
      values, result := PutArgs(data, args, threshold);
      if result != Done {
        return;
      }
      AllArgs(data[..HeadSize(paramCount)], args, id, threshold);
      assert data[..HeadSize(paramCount)][4..] == data[4..HeadSize(paramCount)];
      data, hi := Join(data, values);
    }

    /** Executes the statement: what goes out are the long arguments, then the packet with all others. */
    method WriteExecutePacket(args: seq<Arg>) returns (result: ExecResult)
      requires mc.Valid() && ValidArgs(args)
      requires |args| == paramCount ==> Sendable(args, Threshold(mc.maxAllowedPacket, paramCount), mc.maxAllowedPacket)
      modifies mc`sequence, mc`closed, mc.net`sent, mc.net`writeScript, mc.buf`buf, mc.buf.buf
      ensures mc.Valid()
      ensures result == ArgCount <==> |args| != paramCount
      ensures result == BusyBuffer <==> |args| == paramCount && old(mc.buf.Unread()) != []
      ensures result == ArgCount || result == BusyBuffer ==> mc.net.sent == old(mc.net.sent)
      ensures result == Done ==> mc.net.sent == old(mc.net.sent) + Wire(Commands(args, id, paramCount, mc.maxAllowedPacket))
      ensures result == Done ==> Supported(args)
      ensures result == BadType ==>
        exists k :: 0 <= k < |args| && args[k].Unsupported? && Supported(args[..k])
          && mc.net.sent == old(mc.net.sent)
                            + Wire(LongCommands(args[..k], id, Threshold(mc.maxAllowedPacket, paramCount), ChunkSize(mc.maxAllowedPacket)))
      ensures TakesAll(old(mc.net.writeScript)) && |args| == paramCount && old(mc.buf.Unread()) == [] ==>
        result == if !Supported(args) then BadType
                  else if |Execute(args, id, Threshold(mc.maxAllowedPacket, paramCount))| <= mc.maxAllowedPacket then Done
                  else Network(PacketTooLarge)
    {
      hide Head, Inlines, LongCommands, Wire, TakesAll, Frames, Execute, Prefix, Supported, Commands;
      if |args| != paramCount {
        return ArgCount;
      }
      var threshold := Threshold(mc.maxAllowedPacket, paramCount);
      ghost var sent := mc.net.sent;
      mc.sequence := 0;
      CommandsWire(args, id, paramCount, mc.maxAllowedPacket, sent);
      var r;
      if |args| == 0 {
        NoneUnsupported(args);
        var lent := mc.buf.TakeBuffer(14);
        if lent == null {
          return BusyBuffer;
        }
        PutPrefix(lent);
        r := Send(lent, 0, 14);
      } else {
        var lent := mc.buf.TakeCompleteBuffer();
        if lent == null {
          return BusyBuffer;
        }
        var data, hi;
        data, hi, result := Assemble(lent, args, threshold);
        if result != Done {
          return;
        }
        r := Send(data, 0, hi);
      }
      result := if r == Sent then Done else Network(r);
    }
  }

  /** Everything that is sent to execute a statement. */
  function Commands(args: seq<Arg>, id: nat, paramCount: nat, maxAllowedPacket: int): seq<bytes>
    requires ValidArgs(args)
  {
    var threshold := Threshold(maxAllowedPacket, paramCount);
    LongCommands(args, id, threshold, ChunkSize(maxAllowedPacket)) + [Execute(args, id, threshold)]
  }

  lemma CommandsWire(args: seq<Arg>, id: nat, paramCount: nat, maxAllowedPacket: int, sent: bytes)
    requires ValidArgs(args)
    ensures var threshold := Threshold(maxAllowedPacket, paramCount);
            sent + Wire(Commands(args, id, paramCount, maxAllowedPacket)) ==
            sent + Wire(LongCommands(args, id, threshold, ChunkSize(maxAllowedPacket))) + Frames(Execute(args, id, threshold), 0)
    ensures args == [] ==>
      Execute(args, id, Threshold(maxAllowedPacket, paramCount)) == Prefix(id)
      && sent + Wire(Commands(args, id, paramCount, maxAllowedPacket)) == sent + Frames(Prefix(id), 0)
  {
    hide Frames, Wire, Prefix, Threshold;
    var threshold := Threshold(maxAllowedPacket, paramCount);
    var p := Execute(args, id, threshold);
    WireAppend(LongCommands(args, id, threshold, ChunkSize(maxAllowedPacket)), [p]);
    WireOne(p, []);
    if args == [] {
      assert [] + [p] == [p];
    }
  }

  /** Shorter arguments travel in the execute packet. */
  function Threshold(maxAllowedPacket: int, paramCount: nat): (t: nat)
    ensures t >= 64
  {
    if maxAllowedPacket / (paramCount + 1) < 64 then 64 else maxAllowedPacket / (paramCount + 1)
  }

  lemma HeadStart(h: bytes, args: seq<Arg>, id: nat)
    requires |h| == HeadSize(|args|) && h[4..14] == Prefix(id) && h[14 + MaskSize(|args|)] == 1
    requires forall k :: 14 <= k < 14 + MaskSize(|args|) ==> h[k] == 0
    ensures Head(h, args, 0, id)
  {
    hide Prefix;
    NoNulls(args, h[14..14 + MaskSize(|args|)]);
    assert args[..0] == [];
  }

  lemma NoNulls(args: seq<Arg>, m: bytes)
    requires forall j :: 0 <= j < |m| ==> m[j] == 0
    ensures m == Mask(args[..0], |m|)
  {
    forall j | 0 <= j < |m|
      ensures MaskByte(args[..0], j) == 0
    {
      NoBits(args[..0], 8 * j, 8);
    }
  }

  lemma {:induction false} NoBits(args: seq<Arg>, from: nat, width: nat)
    requires args == []
    ensures Bits(args, from, width) == 0
    decreases width
  {
    if width > 0 {
      NoBits(args, from + 1, width - 1);
    }
  }

  lemma NoneYet(args: seq<Arg>, id: nat, threshold: nat, size: nat, sent: bytes)
    requires size > 0
    ensures Inlines(args[..0], threshold) == []
    ensures sent == sent + Wire(LongCommands(args[..0], id, threshold, size))
  {
    WireNone(sent);
  }

  /** What one more argument adds to the values and to what is sent ahead. */
  lemma OneMore(args: seq<Arg>, i: nat, id: nat, threshold: nat, size: nat, sent: bytes)
    requires size > 0 && i < |args| && ValidArgs(args)
    ensures Inlines(args[..i + 1], threshold) == Inlines(args[..i], threshold) + Inline(args[i], threshold)
    ensures sent + Wire(LongCommands(args[..i + 1], id, threshold, size)) ==
            sent + Wire(LongCommands(args[..i], id, threshold, size)) + Wire(OneLong(args[i], id, i, threshold, size))
  {
    hide Inline, OneLong, Wire;
    assert args[..i + 1][..i] == args[..i];
    WireAppend(LongCommands(args[..i], id, threshold, size), OneLong(args[i], id, i, threshold, size));
  }

  lemma NullAddsNothing(a: Arg, id: nat, param: nat, threshold: nat, size: nat, sent: bytes)
    requires size > 0 && IsNull(a)
    ensures Inline(a, threshold) == [] && sent == sent + Wire(OneLong(a, id, param, threshold, size))
  {
  }

  lemma AllArgs(head: bytes, args: seq<Arg>, id: nat, threshold: nat)
    requires args != [] && ValidArgs(args) && Head(head, args, |args|, id)
    ensures head[4..] + Inlines(args, threshold) == Execute(args, id, threshold)
  {
    hide Inlines, Mask, Types, Prefix;
    var m := MaskSize(|args|);
    assert args[..|args|] == args;
    assert head[4..] == head[4..14] + (head[14..14 + m] + ([head[14 + m]] + head[15 + m..]));
    assert head[15 + m..15 + m + 2 * |args|] == head[15 + m..];
    assert head[4..] + Inlines(args, threshold) ==
      Prefix(id) + (Mask(args, m) + ([1] + (Types(args) + Inlines(args, threshold))));
  }

  lemma WireNone(sent: bytes)
    ensures sent + Wire([]) == sent
  {
  }

  /** The contribution of an argument that is not NULL, case by case. */
  lemma LongCases(a: Arg, id: nat, param: nat, threshold: nat, size: nat)
    requires size > 0
    ensures OneLong(a, id, param, threshold, size) == if IsLong(a, threshold) then LongData(a.data, id, param, size) else []
  {
  }

  lemma InlineCases(a: Arg, threshold: nat)
    requires ValidArg(a) && !IsNull(a) && !a.Unsupported?
    ensures a.Int? ==> Inline(a, threshold) == LittleEndian(Unsigned(a.value), 8)
    ensures a.Float? ==> Inline(a, threshold) == LittleEndian(a.bits, 8)
    ensures a.Bool? ==> Inline(a, threshold) == [if a.on then 1 else 0]
    ensures a.Time? ==> Inline(a, threshold) == String(a.text)
    ensures a.Slice? || a.Str? ==> Inline(a, threshold) == if |a.data| < threshold then String(a.data) else []
  {
  }

  lemma FourBytes(n: nat)
    ensures LittleEndian(n, 4) == [n % 256, n / 256 % 256, n / 0x1_0000 % 256, n / 0x100_0000 % 256]
  {
    assert LittleEndian(n / 0x100_0000, 1) == [n / 0x100_0000 % 256];
    assert n / 256 / 256 / 256 == n / 0x100_0000;
    assert LittleEndian(n / 0x1_0000, 2) == [n / 0x1_0000 % 256] + LittleEndian(n / 0x1_0000 / 256, 1);
    assert LittleEndian(n / 256, 3) == [n / 256 % 256] + LittleEndian(n / 256 / 256, 2);
  }

  lemma TwoBytes(n: nat)
    ensures LittleEndian(n, 2) == [n % 256, n / 256 % 256]
  {
    assert LittleEndian(n / 256, 1) == [n / 256 % 256];
  }

  /** One round of the loop that sends an argument ahead. */
  lemma LongRoundsStep(arg: bytes, id: nat, param: nat, limit: int, rounds: nat, sent: bytes)
    requires arg != []
    ensures var run, pktLen := LongRounds(arg, id, param, limit, rounds), PacketLength(|arg|, limit);
            if rounds == 0 then run.outcome == GoesOn && sent + Wire(run.payloads) == sent
            else if pktLen < 0 then run.outcome == Panics && sent + Wire(run.payloads) == sent
            else
              var now := sent + Frames((LongHeader(id, param) + arg)[..pktLen], 0);
              if pktLen < 7 then run.outcome == Panics && sent + Wire(run.payloads) == now
              else
                var later := LongRounds(arg[pktLen - 7..], id, param, limit, rounds - 1);
                run.outcome == later.outcome && sent + Wire(run.payloads) == now + Wire(later.payloads)
  {
    hide Frames, LongHeader, Wire;
    WireNone(sent);
    var pktLen := PacketLength(|arg|, limit);
    if rounds > 0 && pktLen >= 0 {
      var command := (LongHeader(id, param) + arg)[..pktLen];
      WireOne(command, []);
      if pktLen >= 7 {
        WireOne(command, LongRounds(arg[pktLen - 7..], id, param, limit, rounds - 1).payloads);
      }
    }
  }

  lemma SupportedMore(args: seq<Arg>, i: nat)
    requires i < |args| && ValidArgs(args)
    ensures Supported(args[..i + 1]) <==> Supported(args[..i]) && !args[i].Unsupported?
    ensures Supported(args) ==> !args[i].Unsupported?
  {
    assert args[..i + 1] == args[..i] + [args[i]];
    assert args[i] in args[..i + 1] && args[i] in args;
  }

  lemma NoneUnsupported(args: seq<Arg>)
    ensures Supported([])
    ensures args == [] ==> Supported(args)
  {
  }

  lemma NoRounds(id: nat, param: nat, limit: int, rounds: nat, sent: bytes)
    ensures var run := LongRounds([], id, param, limit, rounds); run.outcome == Ended(Sent) && sent + Wire(run.payloads) == sent
  {
    WireNone(sent);
  }

  lemma NeverTooLarge(payload: bytes, seqNo: byte, writes: seq<WriteEvent>, canceled: bool)
    ensures WriteAll(payload, seqNo, writes, canceled).result != PacketTooLarge
    decreases |payload|
  {
    if |payload| >= MAX_PACKET_SIZE {
      NeverTooLarge(payload[MAX_PACKET_SIZE..], NextSequence(seqNo), LaterWrites(writes), canceled);
    }
  }

  /** n with bit k set. */
  function SetBit(n: nat, k: nat): nat {
    if k == 0 then if n % 2 == 1 then n else n + 1
    else n % 2 + 2 * SetBit(n / 2, k - 1)
  }

  lemma {:induction false} SetBitSmall(n: nat, k: nat, width: nat)
    requires k < width && n < Pow2(width)
    ensures SetBit(n, k) < Pow2(width)
  {
    if k > 0 {
      SetBitSmall(n / 2, k - 1, width - 1);
    }
  }

  lemma SetBitByte(b: byte, k: nat)
    requires k < 8
    ensures SetBit(b, k) < 256
  {
    assert Pow2(8) == 256 by { assert Pow2(4) == 16; }
    SetBitSmall(b, k, 8);
  }

  function HeadSize(count: nat): nat {
    15 + MaskSize(count) + 2 * count
  }

  /** All before the values, as far as the first i arguments go. */
  predicate Head(h: bytes, args: seq<Arg>, i: nat, id: nat)
    requires i <= |args|
  {
    var m := MaskSize(|args|);
    && |h| == HeadSize(|args|)
    && h[4..14] == Prefix(id) && h[14..14 + m] == Mask(args[..i], m) && h[14 + m] == 1
    && h[15 + m..15 + m + 2 * i] == Types(args[..i])
  }

  /** One more argument sets one bit, if it is NULL. */
  lemma {:induction false} BitsStep(args: seq<Arg>, i: nat, from: nat, width: nat)
    requires i < |args|
    ensures Bits(args[..i + 1], from, width) ==
            if from <= i < from + width && IsNull(args[i]) then SetBit(Bits(args[..i], from, width), i - from)
            else Bits(args[..i], from, width)
    decreases width
  {
    hide IsNull;
    if width > 0 {
      BitStep(args, i, from);
      BitsStep(args, i, from + 1, width - 1);
      hide Bit;
      assert Bits(args[..i], from, width) / 2 == Bits(args[..i], from + 1, width - 1);
    }
  }

  lemma MaskStep(args: seq<Arg>, i: nat, j: nat)
    requires i < |args|
    ensures MaskByte(args[..i + 1], j) as int ==
            if j == i / 8 && IsNull(args[i]) then SetBit(MaskByte(args[..i], j), i % 8) else MaskByte(args[..i], j)
  {
    hide Bits, SetBit, IsNull;
    BitsStep(args, i, 8 * j, 8);
    assert j == i / 8 <==> 8 * j <= i < 8 * j + 8;
    assert j == i / 8 ==> i - 8 * j == i % 8;
  }

  lemma BitStep(args: seq<Arg>, i: nat, k: nat)
    requires i < |args|
    ensures Bit(args[..i + 1], k) == (if k == i && IsNull(args[i]) then 1 else Bit(args[..i], k))
    ensures k >= i ==> Bit(args[..i], k) == 0
  {
  }

  /** The two agree but at position a, at position b and behind it. */
  predicate SameBut(h: bytes, h': bytes, a: nat, b: nat) {
    |h'| == |h| && forall k :: 0 <= k < |h| && k != a && k != b && k != b + 1 ==> h'[k] == h[k]
  }

  lemma MaskNext(before: bytes, after: bytes, args: seq<Arg>, i: nat, m: nat)
    requires i < |args| && i / 8 < m == |after| && before == Mask(args[..i], m)
    requires forall j :: 0 <= j < m && j != i / 8 ==> after[j] == before[j]
    requires after[i / 8] as int == (if IsNull(args[i]) then SetBit(before[i / 8], i % 8) else before[i / 8])
    ensures after == Mask(args[..i + 1], m)
  {
    hide IsNull, SetBit, MaskByte;
    forall j | 0 <= j < m
      ensures after[j] == MaskByte(args[..i + 1], j)
    {
      MaskStep(args, i, j);
      assert before[j] == MaskByte(args[..i], j);
    }
  }

  lemma TypesNext(args: seq<Arg>, i: nat)
    requires i < |args|
    ensures Types(args[..i + 1]) == Types(args[..i]) + [TypeOf(args[i]), 0]
  {
    hide TypeOf;
    assert args[..i + 1][..i] == args[..i];
  }

  lemma HeadNext(h: bytes, h': bytes, args: seq<Arg>, i: nat, id: nat)
    requires i < |args| && Head(h, args, i, id) && |h'| == |h|
    requires SameBut(h, h', 14 + i / 8, 15 + MaskSize(|args|) + 2 * i)
    requires h'[14 + i / 8] as int == (if IsNull(args[i]) then SetBit(h[14 + i / 8], i % 8) else h[14 + i / 8])
    requires var t := 15 + MaskSize(|args|) + 2 * i; h'[t] == TypeOf(args[i]) && h'[t + 1] == 0
    ensures Head(h', args, i + 1, id)
  {
    hide TypeOf, IsNull, SetBit, Mask, Types, Prefix;
    var m, t := MaskSize(|args|), 15 + MaskSize(|args|) + 2 * i;
    assert i / 8 < m;
    var before, after := h[14..14 + m], h'[14..14 + m];
    assert forall j :: 0 <= j < m ==> before[j] == h[14 + j] && after[j] == h'[14 + j];
    MaskNext(before, after, args, i, m);
    TypesNext(args, i);
    assert h'[15 + m..t] == h[15 + m..t];
    assert h'[15 + m..t + 2] == h'[15 + m..t] + [h'[t], h'[t + 1]];
    assert h'[4..14] == h[4..14];
  }

  /** Nothing sent ahead is empty or longer than the packet limit less one. */
  lemma {:induction false} LongCommandsBounds(args: seq<Arg>, id: nat, threshold: nat, size: nat)
    requires size > 0
    ensures forall p :: p in LongCommands(args, id, threshold, size) ==> 7 < |p| <= 7 + size
  {
    if args != [] {
      LongCommandsBounds(args[..|args| - 1], id, threshold, size);
      var a := args[|args| - 1];
      if IsLong(a, threshold) {
        LongDataBounds(a.data, id, |args| - 1, size);
      }
    }
  }

  /**
   From the wire to the arguments: whatever follows, the server reads exactly the commands that were sent, none of those
   sent ahead exceeds the packet limit, and together with the last one they give every argument back.
   */
  lemma ServerGetsArguments(args: seq<Arg>, id: nat, paramCount: nat, maxAllowedPacket: nat, rest: bytes)
    requires maxAllowedPacket >= 9 && Supported(args) && |args| <= 0x1_0000
    ensures var commands := Commands(args, id, paramCount, maxAllowedPacket);
            var ahead, last := commands[..|commands| - 1], commands[|commands| - 1];
            var long := TakeLong(ahead, id, map[]);
            && ReadCommands(Wire(commands) + rest, |commands|) == Some((commands, rest))
            && (forall p :: p in ahead ==> |p| <= maxAllowedPacket - 1)
            && long.Some? && TakeExecute(last, id, |args|, long.value) == Some(MeantAll(args, 0))
  {
    hide TakeLong, TakeExecute, Execute, LongCommands, Wire, ReadCommands, MeantAll, Threshold;
    var threshold, size := Threshold(maxAllowedPacket, paramCount), maxAllowedPacket - 8;
    var commands, ahead := Commands(args, id, paramCount, maxAllowedPacket), LongCommands(args, id, threshold, size);
    LongCommandsBounds(args, id, threshold, size);
    ExecuteNotEmpty(args, id, threshold);
    assert commands[..|commands| - 1] == ahead;
    WireRead(commands, rest);
    StatementRecovered(args, id, threshold, size);
  }

  lemma ExecuteNotEmpty(args: seq<Arg>, id: nat, threshold: nat)
    requires ValidArgs(args)
    ensures Execute(args, id, threshold) != []
  {
    assert |Prefix(id)| == 10;
  }
}
