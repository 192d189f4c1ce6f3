/**
 Packets of the MySQL client/server protocol (sections "MySQL Packets" and
 "Sending more than 16Mbyte"): a payload is cut into chunks of 2^24-1 bytes, the
 last of them shorter and possibly empty, each behind a header of three length
 bytes and a sequence number.
 */
module MySqlPackets {
  import opened Bytes
  import opened MySqlBuffer

  datatype WriteResult = Sent | PacketTooLarge | NotWritten | WriteInvalidConn | WriteCanceled

  datatype ReadResult = Packet(payload: bytes) | OutOfSync(multiple: bool) | ReadInvalidConn | ReadCanceled

  function NextSequence(seqNo: byte): byte {
    (seqNo as int + 1) % 256
  }

  function Advance(seqNo: byte, count: nat): byte {
    (seqNo as int + count) % 256
  }

  function Header(size: nat, seqNo: byte): (h: bytes)
    ensures |h| == 4
  {
    [size % 256, size / 256 % 256, size / 0x1_0000 % 256, seqNo]
  }

  function HeaderSize(h: bytes): (size: nat)
    requires |h| == 4
    ensures size <= MAX_PACKET_SIZE
  {
    var h0: int, h1: int, h2: int := h[0], h[1], h[2];
    h0 + 256 * h1 + 0x1_0000 * h2
  }

  lemma HeaderRoundTrip(size: nat, seqNo: byte)
    requires size <= MAX_PACKET_SIZE
    ensures HeaderSize(Header(size, seqNo)) == size && Header(size, seqNo)[3] == seqNo
  {
    assert size / 256 == size / 0x1_0000 * 256 + size / 256 % 256;
  }

  /** The bytes that carry a payload, starting at a sequence number. */
  function Frames(payload: bytes, seqNo: byte): (wire: bytes)
    ensures |wire| >= 4
    decreases |payload|
  {
    if |payload| < MAX_PACKET_SIZE then Header(|payload|, seqNo) + payload
    else
      Header(MAX_PACKET_SIZE, seqNo) + payload[..MAX_PACKET_SIZE]
      + Frames(payload[MAX_PACKET_SIZE..], NextSequence(seqNo))
  }

  function FrameCount(payload: bytes): nat {
    |payload| / MAX_PACKET_SIZE + 1
  }

  /** What a reader makes of a stream: a payload with the rest, or the reason why there is none. */
  datatype Parsed = Whole(payload: bytes, rest: bytes, next: byte) | BadSync(multiple: bool) | Cut | Nothing

  function Parse(stream: bytes, seqNo: byte, prev: bytes): Parsed
    decreases |stream|
  {
    if |stream| < 4 then Cut
    else if stream[3] != seqNo then BadSync(stream[3] > seqNo)
    else
      var size, next := HeaderSize(stream[..4]), NextSequence(seqNo);
      if size == 0 then if prev == [] then Nothing else Whole(prev, stream[4..], next)
      else if |stream| < 4 + size then Cut
      else if size < MAX_PACKET_SIZE then Whole(prev + stream[4..4 + size], stream[4 + size..], next)
      else Parse(stream[4 + size..], next, prev + stream[4..4 + size])
  }

  /** The answer to a read whose stream parses like this, over a network that does not fail. */
  function Outcome(parsed: Parsed, canceled: bool): ReadResult {
    match parsed
    case Whole(payload, _, _) => Packet(payload)
    case BadSync(multiple) => OutOfSync(multiple)
    case Cut => if canceled then ReadCanceled else ReadInvalidConn
    case Nothing => ReadInvalidConn
  }

  /** One unfolding of Parse, cut the way the reader cuts the stream. */
  lemma ParseStep(stream: bytes, seqNo: byte, prev: bytes)
    ensures |stream| < 4 ==> Parse(stream, seqNo, prev) == Cut
    ensures |stream| >= 4 ==>
      var h, body, next := stream[..4], stream[4..], NextSequence(seqNo);
      var size := HeaderSize(h);
      Parse(stream, seqNo, prev) ==
        if h[3] != seqNo then BadSync(h[3] > seqNo)
        else if size == 0 then if prev == [] then Nothing else Whole(prev, body, next)
        else if |body| < size then Cut
        else if size < MAX_PACKET_SIZE then Whole(prev + body[..size], body[size..], next)
        else Parse(body[size..], next, prev + body[..size])
  {
    hide HeaderSize;
    if |stream| >= 4 {
      var body, size := stream[4..], HeaderSize(stream[..4]);
      if |body| >= size {
        assert body[..size] == stream[4..4 + size] && body[size..] == stream[4 + size..];
      }
    }
  }

  /** One frame is read off the front of the stream. */
  lemma ParseOne(head: bytes, more: bytes, seqNo: byte, prev: bytes)
    requires |head| <= MAX_PACKET_SIZE
    ensures Parse(Header(|head|, seqNo) + head + more, seqNo, prev) ==
            if |head| == MAX_PACKET_SIZE then Parse(more, NextSequence(seqNo), prev + head)
            else if prev + head == [] then Nothing
            else Whole(prev + head, more, NextSequence(seqNo))
  {
    hide Header, HeaderSize;
    var h, stream := Header(|head|, seqNo), Header(|head|, seqNo) + head + more;
    HeaderRoundTrip(|head|, seqNo);
    assert stream[..4] == h && stream[3] == h[3];
    assert stream[4..4 + |head|] == head && stream[4 + |head|..] == more;
    assert |head| == 0 ==> prev + head == prev;
  }

  /**
   Reading what was written gives the payload back and leaves the rest, for every payload but the
   empty one; the sequence number has advanced once for every frame.
   */
  lemma {:induction false} ParseFrames(payload: bytes, seqNo: byte, rest: bytes, prev: bytes)
    ensures Parse(Frames(payload, seqNo) + rest, seqNo, prev) ==
            if prev + payload == [] then Nothing
            else Whole(prev + payload, rest, Advance(seqNo, FrameCount(payload)))
    decreases |payload|
  {
    hide Parse, Header, Frames, NextSequence, Advance, FrameCount;
    FramesOne(payload, seqNo, rest);
    FrameCountTail(payload, seqNo);
    if |payload| < MAX_PACKET_SIZE {
      ParseOne(payload, rest, seqNo, prev);
    } else {
      var head, tail := payload[..MAX_PACKET_SIZE], payload[MAX_PACKET_SIZE..];
      ParseOne(head, Frames(tail, NextSequence(seqNo)) + rest, seqNo, prev);
      ParseFrames(tail, NextSequence(seqNo), rest, prev + head);
      assert prev + head + tail == prev + payload;
    }
  }

  /** One unfolding of Frames, with what follows it. */
  lemma FramesOne(payload: bytes, seqNo: byte, rest: bytes)
    ensures Frames(payload, seqNo) + rest ==
            if |payload| < MAX_PACKET_SIZE then Header(|payload|, seqNo) + payload + rest
            else
              Header(MAX_PACKET_SIZE, seqNo) + payload[..MAX_PACKET_SIZE]
              + (Frames(payload[MAX_PACKET_SIZE..], NextSequence(seqNo)) + rest)
  {
    hide Header;
  }

  lemma FrameCountTail(payload: bytes, seqNo: byte)
    ensures |payload| < MAX_PACKET_SIZE ==> Advance(seqNo, FrameCount(payload)) == NextSequence(seqNo)
    ensures |payload| >= MAX_PACKET_SIZE ==>
      Advance(seqNo, FrameCount(payload)) == Advance(NextSequence(seqNo), FrameCount(payload[MAX_PACKET_SIZE..]))
  {
  }

  /** What writing a payload does, for every way the network may behave: the answer, the bytes sent, the next sequence number. */
  datatype WriteRun = WriteRun(result: WriteResult, wire: bytes, next: byte, closes: bool, later: seq<WriteEvent>) {
    /** The same run with these bytes sent before it. */
    function Behind(sent: bytes): WriteRun {
      this.(wire := sent + wire)
    }
  }

  function WriteAll(payload: bytes, seqNo: byte, writes: seq<WriteEvent>, canceled: bool): WriteRun
    decreases |payload|
  {
    var size := Min(|payload|, MAX_PACKET_SIZE);
    var frame := Header(size, seqNo) + payload[..size];
    var event, later := NextWrite(writes), LaterWrites(writes);
    var n := if event.Full? then |frame| else Min(event.count, |frame|);
    var failed := event.Partial? && event.failed;
    if !failed && n == |frame| then
      if size != MAX_PACKET_SIZE then WriteRun(Sent, frame, NextSequence(seqNo), false, later)
      else WriteAll(payload[size..], NextSequence(seqNo), later, canceled).Behind(frame)
    else if !failed then WriteRun(WriteInvalidConn, frame[..n], seqNo, true, later)
    else if canceled then WriteRun(WriteCanceled, frame[..n], seqNo, false, later)
    else if n == 0 then WriteRun(NotWritten, [], seqNo, false, later)
    else WriteRun(WriteInvalidConn, frame[..n], seqNo, true, later)
  }

  predicate TakesAll(writes: seq<WriteEvent>) {
    forall w :: w in writes ==> w.Full?
  }

  /** Over a network that takes every write, every payload is sent. */
  lemma {:induction false} FullNetworkSends(payload: bytes, seqNo: byte, writes: seq<WriteEvent>, canceled: bool)
    requires TakesAll(writes)
    ensures var run := WriteAll(payload, seqNo, writes, canceled); run.result == Sent && TakesAll(run.later)
    decreases |payload|
  {
    hide WriteAll, Header;
    WriteOne(payload, seqNo, writes, canceled);
    if |payload| >= MAX_PACKET_SIZE {
      FullNetworkSends(payload[MAX_PACKET_SIZE..], NextSequence(seqNo), LaterWrites(writes), canceled);
    }
  }

  /** A write that succeeds has put exactly the frames of the payload on the wire. */
  lemma {:induction false} SentMeansFrames(payload: bytes, seqNo: byte, writes: seq<WriteEvent>, canceled: bool)
    ensures var run := WriteAll(payload, seqNo, writes, canceled);
            run.result == Sent ==>
              run.wire == Frames(payload, seqNo) && run.next == Advance(seqNo, FrameCount(payload))
    decreases |payload|
  {
    hide WriteAll, Header, NextWrite, LaterWrites, Frames, NextSequence, Advance, FrameCount;
    var size := Min(|payload|, MAX_PACKET_SIZE);
    var frame := Header(size, seqNo) + payload[..size];
    WriteOne(payload, seqNo, writes, canceled);
    FramesOne(payload, seqNo, []);
    FrameCountTail(payload, seqNo);
    assert frame[..|frame|] == frame && Frames(payload, seqNo) + [] == Frames(payload, seqNo);
    if size == MAX_PACKET_SIZE {
      SentMeansFrames(payload[size..], NextSequence(seqNo), LaterWrites(writes), canceled);
    } else {
      assert payload[..size] == payload;
    }
  }

  /**
   Whatever one side sent without error, followed by anything, the other side reads back as that very
   payload, unless it is empty; both sides then agree on the sequence number.
   */
  lemma PacketRoundTrip(payload: bytes, seqNo: byte, writes: seq<WriteEvent>, canceled: bool, rest: bytes)
    requires WriteAll(payload, seqNo, writes, canceled).result == Sent
    ensures var run := WriteAll(payload, seqNo, writes, canceled);
            && (Parse(run.wire + rest, seqNo, []) == Whole(payload, rest, run.next) <==> payload != [])
            && run.next == Advance(seqNo, |payload| / MAX_PACKET_SIZE + 1)
  {
    SentMeansFrames(payload, seqNo, writes, canceled);
    ParseFrames(payload, seqNo, rest, []);
    assert [] + payload == payload;
  }

  /**
   NotWritten tells the caller that it may safely retry on another connection. It is
   meant for the first frame only, but the source's test for the first frame compares two
   numbers that shrink together, so the promise holds just for payloads of a single frame.
   */
  lemma NotWrittenPromise(payload: bytes, seqNo: byte)
    ensures (forall writes :: WriteAll(payload, seqNo, writes, false).result == NotWritten ==>
              WriteAll(payload, seqNo, writes, false).wire == [])
            <==> |payload| < MAX_PACKET_SIZE
  {
    if |payload| >= MAX_PACKET_SIZE {
      var writes := [Full, Partial(0, true)];
      var more := WriteAll(payload[MAX_PACKET_SIZE..], NextSequence(seqNo), LaterWrites(writes), false);
      assert LaterWrites(writes) == [Partial(0, true)];
      assert more.result == NotWritten;
      assert WriteAll(payload, seqNo, writes, false).result == NotWritten;
      assert |WriteAll(payload, seqNo, writes, false).wire| > 0;
    }
  }

  class Conn {
    const net: Net
    const buf: Buffer
    var maxAllowedPacket: int
    var sequence: byte
    var closed: bool
    var canceled: bool

    ghost predicate Valid()
      reads this, buf
    {
      buf.nc == net && buf.Valid()
    }

    constructor (net: Net, maxAllowedPacket: int)
      ensures Valid() && this.net == net && fresh(buf) && fresh(buf.buf) && buf.Unread() == []
      ensures this.maxAllowedPacket == maxAllowedPacket && sequence == 0 && !closed && !canceled
    {
      this.net := net;
      this.buf := new Buffer(net);
      this.maxAllowedPacket, this.sequence, closed, canceled := maxAllowedPacket, 0, false, false;
    }

    /** Writes a header over whatever four bytes are there. */
    method PutHeader(data: array<byte>, at: nat, size: nat)
      requires at + 4 <= data.Length && size <= MAX_PACKET_SIZE
      modifies data
      ensures data[at..at + 4] == Header(size, sequence)
      ensures forall i :: 0 <= i < at || at + 4 <= i < data.Length ==> data[i] == old(data[i])
    {
      if size >= MAX_PACKET_SIZE {
        data[at], data[at + 1], data[at + 2] := 0xff, 0xff, 0xff;
      } else {
        data[at], data[at + 1], data[at + 2] := size % 256, size / 256 % 256, size / 0x1_0000 % 256;
      }
      data[at + 3] := sequence;
    }

    /** Puts a header in front of size payload bytes and sends both. */
    method WriteFrame(data: array<byte>, at: nat, size: nat) returns (n: nat, failed: bool)
      requires at + 4 + size <= data.Length && size <= MAX_PACKET_SIZE
      modifies net`sent, net`writeScript, data
      ensures var frame := Header(size, sequence) + old(data[at + 4..at + 4 + size]);
              var event := NextWrite(old(net.writeScript));
              && n == (if event.Full? then |frame| else Min(event.count, |frame|))
              && failed == (event.Partial? && event.failed)
              && net.sent == old(net.sent) + frame[..n]
      ensures net.writeScript == LaterWrites(old(net.writeScript))
      ensures forall i :: 0 <= i < at || at + 4 <= i < data.Length ==> data[i] == old(data[i])
    {
      hide Header, NextWrite, LaterWrites;
      PutHeader(data, at, size);
      ghost var frame := data[at..at + 4 + size];
      assert frame == Header(size, sequence) + old(data[at + 4..at + 4 + size]) by {
        assert frame == data[at..at + 4] + data[at + 4..at + 4 + size];
        assert data[at + 4..at + 4 + size] == old(data[at + 4..at + 4 + size]);
      }
      n, failed := net.Write(data, at, at + 4 + size);
    }

    /**
     Sends data[lo + 4..hi] as one packet; the four bytes before it are room for a header. Further
     headers are written into the same memory, over bytes that have gone out already.
     */
    method WritePacket(data: array<byte>, lo: nat, hi: nat) returns (result: WriteResult)
      requires lo + 4 <= hi <= data.Length
      modifies this`sequence, this`closed, net`sent, net`writeScript, data
      ensures hi - lo - 4 > maxAllowedPacket ==>
        result == PacketTooLarge && net.sent == old(net.sent) && sequence == old(sequence)
        && closed == old(closed) && net.writeScript == old(net.writeScript) && data[..] == old(data[..])
      ensures hi - lo - 4 <= maxAllowedPacket ==>
        var run := WriteAll(old(data[lo + 4..hi]), old(sequence), old(net.writeScript), canceled).Behind(old(net.sent));
        && result == run.result && sequence == run.next && net.sent == run.wire
        && closed == (old(closed) || run.closes) && net.writeScript == run.later
      ensures forall i :: 0 <= i < lo || hi <= i < data.Length ==> data[i] == old(data[i])
    {
      hide WriteAll, Header, NextSequence, NextWrite, LaterWrites;
      var pktLen := hi - lo - 4;
      if pktLen > maxAllowedPacket {
        return PacketTooLarge;
      }
      ghost var payload := data[lo + 4..hi];
      ghost var goal := WriteAll(payload, sequence, net.writeScript, canceled).Behind(net.sent);
      assert payload[0..] == payload;
      var at := lo;
      while true
        invariant lo <= at && at + 4 + pktLen == hi && 0 <= pktLen
        invariant closed == old(closed)
        invariant goal == WriteAll(payload[at - lo..], sequence, net.writeScript, canceled).Behind(net.sent)
        invariant forall i :: 0 <= i < lo || at + 4 <= i < data.Length ==> data[i] == old(data[i])
        decreases pktLen
      {
        ghost var rest := payload[at - lo..];
        var size := Min(pktLen, MAX_PACKET_SIZE);
        ghost var frame := Header(size, sequence) + rest[..size];
        assert data[at + 4..at + 4 + size] == rest[..size];
        WriteOne(rest, sequence, net.writeScript, canceled);
        BehindTwice(WriteAll(rest[size..], NextSequence(sequence), LaterWrites(net.writeScript), canceled), frame, net.sent);
        var n, failed := WriteFrame(data, at, size);
        if !failed && n == 4 + size {
          assert frame[..n] == frame;
          sequence := NextSequence(sequence);
          if size != MAX_PACKET_SIZE {
            return Sent;
          }
          pktLen := pktLen - size;
          at := at + size;
          assert payload[at - lo..] == rest[size..];
          continue;
        }
        if !failed {
          closed := true;
          return WriteInvalidConn;
        }
        if canceled {
          return WriteCanceled;
        }
        if n == 0 && pktLen == hi - at - 4 {
          return NotWritten;
        }
        closed := true;
        return WriteInvalidConn;
      }
    }

    /**
     Reads one packet. A packet is returned only if it is what the stream says, however
     the network behaves; when the network does not fail, the stream decides every outcome.
     A read that finds the connection broken closes it, saying goodbye if it can.
     */
    method ReadPacket() returns (result: ReadResult)
      requires Valid()
      modifies this`sequence, this`closed, buf`buf, buf`idx, buf`length, buf.buf, net`pending, net`readScript, net`sent, net`writeScript
      ensures Valid() && (buf.buf == old(buf.buf) || fresh(buf.buf))
      ensures result.Packet? ==> Parse(old(buf.Stream()), old(sequence), []) == Whole(result.payload, buf.Stream(), sequence)
      ensures Faultless(old(net.readScript)) ==>
        Faultless(net.readScript) && result == Outcome(Parse(old(buf.Stream()), old(sequence), []), canceled)
      ensures closed == (old(closed) || result == ReadInvalidConn)
      ensures old(closed) || result != ReadInvalidConn ==> net.sent == old(net.sent) && net.writeScript == old(net.writeScript)
      ensures IsGoodbye(old(net.sent), net.sent)
    {
      hide Parse, Faultless, HeaderSize, NextSequence, Buffer.Unread, Buffer.Stream, IsGoodbye;
      NoGoodbye(net.sent);
      var prevData: bytes := [];
      ghost var goal := Parse(buf.Stream(), sequence, []);
      while true
        invariant Valid() && (buf.buf == old(buf.buf) || fresh(buf.buf))
        invariant goal == Parse(buf.Stream(), sequence, prevData)
        invariant Faultless(old(net.readScript)) ==> Faultless(net.readScript)
        invariant closed == old(closed) && net.sent == old(net.sent) && net.writeScript == old(net.writeScript)
        decreases |buf.Stream()|
      {
        ParseStep(buf.Stream(), sequence, prevData);
        var data, err := buf.ReadNext(4);
        if err != NoError {
          result := Broken();
          return;
        }
        ghost var stream := data + buf.Stream();
        assert stream[..4] == data && stream[4..] == buf.Stream();
        var pktLen := HeaderSize(data);
        if data[3] != sequence {
          return OutOfSync(data[3] > sequence);
        }
        sequence := NextSequence(sequence);
        if pktLen == 0 {
          if prevData == [] {
            Close();
            return ReadInvalidConn;
          }
          return Packet(prevData);
        }
        ghost var rest := buf.Stream();
        data, err := buf.ReadNext(pktLen);
        if err != NoError {
          result := Broken();
          return;
        }
        assert rest[..pktLen] == data && rest[pktLen..] == buf.Stream();
        if pktLen < MAX_PACKET_SIZE {
          return Packet(prevData + data);
        }
        prevData := prevData + data;
      }
    }

    /** The answer to a read that failed: the cancellation, if there was one, or else the end of the connection. */
    method Broken() returns (result: ReadResult)
      requires Valid()
      modifies this`sequence, this`closed, net`sent, net`writeScript, buf.buf
      ensures Valid() && result == (if canceled then ReadCanceled else ReadInvalidConn)
      ensures closed == (old(closed) || !canceled)
      ensures old(closed) || canceled ==> net.sent == old(net.sent) && net.writeScript == old(net.writeScript)
      ensures IsGoodbye(old(net.sent), net.sent)
    {
      if canceled {
        NoGoodbye(net.sent);
        return ReadCanceled;
      }
      Close();
      return ReadInvalidConn;
    }

    /** Says goodbye and closes the connection, the first time it is called. */
    method Close()
      requires Valid()
      modifies this`sequence, this`closed, net`sent, net`writeScript, buf.buf
      ensures Valid() && closed
      ensures old(closed) ==> net.sent == old(net.sent) && net.writeScript == old(net.writeScript) && sequence == old(sequence)
      ensures !old(closed) && (old(buf.Unread()) != [] || maxAllowedPacket < 1) ==>
        net.sent == old(net.sent) && net.writeScript == old(net.writeScript) && sequence == 0
      ensures !old(closed) && old(buf.Unread()) == [] && maxAllowedPacket >= 1 ==>
        var run := WriteAll([COM_QUIT], 0, old(net.writeScript), canceled).Behind(old(net.sent));
        net.sent == run.wire && net.writeScript == run.later && sequence == run.next
      ensures IsGoodbye(old(net.sent), net.sent)
    {
      hide WriteAll, IsGoodbye;
      NoGoodbye(net.sent);
      if !closed {
        Goodbye(net.sent, net.writeScript, canceled);
        var result := WriteCommandPacket(COM_QUIT);
      }
      closed := true;
    }

    /** Sends a command of one byte. */
    method WriteCommandPacket(command: byte) returns (result: WriteResult)
      requires Valid()
      modifies this`sequence, this`closed, net`sent, net`writeScript, buf.buf
      ensures Valid()
      ensures old(buf.Unread()) != [] ==>
        result == NotWritten && sequence == 0 && closed == old(closed) && net.sent == old(net.sent) && net.writeScript == old(net.writeScript)
      ensures old(buf.Unread()) == [] && maxAllowedPacket < 1 ==>
        result == PacketTooLarge && sequence == 0 && closed == old(closed) && net.sent == old(net.sent) && net.writeScript == old(net.writeScript)
      ensures old(buf.Unread()) == [] && maxAllowedPacket >= 1 ==>
        var run := WriteAll([command], 0, old(net.writeScript), canceled).Behind(old(net.sent));
        && result == run.result && net.sent == run.wire && net.writeScript == run.later && sequence == run.next
        && closed == (old(closed) || run.closes)
    {
      hide WriteAll;
      sequence := 0;
      var data := buf.TakeSmallBuffer(5);
      if data == null {
        return NotWritten;
      }
      data[4] := command;
      assert data[0 + 4..5] == [command];
      result := WritePacket(data, 0, 5);
    }
  }

  const COM_QUIT: byte := 1

  /** At most one quit command, or the beginning of one, has been sent. */
  ghost predicate IsGoodbye(before: bytes, after: bytes) {
    exists part :: part <= Frames([COM_QUIT], 0) && after == before + part
  }

  lemma NoGoodbye(sent: bytes)
    ensures IsGoodbye(sent, sent)
  {
    assert sent + [] == sent && [] <= Frames([COM_QUIT], 0);
  }

  lemma Goodbye(sent: bytes, writes: seq<WriteEvent>, canceled: bool)
    ensures IsGoodbye(sent, WriteAll([COM_QUIT], 0, writes, canceled).Behind(sent).wire)
  {
    var payload: bytes := [COM_QUIT];
    assert payload[..1] == payload;
    assert WriteAll(payload, 0, writes, canceled).wire <= Frames(payload, 0);
  }

  lemma BehindTwice(run: WriteRun, frame: bytes, sent: bytes)
    ensures run.Behind(frame).Behind(sent) == run.Behind(sent + frame)
  {
    assert sent + (frame + run.wire) == sent + frame + run.wire;
  }

  /** One unfolding of WriteAll. */
  lemma WriteOne(payload: bytes, seqNo: byte, writes: seq<WriteEvent>, canceled: bool)
    ensures var size := Min(|payload|, MAX_PACKET_SIZE);
            var frame := Header(size, seqNo) + payload[..size];
            var event := NextWrite(writes);
            var n := if event.Full? then |frame| else Min(event.count, |frame|);
            var failed := event.Partial? && event.failed;
            var run := WriteAll(payload, seqNo, writes, canceled);
            if !failed && n == |frame| then
              if size != MAX_PACKET_SIZE then run == WriteRun(Sent, frame, NextSequence(seqNo), false, LaterWrites(writes))
              else run == WriteAll(payload[size..], NextSequence(seqNo), LaterWrites(writes), canceled).Behind(frame)
            else
              && run.next == seqNo && run.wire == frame[..n] && run.later == LaterWrites(writes)
              && run.closes == (!failed || (!canceled && n > 0))
              && run.result == (if !failed then WriteInvalidConn else if canceled then WriteCanceled
                                else if n == 0 then NotWritten else WriteInvalidConn)
  {
  }
}
