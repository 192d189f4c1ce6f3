/**
 A query's response as bytes on the connection: frames one after another, cut by the network into reads of any size.
 What a session makes of it is what it makes of the packets.
 */
module MySqlStream {
  import opened Bytes
  import opened MySqlBuffer
  import opened MySqlPackets
  import MySqlLenEnc
  import Results = MySqlResults

  /** The sequence number behind these packets. */
  function NumberBehind(packets: seq<bytes>, seqNo: byte): byte {
    if packets == [] then seqNo else NumberBehind(packets[1..], Advance(seqNo, FrameCount(packets[0])))
  }

  /** The frames of these packets, with the sequence numbers running on. */
  function AllFrames(packets: seq<bytes>, seqNo: byte): bytes {
    if packets == [] then [] else Frames(packets[0], seqNo) + AllFrames(packets[1..], Advance(seqNo, FrameCount(packets[0])))
  }

  lemma FirstPacket(packets: seq<bytes>, seqNo: byte, rest: bytes)
    requires packets != [] && packets[0] != []
    ensures var next := Advance(seqNo, FrameCount(packets[0]));
            Parse(AllFrames(packets, seqNo) + rest, seqNo, []) == Whole(packets[0], AllFrames(packets[1..], next) + rest, next)
  {
    hide Parse, Frames, Advance, FrameCount;
    var later := AllFrames(packets[1..], Advance(seqNo, FrameCount(packets[0])));
    ParseFrames(packets[0], seqNo, later + rest, []);
    assert [] + packets[0] == packets[0];
    assert AllFrames(packets, seqNo) + rest == Frames(packets[0], seqNo) + (later + rest);
  }

  /** Reads count packets: however the network cuts their bytes, these are the packets that were sent. */
  method Receive(mc: Conn, count: nat, ghost packets: seq<bytes>, ghost rest: bytes) returns (got: seq<bytes>)
    requires mc.Valid() && Faultless(mc.net.readScript)
    requires count == |packets| && forall p :: p in packets ==> p != []
    requires mc.buf.Stream() == AllFrames(packets, mc.sequence) + rest
    modifies mc`sequence, mc`closed, mc.buf`buf, mc.buf`idx, mc.buf`length, mc.buf.buf, mc.net`pending, mc.net`readScript,
      mc.net`sent, mc.net`writeScript
    ensures mc.Valid() && Faultless(mc.net.readScript)
    ensures got == packets && mc.buf.Stream() == rest && mc.closed == old(mc.closed) && mc.net.sent == old(mc.net.sent)
    ensures mc.sequence == NumberBehind(packets, old(mc.sequence))
  {
    hide Parse, Frames, Advance, FrameCount, Faultless, Buffer.Stream, AllFrames, NumberBehind;
    got := [];
    ghost var number := NumberBehind(packets, mc.sequence);
    assert packets[0..] == packets;
    for i := 0 to count
      invariant mc.Valid() && Faultless(mc.net.readScript) && mc.closed == old(mc.closed) && mc.net.sent == old(mc.net.sent)
      invariant mc.buf.buf == old(mc.buf.buf) || fresh(mc.buf.buf)
      invariant got == packets[..i]
      invariant mc.buf.Stream() == AllFrames(packets[i..], mc.sequence) + rest
      invariant NumberBehind(packets[i..], mc.sequence) == number
    {
      assert packets[i] in packets && packets[i..][0] == packets[i] && packets[i..][1..] == packets[i + 1..];
      FirstPacket(packets[i..], mc.sequence, rest);
      NumberOn(packets[i..], mc.sequence);
      var result := mc.ReadPacket();
      assert result == Packet(packets[i]);
      got := got + [result.payload];
    }
    Nothing(mc.sequence, rest);
    assert packets[count..] == [] && packets[..count] == packets;
  }

  lemma Nothing(seqNo: byte, rest: bytes)
    ensures AllFrames([], seqNo) + rest == rest && NumberBehind([], seqNo) == seqNo
  {
  }

  lemma NumberOn(packets: seq<bytes>, seqNo: byte)
    requires packets != []
    ensures NumberBehind(packets, seqNo) == NumberBehind(packets[1..], Advance(seqNo, FrameCount(packets[0])))
  {
  }

  predicate NoneEmpty(packets: seq<bytes>) {
    forall p :: p in packets ==> p != []
  }

  lemma NoneEmptyMore(p: bytes, later: seq<bytes>)
    requires p != [] && NoneEmpty(later)
    ensures NoneEmpty([p] + later)
  {
  }

  lemma {:induction false} ColumnsNotEmpty(columns: seq<Results.Column>, later: seq<bytes>)
    requires Results.ValidColumns(columns) && NoneEmpty(later)
    ensures NoneEmpty(Results.ColumnsThen(columns, later))
    decreases |columns|
  {
    if columns != [] {
      hide Results.ColumnPacket;
      assert columns[0] in columns;
      ColumnsNotEmpty(columns[1..], later);
      ColumnNotEmpty(columns[0]);
      hide NoneEmpty;
      NoneEmptyMore(Results.ColumnPacket(columns[0]), Results.ColumnsThen(columns[1..], later));
    }
  }

  lemma ColumnNotEmpty(c: Results.Column)
    requires Results.ValidColumn(c)
    ensures Results.ColumnPacket(c) != []
  {
    hide Results.FixedPart;
  }

  lemma {:induction false} RowsNotEmpty(rows: seq<Results.Row>, later: seq<bytes>)
    requires (forall r :: r in rows ==> r != [] && MySqlLenEnc.Encodable(r)) && NoneEmpty(later)
    ensures NoneEmpty(Results.RowsThen(rows, later))
    decreases |rows|
  {
    if rows != [] {
      assert rows[0] in rows && forall r :: r in rows[1..] ==> r in rows;
      Results.RowStart(rows[0]);
      RowsNotEmpty(rows[1..], later);
      hide NoneEmpty;
      NoneEmptyMore(MySqlLenEnc.EncodeValues(rows[0]), Results.RowsThen(rows[1..], later));
    }
  }

  /** No packet of a response is empty. */
  lemma {:induction false} ResponseNotEmpty(results: seq<Results.Result>)
    requires Results.Sound(results)
    ensures NoneEmpty(Results.ResultsThen(results, []))
    decreases |results|
  {
    if results != [] {
      ResponseNotEmpty(results[1..]);
      hide NoneEmpty;
      var later := Results.ResultsThen(results[1..], []);
      match results[0] {
        case Okay(affected, insertId, status, info) =>
          NoneEmptyMore(Results.OkPacket(affected, insertId, status, info), later);
        case Set(columns, columnsEnd, rows, rowsEnd) =>
          var rowPackets := Results.RowsThen(rows, [Results.EndPacket(rowsEnd)] + later);
          NoneEmptyMore(Results.EndPacket(rowsEnd), later);
          RowsNotEmpty(rows, [Results.EndPacket(rowsEnd)] + later);
          NoneEmptyMore(Results.EndPacket(columnsEnd), rowPackets);
          ColumnsNotEmpty(columns, [Results.EndPacket(columnsEnd)] + rowPackets);
          NoneEmptyMore(MySqlLenEnc.Integer(|columns|),
                        Results.ColumnsThen(columns, [Results.EndPacket(columnsEnd)] + rowPackets));
      }
    }
  }

  /**
   A query, any operations on its rows, and Close, over a connection that delivers the bytes of the response in reads of any
   size: the caller sees what the reference says, and the connection is left exactly behind the response.
   */
  method SessionOverBytes(mc: Conn, count: nat, query: bytes, ops: seq<Results.Op>, columnsWithAlias: bool,
                          ghost response: seq<Results.Result>, ghost rest: bytes)
    returns (answers: seq<Results.Answer>, error: Results.Error)
    requires mc.Valid() && Faultless(mc.net.readScript)
    requires response != [] && Results.Sound(response)
    requires var packets := Results.ResultsThen(response, []);
             count == |packets| && mc.buf.Stream() == AllFrames(packets, mc.sequence) + rest
    modifies mc`sequence, mc`closed, mc.buf`buf, mc.buf`idx, mc.buf`length, mc.buf.buf, mc.net`pending, mc.net`readScript,
      mc.net`sent, mc.net`writeScript
    ensures mc.Valid() && mc.closed == old(mc.closed) && mc.buf.Stream() == rest && mc.net.sent == old(mc.net.sent)
    ensures error == Results.NoError && answers == Results.Answers(Results.SkipTo(response), ops, columnsWithAlias)
  {
    hide AllFrames, Results.ResultsThen, Results.Sound, Results.Answers, Results.SkipTo, Faultless, Buffer.Stream;
    ResponseNotEmpty(response);
    var packets := Receive(mc, count, Results.ResultsThen(response, []), rest);
    var conn := new Results.Conn(packets, columnsWithAlias);
    answers, error := Results.Session(conn, query, ops, response, []);
  }
}
