/**
 The network connection as the driver sees it, and the buffer shared by reading
 and writing: it slides unread bytes to its front, grows, and is lent out for
 writing only while nothing is unread.
 */
module MySqlBuffer {
  import opened Bytes

  const DEFAULT_BUF_SIZE: nat := 4096
  const MAX_PACKET_SIZE: nat := 0xFF_FFFF

  datatype NetError = NoError | Eof | Failed

  // How one Read behaves: it delivers at most limit bytes, and may report the end along with the last
  // of them, or a failure along with whatever it delivered.
  datatype ReadEvent = Chunk(limit: nat, eager: bool) | Fault(limit: nat)

  // How one Write behaves.
  datatype WriteEvent = Full | Partial(count: nat, failed: bool)

  /** What remains of s after losing its first bytes. */
  predicate IsTail(s: bytes, tail: bytes) {
    |tail| <= |s| && tail == s[|s| - |tail|..]
  }

  lemma Regroup(unread: bytes, pending: bytes, k: nat)
    requires k <= |pending|
    ensures unread + pending[..k] + pending[k..] == unread + pending
    ensures (unread + pending[..k])[..|unread|] == unread
    ensures IsTail(pending, pending[k..])
  {
  }

  lemma LossIsExact(unread: bytes, pending: bytes, tail: bytes)
    requires IsTail(pending, tail)
    ensures unread + tail == unread + pending <==> |tail| == |pending|
    ensures tail == [] ==> unread + tail == unread
  {
    assert |unread + tail| == |unread| + |tail| && |unread + pending| == |unread| + |pending|;
  }

  predicate Faultless(script: seq<ReadEvent>) {
    forall e :: e in script ==> e.Chunk?
  }

  lemma FaultlessTail(script: seq<ReadEvent>)
    ensures Faultless(script) && script != [] ==> script[0].Chunk? && Faultless(script[1..])
  {
    if Faultless(script) && script != [] {
      assert script[0] in script;
    }
  }

  /** A network connection: what the peer has sent or will send, what was sent to it, and how calls behave. */
  class Net {
    var pending: bytes
    var sent: bytes
    var readScript: seq<ReadEvent>
    var writeScript: seq<WriteEvent>

    constructor (pending: bytes, readScript: seq<ReadEvent>, writeScript: seq<WriteEvent>)
      ensures this.pending == pending && this.readScript == readScript && this.writeScript == writeScript && sent == []
    {
      this.pending, this.readScript, this.writeScript, sent := pending, readScript, writeScript, [];
    }

    /** Reads into buf from position `from`; with no script left, it delivers all it can. */
    method Read(buf: array<byte>, from: nat) returns (n: nat, err: NetError)
      requires from <= buf.Length
      modifies this`pending, this`readScript, buf
      ensures from + n <= buf.Length && n <= |old(pending)|
      ensures pending == old(pending)[n..]
      ensures buf[..from + n] == old(buf[..from]) + old(pending)[..n]
      ensures |readScript| <= |old(readScript)| && (Faultless(old(readScript)) ==> Faultless(readScript))
      ensures err == NoError && from < buf.Length ==> |readScript| < |old(readScript)| || n > 0
      ensures err == Eof ==> pending == []
      ensures Faultless(old(readScript)) ==> err != Failed
    {
      hide Faultless;
      FaultlessTail(readScript);
      var event := if readScript == [] then Chunk(|pending|, false) else readScript[0];
      n := Min(event.limit, Min(|pending|, buf.Length - from));
      ghost var before, incoming := buf[..from], pending[..n];
      forall i | 0 <= i < n {
        buf[from + i] := pending[i];
      }
      assert buf[..from + n] == before + incoming by {
        assert buf[..from] == before && buf[from..from + n] == incoming;
        assert buf[..from + n] == buf[..from] + buf[from..from + n];
      }
      err := if event.Fault? then Failed
             else if n == |pending| && (event.eager || (n == 0 && readScript == [])) then Eof
             else NoError;
      pending := pending[n..];
      readScript := if readScript == [] then [] else readScript[1..];
    }

    /** Writes data[lo..hi], or part of it. */
    method Write(data: array<byte>, lo: nat, hi: nat) returns (n: nat, failed: bool)
      requires lo <= hi <= data.Length
      modifies this`sent, this`writeScript
      ensures var event := NextWrite(old(writeScript));
              && n == (if event.Full? then hi - lo else Min(event.count, hi - lo))
              && failed == (event.Partial? && event.failed)
      ensures n <= hi - lo && sent == old(sent) + old(data[lo..hi])[..n]
      ensures writeScript == LaterWrites(old(writeScript))
    {
      var event := NextWrite(writeScript);
      n := if event.Full? then hi - lo else Min(event.count, hi - lo);
      failed := event.Partial? && event.failed;
      sent := sent + data[lo..hi][..n];
      writeScript := LaterWrites(writeScript);
    }
  }

  function NextWrite(writes: seq<WriteEvent>): WriteEvent {
    if writes == [] then Full else writes[0]
  }

  function LaterWrites(writes: seq<WriteEvent>): seq<WriteEvent> {
    if writes == [] then [] else writes[1..]
  }

  class Buffer {
    var buf: array<byte>
    var idx: nat
    var length: nat
    const nc: Net

    ghost predicate Valid()
      reads this
    {
      idx + length <= buf.Length && buf.Length >= DEFAULT_BUF_SIZE
    }

    /** Bytes received and not yet handed out. */
    ghost function Unread(): bytes
      requires Valid()
      reads this, buf
    {
      buf[idx..idx + length]
    }

    /** Everything still to be read, buffered or not. */
    ghost function Stream(): bytes
      requires Valid()
      reads this, buf, nc
    {
      Unread() + nc.pending
    }

    constructor (nc: Net)
      ensures Valid() && fresh(buf) && this.nc == nc && Unread() == []
    {
      buf := new byte[DEFAULT_BUF_SIZE](_ => 0);
      idx, length, this.nc := 0, 0, nc;
    }

    /** Moves the unread bytes to the front and makes room for need bytes. */
    method MakeRoom(need: nat)
      requires Valid()
      modifies this`buf, this`idx, buf
      ensures Valid() && idx == 0 && length == old(length) && need <= buf.Length
      ensures Unread() == old(Unread())
      ensures buf == old(buf) || fresh(buf)
    {
      var n := length;
      ghost var unread := Unread();
      if n > 0 && idx > 0 {
        forall i | 0 <= i < n {
          buf[i] := buf[idx + i];
        }
      }
      assert buf[..n] == unread;
      if need > buf.Length {
        var newBuf := new byte[(need / DEFAULT_BUF_SIZE + 1) * DEFAULT_BUF_SIZE](_ => 0);
        forall i | 0 <= i < buf.Length {
          newBuf[i] := buf[i];
        }
        assert newBuf[..n] == buf[..n];
        buf := newBuf;
      }
      idx := 0;
    }

    /** Reads into the buffer behind its first `have` bytes until need bytes are there, or the network gives up. */
    method Receive(have: nat, need: nat) returns (n: nat, err: NetError)
      requires have < need <= buf.Length
      modifies buf, nc`pending, nc`readScript
      ensures have <= n <= buf.Length && n - have <= |old(nc.pending)|
      ensures nc.pending == old(nc.pending)[n - have..]
      ensures buf[..n] == old(buf[..have]) + old(nc.pending)[..n - have]
      ensures err == NoError ==> n >= need
      ensures err == Eof ==> nc.pending == []
      ensures Faultless(old(nc.readScript)) ==>
        Faultless(nc.readScript) && (err == NoError <==> have + |old(nc.pending)| >= need) && err != Failed
    {
      hide Faultless;
      n := have;
      while true
        invariant have <= n < need && n - have <= |old(nc.pending)|
        invariant nc.pending == old(nc.pending)[n - have..]
        invariant buf[..n] == old(buf[..have]) + old(nc.pending)[..n - have]
        invariant Faultless(old(nc.readScript)) ==> Faultless(nc.readScript)
        decreases |nc.readScript| + |nc.pending|
      {
        ghost var k, rest := n - have, nc.pending;
        var nn;
        nn, err := nc.Read(buf, n);
        assert old(nc.pending)[..k] + rest[..nn] == old(nc.pending)[..k + nn];
        n := n + nn;
        if err == NoError && n < need {
          continue;
        }
        if err == NoError || (err == Eof && n >= need) {
          return n, NoError;
        }
        return;
      }
    }

    /** Moves the unread bytes to the front and reads behind them until need bytes are there. */
    method Refill(need: nat) returns (n: nat, err: NetError)
      requires Valid() && length < need
      modifies this`buf, this`idx, buf, nc`pending, nc`readScript
      ensures Valid() && (buf == old(buf) || fresh(buf)) && idx == 0 && length == old(length)
      ensures length <= n <= buf.Length && n - length <= |old(nc.pending)|
      ensures nc.pending == old(nc.pending)[n - length..]
      ensures buf[..n] == old(Unread()) + old(nc.pending)[..n - length]
      ensures err == NoError ==> n >= need
      ensures err == Eof ==> nc.pending == []
      ensures Faultless(old(nc.readScript)) ==>
        Faultless(nc.readScript) && (err == NoError <==> length + |old(nc.pending)| >= need) && err != Failed
    {
      hide Faultless;
      ghost var unread := Unread();
      MakeRoom(need);
      assert buf[..length] == unread;
      n, err := Receive(length, need);
    }

    /**
     Reads until at least need bytes are buffered. When that fails, what this very call had received
     is lost: the unread bytes are those from before. At the end of the connection that is all of it.
     */
    method Fill(need: nat) returns (err: NetError)
      requires Valid() && length < need
      modifies this`buf, this`idx, this`length, buf, nc`pending, nc`readScript
      ensures Valid() && (buf == old(buf) || fresh(buf))
      ensures err == NoError ==> length >= need && Stream() == old(Stream())
      ensures err != NoError ==> Unread() == old(Unread()) && IsTail(old(nc.pending), nc.pending)
      ensures err != NoError ==> (Stream() == old(Stream()) <==> |nc.pending| == |old(nc.pending)|)
      ensures err == Eof ==> Stream() == old(Unread()) && (Stream() == old(Stream()) <==> old(nc.pending) == [])
      ensures Faultless(old(nc.readScript)) ==>
        Faultless(nc.readScript) && (err == NoError <==> |old(Stream())| >= need) && err != Failed
    {
      hide Faultless, IsTail;
      ghost var unread, pending := Unread(), nc.pending;
      var n;
      n, err := Refill(need);
      Regroup(unread, pending, n - length);
      if err == NoError {
        length := n;
      } else {
        assert Unread() == buf[..n][..length];
        LossIsExact(unread, pending, nc.pending);
      }
    }

    /** The next need bytes of the stream. */
    method ReadNext(need: nat) returns (data: bytes, err: NetError)
      requires Valid()
      modifies this`buf, this`idx, this`length, buf, nc`pending, nc`readScript
      ensures Valid() && (buf == old(buf) || fresh(buf))
      ensures err == NoError ==> |data| == need && old(Stream()) == data + Stream()
      ensures Faultless(old(nc.readScript)) ==> Faultless(nc.readScript) && (err == NoError <==> |old(Stream())| >= need)
      ensures err != NoError ==> Unread() == old(Unread())
    {
      if length < need {
        err := Fill(need);
        if err != NoError {
          return [], err;
        }
      }
      ghost var stream := Stream();
      var offset := idx;
      idx := idx + need;
      length := length - need;
      data := buf[offset..idx];
      err := NoError;
      assert stream[..need] == data;
    }

    /** Lends memory for writing; refused while bytes are unread. */
    method TakeBuffer(size: nat) returns (lent: array?<byte>)
      requires Valid()
      modifies this`buf
      ensures Valid()
      ensures lent == null <==> old(Unread()) != []
      ensures lent == null ==> Unread() == old(Unread())
      ensures lent != null ==> lent.Length >= size && (lent == buf || fresh(lent)) && Unread() == []
      ensures buf == old(buf) || fresh(buf)
    {
      if length > 0 {
        return null;
      }
      if size <= DEFAULT_BUF_SIZE || size <= buf.Length {
        return buf;
      }
      if size < MAX_PACKET_SIZE {
        buf := new byte[size](_ => 0);
        return buf;
      }
      lent := new byte[size](_ => 0);
    }

    /** Lends the start of the buffer, on the same terms. */
    method TakeSmallBuffer(size: nat) returns (lent: array?<byte>)
      requires Valid() && size <= DEFAULT_BUF_SIZE
      ensures lent == null <==> Unread() != []
      ensures lent != null ==> lent == buf && size <= lent.Length
    {
      lent := if length == 0 then buf else null;
    }

    /** Lends the whole buffer, on the same terms. */
    method TakeCompleteBuffer() returns (lent: array?<byte>)
      requires Valid()
      ensures lent == null <==> Unread() != []
      ensures lent != null ==> lent == buf
    {
      lent := if length == 0 then buf else null;
    }
  }

  /** Two bytes come, three are wanted, the connection ends: the two can never be read again. */
  method LostBytes(b: Buffer) returns (err: NetError)
    requires b.Valid() && b.Unread() == [] && b.Stream() == [1, 2] && Faultless(b.nc.readScript)
    modifies b`buf, b`idx, b`length, b.buf, b.nc`pending, b.nc`readScript
    ensures b.Valid() && err == Eof && old(b.Stream()) == [1, 2] && b.Stream() == []
  {
    assert |b.Stream()| == 2;
    err := b.Fill(3);
  }

  /** Such a buffer. */
  method TwoPending() returns (b: Buffer)
    ensures fresh(b) && fresh(b.buf) && fresh(b.nc) && b.Valid()
    ensures b.Unread() == [] && b.Stream() == [1, 2] && Faultless(b.nc.readScript)
  {
    var nc := new Net([1, 2], [], []);
    b := new Buffer(nc);
  }

  /** Any sequence of successful reads hands out the stream slice by slice, however the network chops it. */
  method ReadMany(b: Buffer, needs: seq<nat>) returns (parts: seq<bytes>, err: NetError)
    requires b.Valid()
    modifies b`buf, b`idx, b`length, b.buf, b.nc`pending, b.nc`readScript
    ensures b.Valid()
    ensures |parts| <= |needs| && (forall k :: 0 <= k < |parts| ==> |parts[k]| == needs[k])
    ensures err == NoError ==> |parts| == |needs| && old(b.Stream()) == Concat(parts) + b.Stream()
    ensures Concat(parts) <= old(b.Stream())
    ensures Faultless(old(b.nc.readScript)) ==> (err == NoError <==> |old(b.Stream())| >= Sum(needs))
  {
    hide Buffer.Stream, Buffer.Unread, Faultless, Sum;
    SumNone();
    parts, err := [], NoError;
    ghost var stream := b.Stream();
    assert Concat(parts) + b.Stream() == stream;
    for k := 0 to |needs|
      invariant b.Valid() && (b.buf == old(b.buf) || fresh(b.buf))
      invariant |parts| == k && forall j :: 0 <= j < k ==> |parts[j]| == needs[j]
      invariant Concat(parts) + b.Stream() == stream && err == NoError
      invariant |Concat(parts)| == Sum(needs[..k])
      invariant Faultless(old(b.nc.readScript)) ==> Faultless(b.nc.readScript)
    {
      var part;
      ghost var rest := b.Stream();
      part, err := b.ReadNext(needs[k]);
      SumNext(needs, k);
      SumPrefix(needs, k + 1);
      if err != NoError {
        return;
      }
      ConcatOne(parts, part);
      assert Concat(parts) + (part + b.Stream()) == Concat(parts + [part]) + b.Stream();
      parts := parts + [part];
    }
    assert needs[..|needs|] == needs;
  }

  function Concat(parts: seq<bytes>): bytes {
    if parts == [] then [] else Concat(parts[..|parts| - 1]) + parts[|parts| - 1]
  }

  function Sum(ns: seq<nat>): nat {
    if ns == [] then 0 else Sum(ns[..|ns| - 1]) + ns[|ns| - 1]
  }

  lemma ConcatOne(parts: seq<bytes>, part: bytes)
    ensures Concat(parts + [part]) == Concat(parts) + part
  {
    assert (parts + [part])[..|parts|] == parts;
  }

  lemma SumNone()
    ensures Sum([]) == 0
  {
  }

  lemma SumNext(ns: seq<nat>, k: nat)
    requires k < |ns|
    ensures Sum(ns[..k + 1]) == Sum(ns[..k]) + ns[k]
  {
    assert ns[..k + 1][..k] == ns[..k];
  }

  lemma {:induction false} SumPrefix(ns: seq<nat>, k: nat)
    requires k <= |ns|
    ensures Sum(ns[..k]) <= Sum(ns)
    decreases |ns| - k
  {
    if k == |ns| {
      assert ns[..k] == ns;
    } else {
      SumPrefix(ns, k + 1);
      assert ns[..k + 1][..k] == ns[..k];
    }
  }
}
