/**
 The terminal recorder: frames of the same type that come close together are squeezed into one, and
 frames are stored as time, type, length and payload. What is read back is the same output in the same order.
 */
module RecWriter {
  import opened Bytes
  import opened Wrappers

  const STDOUT: byte := 1
  const STDERR: byte := 2
  const WINDOW_SIZE: byte := 3

  datatype Frame = Frame(time: nat, kind: byte, payload: bytes)

  /** Times are unsigned 32-bit milliseconds. */
  predicate ValidFrame(f: Frame) {
    f.time < TWO32 && (f.kind == STDOUT || f.kind == STDERR || f.kind == WINDOW_SIZE)
  }

  // ---------------------------------------------------------------- one frame as bytes

  function Encoded(f: Frame): (b: bytes)
    ensures |b| == 9 + |f.payload|
  {
    BigEndian32(f.time) + [f.kind] + BigEndian32(|f.payload|) + f.payload
  }

  method PutUint32(out: array<byte>, at: nat, n: nat)
    requires at + 4 <= out.Length
    modifies out
    ensures out[at..at + 4] == BigEndian32(n)
    ensures forall i :: 0 <= i < at || at + 4 <= i < out.Length ==> out[i] == old(out[i])
  {
    out[at], out[at + 1], out[at + 2], out[at + 3] := n / 0x100_0000 % 256, n / 0x1_0000 % 256, n / 0x100 % 256, n % 256;
  }

  /** Fills an array by offset; the length keeps its low 32 bits only. */
  method Encode(f: Frame) returns (b: bytes)
    ensures b == Encoded(f)
  {
    hide BigEndian32;
    var out := new byte[9 + |f.payload|](_ => 0);
    PutUint32(out, 0, f.time);
    ghost var time := out[0..4];
    out[4] := f.kind;
    assert out[0..4] == time;
    PutUint32(out, 5, |f.payload|);
    assert out[0..4] == time && out[4] == f.kind;
    ghost var head := out[..9];
    forall i | 0 <= i < |f.payload| {
      out[9 + i] := f.payload[i];
    }
    b := out[..];
    assert b[..9] == head == BigEndian32(f.time) + [f.kind] + BigEndian32(|f.payload|);
    assert b == b[..9] + f.payload;
  }

  function Padded(b: bytes, size: nat): (p: bytes)
    ensures |p| == size
  {
    if |b| >= size then b[..size] else b + seq(size - |b|, _ => 0)
  }

  /** What a reader that always fills its buffer, as far as it can, makes of a stream; short parts read as zeros. */
  function ParseFrame(stream: bytes): (Frame, bytes) {
    var h := Padded(stream, 9);
    var l := FromBigEndian32(h[5..9]);
    var rest := stream[Min(9, |stream|)..];
    (Frame(FromBigEndian32(h[..4]), h[4], Padded(rest, l)), rest[Min(l, |rest|)..])
  }

  /** The stream ends behind a head that announces a payload. */
  predicate PayloadMissing(stream: bytes) {
    |stream| <= 9 && FromBigEndian32(Padded(stream, 9)[5..9]) > 0
  }

  /** A frame is read back, and what follows it is left, exactly when its length fits 32 bits. */
  lemma FrameRoundTrip(f: Frame, rest: bytes)
    requires ValidFrame(f)
    ensures ParseFrame(Encoded(f) + rest) == (f, rest) <==> |f.payload| < TWO32
    ensures |f.payload| < TWO32 ==> !PayloadMissing(Encoded(f) + rest)
  {
    hide BigEndian32, FromBigEndian32;
    var stream := Encoded(f) + rest;
    BigEndian32RoundTrip(f.time);
    assert stream[..9][..4] == BigEndian32(f.time) && stream[..9][4] == f.kind;
    assert stream[..9][5..9] == BigEndian32(|f.payload|);
    if |f.payload| < TWO32 {
      BigEndian32RoundTrip(|f.payload|);
      assert stream[9..] == f.payload + rest;
      assert (f.payload + rest)[|f.payload|..] == rest;
    } else {
      assert |ParseFrame(stream).0.payload| < TWO32;
    }
  }

  function EncodedAll(frames: seq<Frame>): bytes {
    if frames == [] then [] else EncodedAll(frames[..|frames| - 1]) + Encoded(frames[|frames| - 1])
  }

  class Reader {
    var rest: bytes

    constructor (stream: bytes)
      ensures rest == stream
    {
      rest := stream;
    }

    /** The next frame; None is the error of a read that finds nothing, be it for the head or for the payload. */
    method ReadFrame() returns (f: Option<Frame>)
      modifies this
      ensures f == None <==> old(rest) == [] || PayloadMissing(old(rest))
      ensures f.Some? ==> (f.value, rest) == ParseFrame(old(rest)) && |rest| < |old(rest)|
      ensures f == None ==> rest == []
    {
      if rest == [] {
        return None;
      }
      var h := Padded(rest, 9);
      rest := rest[Min(9, |rest|)..];
      var l := FromBigEndian32(h[5..9]);
      var payload := [];
      if l > 0 {
        if rest == [] {
          return None;
        }
        payload := Padded(rest, l);
        rest := rest[Min(l, |rest|)..];
      }
      f := Some(Frame(FromBigEndian32(h[..4]), h[4], payload));
    }
  }

  lemma {:induction false} EncodedFront(frames: seq<Frame>)
    requires frames != []
    ensures EncodedAll(frames) == Encoded(frames[0]) + EncodedAll(frames[1..])
  {
    hide Encoded;
    if |frames| == 1 {
      assert frames[..0] == [] && frames[1..] == [];
    } else {
      var init := frames[..|frames| - 1];
      EncodedFront(init);
      assert init[1..] == frames[1..][..|frames| - 2] && frames[1..][|frames| - 2] == frames[|frames| - 1];
    }
  }

  lemma NoFrames()
    ensures EncodedAll([]) == []
  {
  }

  /** Every sequence of frames with lengths of 32 bits is read back frame by frame. */
  method ReadAll(stream: bytes, ghost frames: seq<Frame>) returns (r: seq<Frame>)
    requires stream == EncodedAll(frames) && forall f :: f in frames ==> ValidFrame(f) && |f.payload| < TWO32
    ensures r == frames
  {
    hide Encoded, EncodedAll, ParseFrame;
    NoFrames();
    r := [];
    var reader := new Reader(stream);
    ghost var left := frames;
    while true
      invariant fresh(reader) && reader.rest == EncodedAll(left) && r + left == frames
      invariant forall f :: f in left ==> f in frames
      decreases |left|
    {
      if left != [] {
        EncodedFront(left);
        assert left[0] in frames;
        FrameRoundTrip(left[0], EncodedAll(left[1..]));
      }
      var f := reader.ReadFrame();
      if f == None {
        return;
      }
      assert r + left == r + [left[0]] + left[1..];
      r := r + [f.value];
      left := left[1..];
    }
  }

  // ---------------------------------------------------------------- squeezing

  /** Unsigned 32-bit difference. */
  function Since(now: nat, start: nat): nat {
    (now - start) % TWO32
  }

  /** Frames to be stored as one. */
  datatype Group = Group(first: Frame, more: seq<Frame>)

  function Members(g: Group): seq<Frame> {
    [g.first] + g.more
  }

  predicate Joins(g: Group, f: Frame, sq: nat) {
    g.first.kind == f.kind && Since(f.time, g.first.time) < sq
  }

  /** A frame joins the last group if it can, or starts one. */
  function Gather(groups: seq<Group>, f: Frame, sq: nat): seq<Group> {
    if groups != [] && Joins(groups[|groups| - 1], f, sq) then
      var last := groups[|groups| - 1];
      groups[..|groups| - 1] + [last.(more := last.more + [f])]
    else groups + [Group(f, [])]
  }

  /** How the frames of a run are gathered. */
  function Groups(history: seq<Frame>, sq: nat): seq<Group> {
    if history == [] then []
    else Gather(Groups(history[..|history| - 1], sq), history[|history| - 1], sq)
  }

  function Payloads(frames: seq<Frame>): bytes {
    if frames == [] then [] else Payloads(frames[..|frames| - 1]) + frames[|frames| - 1].payload
  }

  /** The frame that stands for a group: the first one's time, and the last one's window size or all the output. */
  function Merged(g: Group): Frame {
    g.first.(payload := if g.first.kind == WINDOW_SIZE then Members(g)[|g.more|].payload
                        else g.first.payload + Payloads(g.more))
  }

  function MergedAll(groups: seq<Group>): (frames: seq<Frame>)
    ensures |frames| == |groups|
  {
    if groups == [] then [] else MergedAll(groups[..|groups| - 1]) + [Merged(groups[|groups| - 1])]
  }

  function Flat(groups: seq<Group>): seq<Frame> {
    if groups == [] then [] else Flat(groups[..|groups| - 1]) + Members(groups[|groups| - 1])
  }

  /** The output of a run: which stream, which byte. */
  function Tagged(kind: byte, payload: bytes): seq<(byte, byte)> {
    if payload == [] then [] else Tagged(kind, payload[..|payload| - 1]) + [(kind, payload[|payload| - 1])]
  }

  function OutputOf(f: Frame): seq<(byte, byte)> {
    if f.kind == WINDOW_SIZE then [] else Tagged(f.kind, f.payload)
  }

  function Output(frames: seq<Frame>): seq<(byte, byte)> {
    if frames == [] then [] else Output(frames[..|frames| - 1]) + OutputOf(frames[|frames| - 1])
  }

  /** The members of a group are of one type and lie within sq milliseconds of the first. */
  predicate Near(g: Group, sq: nat) {
    forall i :: 0 <= i < |g.more| ==> Joins(g, g.more[i], sq)
  }

  predicate AllNear(groups: seq<Group>, sq: nat) {
    forall i :: 0 <= i < |groups| ==> Near(groups[i], sq)
  }

  /** No frame that starts a group could have joined the one before it. */
  predicate Apart(groups: seq<Group>, sq: nat) {
    forall i :: 0 < i < |groups| ==> !Joins(groups[i - 1], groups[i].first, sq)
  }

  lemma {:induction false} TaggedAppend(kind: byte, a: bytes, b: bytes)
    ensures Tagged(kind, a + b) == Tagged(kind, a) + Tagged(kind, b)
  {
    if b == [] {
      assert a + b == a;
    } else {
      assert (a + b)[..|a + b| - 1] == a + b[..|b| - 1];
      TaggedAppend(kind, a, b[..|b| - 1]);
    }
  }

  lemma TaggedNone(kind: byte)
    ensures Tagged(kind, []) == []
  {
  }

  lemma {:induction false} OutputAppend(a: seq<Frame>, b: seq<Frame>)
    ensures Output(a + b) == Output(a) + Output(b)
  {
    hide OutputOf;
    if b == [] {
      assert a + b == a;
    } else {
      assert (a + b)[..|a + b| - 1] == a + b[..|b| - 1];
      OutputAppend(a, b[..|b| - 1]);
    }
  }

  lemma GatherKeeps(groups: seq<Group>, f: Frame, sq: nat)
    requires AllNear(groups, sq) && Apart(groups, sq)
    ensures var after := Gather(groups, f, sq);
            Flat(after) == Flat(groups) + [f] && AllNear(after, sq) && Apart(after, sq)
  {
    hide Joins;
    var after := Gather(groups, f, sq);
    if groups != [] && Joins(groups[|groups| - 1], f, sq) {
      var n := |groups| - 1;
      var last := groups[n];
      assert after[..n] == groups[..n];
      assert Members(after[n]) == Members(last) + [f];
      assert Near(last, sq);
      assert Near(after[n], sq) by { JoinsFirstOnly(last, after[n], sq); }
      forall i | 0 < i < |after|
        ensures !Joins(after[i - 1], after[i].first, sq)
      {
        assert after[i - 1] == groups[i - 1] && after[i].first == groups[i].first;
      }
    } else {
      assert after[..|groups|] == groups;
    }
  }

  lemma JoinsFirstOnly(g: Group, h: Group, sq: nat)
    requires g.first == h.first
    ensures forall f :: Joins(g, f, sq) == Joins(h, f, sq)
  {
  }

  /**
   The groups are the run cut into consecutive stretches; the members of each are of one type and
   within sq milliseconds of the first, and no stretch could have gone on.
   */
  lemma {:induction false} GroupsPartition(history: seq<Frame>, sq: nat)
    ensures Flat(Groups(history, sq)) == history && AllNear(Groups(history, sq), sq) && Apart(Groups(history, sq), sq)
  {
    hide Gather, Flat;
    if history == [] {
      NoneFlat();
    } else {
      var init := history[..|history| - 1];
      GroupsPartition(init, sq);
      GatherKeeps(Groups(init, sq), history[|history| - 1], sq);
      assert history == init + [history[|history| - 1]];
    }
  }

  lemma NoneFlat()
    ensures Flat([]) == []
  {
  }

  lemma {:induction false} MoreOutput(g: Group, n: nat, sq: nat)
    requires Near(g, sq) && n <= |g.more|
    ensures Output(g.more[..n]) == if g.first.kind == WINDOW_SIZE then [] else Tagged(g.first.kind, Payloads(g.more[..n]))
  {
    hide Tagged;
    if n == 0 {
      TaggedNone(g.first.kind);
    } else {
      assert g.more[..n][..n - 1] == g.more[..n - 1];
      MoreOutput(g, n - 1, sq);
      assert Joins(g, g.more[n - 1], sq);
      TaggedAppend(g.first.kind, Payloads(g.more[..n - 1]), g.more[n - 1].payload);
    }
  }

  /** A group stored as one frame has its members' output. */
  lemma MergedOutput(g: Group, sq: nat)
    requires Near(g, sq)
    ensures Output([Merged(g)]) == Output(Members(g))
  {
    hide Tagged;
    OutputOne(Merged(g));
    OutputOne(g.first);
    OutputAppend([g.first], g.more);
    MoreOutput(g, |g.more|, sq);
    assert g.more[..|g.more|] == g.more;
    TaggedAppend(g.first.kind, g.first.payload, Payloads(g.more));
  }

  lemma OutputOne(f: Frame)
    ensures Output([f]) == OutputOf(f)
  {
    assert [f][..0] == [];
  }

  lemma {:induction false} SameOutput(groups: seq<Group>, sq: nat)
    requires AllNear(groups, sq)
    ensures Output(MergedAll(groups)) == Output(Flat(groups))
  {
    hide Merged, Near, Output, Members;
    if groups != [] {
      var last, init := groups[|groups| - 1], groups[..|groups| - 1];
      SameOutput(init, sq);
      MergedOutput(last, sq);
      OutputAppend(MergedAll(init), [Merged(last)]);
      OutputAppend(Flat(init), Members(last));
    }
  }

  /** What is recorded of a run has the output of the run, in order. */
  lemma RecordingKeepsOutput(history: seq<Frame>, sq: nat)
    ensures Output(MergedAll(Groups(history, sq))) == Output(history)
  {
    hide MergedAll, Output, AllNear, Flat, Groups;
    GroupsPartition(history, sq);
    SameOutput(Groups(history, sq), sq);
  }

  /** A recorded frame has the first member's time and type and, for window sizes, the last member's size. */
  lemma {:induction false} MergedAt(groups: seq<Group>, i: nat)
    requires i < |groups|
    ensures MergedAll(groups)[i] == Merged(groups[i])
  {
    if i < |groups| - 1 {
      MergedAt(groups[..|groups| - 1], i);
    }
  }

  /**
   The i-th recorded frame has its first member's time; all members are of its type and within sq milliseconds
   of it, counted modulo 2^32; and of window sizes the last one is kept.
   */
  lemma RecordedFrame(history: seq<Frame>, sq: nat, i: nat)
    requires sq > 0 && i < |Groups(history, sq)|
    ensures var members, frame := Members(Groups(history, sq)[i]), MergedAll(Groups(history, sq))[i];
            && frame.time == members[0].time
            && (forall m :: m in members ==> m.kind == frame.kind && Since(m.time, frame.time) < sq)
            && (frame.kind == WINDOW_SIZE ==> frame.payload == members[|members| - 1].payload)
  {
    hide Groups, MergedAll;
    GroupsPartition(history, sq);
    MergedAt(Groups(history, sq), i);
    assert Near(Groups(history, sq)[i], sq);
  }

  // ---------------------------------------------------------------- the recorder

  datatype Op = WriteStdout(p: bytes) | WriteStderr(p: bytes) | WriteWindowSize(width: nat, height: nat)

  datatype Error = NoError | UnknownFrameType

  function FrameOf(op: Op, now: nat): Frame {
    match op
    case WriteStdout(p) => Frame(now, STDOUT, p)
    case WriteStderr(p) => Frame(now, STDERR, p)
    case WriteWindowSize(width, height) => Frame(now, WINDOW_SIZE, BigEndian32(width) + BigEndian32(height))
  }

  class Writer {
    var f: Option<Frame>
    const sq: nat
    var active: bool
    var out: bytes
    ghost var history: seq<Frame>

    constructor (sq: nat)
      ensures this.sq == sq && Valid() && history == [] && out == [] && !active
    {
      this.sq, f, active, out, history := sq, None, false, [], [];
    }

    ghost predicate Valid()
      reads this
    {
      Holds(f, out, history, sq)
    }

    method WriteOut(g: Frame)
      modifies this`out
      ensures out == old(out) + Encoded(g)
    {
      var b := Encode(g);
      out := out + b;
    }

    method WriteFrame(g: Frame) returns (error: Error)
      requires Valid() && ValidFrame(g)
      modifies this`f, this`out, this`history
      ensures error == NoError && Valid() && history == old(history) + [g]
    {
      hide Encoded, ValidFrame, Holds;
      HoldsWhen(f, out, history, sq);
      error := NoError;
      if sq == 0 {
        HoldsRaw(out, history, g);
        WriteOut(g);
      } else if f.Some? {
        var w := f.value;
        if w.kind == g.kind && Since(g.time, w.time) < sq {
          HoldsJoin(w, out, history, g, sq);
          KindsAreKnown(g);
          if g.kind == STDOUT || g.kind == STDERR {
            f := Some(w.(payload := w.payload + g.payload));
          } else if g.kind == WINDOW_SIZE {
            f := Some(w.(payload := g.payload));
          } else {
            error := UnknownFrameType;
          }
        } else {
          HoldsNext(w, out, history, g, sq);
          WriteOut(w);
          f := Some(g);
        }
      } else {
        HoldsFirst(out, g, sq);
        assert history + [g] == [g];
        f := Some(g);
      }
      history := history + [g];
    }

    /** One of the three kinds of writes, at the clock's time now. */
    method Write(op: Op, now: nat) returns (error: Error)
      requires Valid() && now < TWO32
      modifies this`f, this`out, this`history
      ensures error == NoError && Valid() && history == old(history) + [FrameOf(op, now)]
    {
      error := WriteFrame(FrameOf(op, now));
    }

    method Activate()
      modifies this`active
      ensures active
    {
      active := true;
    }

    /** Writes out the frame held back. */
    method Flush()
      requires Valid()
      modifies this`f, this`out
      ensures out == EncodedAll(Recorded(history, sq))
    {
      hide Recorded;
      if sq == 0 {
        return;
      }
      NothingRecorded(sq);
      if f.Some? {
        WriteOut(f.value);
        f := None;
      }
    }

    method Close()
      requires Valid()
      modifies this`f, this`out, this`active
      ensures out == EncodedAll(Recorded(history, sq)) && !active
    {
      Flush();
      active := false;
    }
  }

  /** What is recorded of a run. */
  function Recorded(history: seq<Frame>, sq: nat): seq<Frame> {
    if sq == 0 then history else MergedAll(Groups(history, sq))
  }

  /** Everything recorded of the history is on the stream, but for the last frame when squeezing: it is held back. */
  predicate Holds(f: Option<Frame>, out: bytes, history: seq<Frame>, sq: nat) {
    var frames := Recorded(history, sq);
    && (forall h :: h in history ==> ValidFrame(h))
    && (f.Some? <==> sq > 0 && history != [])
    && (f.None? ==> out == EncodedAll(frames))
    && (f.Some? ==> frames != [] && f.value == frames[|frames| - 1] && out == EncodedAll(frames[..|frames| - 1]))
  }

  /** Without squeezing a frame goes out at once. */
  lemma HoldsRaw(out: bytes, history: seq<Frame>, g: Frame)
    requires Holds(None, out, history, 0) && ValidFrame(g)
    ensures Holds(None, out + Encoded(g), history + [g], 0)
  {
    hide Encoded;
    RecordedMore(history, g, 0);
    assert (history + [g])[..|history|] == history;
  }

  lemma HoldsFirst(out: bytes, g: Frame, sq: nat)
    requires sq > 0 && Holds(None, out, [], sq) && ValidFrame(g)
    ensures Holds(Some(g), out, [g], sq)
  {
    hide Recorded, Encoded;
    RecordedMore([], g, sq);
    NothingRecorded(sq);
    assert [] + [g] == [g] && [g][..0] == [];
  }

  /** A frame that joins the one held back changes it. */
  lemma HoldsJoin(w: Frame, out: bytes, history: seq<Frame>, g: Frame, sq: nat)
    requires Holds(Some(w), out, history, sq) && ValidFrame(g) && w.kind == g.kind && Since(g.time, w.time) < sq
    ensures Holds(Some(w.(payload := if g.kind == WINDOW_SIZE then g.payload else w.payload + g.payload)), out, history + [g], sq)
  {
    hide Recorded, EncodedAll;
    RecordedMore(history, g, sq);
    var before, after := Recorded(history, sq), Recorded(history + [g], sq);
    assert after[..|after| - 1] == before[..|before| - 1];
  }

  /** A frame that does not join pushes the one held back out. */
  lemma HoldsNext(w: Frame, out: bytes, history: seq<Frame>, g: Frame, sq: nat)
    requires Holds(Some(w), out, history, sq) && ValidFrame(g) && !(w.kind == g.kind && Since(g.time, w.time) < sq)
    ensures Holds(Some(g), out + Encoded(w), history + [g], sq)
  {
    hide Recorded, Encoded;
    RecordedMore(history, g, sq);
    var before, after := Recorded(history, sq), Recorded(history + [g], sq);
    assert after[..|after| - 1] == before;
  }

  lemma HoldsWhen(f: Option<Frame>, out: bytes, history: seq<Frame>, sq: nat)
    requires Holds(f, out, history, sq)
    ensures f.Some? <==> sq > 0 && history != []
  {
  }

  lemma KindsAreKnown(f: Frame)
    requires ValidFrame(f)
    ensures f.kind == STDOUT || f.kind == STDERR || f.kind == WINDOW_SIZE
  {
  }

  lemma NothingRecorded(sq: nat)
    ensures Recorded([], sq) == []
  {
  }

  /** A frame changes what is recorded by growing the last frame or by adding one. */
  lemma RecordedMore(history: seq<Frame>, f: Frame, sq: nat)
    ensures sq == 0 ==> Recorded(history + [f], sq) == Recorded(history, sq) + [f]
    ensures sq > 0 ==>
      var before, after := Recorded(history, sq), Recorded(history + [f], sq);
      var n := |before| - 1;
      if before != [] && before[n].kind == f.kind && Since(f.time, before[n].time) < sq then
        after == before[..n] + [before[n].(payload := if f.kind == WINDOW_SIZE then f.payload else before[n].payload + f.payload)]
      else after == before + [f]
  {
    if sq > 0 {
      assert (history + [f])[..|history|] == history;
      var groups := Groups(history, sq);
      var after := Gather(groups, f, sq);
      if groups != [] {
        var n := |groups| - 1;
        MergedAt(groups, n);
        if Joins(groups[n], f, sq) {
          assert after[..n] == groups[..n];
          MergedMore(groups[n], f);
        } else {
          assert after[..n + 1] == groups;
          MergedSingle(f);
        }
      } else {
        assert after == [Group(f, [])] && after[..0] == [];
        MergedSingle(f);
      }
    }
  }

  lemma MergedMore(g: Group, f: Frame)
    requires g.first.kind == f.kind
    ensures Merged(g.(more := g.more + [f])) ==
            Merged(g).(payload := if f.kind == WINDOW_SIZE then f.payload else Merged(g).payload + f.payload)
  {
    assert (g.more + [f])[..|g.more|] == g.more;
    if f.kind != WINDOW_SIZE {
      assert g.first.payload + (Payloads(g.more) + f.payload) == g.first.payload + Payloads(g.more) + f.payload;
    }
  }

  lemma MergedSingle(f: Frame)
    ensures Merged(Group(f, [])) == f
  {
    assert f.payload + [] == f.payload;
  }

  function Frames(ops: seq<(Op, nat)>): seq<Frame> {
    if ops == [] then [] else Frames(ops[..|ops| - 1]) + [FrameOf(ops[|ops| - 1].0, ops[|ops| - 1].1)]
  }

  /** Any run of writes ended by Close, on a writer activated or not, read back: the same output in the same order. */
  method RecordAndPlay(ops: seq<(Op, nat)>, sq: nat, activate: bool) returns (frames: seq<Frame>)
    requires forall op :: op in ops ==> op.1 < TWO32
    requires forall g :: g in Recorded(Frames(ops), sq) ==> |g.payload| < TWO32
    ensures frames == Recorded(Frames(ops), sq)
    ensures Output(frames) == Output(Frames(ops))
  {
    hide Recorded, Output, EncodedAll;
    var w := new Writer(sq);
    if activate {
      w.Activate();
    }
    for i := 0 to |ops|
      invariant fresh(w) && w.Valid() && w.sq == sq && w.history == Frames(ops[..i])
    {
      assert ops[..i + 1][..i] == ops[..i];
      assert ops[i] in ops;
      var error := w.Write(ops[i].0, ops[i].1);
    }
    assert ops[..|ops|] == ops;
    assert forall h :: h in w.history ==> ValidFrame(h);
    w.Close();
    RecordedValid(Frames(ops), sq);
    frames := ReadAll(w.out, Recorded(Frames(ops), sq));
    RecordedOutput(Frames(ops), sq);
  }

  lemma RecordedOutput(history: seq<Frame>, sq: nat)
    ensures Output(Recorded(history, sq)) == Output(history)
  {
    if sq > 0 {
      RecordingKeepsOutput(history, sq);
    }
  }

  lemma RecordedValid(history: seq<Frame>, sq: nat)
    requires forall h :: h in history ==> ValidFrame(h)
    ensures forall h :: h in Recorded(history, sq) ==> ValidFrame(h)
  {
    if sq > 0 {
      GroupsPartition(history, sq);
      FirstsAreMembers(Groups(history, sq));
      forall i | 0 <= i < |Groups(history, sq)|
        ensures ValidFrame(MergedAll(Groups(history, sq))[i])
      {
        MergedAt(Groups(history, sq), i);
      }
    }
  }

  lemma {:induction false} FirstsAreMembers(groups: seq<Group>)
    ensures forall i :: 0 <= i < |groups| ==> groups[i].first in Flat(groups)
  {
    if groups != [] {
      FirstsAreMembers(groups[..|groups| - 1]);
      assert Members(groups[|groups| - 1])[0] == groups[|groups| - 1].first;
    }
  }

  /** A window size is read from the payload it was written to. */
  lemma WindowSizeRoundTrip(width: nat, height: nat)
    requires width < TWO32 && height < TWO32
    ensures DecodeWindowSize(FrameOf(WriteWindowSize(width, height), 0).payload) == (width, height)
  {
    BigEndian32RoundTrip(width);
    BigEndian32RoundTrip(height);
    var p := FrameOf(WriteWindowSize(width, height), 0).payload;
    assert p[..4] == BigEndian32(width) && p[4..8] == BigEndian32(height);
  }

  function DecodeWindowSize(payload: bytes): (nat, nat) {
    if |payload| < 8 then (0, 0) else (FromBigEndian32(payload[..4]), FromBigEndian32(payload[4..8]))
  }
}
