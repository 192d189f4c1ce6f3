/**
 The context watcher of a connection: the goroutine started with the connection
 and the caller that runs one operation at a time, interleaved step by step.

 Shared between them are the channels watcher (one slot), finished (no slot) and
 closech (closed once), and the atomics closed and canceled. The flag watching
 belongs to the caller.
 */
module MySqlWatcher {
  import opened Wrappers

  type Context = nat

  datatype Who = Caller | Watcher

  // What a caller does after the current call returns: the body of the operation, or what follows finish.
  datatype Phase = Body | Tail

  datatype CallerPc =
    | Idle
    | WatchTest(opt: Option<Context>)     // watchCancel: if mc.watching
    | WatchArm(opt: Option<Context>)      // if ctx.Done() == nil
    | WatchSelect(ctx: Context)           // select default / ctx.Done()
    | WatchSend(ctx: Context)             // mc.watcher <- ctx
    | Working(phase: Phase)
    | TrySet(phase: Phase)                // cleanup: mc.closed.TrySet(true)
    | CloseCh(phase: Phase)               // cleanup: close(mc.closech)
    | ReadCanceled(phase: Phase)          // error: closed is set, now mc.canceled
    | FinishTest                          // finish: if !mc.watching
    | FinishSelect                        // select finished<- / closech
    | FinishClear                         // mc.watching = false

  datatype WatcherPc =
    | AwaitContext
    | AwaitEnd(ctx: Context)
    | SetCanceled(ctx: Context)           // cancel: mc.canceled.Set(err)
    | WTrySet
    | WCloseCh
    | Exited

  // What error() returned last.
  datatype Verdict = Unasked | Healthy | InvalidConn | ContextError(ctx: Context)

  datatype Conn = Conn(
    caller: CallerPc,
    goroutine: WatcherPc,
    watching: bool,
    watcher: seq<Context>,
    closed: bool,
    closech: bool,
    canceled: Option<Context>,
    done: set<Context>,            // contexts whose Done channel is closed
    verdict: Verdict,
    closer: Option<Who>,           // who set closed
    closes: nat,                   // calls of close(closech)
    stores: nat                    // calls of canceled.Set
  )

  datatype Action =
    | CancelContext(ctx: Context)         // the outside world
    | Begin(opt: Option<Context>)         // an operation with a context; None: one that can never be done
    | BeginUnwatched                      // Close, Commit, Rollback, the context-free calls
    | CallerStep
    | CallCleanup                         // the operation hits a broken connection, or closes it
    | CallError
    | EndBody                             // calls finish
    | EndOperation
    | FinishViaFinished
    | FinishViaClosech
    | TakeContext
    | SeeDone
    | WatcherStep
    | SeeClosed

  function Start(): Conn {
    Conn(Idle, AwaitContext, false, [], false, false, None, {}, Unasked, None, 0, 0)
  }

  function SetClosed(c: Conn, who: Who): Conn {
    if c.closed then c else c.(closed := true, closer := Some(who))
  }

  /** A step of the caller that involves no choice. */
  function CallerNext(c: Conn): Option<Conn> {
    match c.caller
    case WatchTest(ctx) => Some(c.(caller := if c.watching then TrySet(Body) else WatchArm(ctx)))
    case WatchArm(ctx) =>
      if ctx.None? then Some(c.(caller := Working(Body)))
      else Some(c.(watching := true, caller := WatchSelect(ctx.value)))
    case WatchSelect(ctx) => Some(c.(caller := if ctx in c.done then Idle else WatchSend(ctx)))
    case WatchSend(ctx) =>
      if |c.watcher| < 1 then Some(c.(watcher := c.watcher + [ctx], caller := Working(Body))) else None
    case TrySet(phase) => Some(SetClosed(c, Caller).(caller := if c.closed then Working(phase) else CloseCh(phase)))
    case CloseCh(phase) => Some(c.(closech := true, closes := c.closes + 1, caller := Working(phase)))
    case ReadCanceled(phase) =>
      Some(c.(verdict := if c.canceled.Some? then ContextError(c.canceled.value) else InvalidConn,
              caller := Working(phase)))
    case FinishTest => Some(c.(caller := if c.watching then FinishSelect else Working(Tail)))
    case FinishClear => Some(c.(watching := false, caller := Working(Tail)))
    case _ => None
  }

  /** A step of the goroutine that involves no choice. */
  function WatcherNext(c: Conn): Option<Conn> {
    match c.goroutine
    case SetCanceled(ctx) => Some(c.(canceled := Some(ctx), stores := c.stores + 1, goroutine := WTrySet))
    case WTrySet => Some(SetClosed(c, Watcher).(goroutine := if c.closed then AwaitContext else WCloseCh))
    case WCloseCh => Some(c.(closech := true, closes := c.closes + 1, goroutine := AwaitContext))
    case _ => None
  }

  /** The connection after one action, if the action is possible. */
  function Do(c: Conn, a: Action): Option<Conn> {
    match a
    case CancelContext(ctx) => Some(c.(done := c.done + {ctx}))
    case Begin(ctx) => if c.caller.Idle? then Some(c.(caller := WatchTest(ctx))) else None
    case BeginUnwatched => if c.caller.Idle? then Some(c.(caller := Working(Tail))) else None
    case CallerStep => CallerNext(c)
    case CallCleanup => if c.caller.Working? then Some(c.(caller := TrySet(c.caller.phase))) else None
    case CallError =>
      if !c.caller.Working? then None
      else if c.closed then Some(c.(caller := ReadCanceled(c.caller.phase)))
      else Some(c.(verdict := Healthy))
    case EndBody => if c.caller == Working(Body) then Some(c.(caller := FinishTest)) else None
    case EndOperation => if c.caller == Working(Tail) then Some(c.(caller := Idle)) else None
    case FinishViaFinished =>
      if c.caller.FinishSelect? && c.goroutine.AwaitEnd?
      then Some(c.(caller := FinishClear, goroutine := AwaitContext)) else None
    case FinishViaClosech =>
      if c.caller.FinishSelect? && c.closech then Some(c.(caller := Working(Tail))) else None
    case TakeContext =>
      if c.goroutine.AwaitContext? && |c.watcher| > 0
      then Some(c.(goroutine := AwaitEnd(c.watcher[0]), watcher := c.watcher[1..])) else None
    case SeeDone =>
      if c.goroutine.AwaitEnd? && c.goroutine.ctx in c.done
      then Some(c.(goroutine := SetCanceled(c.goroutine.ctx))) else None
    case WatcherStep => WatcherNext(c)
    case SeeClosed =>
      if (c.goroutine.AwaitContext? || c.goroutine.AwaitEnd?) && c.closech
      then Some(c.(goroutine := Exited)) else None
  }

  /** The goroutine holds a context it has not let go of. */
  predicate Holding(w: WatcherPc) {
    w.AwaitEnd? || w.SetCanceled? || w.WTrySet? || w.WCloseCh?
  }

  /** The goroutine has, or is about to take, the context of the operation under way. */
  predicate Armed(c: Conn) {
    Holding(c.goroutine) || (|c.watcher| == 1 && c.goroutine.AwaitContext?)
  }

  predicate Closing(c: Conn) {
    c.caller.CloseCh? || c.goroutine.WCloseCh?
  }

  /** Closing: closed is set once, by one party, which then closes closech once. */
  predicate ClosedOnce(c: Conn) {
    && (c.closed <==> c.closer.Some?)
    && c.closes == (if c.closech then 1 else 0)
    && (Closing(c) <==> c.closed && !c.closech)
    && (c.closech ==> c.closed)
    && (c.caller.CloseCh? ==> c.closer == Some(Caller))
    && (c.goroutine.WCloseCh? ==> c.closer == Some(Watcher))
    && (c.goroutine.Exited? ==> c.closech)
  }

  /** Watching: contexts are handed over only while the flag is set. */
  predicate HandedOver(c: Conn) {
    && |c.watcher| <= 1
    && (|c.watcher| == 1 ==> !Holding(c.goroutine))
    && (|c.watcher| == 1 || Holding(c.goroutine) ==> c.watching && !Arming(c.caller) && !c.caller.FinishClear?)
    && (c.caller.WatchArm? ==> !c.watching)
    && (c.caller.WatchSelect? || c.caller.WatchSend? || c.caller.FinishSelect? || c.caller.FinishClear? ==> c.watching)
    && (c.watching && Waiting(c.caller) ==> c.closed || Armed(c))
  }

  predicate Arming(p: CallerPc) {
    p.WatchArm? || p.WatchSelect? || p.WatchSend?
  }

  /** Inside an operation that will call finish. */
  predicate Waiting(p: CallerPc) {
    p == Working(Body) || p == CloseCh(Body) || p == ReadCanceled(Body) || p.FinishTest? || p.FinishSelect?
  }

  /** Cancelling: at most one context is ever recorded, and before the watcher closes anything. */
  predicate CanceledOnce(c: Conn) {
    && c.stores == (if c.canceled.Some? then 1 else 0)
    && (c.canceled.Some? ==>
      && c.canceled.value in c.done
      && c.watching && !Arming(c.caller) && !c.caller.FinishClear?
      && c.watcher == [] && !c.goroutine.AwaitEnd? && !c.goroutine.SetCanceled?
      && (c.closed || c.goroutine.WTrySet?))
    && (c.goroutine.SetCanceled? ==> c.goroutine.ctx in c.done)
    && (c.goroutine.WTrySet? || c.goroutine.WCloseCh? ==> c.canceled.Some?)
    && (c.closer == Some(Watcher) ==> c.canceled.Some?)
  }

  /** error() on a connection that was found closed blames the context if the watcher closed it. */
  predicate VerdictFits(c: Conn) {
    && (c.caller.ReadCanceled? ==> c.closed)
    && (c.verdict.ContextError? ==> c.canceled == Some(c.verdict.ctx))
  }

  predicate Inv(c: Conn) {
    ClosedOnce(c) && HandedOver(c) && CanceledOnce(c) && VerdictFits(c)
  }

  lemma InvStart()
    ensures Inv(Start())
  {
  }

  lemma CallerCloses(c: Conn)
    requires Inv(c) && CallerNext(c).Some?
    ensures ClosedOnce(CallerNext(c).value)
  {
    hide HandedOver, CanceledOnce;
  }

  lemma CallerAsks(c: Conn)
    requires Inv(c) && CallerNext(c).Some?
    ensures VerdictFits(CallerNext(c).value)
  {
    hide HandedOver, CanceledOnce;
  }

  lemma CallerHandsOver(c: Conn)
    requires Inv(c) && CallerNext(c).Some?
    ensures HandedOver(CallerNext(c).value)
  {
    hide VerdictFits;
  }

  lemma CallerCancels(c: Conn)
    requires Inv(c) && CallerNext(c).Some?
    ensures CanceledOnce(CallerNext(c).value)
  {
    hide VerdictFits;
  }

  lemma InvWatcherStep(c: Conn)
    requires Inv(c) && WatcherNext(c).Some?
    ensures Inv(WatcherNext(c).value)
  {
  }

  /** An action that is a step of neither. */
  predicate Choice(a: Action) {
    !a.CallerStep? && !a.WatcherStep?
  }

  lemma ChoiceCloses(c: Conn, a: Action)
    requires Inv(c) && Choice(a) && Do(c, a).Some?
    ensures ClosedOnce(Do(c, a).value) && VerdictFits(Do(c, a).value)
  {
    hide CallerNext, WatcherNext;
  }

  lemma ChoiceHandsOver(c: Conn, a: Action)
    requires Inv(c) && Choice(a) && Do(c, a).Some?
    ensures HandedOver(Do(c, a).value)
  {
    hide CallerNext, WatcherNext, VerdictFits;
  }

  lemma ChoiceCancels(c: Conn, a: Action)
    requires Inv(c) && Choice(a) && Do(c, a).Some?
    ensures CanceledOnce(Do(c, a).value)
  {
    hide CallerNext, WatcherNext, VerdictFits;
  }

  lemma InvStep(c: Conn, a: Action)
    requires Inv(c) && Do(c, a).Some?
    ensures Inv(Do(c, a).value)
  {
    hide ClosedOnce, HandedOver, CanceledOnce, VerdictFits, CallerNext, WatcherNext;
    if a.CallerStep? {
      CallerCloses(c);
      CallerAsks(c);
      CallerHandsOver(c);
      CallerCancels(c);
    } else if a.WatcherStep? {
      InvWatcherStep(c);
    } else {
      ChoiceCloses(c, a);
      ChoiceHandsOver(c, a);
      ChoiceCancels(c, a);
    }
  }

  /** The connection after a whole schedule of actions, if each is possible in turn. */
  function Run(c: Conn, actions: seq<Action>): Option<Conn>
    decreases actions
  {
    if actions == [] then Some(c)
    else if Do(c, actions[0]).None? then None
    else Run(Do(c, actions[0]).value, actions[1..])
  }

  lemma {:induction false} InvRun(c: Conn, actions: seq<Action>)
    requires Inv(c) && Run(c, actions).Some?
    ensures Inv(Run(c, actions).value)
    decreases actions
  {
    if actions != [] {
      InvStep(c, actions[0]);
      InvRun(Do(c, actions[0]).value, actions[1..]);
    }
  }

  /**
   Under every interleaving: closech is closed at most once and the context's error
   stored at most once, and a caller about to hand over a context finds the slot free.
   */
  lemma SafeUnderEverySchedule(actions: seq<Action>)
    requires Run(Start(), actions).Some?
    ensures var c := Run(Start(), actions).value;
            && c.closes <= 1
            && c.stores <= 1
            && (c.caller.WatchSend? ==> Do(c, CallerStep).Some?)
            && (c.caller.CloseCh? || c.goroutine.WCloseCh? ==> c.closes == 0)
  {
    InvStart();
    InvRun(Start(), actions);
  }

  /** If cancel did the closing, whatever error() reads next is the error of a context that really ended. */
  lemma ErrorBlamesTheContext(actions: seq<Action>)
    requires Run(Start(), actions).Some?
    ensures var c := Run(Start(), actions).value;
            c.closer == Some(Watcher) ==>
              && c.canceled.Some? && c.canceled.value in c.done
              && (c.caller.Working? ==>
                && Do(c, CallError).Some? && Do(c, CallError).value.caller.ReadCanceled?
                && Do(Do(c, CallError).value, CallerStep).value.verdict == ContextError(c.canceled.value))
              && (c.caller.ReadCanceled? ==>
                Do(c, CallerStep).value.verdict == ContextError(c.canceled.value))
  {
    InvStart();
    InvRun(Start(), actions);
  }

  predicate FinishCanGo(c: Conn) {
    Do(c, FinishViaFinished).Some? || Do(c, FinishViaClosech).Some?
  }

  /** How far the goroutine is from letting finish go. */
  function Distance(c: Conn): nat {
    match c.goroutine
    case AwaitContext => if |c.watcher| > 0 then 5 else 0
    case AwaitEnd(_) => 4
    case SetCanceled(_) => 3
    case WTrySet => 2
    case WCloseCh => 1
    case Exited => 0
  }

  function Goroutine(): set<Action> {
    {TakeContext, SeeDone, WatcherStep, SeeClosed}
  }

  /** A caller in finish can go on, or the goroutine can take a step; every such step brings it nearer. */
  lemma FinishIsNeverStuck(actions: seq<Action>)
    requires Run(Start(), actions).Some?
    requires Run(Start(), actions).value.caller.FinishSelect?
    ensures var c := Run(Start(), actions).value;
            && (FinishCanGo(c) || exists a :: a in Goroutine() && Do(c, a).Some?)
            && (forall a :: a in Goroutine() && Do(c, a).Some? ==>
                  Do(c, a).value.caller.FinishSelect? && (Distance(Do(c, a).value) < Distance(c) || c.closech))
  {
    hide Inv, Do, Goroutine, Distance, FinishCanGo;
    InvStart();
    InvRun(Start(), actions);
    var c := Run(Start(), actions).value;
    FinishGoesOn(c);
    forall a | a in Goroutine() && Do(c, a).Some?
      ensures Do(c, a).value.caller.FinishSelect? && (Distance(Do(c, a).value) < Distance(c) || c.closech)
    {
      ComesNearer(c, a);
    }
  }

  lemma FinishGoesOn(c: Conn)
    requires Inv(c) && c.caller.FinishSelect?
    ensures FinishCanGo(c) || exists a :: a in Goroutine() && Do(c, a).Some?
  {
    hide CallerNext, CanceledOnce, VerdictFits;
    if !FinishCanGo(c) {
      assert !c.closech && !c.goroutine.AwaitEnd?;
      if c.goroutine.AwaitContext? {
        assert |c.watcher| == 1;
        assert TakeContext in Goroutine() && Do(c, TakeContext).Some?;
      } else {
        assert WatcherStep in Goroutine() && Do(c, WatcherStep).Some?;
      }
    }
  }

  lemma ComesNearer(c: Conn, a: Action)
    requires Inv(c) && c.caller.FinishSelect? && a in Goroutine() && Do(c, a).Some?
    ensures Do(c, a).value.caller.FinishSelect? && (Distance(Do(c, a).value) < Distance(c) || c.closech)
  {
    hide CallerNext, CanceledOnce, VerdictFits;
  }

  /** How many of the actions are steps of the goroutine. */
  function StepsTaken(actions: seq<Action>): nat {
    if actions == [] then 0
    else (if actions[0] in Goroutine() then 1 else 0) + StepsTaken(actions[1..])
  }

  /** Steps of the goroutine, and contexts that end in between. */
  predicate WithoutCaller(actions: seq<Action>) {
    forall a :: a in actions ==> a in Goroutine() || a.CancelContext?
  }

  /**
   However the goroutine is scheduled, and whatever contexts end meanwhile, five of its steps are enough
   for a waiting finish to be able to go.
   */
  lemma {:induction false} FinishGoesAfter(c: Conn, steps: seq<Action>)
    requires Inv(c) && c.caller.FinishSelect?
    requires WithoutCaller(steps) && Run(c, steps).Some?
    requires StepsTaken(steps) >= Distance(c)
    ensures exists k :: 0 <= k <= |steps| && Run(c, steps[..k]).Some? && FinishCanGo(Run(c, steps[..k]).value)
    decreases |steps|
  {
    if FinishCanGo(c) {
      assert steps[..0] == [];
      assert Run(c, steps[..0]) == Some(c);
    } else {
      NotYet(c);
      assert steps[0] in steps;
      var next := Do(c, steps[0]).value;
      InvStep(c, steps[0]);
      StepNears(c, steps[0]);
      FinishGoesAfter(next, steps[1..]);
      var k :| 0 <= k <= |steps| - 1 && Run(next, steps[1..][..k]).Some? && FinishCanGo(Run(next, steps[1..][..k]).value);
      assert steps[..k + 1][0] == steps[0] && steps[..k + 1][1..] == steps[1..][..k];
      assert Run(c, steps[..k + 1]) == Run(next, steps[1..][..k]);
    }
  }

  lemma NotYet(c: Conn)
    requires Inv(c) && c.caller.FinishSelect? && !FinishCanGo(c)
    ensures Distance(c) > 0 && !c.closech
  {
  }

  lemma StepNears(c: Conn, a: Action)
    requires Inv(c) && c.caller.FinishSelect? && !c.closech && Do(c, a).Some?
    requires a in Goroutine() || a.CancelContext?
    ensures Do(c, a).value.caller == c.caller
    ensures Distance(Do(c, a).value) <= if a in Goroutine() then Distance(c) - 1 else Distance(c)
  {
  }

  /** What moves an operation on: the calls it makes by itself, the end of its body, and the end of the operation. */
  predicate MovesOn(a: Action) {
    a.CallerStep? || a.EndBody? || a.EndOperation? || a.FinishViaFinished? || a.FinishViaClosech?
  }

  /**
   No reachable state leaves both parties waiting: an operation under way can move on by itself, or, in
   finish, after the goroutine.
   */
  lemma NoDeadlock(actions: seq<Action>)
    requires Run(Start(), actions).Some?
    ensures var c := Run(Start(), actions).value;
            !c.caller.Idle? ==>
              exists a :: Do(c, a).Some? && (MovesOn(a) || (c.caller.FinishSelect? && a in Goroutine()))
  {
    InvStart();
    InvRun(Start(), actions);
    var c := Run(Start(), actions).value;
    match c.caller
    case Working(phase) => assert Do(c, if phase.Body? then EndBody else EndOperation).Some?;
    case FinishSelect =>
      FinishIsNeverStuck(actions);
      if FinishCanGo(c) {
        assert Do(c, FinishViaFinished).Some? || Do(c, FinishViaClosech).Some?;
      } else {
        var a :| a in Goroutine() && Do(c, a).Some?;
      }
    case Idle =>
    case _ => assert Do(c, CallerStep).Some?;
  }

  // ---------------------------------------------------------------- a refused context

  /** Whether the last operation begun with a context was refused because its context was over by then. */
  function LastRefused(actions: seq<Action>): bool
    requires Run(Start(), actions).Some?
    decreases |actions|
  {
    if actions == [] then false
    else
      RunSplit(Start(), actions);
      var before := actions[..|actions| - 1];
      Refused(Run(Start(), before).value, actions[|actions| - 1], LastRefused(before))
  }

  function Refused(c: Conn, a: Action, before: bool): bool {
    if a.Begin? then false
    else if a.CallerStep? && c.caller.WatchSelect? then c.caller.ctx in c.done
    else before
  }

  lemma {:induction false} RunSplit(c: Conn, actions: seq<Action>)
    requires actions != [] && Run(c, actions).Some?
    ensures var n := |actions| - 1;
            Run(c, actions[..n]).Some? && Run(c, actions) == Do(Run(c, actions[..n]).value, actions[n])
    decreases |actions|
  {
    var n := |actions| - 1;
    if n == 0 {
      assert actions[..0] == [] && actions[1..] == [];
      assert Run(Do(c, actions[0]).value, []) == Do(c, actions[0]);
    } else {
      RunSplit(Do(c, actions[0]).value, actions[1..]);
      assert actions[1..][..n - 1] == actions[..n][1..];
    }
  }

  /** While nothing is closed: the flag stays up between operations just when the last one was refused. */
  predicate FlagFits(c: Conn, refused: bool) {
    !c.closed ==>
      && (c.caller.Idle? || c.caller == Working(Tail) || c.caller == TrySet(Tail) ==> (c.watching <==> refused))
      && (Begun(c.caller) ==> !refused)
  }

  /** Inside an operation with a context, while nothing is closed. */
  predicate Begun(p: CallerPc) {
    p.WatchTest? || Arming(p) || p == Working(Body) || p.FinishTest? || p.FinishSelect? || p.FinishClear?
  }

  lemma FlagStep(c: Conn, a: Action, refused: bool)
    requires Inv(c) && Do(c, a).Some? && FlagFits(c, refused)
    ensures FlagFits(Do(c, a).value, Refused(c, a, refused))
  {
  }

  lemma {:induction false} FlagRun(actions: seq<Action>)
    requires Run(Start(), actions).Some?
    ensures FlagFits(Run(Start(), actions).value, LastRefused(actions))
    decreases |actions|
  {
    hide FlagFits, Inv, Do, Refused;
    if actions == [] {
      FlagStart();
    } else {
      var before := actions[..|actions| - 1];
      RunSplit(Start(), actions);
      FlagRun(before);
      InvStart();
      InvRun(Start(), before);
      FlagStep(Run(Start(), before).value, actions[|actions| - 1], LastRefused(before));
    }
  }

  lemma FlagStart()
    ensures FlagFits(Start(), false)
  {
  }

  /**
   Between operations on a connection that nobody has closed, the flag is up if and only if the last
   operation with a context was refused because its context was already over.
   */
  lemma FlagLeftByRefusal(actions: seq<Action>)
    requires Run(Start(), actions).Some?
    requires Run(Start(), actions).value.caller.Idle? && !Run(Start(), actions).value.closed
    ensures Run(Start(), actions).value.watching <==> LastRefused(actions)
  {
    FlagRun(actions);
  }

  /**
   And then, whatever the goroutine does and whatever contexts end in between, the next operation closes
   the connection if and only if the last one with a context was refused; no context is to blame.
   */
  lemma NextOperationCloses(actions: seq<Action>, opt: Option<Context>, mid: seq<Action>)
    requires Run(Start(), actions).Some?
    requires Run(Start(), actions).value.caller.Idle? && !Run(Start(), actions).value.closed
    requires WithoutCaller(mid) && Run(Do(Run(Start(), actions).value, Begin(opt)).value, mid).Some?
    ensures var c := Run(Start(), actions).value;
            var d := Run(Do(c, Begin(opt)).value, mid).value;
            && Do(d, CallerStep).Some?
            && (Do(d, CallerStep).value.caller == TrySet(Body) <==> LastRefused(actions))
            && (LastRefused(actions) ==>
                  var e := Do(Do(d, CallerStep).value, CallerStep).value;
                  e.closed && e.closer == Some(Caller) && e.canceled.None? && e.caller == CloseCh(Body))
  {
    InvStart();
    InvRun(Start(), actions);
    FlagLeftByRefusal(actions);
    var c := Run(Start(), actions).value;
    IdleGoroutine(actions);
    var d := Do(c, Begin(opt)).value;
    InvStep(c, Begin(opt));
    NothingHappens(d, mid);
  }

  /** Between operations on a connection that nobody has closed, the goroutine waits for a context. */
  lemma IdleGoroutine(actions: seq<Action>)
    requires Run(Start(), actions).Some?
    ensures Asleep(Run(Start(), actions).value)
    decreases |actions|
  {
    if actions == [] {
    } else {
      var before := actions[..|actions| - 1];
      RunSplit(Start(), actions);
      IdleGoroutine(before);
      InvStart();
      InvRun(Start(), before);
      FlagRun(before);
      AsleepStep(Run(Start(), before).value, actions[|actions| - 1]);
    }
  }

  predicate Asleep(c: Conn) {
    !c.closed && Resting(c.caller) ==> c.goroutine.AwaitContext? && c.watcher == [] && c.canceled.None?
  }

  /** Between operations, before a context is handed over, or after it was taken back. */
  predicate Resting(p: CallerPc) {
    p.Idle? || p.WatchTest? || Arming(p) || p == Working(Tail) || p == TrySet(Tail)
  }

  lemma AsleepStep(c: Conn, a: Action)
    requires Inv(c) && Asleep(c) && Do(c, a).Some?
    ensures Asleep(Do(c, a).value)
  {
  }

  lemma {:induction false} NothingHappens(d: Conn, mid: seq<Action>)
    requires Inv(d) && Asleep(d) && !d.closed && d.caller.WatchTest? && WithoutCaller(mid) && Run(d, mid).Some?
    ensures Run(d, mid).value == d.(done := Run(d, mid).value.done)
    decreases |mid|
  {
    if mid != [] {
      assert mid[0] in mid;
      InvStep(d, mid[0]);
      NothingHappens(Do(d, mid[0]).value, mid[1..]);
    }
  }

  /** An operation refused because its context was already over closes the connection for the next one, although nothing failed on it. */
  lemma RefusedContextSpoilsConnection()
    ensures var actions := [CancelContext(0), Begin(Some(0)), CallerStep, CallerStep, CallerStep,
                            Begin(None), CallerStep, CallerStep];
            && Run(Start(), actions).Some?
            && Run(Start(), actions).value.closed
            && Run(Start(), actions).value.closer == Some(Caller)
            && Run(Start(), actions).value.canceled.None?
  {
    var c0 := Start();
    var c1 := Do(c0, CancelContext(0)).value;
    var c2 := Do(c1, Begin(Some(0))).value;
    var c3 := Do(c2, CallerStep).value;
    var c4 := Do(c3, CallerStep).value;
    var c5 := Do(c4, CallerStep).value;
    assert c5.caller.Idle? && c5.watching;
    var c6 := Do(c5, Begin(None)).value;
    var c7 := Do(c6, CallerStep).value;
    var c8 := Do(c7, CallerStep).value;
    assert c8.closed;
    assert Run(c8, []) == Some(c8);
    assert Run(c7, [CallerStep]) == Some(c8);
    assert Run(c6, [CallerStep, CallerStep]) == Some(c8);
    assert Run(c5, [Begin(None), CallerStep, CallerStep]) == Some(c8);
    assert Run(c4, [CallerStep, Begin(None), CallerStep, CallerStep]) == Some(c8);
    assert Run(c3, [CallerStep, CallerStep, Begin(None), CallerStep, CallerStep]) == Some(c8);
    assert Run(c2, [CallerStep, CallerStep, CallerStep, Begin(None), CallerStep, CallerStep]) == Some(c8);
    assert Run(c1, [Begin(Some(0)), CallerStep, CallerStep, CallerStep, Begin(None), CallerStep, CallerStep]) == Some(c8);
  }
}
