/**
 Nodes of a Redis cluster: every state of the cluster stamps its nodes with its generation, by a
 compare-and-swap that keeps the highest one, and nodes with old stamps are collected.
 */
module RedisCluster {
  import opened Wrappers

  const MAX_UINT32: nat := 0xffff_ffff

  // ---------------------------------------------------------------- SetGeneration by many threads at once

  datatype Phase = Loading | Swapping(seen: nat) | Finished

  /** A thread that calls SetGeneration(gen). */
  datatype Thread = Thread(gen: nat, phase: Phase)

  datatype Shared = Shared(generation: nat, threads: seq<Thread>)

  /** Thread i takes one atomic step: a load, or a comparison with a swap. */
  function Step(s: Shared, i: nat): (r: Shared)
    requires i < |s.threads|
    ensures |r.threads| == |s.threads|
  {
    var t := s.threads[i];
    match t.phase
    case Loading => s.(threads := s.threads[i := t.(phase := Swapping(s.generation))])
    case Finished => s
    case Swapping(seen) =>
      if t.gen < seen then s.(threads := s.threads[i := t.(phase := Finished)])
      else if s.generation == seen then Shared(t.gen, s.threads[i := t.(phase := Finished)])
      else s.(threads := s.threads[i := t.(phase := Loading)])
  }

  predicate Schedulable(schedule: seq<nat>, count: nat) {
    forall k :: 0 <= k < |schedule| ==> schedule[k] < count
  }

  function Run(s: Shared, schedule: seq<nat>): Shared
    requires Schedulable(schedule, |s.threads|)
    decreases |schedule|
  {
    if schedule == [] then s else Run(Step(s, schedule[0]), schedule[1..])
  }

  predicate Start(s: Shared) {
    forall i :: 0 <= i < |s.threads| ==> s.threads[i].phase == Loading
  }

  predicate AllFinished(s: Shared) {
    forall i :: 0 <= i < |s.threads| ==> s.threads[i].phase == Finished
  }

  /** The highest of n and the generations of the first k threads. */
  function Highest(threads: seq<Thread>, n: nat): nat {
    if threads == [] then n
    else
      var m := Highest(threads[..|threads| - 1], n);
      if threads[|threads| - 1].gen > m then threads[|threads| - 1].gen else m
  }

  /** What every step keeps: nothing seen is ahead, nothing finished is behind, and the value came from somewhere. */
  predicate Inv(s: Shared, first: nat) {
    && s.generation >= first
    && (forall i :: 0 <= i < |s.threads| ==>
          (s.threads[i].phase.Swapping? ==> s.threads[i].phase.seen <= s.generation)
          && (s.threads[i].phase.Finished? ==> s.threads[i].gen <= s.generation))
    && (s.generation == first || exists i :: 0 <= i < |s.threads| && s.threads[i].gen == s.generation)
  }

  lemma StepKeeps(s: Shared, i: nat, first: nat)
    requires i < |s.threads| && Inv(s, first)
    ensures var t := Step(s, i);
            && Inv(t, first) && t.generation >= s.generation && |t.threads| == |s.threads|
            && forall k :: 0 <= k < |s.threads| ==> t.threads[k].gen == s.threads[k].gen
  {
    var t := Step(s, i);
    assert t.threads[i].gen == s.threads[i].gen;
    if s.generation != first {
      var k :| 0 <= k < |s.threads| && s.threads[k].gen == s.generation;
      assert t.threads[k].gen == s.threads[k].gen;
    }
  }

  lemma {:induction false} RunKeeps(s: Shared, schedule: seq<nat>, first: nat)
    requires Inv(s, first) && Schedulable(schedule, |s.threads|)
    ensures var t := Run(s, schedule);
            && Inv(t, first) && t.generation >= s.generation && |t.threads| == |s.threads|
            && forall k :: 0 <= k < |s.threads| ==> t.threads[k].gen == s.threads[k].gen
    decreases |schedule|
  {
    hide Inv, Step;
    if schedule != [] {
      StepKeeps(s, schedule[0], first);
      RunKeeps(Step(s, schedule[0]), schedule[1..], first);
    }
  }

  lemma {:induction false} HighestIs(threads: seq<Thread>, n: nat, m: nat)
    requires m >= n && forall i :: 0 <= i < |threads| ==> threads[i].gen <= m
    requires m == n || exists i :: 0 <= i < |threads| && threads[i].gen == m
    ensures Highest(threads, n) == m
  {
    if threads != [] {
      var init, last := threads[..|threads| - 1], threads[|threads| - 1];
      if m == n || (exists i :: 0 <= i < |init| && init[i].gen == m) {
        HighestIs(init, n, m);
      } else {
        HighestBelow(init, n, m);
        assert last.gen == m;
      }
    }
  }

  lemma {:induction false} HighestBelow(threads: seq<Thread>, n: nat, m: nat)
    requires n <= m && forall i :: 0 <= i < |threads| ==> threads[i].gen <= m
    ensures Highest(threads, n) <= m
  {
    if threads != [] {
      HighestBelow(threads[..|threads| - 1], n, m);
    }
  }

  /** However their steps interleave, when all calls have returned the highest generation stands. */
  lemma HighestStands(s: Shared, schedule: seq<nat>)
    requires Start(s) && Schedulable(schedule, |s.threads|) && AllFinished(Run(s, schedule))
    ensures Run(s, schedule).generation == Highest(s.threads, s.generation)
  {
    hide Run;
    RunKeeps(s, schedule, s.generation);
    var t := Run(s, schedule);
    assert forall i :: 0 <= i < |s.threads| ==> s.threads[i].gen <= t.generation;
    if t.generation != s.generation {
      var k :| 0 <= k < |t.threads| && t.threads[k].gen == t.generation;
      assert s.threads[k].gen == t.generation;
    }
    HighestIs(s.threads, s.generation, t.generation);
  }

  /** A swap fails only because the generation has risen since the load. */
  lemma RetryMeansProgress(s: Shared, i: nat, first: nat)
    requires Inv(s, first) && i < |s.threads| && s.threads[i].phase.Swapping?
    ensures Step(s, i).threads[i].phase == Loading <==>
            s.threads[i].gen >= s.threads[i].phase.seen && s.generation > s.threads[i].phase.seen
  {
  }

  // ---------------------------------------------------------------- nodes and their collection

  class Node {
    const addr: string
    var generation: nat
    var open: bool

    constructor (addr: string)
      ensures this.addr == addr && generation == 0 && open
    {
      this.addr, generation, open := addr, 0, true;
    }

    /** One call that nobody interferes with, so that its swap succeeds at once. */
    method SetGeneration(gen: nat)
      modifies this`generation
      ensures generation == if gen > old(generation) then gen else old(generation)
    {
      var v := generation;
      if gen < v {
        return;
      }
      generation := gen;
    }

    method Close()
      modifies this`open
      ensures !open
    {
      open := false;
    }
  }

  // The stamps alone: what builds and collections come to, address by address.

  /** Whether all addresses of a build were found, and the stamps it left. */
  datatype Touched = Touched(stamps: map<string, nat>, found: bool)

  /** Each node is found or made, and stamped; the first that is new and does not answer ends the build, unstamped. */
  function TouchAll(stamps: map<string, nat>, addrs: seq<string>, tests: seq<bool>, gen: nat): Touched
    requires |tests| == |addrs|
    decreases |addrs|
  {
    if addrs == [] then Touched(stamps, true)
    else if addrs[0] in stamps || tests[0] then TouchAll(stamps[addrs[0] := Stamped(stamps, addrs[0], gen)], addrs[1..], tests[1..], gen)
    else Touched(stamps[addrs[0] := 0], false)
  }

  /** The stamps that a collection leaves. */
  function Younger(stamps: map<string, nat>, gen: nat): map<string, nat> {
    map a | a in stamps && stamps[a] >= gen :: stamps[a]
  }

  function Stamped(stamps: map<string, nat>, addr: string, gen: nat): nat {
    if addr in stamps && stamps[addr] > gen then stamps[addr] else gen
  }

  /** Every address is known, or answers when it is first asked for. */
  predicate AllAnswer(known: set<string>, addrs: seq<string>, tests: seq<bool>)
    requires |tests| == |addrs|
  {
    forall i :: 0 <= i < |addrs| ==> addrs[i] in known || addrs[i] in addrs[..i] || tests[i]
  }

  lemma {:induction false} TouchAllFinds(stamps: map<string, nat>, addrs: seq<string>, tests: seq<bool>, gen: nat)
    requires |tests| == |addrs|
    ensures TouchAll(stamps, addrs, tests, gen).found <==> AllAnswer(stamps.Keys, addrs, tests)
    decreases |addrs|
  {
    if addrs != [] {
      if addrs[0] in stamps || tests[0] {
        var more := stamps[addrs[0] := Stamped(stamps, addrs[0], gen)];
        TouchAllFinds(more, addrs[1..], tests[1..], gen);
        AnswersShift(stamps.Keys, addrs, tests);
        assert more.Keys == stamps.Keys + {addrs[0]};
      } else {
        assert addrs[0] !in addrs[..0];
      }
    }
  }

  lemma AnswersShift(known: set<string>, addrs: seq<string>, tests: seq<bool>)
    requires |tests| == |addrs| > 0 && (addrs[0] in known || tests[0])
    ensures AllAnswer(known, addrs, tests) <==> AllAnswer(known + {addrs[0]}, addrs[1..], tests[1..])
  {
    forall i | 0 < i < |addrs|
      ensures addrs[i] in addrs[..i] <==> addrs[i] == addrs[0] || addrs[i] in addrs[1..][..i - 1]
    {
      assert addrs[..i] == [addrs[0]] + addrs[1..][..i - 1];
    }
    if AllAnswer(known, addrs, tests) {
      forall i | 0 <= i < |addrs| - 1
        ensures addrs[1..][i] in known + {addrs[0]} || addrs[1..][i] in addrs[1..][..i] || tests[1..][i]
      {
        assert addrs[i + 1] in known || addrs[i + 1] in addrs[..i + 1] || tests[i + 1];
      }
    }
    if AllAnswer(known + {addrs[0]}, addrs[1..], tests[1..]) {
      forall i | 0 <= i < |addrs|
        ensures addrs[i] in known || addrs[i] in addrs[..i] || tests[i]
      {
        if i > 0 {
          assert addrs[1..][i - 1] in known + {addrs[0]} || addrs[1..][i - 1] in addrs[1..][..i - 1] || tests[1..][i - 1];
        }
      }
    }
  }

  lemma {:induction false} TouchAllSplit(stamps: map<string, nat>, addrs: seq<string>, tests: seq<bool>, gen: nat, i: nat)
    requires |tests| == |addrs| && i < |addrs|
    ensures TouchAll(stamps, addrs[..i], tests[..i], gen).found ==>
              var now := TouchAll(stamps, addrs[..i], tests[..i], gen).stamps;
              if addrs[i] in now || tests[i] then
                TouchAll(stamps, addrs[..i + 1], tests[..i + 1], gen) == Touched(now[addrs[i] := Stamped(now, addrs[i], gen)], true)
              else TouchAll(stamps, addrs, tests, gen) == Touched(now[addrs[i] := 0], false)
    decreases |addrs|
  {
    var a, t := addrs[..i + 1], tests[..i + 1];
    if i == 0 {
      assert addrs[..0] == [] && tests[..0] == [];
      assert a == [addrs[0]] && t == [tests[0]] && a[1..] == [] && t[1..] == [];
      if addrs[0] in stamps || tests[0] {
        assert TouchAll(stamps[addrs[0] := Stamped(stamps, addrs[0], gen)], [], [], gen).found;
      }
    } else if addrs[0] in stamps || tests[0] {
      TouchAllSplit(stamps[addrs[0] := Stamped(stamps, addrs[0], gen)], addrs[1..], tests[1..], gen, i - 1);
      assert addrs[..i][1..] == addrs[1..][..i - 1] && tests[..i][1..] == tests[1..][..i - 1];
      assert a[1..] == addrs[1..][..i] && t[1..] == tests[1..][..i];
    }
  }

  /** A state of the cluster: its nodes by address, and its generation. */
  datatype State = State(members: map<string, Node>, generation: nat)

  datatype Error = NoError | Closed | Unreachable

  /** A state's nodes are all there, stamped with its generation or a later one. */
  ghost predicate Kept(s: State, all: map<string, Node>)
    reads s.members.Values`generation
  {
    forall a :: a in s.members ==> a in all && all[a] == s.members[a] && s.members[a].generation >= s.generation
  }

  /** The nodes of the states handed out, whether still kept or not. */
  ghost function StateNodes(states: seq<State>): set<Node> {
    set i, a | 0 <= i < |states| && a in states[i].members :: states[i].members[a]
  }

  ghost predicate AllOpen(all: map<string, Node>)
    reads all.Values
  {
    forall a :: a in all ==> all[a].open && all[a].addr == a
  }

  /** Every state of that generation or a later one keeps its nodes. */
  ghost predicate AllKept(states: seq<State>, all: map<string, Node>, collected: nat)
    reads StateNodes(states)`generation
  {
    forall i :: 0 <= i < |states| && states[i].generation >= collected ==> Kept(states[i], all)
  }

  ghost function StampsOf(all: map<string, Node>): map<string, nat>
    reads all.Values`generation
  {
    map a | a in all :: all[a].generation
  }

  /** A node more, or one that is there. */
  lemma StampsMore(all: map<string, Node>, node: Node)
    ensures StampsOf(all[node.addr := node]) == StampsOf(all)[node.addr := node.generation]
  {
  }

  lemma StampAt(all: map<string, Node>, addr: string)
    ensures addr in all ==> StampsOf(all)[addr] == all[addr].generation
  {
  }

  lemma StampKeys(all: map<string, Node>)
    ensures StampsOf(all).Keys == all.Keys
  {
  }

  class Nodes {
    var allNodes: map<string, Node>
    var allAddrs: seq<string>
    var clusterAddrs: seq<string>
    var closed: bool
    var generation: nat
    ghost var states: seq<State>
    ghost var collected: nat

    constructor (addrs: seq<string>)
      ensures Valid() && allNodes == map[] && allAddrs == addrs && !closed && generation == 0 && states == [] && collected == 0
    {
      allNodes, allAddrs, clusterAddrs, closed, generation := map[], addrs, [], false, 0;
      states, collected := [], 0;
    }

    /** Nodes in the map are open and each has its own address, and what has been collected never touched a state of that generation or later. */
    ghost predicate Valid()
      reads this, allNodes.Values, StateNodes(states)
    {
      && (closed || AllOpen(allNodes))
      && (forall i :: 0 <= i < |states| ==> states[i].generation <= generation)
      && (closed || AllKept(states, allNodes, collected))
    }

    /** The node for an address, made and tested on first use; a node that fails its test is kept all the same. */
    method GetOrCreate(addr: string, testOk: bool) returns (node: Node?, error: Error)
      requires Valid()
      modifies this`allNodes, this`allAddrs, this`clusterAddrs
      ensures Valid()
      ensures closed ==> error == Closed && node == null && allNodes == old(allNodes)
      ensures !closed ==>
        && node != null && node.addr == addr && allNodes == old(allNodes)[addr := node]
        && (addr in old(allNodes) ==> error == NoError && node == old(allNodes)[addr] && clusterAddrs == old(clusterAddrs))
        && (addr !in old(allNodes) ==>
              fresh(node) && node.open && node.generation == 0 && (error == NoError <==> testOk) && addr in allAddrs
              && clusterAddrs == if testOk then old(clusterAddrs) + [addr] else old(clusterAddrs))
    {
      if closed {
        return null, Closed;
      }
      if addr in allNodes {
        return allNodes[addr], NoError;
      }
      var n := new Node(addr);
      node := n;
      error := if testOk then NoError else Unreachable;
      if addr !in allAddrs {
        allAddrs := allAddrs + [addr];
      }
      if error == NoError {
        clusterAddrs := clusterAddrs + [addr];
      }
      allNodes := allNodes[addr := n];
    }

    method NextGeneration() returns (g: nat)
      requires Valid() && generation < MAX_UINT32
      modifies this`generation
      ensures Valid() && g == generation == old(generation) + 1
    {
      generation := generation + 1;
      g := generation;
    }

    /** Gets the node for an address and stamps it. */
    method Touch(addr: string, testOk: bool, gen: nat) returns (node: Node?, error: Error)
      requires Valid()
      modifies this`allNodes, this`allAddrs, this`clusterAddrs, allNodes.Values
      ensures Valid()
      ensures closed ==> error != NoError
      ensures error == NoError ==> node != null && node.generation >= gen && node.open && allNodes == old(allNodes)[addr := node]
      ensures !closed ==> forall a :: a in old(allNodes) ==> a in allNodes && allNodes[a] == old(allNodes[a])
      ensures !closed ==>
        var now := old(Stamps());
        && (error == NoError <==> addr in now || testOk)
        && Stamps() == now[addr := if error == NoError then Stamped(now, addr, gen) else 0]
      ensures forall a :: a in old(allNodes) ==>
        old(allNodes)[a].open == old(allNodes[a].open) && old(allNodes)[a].generation >= old(allNodes[a].generation)
      ensures forall a :: a in allNodes ==> (a in old(allNodes) && allNodes[a] == old(allNodes[a])) || fresh(allNodes[a])
    {
      hide StampsOf, AllKept;
      ghost var all, now := allNodes, Stamps();
      StampKeys(all);
      assert addr in all ==> now[addr] == all[addr].generation by { StampAt(all, addr); }
      node, error := GetOrCreate(addr, testOk);
      if closed {
        return;
      }
      assert StampsOf(all) == now;
      StampsMore(all, node);
      ghost var stamp := node.generation;
      if error == NoError {
        StampNode(node, gen);
        assert now[addr := stamp][addr := node.generation] == now[addr := node.generation];
      }
    }

    /** Stamps one node. */
    method StampNode(node: Node, gen: nat)
      requires Valid() && !closed && node.addr in allNodes && allNodes[node.addr] == node
      modifies node`generation
      ensures Valid() && node.generation == if gen > old(node.generation) then gen else old(node.generation)
      ensures Stamps() == old(Stamps())[node.addr := node.generation]
    {
      node.SetGeneration(gen);
    }

    /** The stamp of every node in the map. */
    ghost function Stamps(): map<string, nat>
      reads this`allNodes, allNodes.Values`generation
    {
      StampsOf(allNodes)
    }

    /** Gets and stamps one more node of the state under construction. */
    method AddMember(members: map<string, Node>, addr: string, testOk: bool, gen: nat) returns (more: map<string, Node>, error: Error)
      requires Valid() && Kept(State(members, gen), allNodes)
      modifies this`allNodes, this`allAddrs, this`clusterAddrs, allNodes.Values
      ensures Valid()
      ensures closed ==> error != NoError
      ensures error == NoError ==> more.Keys == members.Keys + {addr} && Kept(State(more, gen), allNodes)
      ensures !closed ==>
        var now := old(Stamps());
        && (error == NoError <==> addr in now || testOk)
        && Stamps() == now[addr := if error == NoError then Stamped(now, addr, gen) else 0]
      ensures forall a :: a in allNodes ==> (a in old(allNodes) && allNodes[a] == old(allNodes[a])) || fresh(allNodes[a])
    {
      hide Stamped;
      var node;
      node, error := Touch(addr, testOk, gen);
      more := if error == NoError then members[addr := node] else members;
    }

    /**
     Builds a state from the addresses of all slots; tests says which new nodes answer. It succeeds exactly
     when each address is known or answers.
     */
    method NewState(addrs: seq<string>, tests: seq<bool>) returns (state: Option<State>, error: Error)
      requires Valid() && generation < MAX_UINT32 && |tests| == |addrs|
      modifies this, allNodes.Values
      ensures Valid() && generation == old(generation) + 1 && collected == old(collected) && closed == old(closed)
      ensures error == NoError <==> state.Some?
      ensures closed ==> (state.Some? <==> addrs == [])
      ensures !closed ==>
        && (state.Some? <==> AllAnswer(old(allNodes.Keys), addrs, tests))
        && Stamps() == TouchAll(old(Stamps()), addrs, tests, generation).stamps
      ensures state.None? ==> states == old(states)
      ensures state.Some? ==>
        && states == old(states) + [state.value] && state.value.generation == generation
        && (forall a :: a in state.value.members <==> a in addrs) && (closed || Kept(state.value, allNodes))
      ensures forall a :: a in allNodes ==> (a in old(allNodes) && allNodes[a] == old(allNodes[a])) || fresh(allNodes[a])
    {
      hide TouchAll, AllAnswer, Kept, Valid, StampsOf;
      var gen := NextGeneration();
      StampKeys(allNodes);
      TouchAllFinds(Stamps(), addrs, tests, gen);
      var members;
      members, error := AddMembers(addrs, tests, gen);
      if error != NoError {
        return None, error;
      }
      state := Some(State(members, gen));
      Record(State(members, gen));
    }

    /** Gets and stamps the nodes of the state under construction. */
    method AddMembers(addrs: seq<string>, tests: seq<bool>, gen: nat) returns (members: map<string, Node>, error: Error)
      requires Valid() && |tests| == |addrs|
      modifies this`allNodes, this`allAddrs, this`clusterAddrs, allNodes.Values
      ensures Valid()
      ensures closed ==> (error == NoError <==> addrs == [])
      ensures !closed ==> TouchAll(old(Stamps()), addrs, tests, gen) == Touched(Stamps(), error == NoError)
      ensures error == NoError ==> members.Keys == Elements(addrs) && Kept(State(members, gen), allNodes)
      ensures forall a :: a in allNodes ==> (a in old(allNodes) && allNodes[a] == old(allNodes[a])) || fresh(allNodes[a])
    {
      hide TouchAll, Kept, Stamped, Valid, StampsOf;
      ghost var stamps := Stamps();
      members := map[];
      assert addrs[..0] == [] && tests[..0] == [];
      NothingTouched(stamps, gen);
      NoneKept(gen, allNodes);
      for i := 0 to |addrs|
        invariant Valid() && members.Keys == Elements(addrs[..i])
        invariant Kept(State(members, gen), allNodes) && (closed ==> i == 0)
        invariant TouchAll(stamps, addrs[..i], tests[..i], gen) == Touched(Stamps(), true)
        invariant forall a :: a in allNodes ==> (a in old(allNodes) && allNodes[a] == old(allNodes[a])) || fresh(allNodes[a])
      {
        TouchAllSplit(stamps, addrs, tests, gen, i);
        members, error := AddMember(members, addrs[i], tests[i], gen);
        if error != NoError {
          return;
        }
        assert addrs[..i + 1] == addrs[..i] + [addrs[i]];
      }
      assert addrs[..|addrs|] == addrs && tests[..|addrs|] == tests;
      error := NoError;
    }

    ghost method Record(state: State)
      requires Valid() && state.generation == generation && (!closed ==> Kept(state, allNodes))
      modifies this`states
      ensures Valid() && states == old(states) + [state]
    {
      hide Kept;
      states := states + [state];
    }

    /** Closes all nodes, and forgets them. */
    method Close()
      requires Valid()
      modifies this, allNodes.Values
      ensures Valid() && closed && generation == old(generation) && states == old(states) && collected == old(collected)
      ensures old(closed) ==> allNodes == old(allNodes)
      ensures !old(closed) ==>
        allNodes == map[] && clusterAddrs == [] && forall a :: a in old(allNodes) ==> !old(allNodes)[a].open
    {
      if closed {
        return;
      }
      closed := true;
      CloseAll(allNodes.Values);
      allNodes := map[];
      clusterAddrs := [];
    }

    /**
     Takes out and closes the nodes stamped before a generation. By Valid every state of that generation
     or a later one keeps its nodes, provided that it was complete before.
     */
    method GC(gen: nat)
      requires Valid()
      modifies this, allNodes.Values
      ensures Valid() && closed == old(closed) && states == old(states) && generation == old(generation)
      ensures collected == if gen > old(collected) then gen else old(collected)
      ensures forall a :: a in allNodes <==> a in old(allNodes) && old(allNodes[a].generation) >= gen
      ensures forall a :: a in allNodes ==> allNodes[a] == old(allNodes[a])
      ensures forall a :: a in old(allNodes) ==> old(allNodes)[a].generation == old(allNodes[a].generation)
      ensures forall a :: a in old(allNodes) && a !in allNodes ==> !old(allNodes)[a].open
      ensures Stamps() == Younger(old(Stamps()), gen)
      ensures forall a :: a in allNodes ==> allNodes[a].open == old(allNodes[a].open)
    {
      hide AllOpen, Kept, StampsOf, Younger;
      ghost var all := allNodes;
      var doomed := TakeOut(gen);
      FewerNodes(states, all, allNodes, gen, collected);
      collected := if gen > collected then gen else collected;
      assert doomed !! allNodes.Values;
      assert closed || (AllOpen(allNodes) && AllKept(states, allNodes, collected));
      CloseAll(doomed);
      assert closed || AllOpen(allNodes);
      assert closed || AllKept(states, allNodes, collected);
    }

    /** Takes the nodes stamped before a generation out of the map. */
    method TakeOut(gen: nat) returns (doomed: set<Node>)
      modifies this`allNodes, this`clusterAddrs
      ensures forall a :: a in allNodes <==> a in old(allNodes) && old(allNodes)[a].generation >= gen
      ensures forall a :: a in allNodes ==> allNodes[a] == old(allNodes)[a]
      ensures forall n :: n in doomed ==> n in old(allNodes).Values && n.generation < gen
      ensures forall a :: a in old(allNodes) && a !in allNodes ==> old(allNodes)[a] in doomed
      ensures forall n :: n in doomed ==> n !in allNodes.Values
    {
      var addrs := allNodes.Keys;
      doomed := {};
      while addrs != {}
        invariant addrs <= allNodes.Keys
        invariant forall a :: a in allNodes <==> a in old(allNodes) && (a in addrs || old(allNodes)[a].generation >= gen)
        invariant forall a :: a in allNodes ==> allNodes[a] == old(allNodes)[a]
        invariant forall n :: n in doomed ==> n in old(allNodes).Values && n.generation < gen
        invariant forall a :: a in old(allNodes) && a !in allNodes ==> old(allNodes)[a] in doomed
        decreases |addrs|
      {
        var addr :| addr in addrs;
        addrs := addrs - {addr};
        var node := allNodes[addr];
        if node.generation < gen {
          clusterAddrs := Without(clusterAddrs, addr);
          allNodes := allNodes - {addr};
          doomed := doomed + {node};
        }
      }
    }
  }

  function Elements(s: seq<string>): set<string> {
    set x | x in s
  }

  lemma NoneKept(gen: nat, all: map<string, Node>)
    ensures Kept(State(map[], gen), all)
  {
  }

  lemma NothingTouched(stamps: map<string, nat>, gen: nat)
    ensures TouchAll(stamps, [], [], gen) == Touched(stamps, true)
  {
  }

  /** The nodes of a state that is new enough stay when older ones are taken out. */
  lemma FewerNodes(states: seq<State>, all: map<string, Node>, left: map<string, Node>, gen: nat, collected: nat)
    requires forall a :: a in left <==> a in all && all[a].generation >= gen
    requires forall a :: a in left ==> left[a] == all[a]
    ensures AllOpen(all) ==> AllOpen(left)
    ensures AllKept(states, all, collected) ==> AllKept(states, left, if gen > collected then gen else collected)
    ensures StampsOf(left) == Younger(StampsOf(all), gen)
  {
  }

  method CloseAll(nodes: set<Node>)
    modifies nodes`open
    ensures forall n :: n in nodes ==> !n.open
  {
    var left := nodes;
    while left != {}
      invariant left <= nodes
      invariant forall n :: n in nodes && n !in left ==> !n.open
      decreases |left|
    {
      var node :| node in left;
      left := left - {node};
      node.Close();
    }
  }

  /** The stamp of an address before it is asked for. */
  function StampOf(stamps: map<string, nat>, addr: string): nat {
    if addr in stamps then stamps[addr] else 0
  }

  /**
   A collection in the middle of a build, after a node was found or made and before it is stamped, takes
   and closes that node if and only if its old stamp is below the generation collected.
   */
  method CollectedInsideBuild(nodes: Nodes, addr: string, testOk: bool, collected: nat, gen: nat) returns (node: Node?)
    requires nodes.Valid() && !nodes.closed
    modifies nodes, nodes.allNodes.Values
    ensures node != null <==> addr in old(nodes.Stamps()) || testOk
    ensures node != null ==>
      && node.generation >= gen
      && (node.open <==> StampOf(old(nodes.Stamps()), addr) >= collected)
      && (addr in nodes.allNodes <==> node.open) && (node.open ==> nodes.allNodes[addr] == node)
  {
    var found, error := nodes.GetOrCreate(addr, testOk);
    if error != NoError {
      return null;
    }
    nodes.GC(collected);
    found.SetGeneration(gen);
    node := found;
  }

  datatype Op = Build(addrs: seq<string>, tests: seq<bool>) | Collect(gen: nat)

  predicate ValidOp(op: Op) {
    op.Build? ==> |op.tests| == |op.addrs|
  }

  /** The highest generation that any of the collections was asked for. */
  function Collected(ops: seq<Op>): nat {
    if ops == [] then 0
    else
      var before, last := Collected(ops[..|ops| - 1]), ops[|ops| - 1];
      if last.Collect? && last.gen > before then last.gen else before
  }

  /** A state that was built: its generation and the addresses of its nodes. */
  datatype Built = Built(generation: nat, addrs: seq<string>)

  /** What a sequence of operations comes to: the stamps, the last generation, and one entry for each build that succeeded. */
  datatype Book = Book(stamps: map<string, nat>, generation: nat, built: seq<Built>)

  function After(ops: seq<Op>): Book
    requires forall op :: op in ops ==> ValidOp(op)
    decreases |ops|
  {
    if ops == [] then Book(map[], 0, [])
    else
      assert ops[|ops| - 1] in ops;
      Entered(After(ops[..|ops| - 1]), ops[|ops| - 1])
  }

  function Entered(book: Book, op: Op): Book
    requires ValidOp(op)
  {
    match op
    case Collect(gen) => book.(stamps := Younger(book.stamps, gen))
    case Build(addrs, tests) =>
      var gen := book.generation + 1;
      Book(TouchAll(book.stamps, addrs, tests, gen).stamps, gen,
           if AllAnswer(book.stamps.Keys, addrs, tests) then book.built + [Built(gen, addrs)] else book.built)
  }

  /** The states are those of the book, one by one. */
  ghost predicate Agrees(nodes: Nodes, book: Book)
    reads nodes, nodes.allNodes.Values
  {
    && nodes.Stamps() == book.stamps && nodes.generation == book.generation
    && |nodes.states| == |book.built|
    && forall i :: 0 <= i < |nodes.states| ==>
         nodes.states[i].generation == book.built[i].generation
         && forall a :: a in nodes.states[i].members <==> a in book.built[i].addrs
  }

  /**
   Builds and collections in any order: there is one state for each build whose addresses all answered, with
   just those addresses, and the nodes of every state that is at least as young as all that was collected are
   in the map and open.
   */
  method BuildAndCollect(ops: seq<Op>) returns (nodes: Nodes)
    requires |ops| <= MAX_UINT32 && forall op :: op in ops ==> ValidOp(op)
    ensures Agrees(nodes, After(ops))
    ensures forall i, a :: 0 <= i < |nodes.states| && nodes.states[i].generation >= Collected(ops) && a in nodes.states[i].members ==>
      a in nodes.allNodes && nodes.allNodes[a] == nodes.states[i].members[a] && nodes.allNodes[a].open
  {
    hide TouchAll, AllAnswer, Kept, AllKept, AllOpen, Nodes.Valid, Agrees;
    nodes := new Nodes([]);
    NothingBuilt(nodes);
    for k := 0 to |ops|
      invariant fresh(nodes) && (forall a :: a in nodes.allNodes ==> fresh(nodes.allNodes[a])) && nodes.Valid() && !nodes.closed
      invariant nodes.collected == Collected(ops[..k]) && After(ops[..k]).generation <= k
      invariant Agrees(nodes, After(ops[..k]))
    {
      assert ops[..k + 1][..k] == ops[..k] && ops[k] in ops;
      Perform(nodes, ops[k], After(ops[..k]));
    }
    assert ops[..|ops|] == ops;
    KeptAndOpen(nodes);
    assert nodes.collected == Collected(ops);
  }

  lemma NothingBuilt(nodes: Nodes)
    requires nodes.allNodes == map[] && nodes.generation == 0 && nodes.states == []
    ensures Agrees(nodes, Book(map[], 0, []))
  {
    assert nodes.Stamps() == map[];
  }

  /** One operation, entered in the book. */
  method Perform(nodes: Nodes, op: Op, ghost book: Book)
    requires nodes.Valid() && !nodes.closed && Agrees(nodes, book) && ValidOp(op) && book.generation < MAX_UINT32
    modifies nodes, nodes.allNodes.Values
    ensures nodes.Valid() && !nodes.closed && Agrees(nodes, Entered(book, op))
    ensures nodes.collected == if op.Collect? && op.gen > old(nodes.collected) then op.gen else old(nodes.collected)
    ensures forall a :: a in nodes.allNodes ==>
      (a in old(nodes.allNodes) && nodes.allNodes[a] == old(nodes.allNodes[a])) || fresh(nodes.allNodes[a])
  {
    hide TouchAll, AllAnswer, Kept, AllKept, AllOpen, Nodes.Valid, StampsOf, Younger;
    StampKeys(nodes.allNodes);
    match op {
      case Build(addrs, tests) =>
        var state, error := nodes.NewState(addrs, tests);
      case Collect(gen) =>
        nodes.GC(gen);
    }
  }

  lemma KeptAndOpen(nodes: Nodes)
    requires nodes.Valid() && !nodes.closed
    ensures forall i, a :: 0 <= i < |nodes.states| && nodes.states[i].generation >= nodes.collected && a in nodes.states[i].members ==>
      a in nodes.allNodes && nodes.allNodes[a] == nodes.states[i].members[a] && nodes.allNodes[a].open
  {
    forall i, a | 0 <= i < |nodes.states| && nodes.states[i].generation >= nodes.collected && a in nodes.states[i].members
      ensures a in nodes.allNodes && nodes.allNodes[a] == nodes.states[i].members[a] && nodes.allNodes[a].open
    {
      assert Kept(nodes.states[i], nodes.allNodes);
    }
  }

  function Without(s: seq<string>, x: string): (r: seq<string>)
    ensures forall y :: y in r ==> y in s
  {
    if s == [] then []
    else if s[0] == x then s[1..]
    else [s[0]] + Without(s[1..], x)
  }
}
