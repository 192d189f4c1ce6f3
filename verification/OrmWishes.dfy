/**
 Which wishes the sorter of ORM callbacks grants: for wishes without a cycle, at most one from each callback,
 its nested calls amount to a walk along the chain of wishes, and every wish of the chain is granted or refused
 by where it stands in that chain.
 */
module OrmWishes {
  import opened Wrappers
  import opened OrmCallbacks

  function Goal(p: Processor): Option<string> {
    if p.before.Some? then p.before else p.after
  }

  /** The registration that the i-th callback wants to stand next to. */
  function Aim(cps: seq<Processor>, i: nat): (j: Option<nat>)
    requires i < |cps|
    ensures j.Some? <==> Binds(cps, Goal(cps[i]))
    ensures j.Some? ==> j.value < |cps| && cps[j.value].name == Goal(cps[i]).value
  {
    if Binds(cps, Goal(cps[i])) then Some(RIndex(Names(cps), Goal(cps[i]).value)) else None
  }

  /** Distinct names, at most one wish each, and no cycle of wishes: each aims at a lower level. */
  predicate Plain(cps: seq<Processor>, level: seq<nat>) {
    && |level| == |cps| && Distinct(Names(cps))
    && (forall i :: 0 <= i < |cps| ==> cps[i].before == None || cps[i].after == None)
    && forall i :: 0 <= i < |cps| ==> AimsLower(cps, level, i)
  }

  predicate AimsLower(cps: seq<Processor>, level: seq<nat>, i: nat)
    requires i < |cps| == |level|
  {
    Aim(cps, i).Some? ==> level[Aim(cps, i).value] < level[i]
  }

  // ---------------------------------------------------------------- the walk

  /** The order after callback c, which is not in it, has asked for its place. */
  function Walk(cps: seq<Processor>, level: seq<nat>, s: seq<string>, c: nat): seq<string>
    requires Plain(cps, level) && c < |cps|
    decreases level[c], 1
  {
    assert AimsLower(cps, level, c);
    var name := cps[c].name;
    match Aim(cps, c)
    case None => s + [name]
    case Some(m) =>
      if cps[c].before.Some? then
        if cps[m].name in s then Insert(s, RIndex(s, cps[m].name), name) else Walk(cps, level, s + [name], m)
      else if cps[m].name in s then Insert(s, RIndex(s, cps[m].name) + 1, name)
      else if cps[m].before.Some? then Walk(cps, level, s, m) + [name]
      else Trail(cps, level, s + [cps[m].name, name], m)
  }

  /** The order after callback m, placed because another one wants to follow it, has asked for its own place. */
  function Trail(cps: seq<Processor>, level: seq<nat>, s: seq<string>, m: nat): seq<string>
    requires Plain(cps, level) && m < |cps| && cps[m].name in s
    decreases level[m], 0
  {
    assert AimsLower(cps, level, m);
    match Aim(cps, m)
    case None => s
    case Some(u) =>
      if cps[u].name in s then Insert(s, RIndex(s, cps[u].name) + 1, cps[m].name)
      else if cps[u].before.Some? then Walk(cps, level, s, u)
      else
        InsertHas(s, RIndex(s, cps[m].name), cps[u].name);
        Trail(cps, level, Insert(s, RIndex(s, cps[m].name), cps[u].name), u)
  }

  /** All callbacks from the first on take their turn, up to the n-th. */
  function Walks(cps: seq<Processor>, level: seq<nat>, n: nat): seq<string>
    requires Plain(cps, level) && n <= |cps|
  {
    if n == 0 then []
    else
      var s := Walks(cps, level, n - 1);
      if cps[n - 1].name in s then s else Walk(cps, level, s, n - 1)
  }

  /** The sorter's state goes with the registrations: only a placed processor may have been given a wish. */
  predicate Agrees(cps: seq<Processor>, st: State) {
    && |st.cps| == |cps| && Names(st.cps) == Names(cps)
    && (forall x :: x in st.sorted ==> x in Names(cps))
    && forall i :: 0 <= i < |cps| ==> Unchanged(cps, st, i)
  }

  predicate Unchanged(cps: seq<Processor>, st: State, i: nat)
    requires i < |cps| == |st.cps|
  {
    st.cps[i].after == cps[i].after && (st.cps[i].name !in st.sorted ==> st.cps[i] == cps[i])
  }

  lemma AgreesAt(cps: seq<Processor>, st: State, i: nat)
    requires Agrees(cps, st) && i < |cps|
    ensures i < |st.cps| && st.cps[i].name == cps[i].name && Unchanged(cps, st, i)
  {
    assert Names(st.cps)[i] == Names(cps)[i];
  }

  lemma AgreesMore(cps: seq<Processor>, st: State, c: nat, at: nat)
    requires Agrees(cps, st) && c < |cps| && at <= |st.sorted|
    ensures Agrees(cps, st.(sorted := Insert(st.sorted, at, cps[c].name)))
  {
    hide Insert;
    InsertMembers(st.sorted, at, cps[c].name);
    NameRegistered(cps, c);
    var next := st.(sorted := Insert(st.sorted, at, cps[c].name));
    forall i | 0 <= i < |cps|
      ensures Unchanged(cps, next, i)
    {
      assert Unchanged(cps, st, i);
    }
  }

  lemma AgreesAppend(cps: seq<Processor>, st: State, c: nat)
    requires Agrees(cps, st) && c < |cps|
    ensures Agrees(cps, st.(sorted := st.sorted + [cps[c].name]))
  {
    AgreesMore(cps, st, c, |st.sorted|);
    InsertLast(st.sorted, cps[c].name);
  }

  lemma InsertMembers(s: seq<string>, at: nat, name: string)
    requires at <= |s|
    ensures forall x :: x in Insert(s, at, name) <==> x in s || x == name
  {
    assert s == s[..at] + s[at..];
  }

  /** The registration of a callback's own name. */
  lemma Registered(cps: seq<Processor>, c: nat)
    requires Distinct(Names(cps)) && c < |cps|
    ensures RIndex(Names(cps), cps[c].name) == c
  {
    NameRegistered(cps, c);
    var i := RIndex(Names(cps), cps[c].name);
    assert Names(cps)[i] == Names(cps)[c];
  }

  // ---------------------------------------------------------------- what an insertion changes

  /** Only these names have been put into the order, the others stand as they stood. */
  ghost predicate Grows(s: seq<string>, t: seq<string>, names: set<string>) {
    && (forall x :: x in t <==> x in s || x in names)
    && (forall x, y :: Precedes(s, x, y) ==> Precedes(t, x, y))
    && (forall x, y :: x !in names && y !in names && Precedes(t, x, y) ==> Precedes(s, x, y))
  }

  lemma GrowsInsert(s: seq<string>, at: nat, name: string)
    requires at <= |s|
    ensures Grows(s, Insert(s, at, name), {name})
  {
    var t := Insert(s, at, name);
    InsertMembers(s, at, name);
    forall x, y | Precedes(s, x, y)
      ensures Precedes(t, x, y)
    {
      InsertPrecedes(s, at, name, x, y);
    }
    forall x, y | x != name && y != name && Precedes(t, x, y)
      ensures Precedes(s, x, y)
    {
      var p, q :| 0 <= p < q < |t| && t[p] == x && t[q] == y;
      var p', q' := if p < at then p else p - 1, if q < at then q else q - 1;
      assert s[p'] == x && s[q'] == y;
    }
  }

  lemma GrowsAppend(s: seq<string>, name: string)
    ensures Grows(s, s + [name], {name})
    ensures forall x :: x in s ==> Precedes(s + [name], x, name)
  {
    GrowsInsert(s, |s|, name);
    InsertLast(s, name);
    forall x | x in s
      ensures Precedes(s + [name], x, name)
    {
      LastFollows(s, x, name);
    }
  }

  lemma GrowsOn(s: seq<string>, t: seq<string>, u: seq<string>, names: set<string>, more: set<string>)
    requires Grows(s, t, names) && Grows(t, u, more)
    ensures Grows(s, u, names + more)
  {
    hide Precedes;
  }

  /** None of these is the name of a callback above a level. */
  predicate Low(cps: seq<Processor>, level: seq<nat>, names: set<string>, l: nat)
    requires |level| == |cps|
  {
    forall j :: 0 <= j < |cps| && level[j] > l ==> cps[j].name !in names
  }

  lemma OthersName(cps: seq<Processor>, level: seq<nat>, c: nat)
    requires Plain(cps, level) && c < |cps|
    ensures forall j :: 0 <= j < |cps| && j != c ==> cps[j].name != cps[c].name
    ensures Low(cps, level, {cps[c].name}, level[c])
  {
    forall j | 0 <= j < |cps| && j != c
      ensures cps[j].name != cps[c].name
    {
      assert Names(cps)[j] == cps[j].name && Names(cps)[c] == cps[c].name;
    }
  }

  /** A walk puts in the names of its chain, none of which was there. */
  lemma {:induction false} WalkGrows(cps: seq<Processor>, level: seq<nat>, s: seq<string>, c: nat) returns (names: set<string>)
    requires Plain(cps, level) && c < |cps| && cps[c].name !in s
    ensures Grows(s, Walk(cps, level, s, c), names) && Low(cps, level, names, level[c])
    ensures cps[c].name in names && forall x :: x in names ==> x !in s
    decreases level[c], 1
  {
    hide Precedes, Insert, Plain, Low;
    PlainAims(cps, level, c);
    OthersName(cps, level, c);
    var name := cps[c].name;
    names := {name};
    GrowsAppend(s, name);
    if Aim(cps, c).Some? {
      var m := Aim(cps, c).value;
      var at := RIndex(s, cps[m].name);
      if at != -1 {
        GrowsInsert(s, if cps[c].before.Some? then at else at + 1, name);
      } else if cps[c].before.Some? {
        var more := WalkGrows(cps, level, s + [name], m);
        GrowsOn(s, s + [name], Walk(cps, level, s + [name], m), {name}, more);
        names := {name} + more;
        LowMore(cps, level, {name}, level[c], more, level[m]);
      } else if cps[m].before.Some? {
        var more := WalkGrows(cps, level, s, m);
        GrowsAppend(Walk(cps, level, s, m), name);
        GrowsOn(s, Walk(cps, level, s, m), Walk(cps, level, s, m) + [name], more, {name});
        names := more + {name};
        LowMore(cps, level, {name}, level[c], more, level[m]);
        assert {name} + more == names;
      } else {
        names := TrailStartGrows(cps, level, s, c, m);
      }
    }
  }

  lemma PlainAims(cps: seq<Processor>, level: seq<nat>, c: nat)
    requires Plain(cps, level) && c < |cps|
    ensures |level| == |cps| && Distinct(Names(cps)) && (cps[c].before == None || cps[c].after == None) && AimsLower(cps, level, c)
  {
  }

  lemma LowMore(cps: seq<Processor>, level: seq<nat>, names: set<string>, l: nat, more: set<string>, k: nat)
    requires |level| == |cps| && Low(cps, level, names, l) && Low(cps, level, more, k) && k <= l
    ensures Low(cps, level, names + more, l)
  {
  }

  lemma {:induction false} TrailStartGrows(cps: seq<Processor>, level: seq<nat>, s: seq<string>, c: nat, m: nat)
    returns (names: set<string>)
    requires Plain(cps, level) && c < |cps| && m < |cps| && cps[c].name !in s && cps[m].name !in s && level[m] < level[c]
    ensures Grows(s, Trail(cps, level, s + [cps[m].name, cps[c].name], m), names) && Low(cps, level, names, level[c])
    ensures cps[c].name in names && forall x :: x in names ==> x !in s
    decreases level[m], 1
  {
    hide Precedes, Insert, Plain, Low, Trail;
    PlainAims(cps, level, c);
    OthersName(cps, level, c);
    OthersName(cps, level, m);
    var pair := s + [cps[m].name, cps[c].name];
    GrowsAppend(s, cps[m].name);
    GrowsAppend(s + [cps[m].name], cps[c].name);
    assert s + [cps[m].name] + [cps[c].name] == pair;
    GrowsOn(s, s + [cps[m].name], pair, {cps[m].name}, {cps[c].name});
    var more := TrailGrows(cps, level, pair, m);
    GrowsOn(s, pair, Trail(cps, level, pair, m), {cps[m].name} + {cps[c].name}, more);
    names := {cps[c].name} + ({cps[m].name} + more);
    assert {cps[m].name} + {cps[c].name} + more == names;
    LowMore(cps, level, {cps[m].name}, level[m], more, level[m]);
    LowMore(cps, level, {cps[c].name}, level[c], {cps[m].name} + more, level[m]);
  }

  lemma {:induction false} TrailGrows(cps: seq<Processor>, level: seq<nat>, s: seq<string>, m: nat) returns (names: set<string>)
    requires Plain(cps, level) && m < |cps| && cps[m].name in s
    ensures Grows(s, Trail(cps, level, s, m), names) && Low(cps, level, names, level[m])
    ensures forall x :: x in names ==> x !in s || x == cps[m].name
    decreases level[m], 0
  {
    hide Precedes, Insert, Plain, Low;
    PlainAims(cps, level, m);
    OthersName(cps, level, m);
    names := {};
    if Aim(cps, m).Some? {
      var u := Aim(cps, m).value;
      OthersName(cps, level, u);
      var at := RIndex(s, cps[u].name);
      if at != -1 {
        GrowsInsert(s, at + 1, cps[m].name);
        names := {cps[m].name};
      } else if cps[u].before.Some? {
        names := WalkGrows(cps, level, s, u);
        LowLess(cps, level, names, level[u], level[m]);
      } else {
        var next := Insert(s, RIndex(s, cps[m].name), cps[u].name);
        GrowsInsert(s, RIndex(s, cps[m].name), cps[u].name);
        var more := TrailGrows(cps, level, next, u);
        GrowsOn(s, next, Trail(cps, level, next, u), {cps[u].name}, more);
        names := {cps[u].name} + more;
        LowMore(cps, level, {cps[u].name}, level[u], more, level[u]);
        LowLess(cps, level, names, level[u], level[m]);
      }
    } else {
      LowNone(cps, level, level[m]);
    }
  }

  lemma LowLess(cps: seq<Processor>, level: seq<nat>, names: set<string>, k: nat, l: nat)
    requires |level| == |cps| && Low(cps, level, names, k) && k <= l
    ensures Low(cps, level, names, l)
  {
  }

  lemma LowNone(cps: seq<Processor>, level: seq<nat>, l: nat)
    requires |level| == |cps|
    ensures Low(cps, level, {}, l)
  {
  }

  // ---------------------------------------------------------------- the sorter walks

  ghost predicate Comes(cps: seq<Processor>, r: Option<State>, s: seq<string>) {
    r.Some? && Agrees(cps, r.value) && r.value.sorted == s
  }

  /** Placing callback c takes a walk; enough nested calls are as many as its level, and one. */
  lemma {:induction false} PlaceWalks(cps: seq<Processor>, level: seq<nat>, st: State, c: nat, fuel: nat)
    requires Plain(cps, level) && Agrees(cps, st) && c < |cps| == |st.cps| == |level| && cps[c].name !in st.sorted && fuel > level[c]
    ensures Comes(cps, Place(st, c, fuel), Walk(cps, level, st.sorted, c))
    decreases level[c], 2
  {
    hide PlaceBefore, PlaceAfter, Agrees, Plain, Walk, Names, Grows;
    AgreesAt(cps, st, c);
    PlainAims(cps, level, c);
    if cps[c].before.Some? {
      BeforeWalks(cps, level, st, c, fuel);
      var now := PlaceBefore(st, c, fuel).value;
      AgreesAt(cps, now, c);
      NoAfter(now, c, fuel);
      if Aim(cps, c) == None {
        AgreesAppend(cps, st, c);
        WalkStays(cps, level, st.sorted, c);
      } else {
        InWalk(cps, level, st.sorted, c);
      }
    } else {
      NoBefore(st, c, fuel);
      AfterWalks(cps, level, st, c, fuel);
      var placed := PlaceAfter(st, c, fuel).value;
      AgreesAt(cps, placed, c);
      if Waits(cps, st.sorted, c) {
        AgreesAppend(cps, placed, c);
      } else {
        InWalk(cps, level, st.sorted, c);
      }
    }
  }

  lemma NoBefore(st: State, c: nat, fuel: nat)
    requires c < |st.cps| && st.cps[c].before == None
    ensures PlaceBefore(st, c, fuel) == Some(st)
  {
  }

  lemma NoAfter(st: State, c: nat, fuel: nat)
    requires c < |st.cps| && st.cps[c].after == None
    ensures PlaceAfter(st, c, fuel) == Some(st)
  {
  }

  lemma InWalk(cps: seq<Processor>, level: seq<nat>, s: seq<string>, c: nat)
    requires Plain(cps, level) && c < |cps| && cps[c].name !in s
    ensures cps[c].name in Walk(cps, level, s, c)
  {
    hide Walk, Plain;
    var names := WalkGrows(cps, level, s, c);
  }

  lemma WalkStays(cps: seq<Processor>, level: seq<nat>, s: seq<string>, c: nat)
    requires Plain(cps, level) && c < |cps| && Aim(cps, c) == None
    ensures Walk(cps, level, s, c) == s + [cps[c].name]
  {
  }

  /** Callback c is put at the end when it has no place to go to, or one that is still to be found. */
  predicate Waits(cps: seq<Processor>, s: seq<string>, c: nat)
    requires c < |cps|
  {
    match Aim(cps, c)
    case None => true
    case Some(m) => cps[c].before == None && cps[m].name !in s && cps[m].before.Some?
  }

  lemma AimRegistered(cps: seq<Processor>, st: State, c: nat)
    requires Agrees(cps, st) && Distinct(Names(cps)) && c < |cps| == |st.cps| && Goal(cps[c]).Some?
    ensures var goal := Goal(cps[c]).value;
            && (Aim(cps, c) == None ==> RIndex(st.sorted, goal) == -1 && RIndex(Names(st.cps), goal) == -1)
            && (Aim(cps, c).Some? ==> RIndex(Names(st.cps), goal) == Aim(cps, c).value)
  {
  }

  lemma {:induction false} BeforeWalks(cps: seq<Processor>, level: seq<nat>, st: State, c: nat, fuel: nat)
    requires Plain(cps, level) && Agrees(cps, st) && c < |cps| == |st.cps| == |level| && cps[c].name !in st.sorted && fuel > level[c]
    requires cps[c].before.Some?
    ensures Comes(cps, PlaceBefore(st, c, fuel), if Aim(cps, c) == None then st.sorted else Walk(cps, level, st.sorted, c))
    ensures Aim(cps, c) == None ==> PlaceBefore(st, c, fuel) == Some(st)
    decreases level[c], 1
  {
    hide Place, Agrees, Plain, Names, Insert;
    AgreesAt(cps, st, c);
    PlainAims(cps, level, c);
    AimRegistered(cps, st, c);
    if Aim(cps, c).Some? {
      var m := Aim(cps, c).value;
      var at := RIndex(st.sorted, cps[m].name);
      if at != -1 {
        AgreesMore(cps, st, c, at);
      } else {
        var next := st.(sorted := st.sorted + [cps[c].name]);
        OthersName(cps, level, c);
        AgreesAppend(cps, st, c);
        PlaceWalks(cps, level, next, m, fuel - 1);
      }
    }
  }

  lemma {:induction false} AfterWalks(cps: seq<Processor>, level: seq<nat>, st: State, c: nat, fuel: nat)
    requires Plain(cps, level) && Agrees(cps, st) && c < |cps| == |st.cps| == |level| && cps[c].name !in st.sorted && fuel > level[c]
    requires cps[c].before == None
    ensures var r := PlaceAfter(st, c, fuel);
            && r.Some? && Agrees(cps, r.value)
            && (Waits(cps, st.sorted, c) ==> cps[c].name !in r.value.sorted)
            && Walk(cps, level, st.sorted, c) == r.value.sorted + if Waits(cps, st.sorted, c) then [cps[c].name] else []
    decreases level[c], 1
  {
    hide Place, PlaceAfter, Agrees, Plain, Names, Insert, SetBefore, Trail;
    AgreesAt(cps, st, c);
    PlainAims(cps, level, c);
    AfterStep(cps, st, c, fuel);
    if Aim(cps, c).Some? {
      var m := Aim(cps, c).value;
      var at := RIndex(st.sorted, cps[m].name);
      AgreesAt(cps, st, m);
      if at != -1 {
        AgreesMore(cps, st, c, at + 1);
      } else if cps[m].before.Some? {
        NoSetBefore(st.cps, m, cps[c].name);
        PlaceWalks(cps, level, st, m, fuel - 1);
        NotInWalk(cps, level, st.sorted, m, c);
      } else {
        TrailStarts(cps, level, st, c, m, fuel);
      }
    }
  }

  /** What a callback without a before does about its after. */
  lemma AfterStep(cps: seq<Processor>, st: State, c: nat, fuel: nat)
    requires Agrees(cps, st) && Distinct(Names(cps)) && c < |cps| == |st.cps| && cps[c].before == None && fuel > 0
    ensures PlaceAfter(st, c, fuel) == match Aim(cps, c)
              case None => Some(st)
              case Some(m) =>
                var at := RIndex(st.sorted, cps[m].name);
                if at != -1 then Some(st.(sorted := Insert(st.sorted, at + 1, cps[c].name)))
                else Place(st.(cps := SetBefore(st.cps, m, cps[c].name)), m, fuel - 1)
  {
    hide Place, Agrees, Names, Insert, SetBefore;
    AgreesAt(cps, st, c);
    if cps[c].after.Some? {
      AimRegistered(cps, st, c);
    }
  }

  lemma NoSetBefore(cps: seq<Processor>, m: nat, name: string)
    requires m < |cps| && cps[m].before.Some?
    ensures SetBefore(cps, m, name) == cps
  {
  }

  lemma NotInWalk(cps: seq<Processor>, level: seq<nat>, s: seq<string>, m: nat, c: nat)
    requires Plain(cps, level) && m < |cps| && c < |cps| == |level| && level[m] < level[c] && cps[m].name !in s && cps[c].name !in s
    ensures cps[c].name !in Walk(cps, level, s, m)
  {
    hide Walk, Plain;
    var names := WalkGrows(cps, level, s, m);
  }

  /** Registrations in which m, about to be placed, is made to run before one that wants to follow it. */
  lemma MadeFirst(cps: seq<Processor>, st: State, m: nat, name: string, s: seq<string>)
    requires Agrees(cps, st) && m < |cps| == |st.cps| && st.cps[m].before == None
    requires cps[m].name in s && (forall x :: x in st.sorted ==> x in s) && forall x :: x in s ==> x in Names(cps)
    ensures var now := SetBefore(st.cps, m, name);
            && |now| == |cps| && Names(now) == Names(cps) && Agrees(cps, State(s, now))
            && now[m] == st.cps[m].(before := Some(name)) && forall i :: 0 <= i < |cps| && i != m ==> now[i] == st.cps[i]
  {
    SetBeforeNames(st.cps, m, name);
    AgreesAt(cps, st, m);
    var now := SetBefore(st.cps, m, name);
    forall i | 0 <= i < |cps|
      ensures Unchanged(cps, State(s, now), i)
    {
      AgreesAt(cps, st, i);
    }
  }

  /** A callback is placed for another one that wants to follow it, and that one behind it. */
  lemma PairPlaced(now: seq<Processor>, s: seq<string>, c: nat, m: nat, fuel: nat)
    requires c < |now| && m < |now| && now[c].name != now[m].name && now[c].name !in s && now[m].name !in s && fuel > 0
    requires now[m].before == Some(now[c].name) && now[c].before == None && now[c].after == Some(now[m].name)
    requires RIndex(Names(now), now[c].name) == c
    ensures PlaceBefore(State(s, now), m, fuel) == Some(State(s + [now[m].name, now[c].name], now))
  {
    hide Names;
    var first, both := State(s + [now[m].name], now), s + [now[m].name, now[c].name];
    LastIndex(s, now[m].name);
    assert Insert(first.sorted, |s| + 1, now[c].name) == both;
    NoBefore(first, c, fuel - 1);
    assert now[c].name in both;
    assert Place(first, c, fuel - 1) == Some(State(both, now)) by {
      assert PlaceAfter(first, c, fuel - 1) == Some(State(both, now));
    }
  }

  lemma LastIndex(s: seq<string>, name: string)
    requires name !in s
    ensures RIndex(s + [name], name) == |s|
  {
    assert (s + [name])[|s|] == name;
  }

  lemma {:induction false} TrailStarts(cps: seq<Processor>, level: seq<nat>, st: State, c: nat, m: nat, fuel: nat)
    requires Plain(cps, level) && Agrees(cps, st) && c < |cps| == |st.cps| == |level| && m < |cps|
    requires cps[c].name !in st.sorted && cps[m].name !in st.sorted && fuel > level[c] > level[m]
    requires cps[c].before == None && cps[m].before == None && Aim(cps, c) == Some(m)
    ensures Comes(cps, Place(st.(cps := SetBefore(st.cps, m, cps[c].name)), m, fuel - 1),
                  Trail(cps, level, st.sorted + [cps[m].name, cps[c].name], m))
    decreases level[c], 0
  {
    hide PlaceBefore, PlaceAfter, Agrees, Plain, Names, Insert, SetBefore, Trail;
    AgreesAt(cps, st, c);
    AgreesAt(cps, st, m);
    PlainAims(cps, level, c);
    OthersName(cps, level, m);
    Registered(cps, c);
    var s := st.sorted + [cps[m].name, cps[c].name];
    NameRegistered(cps, c);
    NameRegistered(cps, m);
    InNames(cps, st);
    MadeFirst(cps, st, m, cps[c].name, s);
    var now := SetBefore(st.cps, m, cps[c].name);
    PairPlaced(now, st.sorted, c, m, fuel - 1);
    TrailWalks(cps, level, State(s, now), m, fuel - 1);
    TrailKeeps(cps, level, s, m);
  }

  lemma InNames(cps: seq<Processor>, st: State)
    requires Agrees(cps, st)
    ensures forall x :: x in st.sorted ==> x in Names(cps)
  {
  }

  lemma TrailKeeps(cps: seq<Processor>, level: seq<nat>, s: seq<string>, m: nat)
    requires Plain(cps, level) && m < |cps| && cps[m].name in s
    ensures cps[m].name in Trail(cps, level, s, m)
  {
    hide Trail, Plain;
    var names := TrailGrows(cps, level, s, m);
  }

  lemma {:induction false} TrailWalks(cps: seq<Processor>, level: seq<nat>, st: State, m: nat, fuel: nat)
    requires Plain(cps, level) && Agrees(cps, st) && m < |cps| == |st.cps| == |level| && cps[m].name in st.sorted && fuel > level[m]
    requires cps[m].before == None
    ensures Comes(cps, PlaceAfter(st, m, fuel), Trail(cps, level, st.sorted, m))
    decreases level[m], 3
  {
    hide Place, PlaceAfter, Agrees, Plain, Names, Insert, SetBefore, Walk;
    AgreesAt(cps, st, m);
    PlainAims(cps, level, m);
    AfterStep(cps, st, m, fuel);
    if Aim(cps, m).Some? {
      var u := Aim(cps, m).value;
      var at := RIndex(st.sorted, cps[u].name);
      AgreesAt(cps, st, u);
      if at != -1 {
        AgreesMore(cps, st, m, at + 1);
      } else if cps[u].before.Some? {
        NoSetBefore(st.cps, u, cps[m].name);
        PlaceWalks(cps, level, st, u, fuel - 1);
      } else {
        TrailGoesOn(cps, level, st, m, u, fuel);
      }
    }
  }

  lemma {:induction false} TrailGoesOn(cps: seq<Processor>, level: seq<nat>, st: State, m: nat, u: nat, fuel: nat)
    requires Plain(cps, level) && Agrees(cps, st) && m < |cps| == |st.cps| == |level| && u < |cps|
    requires cps[m].name in st.sorted && cps[u].name !in st.sorted && fuel > level[m] > level[u] && cps[u].before == None
    ensures var s := Insert(st.sorted, RIndex(st.sorted, cps[m].name), cps[u].name);
            cps[u].name in s
            && Comes(cps, Place(st.(cps := SetBefore(st.cps, u, cps[m].name)), u, fuel - 1), Trail(cps, level, s, u))
    decreases level[m], 2
  {
    hide PlaceAfter, Agrees, Plain, Names, Insert, SetBefore, Trail;
    AgreesAt(cps, st, m);
    AgreesAt(cps, st, u);
    var at := RIndex(st.sorted, cps[m].name);
    var s := Insert(st.sorted, at, cps[u].name);
    InsertMembers(st.sorted, at, cps[u].name);
    NameRegistered(cps, u);
    InNames(cps, st);
    MadeFirst(cps, st, u, cps[m].name, s);
    var now := SetBefore(st.cps, u, cps[m].name);
    AgreesAt(cps, State(s, now), u);
    assert PlaceBefore(State(st.sorted, now), u, fuel - 1) == Some(State(s, now));
    TrailWalks(cps, level, State(s, now), u, fuel - 1);
    TrailKeeps(cps, level, s, u);
  }

  // ---------------------------------------------------------------- whole runs

  /** Enough nested calls for every callback. */
  predicate Ample(level: seq<nat>, fuel: nat) {
    forall i :: 0 <= i < |level| ==> level[i] < fuel
  }

  /** The loop over all callbacks takes their walks in turn. */
  lemma {:induction false} AllWalk(cps: seq<Processor>, level: seq<nat>, st: State, n: nat, fuel: nat)
    requires Plain(cps, level) && Agrees(cps, st) && n <= |cps| == |st.cps| && Ample(level, fuel) && st.sorted == Walks(cps, level, n)
    ensures Comes(cps, PlaceAll(st, n, fuel), Walks(cps, level, |cps|))
    decreases |cps| - n
  {
    hide Place, Agrees, Plain, Walk;
    if n < |cps| {
      PlainAims(cps, level, n);
      AgreesAt(cps, st, n);
      if cps[n].name in st.sorted {
        AlreadyPlaced(st, n, fuel);
      } else {
        PlaceWalks(cps, level, st, n, fuel);
      }
      AllWalk(cps, level, Place(st, n, fuel).value, n + 1, fuel);
    }
  }

  lemma AlreadyPlaced(st: State, c: nat, fuel: nat)
    requires c < |st.cps| && st.cps[c].name in st.sorted
    ensures Place(st, c, fuel) == Some(st)
  {
  }

  // ---------------------------------------------------------------- which wishes are granted

  /** The callbacks placed for the sake of c, each aiming at the next, when those in placed have been placed before. */
  function Chain(cps: seq<Processor>, level: seq<nat>, placed: set<nat>, c: nat): (chain: seq<nat>)
    requires Plain(cps, level) && c < |cps|
    ensures |chain| > 0 && chain[0] == c && forall k :: 0 <= k < |chain| ==> chain[k] < |cps| && level[chain[k]] <= level[c]
    ensures forall k :: 0 < k < |chain| ==> level[chain[k]] < level[c] && Aim(cps, chain[k - 1]) == Some(chain[k])
    decreases level[c]
  {
    assert AimsLower(cps, level, c);
    match Aim(cps, c)
    case None => [c]
    case Some(m) => if m in placed then [c] else [c] + Chain(cps, level, placed, m)
  }

  /** Whether the i-th member wants to follow the one that led to it; led speaks of the first one. */
  predicate Led(cps: seq<Processor>, chain: seq<nat>, i: nat, led: bool)
    requires i < |chain| && forall k :: 0 <= k < |chain| ==> chain[k] < |cps|
  {
    if i == 0 then led else cps[chain[i - 1]].before == None
  }

  /** The i-th member, the last one, wants to stand next to a callback placed before. */
  predicate GoesBeside(cps: seq<Processor>, chain: seq<nat>, i: nat)
    requires i < |chain| && forall k :: 0 <= k < |chain| ==> chain[k] < |cps|
  {
    i + 1 == |chain| && Aim(cps, chain[i]).Some?
  }

  /**
   When the i-th member's wish is refused. The wish to precede a callback that is not placed yet: if that one goes
   beside one placed before. The wish to follow it: if the i-th member had to be placed already, as the one that led to it
   wants to follow it too, and the callback it wants to follow asks to precede something that is not placed.
   */
  predicate Refused(cps: seq<Processor>, chain: seq<nat>, i: nat, led: bool)
    requires i < |chain| && forall k :: 0 <= k < |chain| ==> chain[k] < |cps|
  {
    i + 1 < |chain| &&
    if cps[chain[i]].before.Some? then GoesBeside(cps, chain, i + 1)
    else Led(cps, chain, i, led) && cps[chain[i + 1]].before.Some? && !GoesBeside(cps, chain, i + 1)
  }

  /** A member is placed twice: for the one that wants to follow it, and again beside the one it wants to follow. */
  predicate Doubled(cps: seq<Processor>, chain: seq<nat>, i: nat, led: bool)
    requires i < |chain| && forall k :: 0 <= k < |chain| ==> chain[k] < |cps|
  {
    GoesBeside(cps, chain, i) && cps[chain[i]].before == None && Led(cps, chain, i, led)
  }

  /** The wish of callback i, if it names a registered one, is granted. */
  predicate Granted(cps: seq<Processor>, s: seq<string>, i: nat)
    requires i < |cps| && Aim(cps, i).Some?
  {
    var aim := cps[Aim(cps, i).value].name;
    if cps[i].before.Some? then Precedes(s, cps[i].name, aim) else Precedes(s, aim, cps[i].name)
  }

  /** In the order t the chain's wishes have come out as the chain says. */
  predicate Settled(cps: seq<Processor>, chain: seq<nat>, led: bool, t: seq<string>)
    requires forall k :: 0 <= k < |chain| ==> chain[k] < |cps|
  {
    forall i :: 0 <= i < |chain| ==> SettledAt(cps, chain, i, led, t)
  }

  predicate SettledAt(cps: seq<Processor>, chain: seq<nat>, i: nat, led: bool, t: seq<string>)
    requires i < |chain| && forall k :: 0 <= k < |chain| ==> chain[k] < |cps|
  {
    && cps[chain[i]].name in t
    && (Aim(cps, chain[i]).Some? ==> (Granted(cps, t, chain[i]) <==> !Refused(cps, chain, i, led)))
    && (Precedes(t, cps[chain[i]].name, cps[chain[i]].name) <==> Doubled(cps, chain, i, led))
  }

  /** Of the callbacks below a level, these have been placed. */
  predicate PlacedBelow(cps: seq<Processor>, level: seq<nat>, s: seq<string>, placed: set<nat>, l: nat)
    requires |level| == |cps|
  {
    forall j :: 0 <= j < |cps| && level[j] < l ==> (cps[j].name in s <==> j in placed)
  }

  lemma InsertOnce(s: seq<string>, at: nat, name: string)
    requires at <= |s| && name !in s
    ensures !Precedes(Insert(s, at, name), name, name)
  {
    var t := Insert(s, at, name);
    assert forall k :: 0 <= k < |t| && k != at ==> t[k] == s[if k < at then k else k - 1];
  }

  lemma InsertAgain(s: seq<string>, at: nat, name: string)
    requires at <= |s| && name in s
    ensures Precedes(Insert(s, at, name), name, name)
  {
    var t := Insert(s, at, name);
    var k :| 0 <= k < |s| && s[k] == name;
    assert t[at] == name && t[if k < at then k else k + 1] == name;
  }

  /** Of two new names, the one inserted in front of the other does not follow it. */
  lemma InsertedAhead(s: seq<string>, at: nat, c: string, m: string)
    requires at <= |s| && c !in s && m !in s && c != m
    ensures !Precedes(Insert(s + [c], at, m), c, m)
  {
    var t := Insert(s + [c], at, m);
    assert forall k :: 0 <= k <= |s| && k != at ==> t[k] == s[if k < at then k else k - 1];
    assert t[at] == m && t[|s| + 1] == c;
  }

  lemma LastPrecedesNothing(s: seq<string>, name: string)
    requires name !in s
    ensures forall y :: !Precedes(s + [name], name, y)
  {
    assert forall k :: 0 <= k < |s| ==> (s + [name])[k] == s[k];
  }

  lemma InsertedBefore(s: seq<string>, b: nat, at: nat, u: string, m: string)
    requires at < b <= |s| && m in s[b..]
    ensures Precedes(Insert(s, at, u), u, m)
  {
    var k :| 0 <= k < |s[b..]| && s[b..][k] == m;
    var t := Insert(s, at, u);
    assert t[at] == u && t[b + k + 1] == m;
  }

  lemma Prepended(cps: seq<Processor>, c: nat, chain: seq<nat>, led: bool, ledNext: bool, t: seq<string>)
    requires c < |cps| && |chain| > 0 && forall k :: 0 <= k < |chain| ==> chain[k] < |cps|
    requires Settled(cps, chain, ledNext, t) && SettledAt(cps, [c] + chain, 0, led, t)
    requires cps[chain[0]].before.Some? || ledNext == (cps[c].before == None)
    ensures Settled(cps, [c] + chain, led, t)
  {
    hide Granted, Precedes, Aim;
    var longer := [c] + chain;
    forall i | 0 <= i < |longer|
      ensures SettledAt(cps, longer, i, led, t)
    {
      if i > 0 {
        assert SettledAt(cps, chain, i - 1, ledNext, t);
        assert longer[i] == chain[i - 1] && (i + 1 < |longer| ==> longer[i + 1] == chain[i]);
        assert i > 1 ==> longer[i - 1] == chain[i - 2];
      }
    }
  }

  /** What is settled stays so when only other names are added. */
  lemma SettledOn(cps: seq<Processor>, chain: seq<nat>, led: bool, s: seq<string>, t: seq<string>, names: set<string>)
    requires (forall k :: 0 <= k < |chain| ==> chain[k] < |cps|) && Settled(cps, chain, led, s) && Grows(s, t, names)
    requires forall k :: 0 <= k < |chain| ==> Apart(cps, chain[k], names)
    ensures Settled(cps, chain, led, t)
  {
    hide Precedes, Aim, Refused, Doubled;
    forall i | 0 <= i < |chain|
      ensures SettledAt(cps, chain, i, led, t)
    {
      assert SettledAt(cps, chain, i, led, s) && Apart(cps, chain[i], names);
    }
  }

  predicate Apart(cps: seq<Processor>, i: nat, names: set<string>)
    requires i < |cps|
  {
    cps[i].name !in names && (Aim(cps, i).Some? ==> cps[Aim(cps, i).value].name !in names)
  }

  lemma {:induction false} ChainStops(cps: seq<Processor>, level: seq<nat>, placed: set<nat>, c: nat)
    requires Plain(cps, level) && c < |cps|
    ensures var chain := Chain(cps, level, placed, c);
            var end := Aim(cps, chain[|chain| - 1]); end == None || end.value in placed
    decreases if c < |level| then level[c] else 0
  {
    PlainAims(cps, level, c);
    hide Plain, Aim;
    if Aim(cps, c) != None && Aim(cps, c).value !in placed {
      ChainStops(cps, level, placed, Aim(cps, c).value);
    }
  }

  lemma ChainNext(cps: seq<Processor>, level: seq<nat>, placed: set<nat>, c: nat)
    requires Plain(cps, level) && c < |cps| && Aim(cps, c).Some? && Aim(cps, c).value !in placed
    ensures Chain(cps, level, placed, c) == [c] + Chain(cps, level, placed, Aim(cps, c).value)
  {
  }

  lemma ChainLast(cps: seq<Processor>, level: seq<nat>, placed: set<nat>, c: nat)
    requires Plain(cps, level) && c < |cps| && (Aim(cps, c) == None || Aim(cps, c).value in placed)
    ensures Chain(cps, level, placed, c) == [c]
  {
  }

  lemma PlacedBelowMore(cps: seq<Processor>, level: seq<nat>, s: seq<string>, t: seq<string>, placed: set<nat>, l: nat, k: nat, names: set<string>)
    requires |level| == |cps| && PlacedBelow(cps, level, s, placed, l) && k <= l
    requires (forall x :: x in t <==> x in s || x in names) && forall j :: 0 <= j < |cps| && level[j] < k ==> cps[j].name !in names
    ensures PlacedBelow(cps, level, t, placed, k)
  {
  }

  /** The end of a walk: callback c finds its place at once. */
  lemma EndSettles(cps: seq<Processor>, level: seq<nat>, s: seq<string>, placed: set<nat>, c: nat)
    requires Plain(cps, level) && c < |cps| == |level| && cps[c].name !in s && PlacedBelow(cps, level, s, placed, level[c])
    requires Aim(cps, c) == None || Aim(cps, c).value in placed
    ensures Settled(cps, Chain(cps, level, placed, c), false, Walk(cps, level, s, c))
  {
    hide Precedes, Insert, Plain;
    PlainAims(cps, level, c);
    ChainLast(cps, level, placed, c);
    var name := cps[c].name;
    if Aim(cps, c) == None {
      InsertOnce(s, |s|, name);
      InsertLast(s, name);
    } else {
      var at := RIndex(s, cps[Aim(cps, c).value].name);
      InsertOnce(s, at, name);
      InsertOnce(s, at + 1, name);
      BesideTarget(s, at, name);
      InsertHas(s, at, name);
      InsertHas(s, at + 1, name);
    }
  }

  /** Callback m, placed for c that wants to precede it, comes behind c unless it goes beside one placed before. */
  lemma BeforeLink(cps: seq<Processor>, level: seq<nat>, s: seq<string>, placed: set<nat>, c: nat, m: nat)
    requires Plain(cps, level) && c < |cps| == |level| && m < |cps| && level[m] < level[c]
    requires cps[c].name !in s && cps[m].name !in s && PlacedBelow(cps, level, s, placed, level[c])
    ensures Precedes(Walk(cps, level, s + [cps[c].name], m), cps[c].name, cps[m].name)
            <==> !(Aim(cps, m).Some? && Aim(cps, m).value in placed)
  {
    hide Precedes, Insert, Plain, Walk;
    PlainAims(cps, level, m);
    OthersName(cps, level, c);
    OthersName(cps, level, m);
    var first := s + [cps[c].name];
    if Aim(cps, m).Some? {
      var u := Aim(cps, m).value;
      if u in placed {
        var at := RIndex(first, cps[u].name);
        assert at < |s| by { assert first[|s|] == cps[c].name; }
        WalkBeside(cps, level, first, m, u);
        InsertedAhead(s, at, cps[c].name, cps[m].name);
        InsertedAhead(s, at + 1, cps[c].name, cps[m].name);
      } else {
        GoesBehind(cps, level, first, m, u, cps[c].name);
      }
    } else {
      WalkStays(cps, level, first, m);
      GrowsAppend(first, cps[m].name);
    }
  }

  lemma WalkBeside(cps: seq<Processor>, level: seq<nat>, s: seq<string>, c: nat, m: nat)
    requires Plain(cps, level) && c < |cps| && m < |cps| && Aim(cps, c) == Some(m) && cps[m].name in s
    ensures var at := RIndex(s, cps[m].name);
            Walk(cps, level, s, c) == Insert(s, if cps[c].before.Some? then at else at + 1, cps[c].name)
  {
    hide Insert;
  }

  /** Callback m, whose aim has to be placed first, comes behind all that are there. */
  lemma GoesBehind(cps: seq<Processor>, level: seq<nat>, s: seq<string>, m: nat, u: nat, x: string)
    requires Plain(cps, level) && m < |cps| == |level| && u < |cps| && level[u] < level[m] && Aim(cps, m) == Some(u)
    requires x in s && cps[m].name !in s && cps[u].name !in s
    ensures Precedes(Walk(cps, level, s, m), x, cps[m].name)
  {
    hide Precedes, Insert, Plain, Trail;
    PlainAims(cps, level, m);
    OthersName(cps, level, u);
    var name := cps[m].name;
    GrowsAppend(s, name);
    if cps[m].before.Some? {
      var names := WalkGrows(cps, level, s + [name], u);
    } else if cps[u].before.Some? {
      var names := WalkGrows(cps, level, s, u);
      GrowsAppend(Walk(cps, level, s, u), name);
    } else {
      TrailBehind(cps, level, s, u, m, x);
    }
  }

  lemma TrailBehind(cps: seq<Processor>, level: seq<nat>, s: seq<string>, u: nat, m: nat, x: string)
    requires Plain(cps, level) && u < |cps| && m < |cps| && x in s
    ensures Precedes(Trail(cps, level, s + [cps[u].name, cps[m].name], u), x, cps[m].name)
  {
    hide Precedes, Plain, Trail;
    var pair := s + [cps[u].name, cps[m].name];
    GrowsAppend(s + [cps[u].name], cps[m].name);
    assert s + [cps[u].name] + [cps[m].name] == pair;
    var names := TrailGrows(cps, level, pair, u);
  }

  /** Callback u, placed for one behind it that has its place, comes in front of that only if it goes beside one placed before. */
  lemma AfterLink(cps: seq<Processor>, level: seq<nat>, s: seq<string>, placed: set<nat>, b: nat, m: nat, u: nat)
    requires Plain(cps, level) && m < |cps| == |level| && u < |cps| && level[u] < level[m] && b <= |s|
    requires cps[m].name in s[b..] && cps[u].name !in s && cps[u].before.Some? && PlacedBelow(cps, level, s, placed, level[m])
    requires LowAhead(cps, level, s, b, level[m])
    ensures Precedes(Walk(cps, level, s, u), cps[u].name, cps[m].name) <==> Aim(cps, u).Some? && Aim(cps, u).value in placed
  {
    hide Precedes, Insert, Plain, Trail;
    PlainAims(cps, level, u);
    OthersName(cps, level, u);
    OthersName(cps, level, m);
    var name := cps[u].name;
    LastPrecedesNothing(s, name);
    if Aim(cps, u).Some? {
      var v := Aim(cps, u).value;
      var at := RIndex(s, cps[v].name);
      if at != -1 {
        LastFrom(s, b, cps[v].name);
        InsertedBefore(s, b, at, name, cps[m].name);
      } else {
        OthersName(cps, level, v);
        var names := WalkGrows(cps, level, s + [name], v);
      }
    }
  }

  /** Names below a level stand in the first part of the order only. */
  predicate LowAhead(cps: seq<Processor>, level: seq<nat>, s: seq<string>, b: nat, l: nat)
    requires |level| == |cps| && b <= |s|
  {
    forall j :: 0 <= j < |cps| && level[j] < l ==> cps[j].name !in s[b..]
  }

  /** Every wish of a chain comes out as its place in the chain says. */
  lemma {:induction false} WalkSettles(cps: seq<Processor>, level: seq<nat>, s: seq<string>, placed: set<nat>, c: nat)
    requires Plain(cps, level) && c < |cps| == |level| && cps[c].name !in s && PlacedBelow(cps, level, s, placed, level[c])
    ensures Settled(cps, Chain(cps, level, placed, c), false, Walk(cps, level, s, c))
    decreases level[c], 1
  {
    hide Precedes, Insert, Plain, Trail, Settled, SettledAt, Chain;
    PlainAims(cps, level, c);
    if Aim(cps, c) == None || Aim(cps, c).value in placed {
      EndSettles(cps, level, s, placed, c);
    } else {
      var m := Aim(cps, c).value;
      ChainNext(cps, level, placed, c);
      if cps[c].before.Some? {
        BeforeSettles(cps, level, s, placed, c, m);
      } else if cps[m].before.Some? {
        PendingSettles(cps, level, s, placed, c, m);
      } else {
        FollowedSettles(cps, level, s, placed, c, m);
      }
    }
  }

  lemma {:induction false} BeforeSettles(cps: seq<Processor>, level: seq<nat>, s: seq<string>, placed: set<nat>, c: nat, m: nat)
    requires Plain(cps, level) && c < |cps| == |level| && cps[c].name !in s && PlacedBelow(cps, level, s, placed, level[c])
    requires Aim(cps, c) == Some(m) && m !in placed && level[m] < level[c] && cps[c].before.Some?
    ensures Settled(cps, [c] + Chain(cps, level, placed, m), false, Walk(cps, level, s + [cps[c].name], m))
    decreases level[c], 0
  {
    hide Precedes, Insert, Plain, Trail, Settled, Chain, Walk;
    var first := s + [cps[c].name];
    var t, chain := Walk(cps, level, first, m), Chain(cps, level, placed, m);
    OthersName(cps, level, c);
    PlacedBelowMore(cps, level, s, first, placed, level[c], level[m], {cps[c].name});
    WalkSettles(cps, level, first, placed, m);
    BeforeLink(cps, level, s, placed, c, m);
    var names := WalkGrows(cps, level, first, m);
    InsertOnce(s, |s|, cps[c].name);
    InsertLast(s, cps[c].name);
    ChainEnds(cps, level, placed, m);
    assert SettledAt(cps, [c] + chain, 0, false, t);
    Prepended(cps, c, chain, false, false, t);
  }

  /** The first member is the last one when it has nowhere to go, or goes beside one placed before. */
  lemma ChainEnds(cps: seq<Processor>, level: seq<nat>, placed: set<nat>, m: nat)
    requires Plain(cps, level) && m < |cps|
    ensures var chain := Chain(cps, level, placed, m);
            GoesBeside(cps, chain, 0) <==> Aim(cps, m).Some? && Aim(cps, m).value in placed
    ensures forall c: nat :: c < |cps| ==> (GoesBeside(cps, [c] + Chain(cps, level, placed, m), 1)
            <==> Aim(cps, m).Some? && Aim(cps, m).value in placed)
  {
  }

  lemma {:induction false} PendingSettles(cps: seq<Processor>, level: seq<nat>, s: seq<string>, placed: set<nat>, c: nat, m: nat)
    requires Plain(cps, level) && c < |cps| == |level| && cps[c].name !in s && PlacedBelow(cps, level, s, placed, level[c])
    requires Aim(cps, c) == Some(m) && m !in placed && level[m] < level[c] && cps[c].before == None && cps[m].before.Some?
    ensures Settled(cps, [c] + Chain(cps, level, placed, m), false, Walk(cps, level, s, m) + [cps[c].name])
    decreases level[c], 0
  {
    hide Precedes, Insert, Plain, Trail, Settled, Chain, Walk;
    var before, chain := Walk(cps, level, s, m), Chain(cps, level, placed, m);
    var t := before + [cps[c].name];
    PlacedBelowMore(cps, level, s, s, placed, level[c], level[m], {});
    WalkSettles(cps, level, s, placed, m);
    var names := WalkGrows(cps, level, s, m);
    NotInWalk(cps, level, s, m, c);
    GrowsAppend(before, cps[c].name);
    ChainApart(cps, level, placed, m, c);
    SettledOn(cps, chain, false, before, t, {cps[c].name});
    InsertOnce(before, |before|, cps[c].name);
    InsertLast(before, cps[c].name);
    assert SettledAt(cps, [c] + chain, 0, false, t);
    Prepended(cps, c, chain, false, false, t);
  }

  lemma ChainApart(cps: seq<Processor>, level: seq<nat>, placed: set<nat>, m: nat, c: nat)
    requires Plain(cps, level) && m < |cps| == |level| && c < |cps| && level[m] < level[c]
    ensures forall k :: 0 <= k < |Chain(cps, level, placed, m)| ==> Apart(cps, Chain(cps, level, placed, m)[k], {cps[c].name})
  {
    hide Aim, Names;
    var chain := Chain(cps, level, placed, m);
    OthersName(cps, level, c);
    forall k | 0 <= k < |chain|
      ensures Apart(cps, chain[k], {cps[c].name})
    {
      PlainAims(cps, level, chain[k]);
    }
  }

  lemma {:induction false} FollowedSettles(cps: seq<Processor>, level: seq<nat>, s: seq<string>, placed: set<nat>, c: nat, m: nat)
    requires Plain(cps, level) && c < |cps| == |level| && cps[c].name !in s && PlacedBelow(cps, level, s, placed, level[c])
    requires Aim(cps, c) == Some(m) && m !in placed && level[m] < level[c] && cps[c].before == None && cps[m].before == None
    ensures cps[m].name in s + [cps[m].name, cps[c].name]
    ensures Settled(cps, [c] + Chain(cps, level, placed, m), false, Trail(cps, level, s + [cps[m].name, cps[c].name], m))
    decreases level[c], 0
  {
    hide Precedes, Insert, Plain, Trail, Settled, Chain, Walk;
    var chain := Chain(cps, level, placed, m);
    var x, y := cps[m].name, cps[c].name;
    var pair := s + [x, y];
    OthersName(cps, level, c);
    OthersName(cps, level, m);
    PairFacts(s, x, y);
    PlacedBelowMore(cps, level, s, pair, placed, level[c], level[m], {x, y});
    TrailSettles(cps, level, pair, placed, |s|, m);
    var t := Trail(cps, level, pair, m);
    var names := TrailGrows(cps, level, pair, m);
    assert SettledAt(cps, [c] + chain, 0, false, t);
    Prepended(cps, c, chain, false, true, t);
  }

  lemma PairFacts(s: seq<string>, x: string, y: string)
    requires x !in s && y !in s && x != y
    ensures var pair := s + [x, y];
            && x in pair && y in pair && pair[|s|..] == [x, y] && (forall z :: z in pair <==> z in s || z in {x, y})
            && Precedes(pair, x, y) && !Precedes(pair, x, x) && !Precedes(pair, y, y)
  {
    var pair := s + [x, y];
    assert pair[|s|] == x && pair[|s| + 1] == y;
    assert forall k :: 0 <= k < |s| ==> pair[k] == s[k];
  }

  lemma {:induction false} TrailSettles(cps: seq<Processor>, level: seq<nat>, s: seq<string>, placed: set<nat>, b: nat, m: nat)
    requires Plain(cps, level) && m < |cps| == |level| && cps[m].before == None && b <= |s| && cps[m].name in s[b..] && cps[m].name in s
    requires PlacedBelow(cps, level, s, placed, level[m]) && LowAhead(cps, level, s, b, level[m])
    requires !Precedes(s, cps[m].name, cps[m].name)
    ensures Settled(cps, Chain(cps, level, placed, m), true, Trail(cps, level, s, m))
    decreases level[m], 1
  {
    hide Precedes, Insert, Plain, Settled, SettledAt, Chain, Walk, LowAhead;
    PlainAims(cps, level, m);
    if Aim(cps, m) == None || Aim(cps, m).value in placed {
      TrailEnds(cps, level, s, placed, m);
    } else {
      var u := Aim(cps, m).value;
      ChainNext(cps, level, placed, m);
      if cps[u].before.Some? {
        TrailMeets(cps, level, s, placed, b, m, u);
      } else {
        TrailLeads(cps, level, s, placed, b, m, u);
      }
    }
  }

  lemma TrailEnds(cps: seq<Processor>, level: seq<nat>, s: seq<string>, placed: set<nat>, m: nat)
    requires Plain(cps, level) && m < |cps| == |level| && cps[m].name in s && PlacedBelow(cps, level, s, placed, level[m])
    requires cps[m].before == None && (Aim(cps, m) == None || Aim(cps, m).value in placed) && !Precedes(s, cps[m].name, cps[m].name)
    ensures Settled(cps, Chain(cps, level, placed, m), true, Trail(cps, level, s, m))
  {
    hide Precedes, Insert, Plain;
    PlainAims(cps, level, m);
    ChainLast(cps, level, placed, m);
    if Aim(cps, m).Some? {
      var at := RIndex(s, cps[Aim(cps, m).value].name);
      InsertAgain(s, at + 1, cps[m].name);
      BesideTarget(s, at, cps[m].name);
      InsertHas(s, at + 1, cps[m].name);
    }
  }

  lemma {:induction false} TrailMeets(cps: seq<Processor>, level: seq<nat>, s: seq<string>, placed: set<nat>, b: nat, m: nat, u: nat)
    requires Plain(cps, level) && m < |cps| == |level| && b <= |s| && cps[m].name in s[b..] && cps[m].name in s
    requires PlacedBelow(cps, level, s, placed, level[m]) && LowAhead(cps, level, s, b, level[m])
    requires !Precedes(s, cps[m].name, cps[m].name) && cps[m].before == None
    requires Aim(cps, m) == Some(u) && u !in placed && level[u] < level[m] && cps[u].before.Some?
    ensures Settled(cps, [m] + Chain(cps, level, placed, u), true, Walk(cps, level, s, u))
    decreases level[m], 0
  {
    hide Precedes, Insert, Plain, Trail, Settled, Chain, Walk, LowAhead;
    var t, chain := Walk(cps, level, s, u), Chain(cps, level, placed, u);
    PlacedBelowMore(cps, level, s, s, placed, level[m], level[u], {});
    WalkSettles(cps, level, s, placed, u);
    AfterLink(cps, level, s, placed, b, m, u);
    var names := WalkGrows(cps, level, s, u);
    ChainEnds(cps, level, placed, u);
    assert SettledAt(cps, [m] + chain, 0, true, t);
    Prepended(cps, m, chain, true, false, t);
  }

  lemma {:induction false} TrailLeads(cps: seq<Processor>, level: seq<nat>, s: seq<string>, placed: set<nat>, b: nat, m: nat, u: nat)
    requires Plain(cps, level) && m < |cps| == |level| && b <= |s| && cps[m].name in s[b..] && cps[m].name in s
    requires PlacedBelow(cps, level, s, placed, level[m]) && LowAhead(cps, level, s, b, level[m])
    requires !Precedes(s, cps[m].name, cps[m].name) && cps[m].before == None
    requires Aim(cps, m) == Some(u) && u !in placed && level[u] < level[m] && cps[u].before == None
    ensures var next := Insert(s, RIndex(s, cps[m].name), cps[u].name);
            cps[u].name in next && Settled(cps, [m] + Chain(cps, level, placed, u), true, Trail(cps, level, next, u))
    decreases level[m], 0
  {
    hide Precedes, Insert, Plain, Trail, Settled, Chain, Walk;
    var x, at, chain := cps[u].name, RIndex(s, cps[m].name), Chain(cps, level, placed, u);
    var next := Insert(s, at, x);
    OthersName(cps, level, u);
    OthersName(cps, level, m);
    GrowsInsert(s, at, x);
    BesideTarget(s, at, x);
    InsertOnce(s, at, x);
    InsertBehind(s, b, at, x, cps[m].name);
    PlacedBelowMore(cps, level, s, next, placed, level[m], level[u], {x});
    TrailSettles(cps, level, next, placed, b, u);
    var t := Trail(cps, level, next, u);
    var names := TrailGrows(cps, level, next, u);
    assert SettledAt(cps, [m] + chain, 0, true, t);
    Prepended(cps, m, chain, true, true, t);
  }

  lemma LastFrom(s: seq<string>, b: nat, x: string)
    requires b <= |s|
    ensures x in s[b..] <==> RIndex(s, x) >= b
  {
    var at := RIndex(s, x);
    assert forall k :: at < k < |s| ==> s[k] != x by {
      assert forall k :: at < k < |s| ==> s[k] == s[at + 1..][k - at - 1];
    }
    assert forall k :: b <= k < |s| ==> s[k] == s[b..][k - b];
  }

  lemma InsertBehind(s: seq<string>, b: nat, at: nat, x: string, y: string)
    requires b <= |s| && at == RIndex(s, y) && y in s[b..]
    ensures at >= b && b <= |Insert(s, at, x)| && x in Insert(s, at, x)[b..] && forall z :: z in Insert(s, at, x)[b..] ==> z in s[b..] || z == x
  {
    LastFrom(s, b, y);
    assert Insert(s, at, x)[b..] == Insert(s[b..], at - b, x);
    InsertMembers(s[b..], at - b, x);
  }

  // ---------------------------------------------------------------- every callback's wish

  predicate InChain(cps: seq<Processor>, chain: seq<nat>, x: string)
    requires forall k :: 0 <= k < |chain| ==> chain[k] < |cps|
  {
    exists k :: 0 <= k < |chain| && cps[chain[k]].name == x
  }

  lemma InLonger(cps: seq<Processor>, c: nat, chain: seq<nat>)
    requires c < |cps| && forall k :: 0 <= k < |chain| ==> chain[k] < |cps|
    ensures InChain(cps, [c] + chain, cps[c].name) && forall x :: InChain(cps, chain, x) ==> InChain(cps, [c] + chain, x)
  {
    var longer := [c] + chain;
    assert longer[0] == c;
    forall x | InChain(cps, chain, x)
      ensures InChain(cps, longer, x)
    {
      var k :| 0 <= k < |chain| && cps[chain[k]].name == x;
      assert longer[k + 1] == chain[k];
    }
  }

  /** All names in t that were not in s are those of the chain. */
  predicate Only(cps: seq<Processor>, s: seq<string>, t: seq<string>, chain: seq<nat>)
    requires forall k :: 0 <= k < |chain| ==> chain[k] < |cps|
  {
    forall x :: x in t ==> x in s || InChain(cps, chain, x)
  }

  /** A first member may be put in ahead of the rest, or at the end. */
  lemma OnlyMore(cps: seq<Processor>, s: seq<string>, now: seq<string>, t: seq<string>, end: seq<string>, c: nat, chain: seq<nat>)
    requires c < |cps| && forall k :: 0 <= k < |chain| ==> chain[k] < |cps|
    requires forall x :: x in now ==> x in s || x == cps[c].name || InChain(cps, chain, x)
    requires Only(cps, now, t, chain) && forall x :: x in end ==> x in t || x == cps[c].name
    ensures Only(cps, s, end, [c] + chain)
  {
    hide InChain;
    InLonger(cps, c, chain);
  }

  lemma OnlyOne(cps: seq<Processor>, s: seq<string>, at: nat, c: nat)
    requires c < |cps| && at <= |s|
    ensures Only(cps, s, Insert(s, at, cps[c].name), [c])
  {
    hide Insert, InChain;
    InsertMembers(s, at, cps[c].name);
    InLonger(cps, c, []);
    assert [c] + [] == [c];
  }

  lemma LastMember(cps: seq<Processor>, level: seq<nat>, s: seq<string>, placed: set<nat>, c: nat)
    requires Plain(cps, level) && c < |cps| == |level| && PlacedBelow(cps, level, s, placed, level[c])
    requires Aim(cps, c) == None || Aim(cps, c).value in placed
    ensures Only(cps, s, Walk(cps, level, s, c), Chain(cps, level, placed, c))
  {
    hide Plain, Insert, InChain, Trail, Chain, Only;
    PlainAims(cps, level, c);
    ChainLast(cps, level, placed, c);
    if Aim(cps, c).Some? {
      var at := RIndex(s, cps[Aim(cps, c).value].name);
      OnlyOne(cps, s, at, c);
      OnlyOne(cps, s, at + 1, c);
    } else {
      OnlyOne(cps, s, |s|, c);
      InsertLast(s, cps[c].name);
    }
  }

  /** A walk places only the members of its chain. */
  lemma {:induction false} WalkMembers(cps: seq<Processor>, level: seq<nat>, s: seq<string>, placed: set<nat>, c: nat)
    requires Plain(cps, level) && c < |cps| == |level| && PlacedBelow(cps, level, s, placed, level[c])
    ensures Only(cps, s, Walk(cps, level, s, c), Chain(cps, level, placed, c))
    decreases level[c], 1
  {
    hide Plain, Insert, InChain, Trail, Chain, Only;
    PlainAims(cps, level, c);
    OthersName(cps, level, c);
    var name := cps[c].name;
    if Aim(cps, c) == None || Aim(cps, c).value in placed {
      LastMember(cps, level, s, placed, c);
    } else {
      var m := Aim(cps, c).value;
      var chain := Chain(cps, level, placed, m);
      ChainNext(cps, level, placed, c);
      if cps[c].before.Some? {
        PlacedBelowMore(cps, level, s, s + [name], placed, level[c], level[m], {name});
        WalkMembers(cps, level, s + [name], placed, m);
        var t := Walk(cps, level, s + [name], m);
        OnlyMore(cps, s, s + [name], t, t, c, chain);
      } else if cps[m].before.Some? {
        PlacedBelowMore(cps, level, s, s, placed, level[c], level[m], {});
        WalkMembers(cps, level, s, placed, m);
        OnlyMore(cps, s, s, Walk(cps, level, s, m), Walk(cps, level, s, m) + [name], c, chain);
      } else {
        OthersName(cps, level, m);
        ChainHead(cps, level, placed, m);
        var pair := s + [cps[m].name, name];
        PlacedBelowMore(cps, level, s, pair, placed, level[c], level[m], {cps[m].name, name});
        TrailMembers(cps, level, pair, placed, m);
        OnlyMore(cps, s, pair, Trail(cps, level, pair, m), Trail(cps, level, pair, m), c, chain);
      }
    }
  }

  lemma ChainHead(cps: seq<Processor>, level: seq<nat>, placed: set<nat>, c: nat)
    requires Plain(cps, level) && c < |cps|
    ensures InChain(cps, Chain(cps, level, placed, c), cps[c].name)
  {
    assert Chain(cps, level, placed, c)[0] == c;
  }

  lemma {:induction false} TrailMembers(cps: seq<Processor>, level: seq<nat>, s: seq<string>, placed: set<nat>, m: nat)
    requires Plain(cps, level) && m < |cps| == |level| && cps[m].name in s && PlacedBelow(cps, level, s, placed, level[m])
    ensures Only(cps, s, Trail(cps, level, s, m), Chain(cps, level, placed, m))
    decreases level[m], 0
  {
    hide Plain, Insert, InChain, Walk, Chain;
    PlainAims(cps, level, m);
    if Aim(cps, m).Some? {
      hide Only;
      var u := Aim(cps, m).value;
      if u in placed {
        ChainLast(cps, level, placed, m);
        OnlyOne(cps, s, RIndex(s, cps[u].name) + 1, m);
      } else {
        var chain := Chain(cps, level, placed, u);
        ChainNext(cps, level, placed, m);
        PlacedBelowMore(cps, level, s, s, placed, level[m], level[u], {});
        if cps[u].before.Some? {
          WalkMembers(cps, level, s, placed, u);
          OnlyMore(cps, s, s, Walk(cps, level, s, u), Walk(cps, level, s, u), m, chain);
        } else {
          OthersName(cps, level, u);
          ChainHead(cps, level, placed, u);
          var next := Insert(s, RIndex(s, cps[m].name), cps[u].name);
          InsertMembers(s, RIndex(s, cps[m].name), cps[u].name);
          PlacedBelowMore(cps, level, s, next, placed, level[u], level[u], {cps[u].name});
          TrailMembers(cps, level, next, placed, u);
          OnlyMore(cps, s, next, Trail(cps, level, next, u), Trail(cps, level, next, u), m, chain);
        }
      }
    }
  }

  /** The callbacks placed in the first n turns: each turn places the chain of a callback that is not placed yet. */
  function PlacedBy(cps: seq<Processor>, level: seq<nat>, n: nat): set<nat>
    requires Plain(cps, level) && n <= |cps|
  {
    if n == 0 then {}
    else
      var placed := PlacedBy(cps, level, n - 1);
      if n - 1 in placed then placed else placed + Members(Chain(cps, level, placed, n - 1))
  }

  function Members(chain: seq<nat>): set<nat> {
    set j | j in chain
  }

  lemma {:induction false} PlacedExactly(cps: seq<Processor>, level: seq<nat>, n: nat)
    requires Plain(cps, level) && n <= |cps|
    ensures forall j :: 0 <= j < |cps| ==> (cps[j].name in Walks(cps, level, n) <==> j in PlacedBy(cps, level, n))
    ensures forall j :: j in PlacedBy(cps, level, n) ==> j < |cps|
  {
    hide Plain, Walk, Chain, Settled, SettledAt, Names;
    if n > 0 {
      PlacedExactly(cps, level, n - 1);
      var s, placed := Walks(cps, level, n - 1), PlacedBy(cps, level, n - 1);
      if n - 1 !in placed {
        TurnPlaces(cps, level, s, placed, n - 1);
      }
    }
  }

  lemma TurnPlaces(cps: seq<Processor>, level: seq<nat>, s: seq<string>, placed: set<nat>, c: nat)
    requires Plain(cps, level) && c < |cps| && c !in placed && forall j :: 0 <= j < |cps| ==> (cps[j].name in s <==> j in placed)
    ensures var t, chain := Walk(cps, level, s, c), Chain(cps, level, placed, c);
            forall j :: 0 <= j < |cps| ==> (cps[j].name in t <==> j in placed || j in chain)
  {
    hide Plain, Walk, Chain, Settled, SettledAt, InChain, Grows;
    PlainAims(cps, level, c);
    var t, chain := Walk(cps, level, s, c), Chain(cps, level, placed, c);
    WalkMembers(cps, level, s, placed, c);
    WalkSettles(cps, level, s, placed, c);
    ChainSettled(cps, chain, t);
    var names := WalkGrows(cps, level, s, c);
    GrowsMembers(s, t, names);
    forall j | 0 <= j < |cps| && InChain(cps, chain, cps[j].name)
      ensures j in chain
    {
      NamedInChain(cps, level, chain, j);
    }
  }

  lemma NamedInChain(cps: seq<Processor>, level: seq<nat>, chain: seq<nat>, j: nat)
    requires Plain(cps, level) && j < |cps| && (forall k :: 0 <= k < |chain| ==> chain[k] < |cps|) && InChain(cps, chain, cps[j].name)
    ensures j in chain
  {
    hide Plain;
    OthersName(cps, level, j);
  }

  lemma ChainSettled(cps: seq<Processor>, chain: seq<nat>, t: seq<string>)
    requires (forall k :: 0 <= k < |chain| ==> chain[k] < |cps|) && Settled(cps, chain, false, t)
    ensures forall j :: j in chain ==> cps[j].name in t
  {
    hide Granted, Refused, Doubled, Precedes;
    forall k | 0 <= k < |chain|
      ensures cps[chain[k]].name in t
    {
      assert SettledAt(cps, chain, k, false, t);
    }
  }

  /** Later turns put in only names that were missing. */
  lemma {:induction false} WalksGrow(cps: seq<Processor>, level: seq<nat>, n: nat, m: nat) returns (names: set<string>)
    requires Plain(cps, level) && n <= m <= |cps|
    ensures Grows(Walks(cps, level, n), Walks(cps, level, m), names) && forall x :: x in names ==> x !in Walks(cps, level, n)
    decreases m
  {
    hide Plain, Walk, Precedes;
    names := {};
    if n < m {
      names := WalksGrow(cps, level, n, m - 1);
      var s := Walks(cps, level, m - 1);
      if cps[m - 1].name !in s {
        var more := WalkGrows(cps, level, s, m - 1);
        GrowsOn(Walks(cps, level, n), s, Walk(cps, level, s, m - 1), names, more);
        names := names + more;
      }
    }
  }

  /** The chain of a turn comes out of the whole run as its wishes say. */
  lemma ChainComesOut(cps: seq<Processor>, level: seq<nat>, n: nat, fuel: nat)
    requires Plain(cps, level) && n < |cps| && Ample(level, fuel) && n !in PlacedBy(cps, level, n)
    ensures var end := PlaceAll(State([], cps), 0, fuel);
            end.Some? && Settled(cps, Chain(cps, level, PlacedBy(cps, level, n), n), false, end.value.sorted)
  {
    hide Plain, Walk, Chain, Settled, SettledAt, PlaceAll, Agrees, Grows, PlacedBy, Apart;
    NothingAgrees(cps);
    AllWalk(cps, level, State([], cps), 0, fuel);
    PlainAims(cps, level, n);
    PlacedExactly(cps, level, n);
    var s, placed := Walks(cps, level, n), PlacedBy(cps, level, n);
    var chain := Chain(cps, level, placed, n);
    WalkSettles(cps, level, s, placed, n);
    var names := WalksGrow(cps, level, n + 1, |cps|);
    TurnPlaces(cps, level, s, placed, n);
    ChainAims(cps, level, placed, n, names);
    SettledOn(cps, chain, false, Walks(cps, level, n + 1), Walks(cps, level, |cps|), names);
  }

  /** What the members of a chain want to stand next to is in the chain, or was placed before. */
  lemma ChainAims(cps: seq<Processor>, level: seq<nat>, placed: set<nat>, c: nat, names: set<string>)
    requires Plain(cps, level) && c < |cps|
    requires forall j :: 0 <= j < |cps| && (j in placed || j in Chain(cps, level, placed, c)) ==> cps[j].name !in names
    ensures forall k :: 0 <= k < |Chain(cps, level, placed, c)| ==> Apart(cps, Chain(cps, level, placed, c)[k], names)
  {
    hide Plain, Aim;
    var chain := Chain(cps, level, placed, c);
    ChainStops(cps, level, placed, c);
    forall k | 0 <= k < |chain|
      ensures Apart(cps, chain[k], names)
    {
      if k + 1 < |chain| {
        assert Aim(cps, chain[k + 1 - 1]) == Some(chain[k + 1]);
      }
    }
  }

  lemma GrowsMembers(s: seq<string>, t: seq<string>, names: set<string>)
    requires Grows(s, t, names)
    ensures forall x :: x in s ==> x in t
  {
  }

  lemma NothingAgrees(cps: seq<Processor>)
    ensures Agrees(cps, State([], cps))
  {
  }

  /** Every callback belongs to the chain of some turn. */
  lemma {:induction false} ChainOf(cps: seq<Processor>, level: seq<nat>, j: nat, m: nat) returns (n: nat, i: nat)
    requires Plain(cps, level) && j < |cps| && m <= |cps| && (j < m || j in PlacedBy(cps, level, m))
    ensures n < |cps| && n !in PlacedBy(cps, level, n)
    ensures i < |Chain(cps, level, PlacedBy(cps, level, n), n)| && Chain(cps, level, PlacedBy(cps, level, n), n)[i] == j
    decreases m
  {
    hide Plain, Chain;
    var placed := PlacedBy(cps, level, m - 1);
    if j < m - 1 || j in placed {
      n, i := ChainOf(cps, level, j, m - 1);
    } else {
      n := m - 1;
      var chain := Chain(cps, level, placed, n);
      assert j in chain;
      i :| 0 <= i < |chain| && chain[i] == j;
    }
  }

  /**
   Distinct callbacks with at most one wish each and no cycle of wishes: sorting ends, and callback j, the i-th of the chain
   of turn n, has its wish granted if and only if the chain does not refuse it, and is run twice if and only if the chain
   places it twice.
   */
  lemma GrantedExactly(cps: seq<Processor>, level: seq<nat>, j: nat, fuel: nat) returns (n: nat, i: nat)
    requires Plain(cps, level) && j < |cps| && Ample(level, fuel)
    ensures n < |cps| && n !in PlacedBy(cps, level, n)
    ensures var chain := Chain(cps, level, PlacedBy(cps, level, n), n);
            var end := PlaceAll(State([], cps), 0, fuel);
            && i < |chain| && chain[i] == j && end.Some?
            && cps[j].name in end.value.sorted
            && (Aim(cps, j).Some? ==> (Granted(cps, end.value.sorted, j) <==> !Refused(cps, chain, i, false)))
            && (Precedes(end.value.sorted, cps[j].name, cps[j].name) <==> Doubled(cps, chain, i, false))
  {
    hide Plain, PlaceAll, PlacedBy, Granted, Refused, Doubled, Precedes, Chain;
    n, i := ChainOf(cps, level, j, |cps|);
    ChainComesOut(cps, level, n, fuel);
    assert SettledAt(cps, Chain(cps, level, PlacedBy(cps, level, n), n), i, false, PlaceAll(State([], cps), 0, fuel).value.sorted);
  }

  // ---------------------------------------------------------------- two examples

  const TWICE: seq<Processor> :=
    [Processor("e", None, None, false, 0), Processor("b", None, Some("d"), false, 1), Processor("d", None, Some("e"), false, 2)]

  lemma TwicePlain()
    ensures Plain(TWICE, [0, 2, 1]) && Aim(TWICE, 0) == None && Aim(TWICE, 1) == Some(2) && Aim(TWICE, 2) == Some(0)
  {
    var names := Names(TWICE);
    assert names == ["e", "b", "d"];
    assert names[0] == "e" && names[2] == "d";
  }

  /** One that another wants to follow, registered between what that one follows and itself, is run twice. */
  lemma RunTwice(fuel: nat)
    requires fuel > 2
    ensures var end := PlaceAll(State([], TWICE), 0, fuel); end.Some? && Precedes(end.value.sorted, "d", "d")
  {
    TwicePlain();
    hide Plain, Aim, Precedes, PlaceAll, Settled;
    var level := [0, 2, 1];
    ChainLast(TWICE, level, {}, 0);
    assert PlacedBy(TWICE, level, 0) == {} && PlacedBy(TWICE, level, 1) == {0};
    ChainLast(TWICE, level, {0}, 2);
    ChainNext(TWICE, level, {0}, 1);
    var chain := Chain(TWICE, level, {0}, 1);
    assert chain == [1, 2];
    ChainComesOut(TWICE, level, 1, fuel);
    SettledOne(TWICE, chain, 1, PlaceAll(State([], TWICE), 0, fuel).value.sorted);
    assert Doubled(TWICE, chain, 1, false);
  }

  const FOLLOW: seq<Processor> :=
    [Processor("a", None, Some("b"), false, 0), Processor("b", None, Some("c"), false, 1), Processor("c", Some("x"), None, false, 2)]

  lemma FollowNames()
    ensures Names(FOLLOW) == ["a", "b", "c"] && RIndex(["a", "b", "c"], "b") == 1 && RIndex(["a", "b", "c"], "c") == 2
  {
    assert ["a", "b", "c"][1] == "b" && ["a", "b", "c"][2] == "c";
  }

  lemma FollowPlain()
    ensures Plain(FOLLOW, [2, 1, 0]) && Aim(FOLLOW, 0) == Some(1) && Aim(FOLLOW, 1) == Some(2) && Aim(FOLLOW, 2) == None
  {
    FollowNames();
    hide Names, RIndex;
  }

  /** A wish to follow may be refused, too, although the order c, b, a would meet all of them. */
  lemma FollowMayFail(fuel: nat)
    requires fuel > 2
    ensures var end := PlaceAll(State([], FOLLOW), 0, fuel); end.Some? && !Precedes(end.value.sorted, "c", "b")
  {
    FollowPlain();
    hide Plain, Aim, Precedes, PlaceAll, Chain, Settled;
    var level := [2, 1, 0];
    ChainLast(FOLLOW, level, {}, 2);
    ChainNext(FOLLOW, level, {}, 1);
    ChainNext(FOLLOW, level, {}, 0);
    var chain := Chain(FOLLOW, level, {}, 0);
    assert chain == [0, 1, 2];
    ChainComesOut(FOLLOW, level, 0, fuel);
    SettledOne(FOLLOW, chain, 1, PlaceAll(State([], FOLLOW), 0, fuel).value.sorted);
    assert Refused(FOLLOW, chain, 1, false);
  }

  lemma SettledOne(cps: seq<Processor>, chain: seq<nat>, i: nat, t: seq<string>)
    requires (forall k :: 0 <= k < |chain| ==> chain[k] < |cps|) && Settled(cps, chain, false, t) && i < |chain|
    ensures SettledAt(cps, chain, i, false, t)
  {
  }
}
