/**
 The order of ORM callbacks: each may ask to run before or after another one. The sorter places them one by one,
 and places a callback that is asked for but not placed yet by calling itself.
 */
module OrmCallbacks {
  import opened Wrappers

  // No wish is written None; the empty name is never registered.
  datatype Processor = Processor(name: string, before: Option<string>, after: Option<string>, remove: bool, handler: int)

  /** The last position of str in strs, or -1. */
  function RIndex(strs: seq<string>, str: string): (i: int)
    ensures -1 <= i < |strs|
    ensures i == -1 <==> str !in strs
    ensures i >= 0 ==> strs[i] == str && str !in strs[i + 1..]
  {
    if strs == [] then -1
    else if strs[|strs| - 1] == str then |strs| - 1
    else
      var i := RIndex(strs[..|strs| - 1], str);
      assert strs == strs[..|strs| - 1] + [strs[|strs| - 1]];
      assert i >= 0 ==> strs[i + 1..] == strs[..|strs| - 1][i + 1..] + [strs[|strs| - 1]];
      i
  }

  function Names(cps: seq<Processor>): (names: seq<string>)
    ensures |names| == |cps| && forall i :: 0 <= i < |cps| ==> names[i] == cps[i].name
  {
    seq(|cps|, i requires 0 <= i < |cps| => cps[i].name)
  }

  /** The names placed so far, and the processors, whose before may be set on the way. */
  datatype State = State(sorted: seq<string>, cps: seq<Processor>)

  function Insert(s: seq<string>, at: nat, name: string): seq<string>
    requires at <= |s|
  {
    s[..at] + [name] + s[at..]
  }

  /**
   Places processor c; None when more than fuel calls would be nested, which happens at every fuel
   when the recursion does not end.
   */
  function Place(st: State, c: nat, fuel: nat): (r: Option<State>)
    requires c < |st.cps|
    ensures r.Some? ==> |r.value.cps| == |st.cps| && Names(r.value.cps) == Names(st.cps)
    decreases fuel, 3
  {
    if st.cps[c].name in st.sorted then Some(st)
    else
      match PlaceBefore(st, c, fuel)
      case None => None
      case Some(now) =>
        match PlaceAfter(now, c, fuel)
        case None => None
        case Some(placed) =>
          var name := st.cps[c].name;
          Some(if name in placed.sorted then placed else placed.(sorted := placed.sorted + [name]))
  }

  function PlaceBefore(st: State, c: nat, fuel: nat): (r: Option<State>)
    requires c < |st.cps|
    ensures r.Some? ==> |r.value.cps| == |st.cps| && Names(r.value.cps) == Names(st.cps)
    decreases fuel, 2
  {
    var p := st.cps[c];
    if p.before == None then Some(st)
    else
      var at, registered := RIndex(st.sorted, p.before.value), RIndex(Names(st.cps), p.before.value);
      if at != -1 then Some(st.(sorted := Insert(st.sorted, at, p.name)))
      else if registered == -1 then Some(st)
      else if fuel == 0 then None
      else Place(st.(sorted := st.sorted + [p.name]), registered, fuel - 1)
  }

  function PlaceAfter(st: State, c: nat, fuel: nat): (r: Option<State>)
    requires c < |st.cps|
    ensures r.Some? ==> |r.value.cps| == |st.cps| && Names(r.value.cps) == Names(st.cps)
    decreases fuel, 2
  {
    var p := st.cps[c];
    if p.after == None then Some(st)
    else
      var at, registered := RIndex(st.sorted, p.after.value), RIndex(Names(st.cps), p.after.value);
      if at != -1 then Some(st.(sorted := Insert(st.sorted, at + 1, p.name)))
      else if registered == -1 then Some(st)
      else if fuel == 0 then None
      else
        SetBeforeNames(st.cps, registered, p.name);
        Place(st.(cps := SetBefore(st.cps, registered, p.name)), registered, fuel - 1)
  }

  /** A processor without such a wish of its own is made to run before the one that wants to run after it. */
  function SetBefore(cps: seq<Processor>, i: nat, name: string): seq<Processor>
    requires i < |cps|
  {
    if cps[i].before == None then cps[i := cps[i].(before := Some(name))] else cps
  }

  lemma SetBeforeNames(cps: seq<Processor>, i: nat, name: string)
    requires i < |cps|
    ensures Names(SetBefore(cps, i, name)) == Names(cps)
  {
  }

  /** All processors from the i-th on, in the order of registration. */
  function PlaceAll(st: State, i: nat, fuel: nat): Option<State>
    requires i <= |st.cps|
    decreases |st.cps| - i
  {
    if i == |st.cps| then Some(st)
    else
      match Place(st, i, fuel)
      case None => None
      case Some(next) => PlaceAll(next, i + 1, fuel)
  }

  /** The handlers of the names that have not been removed; of several registrations the last one counts. */
  function Handlers(sorted: seq<string>, cps: seq<Processor>): seq<int>
    requires forall n :: n in sorted ==> n in Names(cps)
  {
    if sorted == [] then []
    else
      var n := sorted[|sorted| - 1];
      assert n in sorted;
      var i := RIndex(Names(cps), n);
      Handlers(sorted[..|sorted| - 1], cps) + (if cps[i].remove then [] else [cps[i].handler])
  }

  // ---------------------------------------------------------------- what the order is meant to be

  /** x stands before y. */
  predicate Precedes(s: seq<string>, x: string, y: string) {
    exists p, q :: 0 <= p < q < |s| && s[p] == x && s[q] == y
  }

  predicate Distinct(s: seq<string>) {
    forall p, q :: 0 <= p < q < |s| ==> s[p] != s[q]
  }

  predicate FirstOf(cps: seq<Processor>, i: nat)
    requires i < |cps|
  {
    forall j :: 0 <= j < i ==> cps[j].name != cps[i].name
  }

  /** Whether a wish names a registered callback. */
  predicate Binds(cps: seq<Processor>, target: Option<string>) {
    target.Some? && target.value in Names(cps)
  }

  /** A first registration asks for at most one place, next to an earlier callback or to one that nobody registers. */
  predicate Earlier(cps: seq<Processor>, i: nat)
    requires i < |cps|
  {
    && (cps[i].before == None || cps[i].after == None)
    && (Binds(cps, cps[i].before) ==> cps[i].before.value in Names(cps)[..i])
    && (Binds(cps, cps[i].after) ==> cps[i].after.value in Names(cps)[..i])
  }

  predicate Orderly(cps: seq<Processor>) {
    forall i :: 0 <= i < |cps| && FirstOf(cps, i) ==> Earlier(cps, i)
  }

  predicate Free(cps: seq<Processor>, i: nat)
    requires i < |cps|
  {
    !Binds(cps, cps[i].before) && !Binds(cps, cps[i].after)
  }

  /** Of the first n processors, each name is placed once, where it wants to be, and the free ones in their order. */
  predicate Ordered(cps: seq<Processor>, n: nat, sorted: seq<string>)
    requires n <= |cps|
  {
    && Distinct(sorted)
    && (forall s :: s in sorted ==> s in Names(cps)[..n]) && (forall s :: s in Names(cps)[..n] ==> s in sorted)
    && (forall i :: 0 <= i < n && FirstOf(cps, i) && Binds(cps, cps[i].before) ==> Precedes(sorted, cps[i].name, cps[i].before.value))
    && (forall i :: 0 <= i < n && FirstOf(cps, i) && Binds(cps, cps[i].after) ==> Precedes(sorted, cps[i].after.value, cps[i].name))
    && (forall i, j :: 0 <= i < j < n && FirstOf(cps, i) && FirstOf(cps, j) && Free(cps, i) && Free(cps, j) ==>
          Precedes(sorted, cps[i].name, cps[j].name))
  }

  lemma InsertPrecedes(s: seq<string>, at: nat, name: string, x: string, y: string)
    requires at <= |s| && Precedes(s, x, y)
    ensures Precedes(Insert(s, at, name), x, y)
  {
    var p, q :| 0 <= p < q < |s| && s[p] == x && s[q] == y;
    var t := Insert(s, at, name);
    var p', q' := if p < at then p else p + 1, if q < at then q else q + 1;
    assert t[p'] == x && t[q'] == y;
  }

  lemma InsertDistinct(s: seq<string>, at: nat, name: string)
    requires at <= |s| && Distinct(s) && name !in s
    ensures Distinct(Insert(s, at, name))
    ensures forall x :: x in Insert(s, at, name) <==> x in s || x == name
    ensures Insert(s, at, name)[at] == name
  {
    var t := Insert(s, at, name);
    assert forall k :: 0 <= k < |t| ==> t[k] == if k < at then s[k] else if k == at then name else s[k - 1];
    assert s == s[..at] + s[at..];
  }

  /** A name inserted anywhere leaves the order of the others as it was. */
  lemma InsertOrdered(cps: seq<Processor>, n: nat, s: seq<string>, at: nat)
    requires n < |cps| && Ordered(cps, n, s) && cps[n].name !in s && at <= |s|
    requires var t := Insert(s, at, cps[n].name);
             && (Binds(cps, cps[n].before) ==> Precedes(t, cps[n].name, cps[n].before.value))
             && (Binds(cps, cps[n].after) ==> Precedes(t, cps[n].after.value, cps[n].name))
             && (Free(cps, n) ==> at == |s|)
    ensures Ordered(cps, n + 1, Insert(s, at, cps[n].name))
  {
    hide Precedes, Insert, Free, FirstOf, Distinct;
    var name := cps[n].name;
    var t := Insert(s, at, name);
    InsertDistinct(s, at, name);
    NamesNext(cps, n);
    forall x, y | Precedes(s, x, y)
      ensures Precedes(t, x, y)
    {
      InsertPrecedes(s, at, name, x, y);
    }
    forall i | 0 <= i < n && FirstOf(cps, i) && Free(cps, i) && Free(cps, n)
      ensures Precedes(t, cps[i].name, name)
    {
      assert Names(cps)[..n][i] == cps[i].name;
      LastFollows(s, cps[i].name, name);
    }
    hide Names;
  }

  lemma NamesNext(cps: seq<Processor>, n: nat)
    requires n < |cps|
    ensures forall s :: s in Names(cps)[..n + 1] <==> s in Names(cps)[..n] || s == cps[n].name
  {
    assert Names(cps)[..n + 1] == Names(cps)[..n] + [cps[n].name];
  }

  lemma LastFollows(s: seq<string>, x: string, name: string)
    requires x in s
    ensures Precedes(Insert(s, |s|, name), x, name)
  {
    var p :| 0 <= p < |s| && s[p] == x;
    var t := Insert(s, |s|, name);
    assert t[p] == x && t[|s|] == name;
  }

  lemma BesideTarget(s: seq<string>, at: nat, name: string)
    requires at < |s|
    ensures Precedes(Insert(s, at, name), name, s[at])
    ensures Precedes(Insert(s, at + 1, name), s[at], name)
  {
    var t, u := Insert(s, at, name), Insert(s, at + 1, name);
    assert t[at] == name && t[at + 1] == s[at];
    assert u[at] == s[at] && u[at + 1] == name;
  }

  /** Where an orderly processor goes: before its target, behind it, or last. */
  function Spot(cps: seq<Processor>, n: nat, sorted: seq<string>): (at: int)
    requires n < |cps|
    ensures -1 <= at <= |sorted|
  {
    if Binds(cps, cps[n].before) then RIndex(sorted, cps[n].before.value)
    else if Binds(cps, cps[n].after) then RIndex(sorted, cps[n].after.value) + 1
    else |sorted|
  }

  /** The targets of an orderly processor have been placed, so placing it takes no nested call. */
  lemma PlaceAtSpot(st: State, n: nat, fuel: nat)
    requires n < |st.cps| && st.cps[n].name !in st.sorted && Earlier(st.cps, n)
    requires forall s :: s in st.sorted <==> s in Names(st.cps)[..n]
    ensures var at := Spot(st.cps, n, st.sorted);
            at >= 0 && Place(st, n, fuel) == Some(st.(sorted := Insert(st.sorted, at, st.cps[n].name)))
  {
    hide Names, Insert;
    var p, s := st.cps[n], st.sorted;
    var names := Names(st.cps);
    assert forall t :: t in names[..n] ==> t in names;
    BeforeAtSpot(st, n, fuel);
    if Binds(st.cps, p.before) {
      var at := RIndex(s, p.before.value);
      InsertHas(s, at, p.name);
      assert p.after == None;
    } else {
      AfterAtSpot(st, n, fuel);
      if Binds(st.cps, p.after) {
        InsertHas(s, RIndex(s, p.after.value) + 1, p.name);
      } else {
        InsertLast(s, p.name);
      }
    }
  }

  lemma InsertLast(s: seq<string>, name: string)
    ensures Insert(s, |s|, name) == s + [name]
  {
  }

  lemma BeforeAtSpot(st: State, n: nat, fuel: nat)
    requires n < |st.cps| && (Binds(st.cps, st.cps[n].before) ==> st.cps[n].before.value in st.sorted)
    requires forall s :: s in st.sorted ==> s in Names(st.cps)
    ensures PlaceBefore(st, n, fuel) ==
            Some(if Binds(st.cps, st.cps[n].before)
                 then st.(sorted := Insert(st.sorted, RIndex(st.sorted, st.cps[n].before.value), st.cps[n].name)) else st)
  {
    hide Names, Insert;
  }

  lemma AfterAtSpot(st: State, n: nat, fuel: nat)
    requires n < |st.cps| && (Binds(st.cps, st.cps[n].after) ==> st.cps[n].after.value in st.sorted)
    requires forall s :: s in st.sorted ==> s in Names(st.cps)
    ensures PlaceAfter(st, n, fuel) ==
            Some(if Binds(st.cps, st.cps[n].after)
                 then st.(sorted := Insert(st.sorted, RIndex(st.sorted, st.cps[n].after.value) + 1, st.cps[n].name)) else st)
  {
    hide Names, Insert;
  }

  lemma InsertHas(s: seq<string>, at: nat, name: string)
    requires at <= |s|
    ensures name in Insert(s, at, name)
  {
    assert Insert(s, at, name)[at] == name;
  }

  /** One orderly step keeps everything in order. */
  lemma PlaceOrdered(st: State, n: nat, fuel: nat)
    requires Orderly(st.cps) && n < |st.cps| && Ordered(st.cps, n, st.sorted)
    ensures var r := Place(st, n, fuel); r.Some? && r.value.cps == st.cps && Ordered(st.cps, n + 1, r.value.sorted)
  {
    var cps, s := st.cps, st.sorted;
    if cps[n].name in s {
      SeenBefore(cps, n, s);
    } else {
      FirstSeen(cps, n, s);
      hide Precedes, Place, Insert;
      PlaceAtSpot(st, n, fuel);
      var at := Spot(cps, n, s);
      if Binds(cps, cps[n].before) {
        BesideTarget(s, at, cps[n].name);
      } else if Binds(cps, cps[n].after) {
        BesideTarget(s, at - 1, cps[n].name);
      }
      InsertOrdered(cps, n, s, at);
    }
  }

  lemma FirstSeen(cps: seq<Processor>, n: nat, sorted: seq<string>)
    requires n < |cps| && cps[n].name !in sorted && forall s :: s in Names(cps)[..n] ==> s in sorted
    ensures FirstOf(cps, n)
  {
    forall j | 0 <= j < n
      ensures cps[j].name != cps[n].name
    {
      assert Names(cps)[..n][j] == cps[j].name;
    }
  }

  lemma SeenBefore(cps: seq<Processor>, n: nat, sorted: seq<string>)
    requires n < |cps| && Ordered(cps, n, sorted) && cps[n].name in sorted
    ensures Ordered(cps, n + 1, sorted)
  {
    hide Precedes, Binds, Distinct, Free, FirstOf, Names;
    SeenName(cps, n);
  }

  lemma SeenName(cps: seq<Processor>, n: nat)
    requires n < |cps| && cps[n].name in Names(cps)[..n]
    ensures !FirstOf(cps, n) && forall s :: s in Names(cps)[..n + 1] <==> s in Names(cps)[..n]
  {
    var names := Names(cps);
    assert names[..n + 1] == names[..n] + [cps[n].name];
    var k :| 0 <= k < n && names[..n][k] == cps[n].name;
    assert cps[k].name == cps[n].name;
  }

  /**
   Callbacks that ask only for places next to earlier ones are all placed once, each
   where it wants to be, the others in the order of registration, with no nested call at all.
   */
  lemma {:induction false} AllPlaced(st: State, n: nat, fuel: nat)
    requires Orderly(st.cps) && n <= |st.cps| && Ordered(st.cps, n, st.sorted)
    ensures var r := PlaceAll(st, n, fuel); r.Some? && r.value.cps == st.cps && Ordered(st.cps, |st.cps|, r.value.sorted)
    decreases |st.cps| - n
  {
    hide Place, Ordered, Orderly;
    if n < |st.cps| {
      PlaceOrdered(st, n, fuel);
      AllPlaced(Place(st, n, fuel).value, n + 1, fuel);
    }
  }

  lemma NothingOrdered(cps: seq<Processor>)
    ensures Ordered(cps, 0, [])
  {
  }

  // ---------------------------------------------------------------- the sorter

  /** The sorted handlers: None when the sorter does not come back. */
  function Sort(cps: seq<Processor>, fuel: nat): Option<seq<int>> {
    match PlaceAll(State([], cps), 0, fuel)
    case None => None
    case Some(st) => Some(HandlersOf(st.sorted, cps))
  }

  function HandlersOf(sorted: seq<string>, cps: seq<Processor>): seq<int> {
    if forall i :: 0 <= i < |sorted| ==> sorted[i] in Names(cps) then Handlers(sorted, cps) else []
  }

  class Sorter {
    var sortedNames: seq<string>
    var cps: seq<Processor>

    constructor (cps: seq<Processor>)
      ensures sortedNames == [] && this.cps == cps
    {
      sortedNames, this.cps := [], cps;
    }

    /** Places processor c, with at most fuel nested calls. */
    method SortCallbackProcessor(c: nat, fuel: nat) returns (done: bool)
      requires c < |cps|
      modifies this
      ensures done <==> Place(old(State(sortedNames, cps)), c, fuel).Some?
      ensures done ==> Place(old(State(sortedNames, cps)), c, fuel) == Some(State(sortedNames, cps))
      decreases fuel, 3
    {
      hide PlaceBefore, PlaceAfter, Names;
      var name := cps[c].name;
      if RIndex(sortedNames, name) != -1 {
        return true;
      }
      done := SortBefore(c, fuel);
      if !done {
        return;
      }
      done := SortAfter(c, fuel);
      if !done {
        return;
      }
      if RIndex(sortedNames, name) == -1 {
        sortedNames := sortedNames + [name];
      }
    }

    /** Puts it just before the callback it wants to precede, or last and then places that one. */
    method SortBefore(c: nat, fuel: nat) returns (done: bool)
      requires c < |cps|
      modifies this
      ensures done <==> PlaceBefore(old(State(sortedNames, cps)), c, fuel).Some?
      ensures done ==> |cps| == |old(cps)| && PlaceBefore(old(State(sortedNames, cps)), c, fuel) == Some(State(sortedNames, cps))
      decreases fuel, 2
    {
      hide Place, Names, Insert;
      var p := cps[c];
      if p.before == None {
        return true;
      }
      var index := RIndex(sortedNames, p.before.value);
      if index != -1 {
        sortedNames := Insert(sortedNames, index, p.name);
        return true;
      }
      index := RIndex(Names(cps), p.before.value);
      if index == -1 {
        return true;
      }
      if fuel == 0 {
        return false;
      }
      sortedNames := sortedNames + [p.name];
      done := SortCallbackProcessor(index, fuel - 1);
    }

    /** Puts it just behind the callback it wants to follow, or asks that one to come before it and places it. */
    method SortAfter(c: nat, fuel: nat) returns (done: bool)
      requires c < |cps|
      modifies this
      ensures done <==> PlaceAfter(old(State(sortedNames, cps)), c, fuel).Some?
      ensures done ==> |cps| == |old(cps)| && PlaceAfter(old(State(sortedNames, cps)), c, fuel) == Some(State(sortedNames, cps))
      decreases fuel, 2
    {
      hide Place, Names, Insert;
      var p := cps[c];
      if p.after == None {
        return true;
      }
      var index := RIndex(sortedNames, p.after.value);
      if index != -1 {
        sortedNames := Insert(sortedNames, index + 1, p.name);
        return true;
      }
      index := RIndex(Names(cps), p.after.value);
      if index == -1 {
        return true;
      }
      if fuel == 0 {
        return false;
      }
      if cps[index].before == None {
        cps := cps[index := cps[index].(before := Some(p.name))];
      }
      done := SortCallbackProcessor(index, fuel - 1);
    }

    /** The handlers in order, unless some placement nests more than fuel calls. */
    method SortProcessors(fuel: nat) returns (r: Option<seq<int>>)
      requires sortedNames == []
      modifies this
      ensures r == Sort(old(cps), fuel)
    {
      hide Place;
      var all := cps;
      ghost var goal := PlaceAll(State([], cps), 0, fuel);
      for i := 0 to |all|
        invariant |cps| == |all|
        invariant goal == PlaceAll(State(sortedNames, cps), i, fuel)
      {
        var done := SortCallbackProcessor(i, fuel);
        if !done {
          return None;
        }
      }
      r := Some(HandlersOf(sortedNames, all));
    }
  }

  /** Each name that has not been removed gives its last handler once, in the order of the names. */
  predicate HandlersInOrder(cps: seq<Processor>, sorted: seq<string>, funcs: seq<int>) {
    (forall i :: 0 <= i < |sorted| ==> sorted[i] in Names(cps)) && funcs == Handlers(sorted, cps)
  }

  /**
   For processors that ask only for places next to earlier ones or to ones nobody registers, sorting ends,
   without any nested call, in an order of all names, each once, that grants every wish and keeps the order of
   registration among those without a wish.
   */
  lemma OrderlyIsSorted(cps: seq<Processor>, fuel: nat)
    requires Orderly(cps)
    ensures Sort(cps, fuel).Some?
    ensures exists sorted :: Ordered(cps, |cps|, sorted) && HandlersInOrder(cps, sorted, Sort(cps, fuel).value)
  {
    hide Place, Orderly, Handlers;
    NothingOrdered(cps);
    AllPlaced(State([], cps), 0, fuel);
    var sorted := PlaceAll(State([], cps), 0, fuel).value.sorted;
    assert Names(cps)[..|cps|] == Names(cps);
    assert Ordered(cps, |cps|, sorted) && HandlersInOrder(cps, sorted, Sort(cps, fuel).value);
  }

  // ---------------------------------------------------------------- when sorting ends

  /** Placing it goes on to the callback it wants to follow and puts nothing anywhere: what it wants to precede is not registered. */
  predicate PassedOver(cps: seq<Processor>, i: nat)
    requires i < |cps|
  {
    cps[i].before.Some? && !Binds(cps, cps[i].before) && Binds(cps, cps[i].after)
  }

  /** The last registration of the callback that this one wants to follow. */
  function Followed(cps: seq<Processor>, i: nat): (j: nat)
    requires i < |cps| && Binds(cps, cps[i].after)
    ensures j < |cps| && cps[j].name == cps[i].after.value
  {
    RIndex(Names(cps), cps[i].after.value)
  }

  /** How many callbacks are passed over from the i-th on, before one that is not; None if that comes back to one seen. */
  function Chase(cps: seq<Processor>, i: nat, seen: set<nat>): (steps: Option<nat>)
    requires i < |cps| && forall j :: j in seen ==> j < |cps|
    ensures steps.Some? ==> steps.value + |seen| <= |cps|
    decreases |cps| - |seen|
  {
    Room(|cps|, seen);
    if i in seen then None
    else if !PassedOver(cps, i) then Some(0)
    else
      Room(|cps|, seen + {i});
      match Chase(cps, Followed(cps, i), seen + {i})
      case None => None
      case Some(k) => Some(k + 1)
  }

  lemma {:induction false} Room(n: nat, seen: set<nat>)
    requires forall j :: j in seen ==> j < n
    ensures |seen| <= n
    decreases n
  {
    if n == 0 {
      assert seen == {};
    } else {
      Room(n - 1, seen - {n - 1});
    }
  }

  /** Following wishes from a callback that is passed over comes round in a circle of such. */
  predicate Circles(cps: seq<Processor>, i: nat)
    requires i < |cps|
  {
    Chase(cps, i, {}).None?
  }

  predicate NoCircles(cps: seq<Processor>) {
    forall i :: 0 <= i < |cps| ==> !Circles(cps, i)
  }

  lemma {:induction false} ChaseLess(cps: seq<Processor>, i: nat, seen: set<nat>, fewer: set<nat>)
    requires i < |cps| && (forall j :: j in seen ==> j < |cps|) && fewer <= seen && Chase(cps, i, seen).Some?
    ensures Chase(cps, i, fewer) == Chase(cps, i, seen)
    decreases |cps| - |seen|
  {
    Room(|cps|, seen);
    if PassedOver(cps, i) {
      Room(|cps|, seen + {i});
      ChaseLess(cps, Followed(cps, i), seen + {i}, fewer + {i});
    }
  }

  /** Being made to run before a registered callback, a processor is not passed over any more. */
  lemma {:induction false} ChaseSetBefore(cps: seq<Processor>, at: nat, name: string, i: nat, seen: set<nat>)
    requires at < |cps| && name in Names(cps) && i < |cps| && (forall j :: j in seen ==> j < |cps|) && Chase(cps, i, seen).Some?
    ensures Chase(SetBefore(cps, at, name), i, seen).Some?
    decreases |cps| - |seen|
  {
    hide Names;
    SetBeforeNames(cps, at, name);
    var now := SetBefore(cps, at, name);
    Room(|cps|, seen);
    if PassedOver(now, i) {
      assert PassedOver(cps, i) && Followed(now, i) == Followed(cps, i);
      Room(|cps|, seen + {i});
      ChaseSetBefore(cps, at, name, Followed(cps, i), seen + {i});
    }
  }

  lemma NoCirclesSetBefore(cps: seq<Processor>, at: nat, name: string)
    requires at < |cps| && name in Names(cps) && NoCircles(cps)
    ensures NoCircles(SetBefore(cps, at, name))
  {
    hide Chase, Names;
    forall i | 0 <= i < |cps|
      ensures !Circles(SetBefore(cps, at, name), i)
    {
      assert !Circles(cps, i) && Chase(cps, i, {}).Some?;
      ChaseSetBefore(cps, at, name, i, {});
    }
  }

  function Elements(s: seq<string>): set<string> {
    set x | x in s
  }

  /** The names not placed yet. */
  function Waiting(st: State): set<string> {
    Elements(Names(st.cps)) - Elements(st.sorted)
  }

  /** How many calls in a row from this one may place nothing. */
  function Patience(st: State, c: nat): nat
    requires c < |st.cps|
  {
    if st.cps[c].before == None then |st.cps| + 1
    else match Chase(st.cps, c, {}) case Some(k) => k case None => 0
  }

  function Bound(st: State, c: nat): nat
    requires c < |st.cps|
  {
    Times(|Waiting(st)|, |st.cps| + 2) + Patience(st, c)
  }

  function Times(a: nat, b: nat): nat {
    a * b
  }

  lemma PatienceBound(st: State, c: nat)
    requires c < |st.cps|
    ensures Patience(st, c) <= |st.cps| + 1
  {
    hide Chase;
  }

  /** Whenever there is no circle, enough nested calls place a processor; what was placed stays so. */
  lemma {:induction false} PlaceEnds(st: State, c: nat, fuel: nat)
    requires c < |st.cps| && NoCircles(st.cps) && fuel >= Bound(st, c)
    ensures var r := Place(st, c, fuel);
            r.Some? && NoCircles(r.value.cps) && Waiting(r.value) <= Waiting(st) - {st.cps[c].name}
    decreases fuel, 3
  {
    hide PlaceBefore, PlaceAfter, Names, Chase, NoCircles, Bound;
    var name := st.cps[c].name;
    if name in st.sorted {
    } else {
      NameWaits(st, c);
      BeforeEnds(st, c, fuel);
      var now := PlaceBefore(st, c, fuel).value;
      AfterEnds(st, c, now, fuel);
      var placed := PlaceAfter(now, c, fuel).value;
      WaitingAppend(placed, name);
    }
  }

  lemma NameWaits(st: State, c: nat)
    requires c < |st.cps| && st.cps[c].name !in st.sorted
    ensures st.cps[c].name in Waiting(st)
  {
    assert Names(st.cps)[c] == st.cps[c].name;
  }

  lemma WaitingAppend(st: State, name: string)
    ensures Waiting(st.(sorted := st.sorted + [name])) == Waiting(st) - {name}
    ensures name in st.sorted ==> Waiting(st) == Waiting(st) - {name}
  {
    assert Elements(st.sorted + [name]) == Elements(st.sorted) + {name};
  }

  lemma WaitingInsert(st: State, at: nat, name: string)
    requires at <= |st.sorted|
    ensures Waiting(st.(sorted := Insert(st.sorted, at, name))) == Waiting(st) - {name}
  {
    var s, t := st.sorted, Insert(st.sorted, at, name);
    assert forall x :: x in t <==> x in s || x == name by {
      assert s == s[..at] + s[at..];
    }
    assert Elements(t) == Elements(s) + {name};
  }

  /** When one name less waits, fewer calls are needed. */
  lemma FewerWait(st: State, c: nat, next: State, d: nat)
    requires c < |st.cps| && d < |next.cps| == |st.cps|
    requires st.cps[c].name !in st.sorted && Waiting(next) <= Waiting(st) - {st.cps[c].name}
    ensures Bound(next, d) < Bound(st, c)
  {
    hide Waiting, Patience, Times;
    NameWaits(st, c);
    var name := st.cps[c].name;
    SubsetSize(Waiting(next), Waiting(st) - {name});
    PatienceBound(next, d);
    TimesLess(|Waiting(next)| + 1, |Waiting(st)|, |st.cps| + 2);
    OneMore(|Waiting(next)|, |st.cps| + 2);
  }

  lemma OneMore(a: nat, n: nat)
    ensures Times(a + 1, n) == Times(a, n) + n
  {
  }

  /** The names waiting bound the calls that are needed from any processor on. */
  lemma BoundFits(st: State, c: nat)
    requires c < |st.cps|
    ensures Bound(st, c) <= Times(|Waiting(st)| + 1, |st.cps| + 2)
  {
    hide Waiting, Patience, Times;
    PatienceBound(st, c);
    OneMore(|Waiting(st)|, |st.cps| + 2);
  }

  lemma TimesLess(a: nat, b: nat, n: nat)
    requires a <= b
    ensures Times(a, n) <= Times(b, n)
  {
  }

  lemma {:induction false} SubsetSize<T>(a: set<T>, b: set<T>)
    requires a <= b
    ensures |a| <= |b|
    decreases |a|
  {
    if a != {} {
      var x :| x in a;
      SubsetSize(a - {x}, b - {x});
    }
  }

  /** Either it was placed, so that fewer wait, or nothing has changed, as what it wants to precede is not registered. */
  lemma {:induction false} BeforeEnds(st: State, c: nat, fuel: nat)
    requires c < |st.cps| && NoCircles(st.cps) && fuel >= Bound(st, c) && st.cps[c].name !in st.sorted
    ensures var r := PlaceBefore(st, c, fuel);
            r.Some? && NoCircles(r.value.cps) &&
            (Waiting(r.value) <= Waiting(st) - {st.cps[c].name}
             || (r.value == st && (st.cps[c].before == None || !Binds(st.cps, st.cps[c].before))))
    decreases fuel, 2
  {
    hide Place, Names, Chase, NoCircles, Insert, Bound, Waiting;
    var p := st.cps[c];
    if p.before.Some? {
      var at, registered := RIndex(st.sorted, p.before.value), RIndex(Names(st.cps), p.before.value);
      if at != -1 {
        WaitingInsert(st, at, p.name);
      } else if registered != -1 {
        var next := st.(sorted := st.sorted + [p.name]);
        WaitingAppend(st, p.name);
        FewerWait(st, c, next, registered);
        PlaceEnds(next, registered, fuel - 1);
      }
    }
  }

  lemma {:induction false} AfterEnds(st: State, c: nat, now: State, fuel: nat)
    requires c < |st.cps| && fuel >= Bound(st, c) && st.cps[c].name !in st.sorted
    requires NoCircles(now.cps) && Names(now.cps) == Names(st.cps) && |now.cps| == |st.cps|
    requires Waiting(now) <= Waiting(st) - {st.cps[c].name}
             || (now == st && (st.cps[c].before == None || !Binds(st.cps, st.cps[c].before)))
    ensures var r := PlaceAfter(now, c, fuel);
            r.Some? && NoCircles(r.value.cps) && Waiting(r.value) <= Waiting(now)
    decreases fuel, 2
  {
    hide Place, Names, Chase, NoCircles, Insert, Bound, Waiting, SetBefore;
    var p := now.cps[c];
    if p.after.Some? {
      var at, registered := RIndex(now.sorted, p.after.value), RIndex(Names(now.cps), p.after.value);
      if at != -1 {
        WaitingInsert(now, at + 1, p.name);
      } else if registered != -1 {
        SetBeforeNames(now.cps, registered, p.name);
        NameRegistered(now.cps, c);
        NoCirclesSetBefore(now.cps, registered, p.name);
        var next := now.(cps := SetBefore(now.cps, registered, p.name));
        SameWait(now, next);
        if Waiting(now) <= Waiting(st) - {st.cps[c].name} {
          FewerWait(st, c, next, registered);
        } else {
          LessPatience(st, c, registered);
        }
        PlaceEnds(next, registered, fuel - 1);
      }
    }
  }

  lemma SameWait(st: State, next: State)
    requires Names(st.cps) == Names(next.cps) && st.sorted == next.sorted
    ensures Waiting(st) == Waiting(next)
  {
  }

  lemma NameRegistered(cps: seq<Processor>, c: nat)
    requires c < |cps|
    ensures cps[c].name in Names(cps)
  {
    assert Names(cps)[c] == cps[c].name;
  }

  /** A call that places nothing goes on to one of which less is to be feared. */
  lemma LessPatience(st: State, c: nat, a: nat)
    requires c < |st.cps| && NoCircles(st.cps) && (st.cps[c].before == None || !Binds(st.cps, st.cps[c].before))
    requires Binds(st.cps, st.cps[c].after) && a == Followed(st.cps, c)
    ensures var next := st.(cps := SetBefore(st.cps, a, st.cps[c].name));
            Bound(next, a) < Bound(st, c)
  {
    hide Names, Chase, Waiting;
    var next := st.(cps := SetBefore(st.cps, a, st.cps[c].name));
    SetBeforeNames(st.cps, a, st.cps[c].name);
    NameRegistered(st.cps, c);
    NoCirclesSetBefore(st.cps, a, st.cps[c].name);
    SameWait(st, next);
    assert !Circles(st.cps, c) && !Circles(next.cps, a);
    assert Patience(next, a) < Patience(st, c) by {
      ChaseOnce(next.cps, a);
      if st.cps[c].before.Some? {
        ChaseNext(st.cps, c);
      }
    }
  }

  lemma ChaseOnce(cps: seq<Processor>, i: nat)
    requires i < |cps|
    ensures var steps := Chase(cps, i, {}); (steps.Some? ==> steps.value <= |cps|) && (!PassedOver(cps, i) ==> steps == Some(0))
  {
  }

  lemma ChaseNext(cps: seq<Processor>, i: nat)
    requires i < |cps| && PassedOver(cps, i) && Chase(cps, i, {}).Some?
    ensures var next := Chase(cps, Followed(cps, i), {}); next.Some? && Chase(cps, i, {}) == Some(next.value + 1)
  {
    Room(|cps|, {} + {i});
    ChaseLess(cps, Followed(cps, i), {} + {i}, {});
  }

  lemma {:induction false} AllEnd(st: State, n: nat, fuel: nat)
    requires n <= |st.cps| && NoCircles(st.cps) && fuel >= Times(|Waiting(st)| + 1, |st.cps| + 2)
    ensures PlaceAll(st, n, fuel).Some?
    decreases |st.cps| - n
  {
    hide Place, Names, NoCircles, Bound, Waiting, Times;
    if n < |st.cps| {
      BoundFits(st, n);
      PlaceEnds(st, n, fuel);
      var next := Place(st, n, fuel).value;
      SubsetSize(Waiting(next), Waiting(st));
      TimesLess(|Waiting(next)| + 1, |Waiting(st)| + 1, |st.cps| + 2);
      AllEnd(next, n + 1, fuel);
    }
  }

  /** Without a circle sorting ends, whatever the names and the wishes are. */
  lemma SortEnds(cps: seq<Processor>)
    requires NoCircles(cps)
    ensures exists fuel :: Sort(cps, fuel).Some?
  {
    hide NoCircles;
    var fuel := Times(|Waiting(State([], cps))| + 1, |cps| + 2);
    AllEnd(State([], cps), 0, fuel);
    assert Sort(cps, fuel).Some?;
  }

  /** With at most one wish each, no callback is passed over, so sorting ends. */
  lemma OneWishEnds(cps: seq<Processor>)
    requires forall i :: 0 <= i < |cps| ==> cps[i].before == None || cps[i].after == None
    ensures NoCircles(cps) && exists fuel :: Sort(cps, fuel).Some?
  {
    hide Place;
    SortEnds(cps);
  }

  // ---------------------------------------------------------------- when it does not

  /** All of the next k callbacks, following wishes, are passed over. */
  predicate PassesOn(cps: seq<Processor>, i: nat, k: nat)
    requires i < |cps|
    decreases k
  {
    k == 0 || (PassedOver(cps, i) && PassesOn(cps, Followed(cps, i), k - 1))
  }

  function Step(cps: seq<Processor>, i: nat, k: nat): (j: nat)
    requires i < |cps| && PassesOn(cps, i, k)
    ensures j < |cps|
    decreases k
  {
    if k == 0 then i else Step(cps, Followed(cps, i), k - 1)
  }

  ghost predicate Forever(cps: seq<Processor>, i: nat) {
    i < |cps| && forall k: nat :: PassesOn(cps, i, k)
  }

  lemma {:induction false} PassesFurther(cps: seq<Processor>, i: nat, m: nat, k: nat)
    requires i < |cps| && PassesOn(cps, i, m) && PassesOn(cps, Step(cps, i, m), k)
    ensures PassesOn(cps, i, m + k)
    decreases m
  {
    hide Followed, Names, RIndex, Binds;
    if m > 0 {
      PassesFurther(cps, Followed(cps, i), m - 1, k);
    }
  }

  lemma {:induction false} PassesLess(cps: seq<Processor>, i: nat, m: nat, k: nat)
    requires i < |cps| && PassesOn(cps, i, m) && k <= m
    ensures PassesOn(cps, i, k)
    decreases k
  {
    if k > 0 {
      PassesLess(cps, Followed(cps, i), m - 1, k - 1);
    }
  }

  lemma {:induction false} RoundAgain(cps: seq<Processor>, i: nat, m: nat, k: nat)
    requires i < |cps| && m > 0 && PassesOn(cps, i, m) && Step(cps, i, m) == i
    ensures PassesOn(cps, i, k)
    decreases k
  {
    if k <= m {
      PassesLess(cps, i, m, k);
    } else {
      RoundAgain(cps, i, m, k - m);
      PassesFurther(cps, i, m, k - m);
    }
  }

  /** Each member is passed over and goes on to the next one, the last to i. */
  predicate IsPath(cps: seq<Processor>, path: seq<nat>, i: nat) {
    forall k :: 0 <= k < |path| ==> GoesTo(cps, path[k], OnPath(path, k + 1, i))
  }

  predicate GoesTo(cps: seq<Processor>, i: nat, j: nat) {
    i < |cps| && PassedOver(cps, i) && Followed(cps, i) == j
  }

  function OnPath(path: seq<nat>, k: nat, i: nat): nat {
    if k < |path| then path[k] else i
  }

  /** A chase that comes round never ends. */
  lemma {:induction false} CircleIsForever(cps: seq<Processor>, path: seq<nat>, i: nat, seen: set<nat>)
    requires i < |cps| && IsPath(cps, path, i) && (forall j :: j in seen <==> j in path) && forall j :: j in seen ==> j < |cps|
    requires Chase(cps, i, seen).None?
    ensures Forever(cps, i)
    decreases |cps| - |seen|
  {
    hide Names, PassesOn, Step, Forever, IsPath;
    Room(|cps|, seen);
    if i in seen {
      ClosedPath(cps, path, i);
    } else {
      Room(|cps|, seen + {i});
      LongerPath(cps, path, i);
      CircleIsForever(cps, path + [i], Followed(cps, i), seen + {i});
      ForeverBefore(cps, i);
    }
  }

  lemma LongerPath(cps: seq<Processor>, path: seq<nat>, i: nat)
    requires i < |cps| && IsPath(cps, path, i) && PassedOver(cps, i)
    ensures IsPath(cps, path + [i], Followed(cps, i))
  {
    assert GoesTo(cps, i, Followed(cps, i));
    hide GoesTo, PassedOver, Followed;
    var more := path + [i];
    forall k | 0 <= k < |more|
      ensures GoesTo(cps, more[k], OnPath(more, k + 1, Followed(cps, i)))
    {
      if k < |path| {
        assert GoesTo(cps, path[k], OnPath(path, k + 1, i));
        assert more[k] == path[k] && OnPath(more, k + 1, Followed(cps, i)) == OnPath(path, k + 1, i);
      }
    }
  }

  lemma ClosedPath(cps: seq<Processor>, path: seq<nat>, i: nat)
    requires i < |cps| && i in path && IsPath(cps, path, i)
    ensures Forever(cps, i)
  {
    hide IsPath, PassesOn, Step;
    var k :| 0 <= k < |path| && path[k] == i;
    PathPasses(cps, path, k, i);
    forall n: nat ensures PassesOn(cps, i, n) {
      RoundAgain(cps, i, |path| - k, n);
    }
  }

  lemma {:induction false} PathPasses(cps: seq<Processor>, path: seq<nat>, k: nat, i: nat)
    requires i < |cps| && k <= |path| && IsPath(cps, path, i)
    ensures OnPath(path, k, i) < |cps| && PassesOn(cps, OnPath(path, k, i), |path| - k)
    ensures Step(cps, OnPath(path, k, i), |path| - k) == i
    decreases |path| - k
  {
    hide Names, Step, PassesOn, GoesTo;
    var j := OnPath(path, k, i);
    if k < |path| {
      assert GoesTo(cps, j, OnPath(path, k + 1, i));
      hide IsPath;
      PathPasses(cps, path, k + 1, i);
      StepMore(cps, j, OnPath(path, k + 1, i), |path| - k - 1);
    } else {
      StepNone(cps, i);
    }
  }

  lemma StepNone(cps: seq<Processor>, i: nat)
    requires i < |cps|
    ensures PassesOn(cps, i, 0) && Step(cps, i, 0) == i
  {
  }

  lemma StepMore(cps: seq<Processor>, i: nat, j: nat, k: nat)
    requires GoesTo(cps, i, j) && j < |cps| && PassesOn(cps, j, k)
    ensures i < |cps| && PassesOn(cps, i, k + 1) && Step(cps, i, k + 1) == Step(cps, j, k)
  {
    hide Names;
  }

  lemma ForeverBefore(cps: seq<Processor>, i: nat)
    requires i < |cps| && PassedOver(cps, i) && Forever(cps, Followed(cps, i))
    ensures Forever(cps, i)
  {
    forall k: nat ensures PassesOn(cps, i, k) {
      if k > 0 {
        assert PassesOn(cps, Followed(cps, i), k - 1);
      }
    }
  }

  /** The members of a circle as they were registered; nothing else is passed over as time goes by, and none of them is placed. */
  ghost predicate Untouched(cps: seq<Processor>, st: State) {
    && |st.cps| == |cps| && Names(st.cps) == Names(cps) && Distinct(Names(cps))
    && (forall x :: x in st.sorted ==> x in Names(cps))
    && (forall i :: 0 <= i < |cps| && cps[i].before.Some? ==> st.cps[i] == cps[i])
    && (forall i :: 0 <= i < |cps| ==> st.cps[i].name == cps[i].name)
    && (forall i :: 0 <= i < |cps| && Forever(cps, i) ==> cps[i].name !in st.sorted)
  }

  lemma ForeverNext(cps: seq<Processor>, i: nat)
    requires Forever(cps, i)
    ensures i < |cps| && PassedOver(cps, i) && Forever(cps, Followed(cps, i))
  {
    assert PassesOn(cps, i, 1);
    forall k: nat ensures PassesOn(cps, Followed(cps, i), k) {
      assert PassesOn(cps, i, k + 1);
    }
  }

  lemma {:induction false} CircleDiverges(cps: seq<Processor>, st: State, i: nat, fuel: nat)
    requires Untouched(cps, st) && Forever(cps, i)
    ensures Place(st, i, fuel) == None
    decreases fuel
  {
    hide Names, Forever;
    ForeverNext(cps, i);
    var a := Followed(cps, i);
    ForeverNext(cps, a);
    assert st.cps[i] == cps[i] && st.cps[a] == cps[a];
    assert cps[a].name !in st.sorted;
    assert PlaceBefore(st, i, fuel) == Some(st);
    if fuel > 0 {
      SetBeforeNames(st.cps, a, st.cps[i].name);
      assert SetBefore(st.cps, a, st.cps[i].name) == st.cps;
      CircleDiverges(cps, st, a, fuel - 1);
      assert PlaceAfter(st, i, fuel) == Place(st, a, fuel - 1);
    }
  }

  lemma UntouchedMore(cps: seq<Processor>, st: State, c: nat, at: nat)
    requires Untouched(cps, st) && c < |cps| && !Forever(cps, c) && at <= |st.sorted|
    ensures Untouched(cps, st.(sorted := Insert(st.sorted, at, cps[c].name)))
    ensures Untouched(cps, st.(sorted := st.sorted + [cps[c].name]))
  {
    hide Forever;
    var s := st.sorted;
    assert s == s[..at] + s[at..];
    NameRegistered(cps, c);
    forall i | 0 <= i < |cps| && Forever(cps, i)
      ensures cps[i].name != cps[c].name
    {
      assert Names(cps)[i] == cps[i].name && Names(cps)[c] == cps[c].name;
    }
  }

  /** Whatever is placed, the circle is not. */
  lemma {:induction false} PlaceLeavesCircle(cps: seq<Processor>, st: State, c: nat, fuel: nat)
    requires Untouched(cps, st) && c < |cps| && Place(st, c, fuel).Some?
    ensures Untouched(cps, Place(st, c, fuel).value)
    decreases fuel, 3
  {
    hide Names, Forever, PlaceBefore, PlaceAfter, Untouched;
    if Forever(cps, c) {
      CircleDiverges(cps, st, c, fuel);
    } else if SameName(cps, st, c) !in st.sorted {
      BeforeLeavesCircle(cps, st, c, fuel);
      var now := PlaceBefore(st, c, fuel).value;
      AfterLeavesCircle(cps, now, c, fuel);
      var placed := PlaceAfter(now, c, fuel).value;
      UntouchedMore(cps, placed, c, |placed.sorted|);
    }
  }

  function SameName(cps: seq<Processor>, st: State, c: nat): (name: string)
    requires Untouched(cps, st) && c < |cps|
    ensures c < |st.cps| && name == cps[c].name == st.cps[c].name
  {
    cps[c].name
  }

  lemma {:induction false} BeforeLeavesCircle(cps: seq<Processor>, st: State, c: nat, fuel: nat)
    requires Untouched(cps, st) && c < |cps| && !Forever(cps, c) && c < |st.cps| && PlaceBefore(st, c, fuel).Some?
    ensures Untouched(cps, PlaceBefore(st, c, fuel).value)
    decreases fuel, 2
  {
    hide Names, Forever, Place, Untouched, Insert;
    var p := st.cps[c];
    assert p.name == SameName(cps, st, c);
    if p.before.Some? {
      var at, registered := RIndex(st.sorted, p.before.value), RIndex(Names(st.cps), p.before.value);
      if at != -1 {
        UntouchedMore(cps, st, c, at);
      } else if registered != -1 {
        UntouchedMore(cps, st, c, 0);
        var next := st.(sorted := st.sorted + [p.name]);
        assert registered < |cps| by { SameSize(cps, st); }
        PlaceLeavesCircle(cps, next, registered, fuel - 1);
      }
    }
  }

  lemma SameSize(cps: seq<Processor>, st: State)
    requires Untouched(cps, st)
    ensures |st.cps| == |cps| && Names(st.cps) == Names(cps)
  {
  }

  lemma {:induction false} AfterLeavesCircle(cps: seq<Processor>, st: State, c: nat, fuel: nat)
    requires Untouched(cps, st) && c < |cps| && !Forever(cps, c) && c < |st.cps| && PlaceAfter(st, c, fuel).Some?
    ensures Untouched(cps, PlaceAfter(st, c, fuel).value)
    decreases fuel, 2
  {
    hide Names, Forever, Place, Untouched, Insert, SetBefore;
    var p := st.cps[c];
    assert p.name == SameName(cps, st, c);
    if p.after.Some? {
      var at, registered := RIndex(st.sorted, p.after.value), RIndex(Names(st.cps), p.after.value);
      if at != -1 {
        UntouchedMore(cps, st, c, at + 1);
      } else if registered != -1 {
        SameSize(cps, st);
        SetBeforeUntouched(cps, st, registered, p.name);
        PlaceLeavesCircle(cps, st.(cps := SetBefore(st.cps, registered, p.name)), registered, fuel - 1);
      }
    }
  }

  lemma SetBeforeUntouched(cps: seq<Processor>, st: State, at: nat, name: string)
    requires Untouched(cps, st) && at < |cps|
    ensures at < |st.cps| && Untouched(cps, st.(cps := SetBefore(st.cps, at, name)))
  {
    hide Forever;
    SetBeforeNames(st.cps, at, name);
  }

  lemma {:induction false} AllMeetCircle(cps: seq<Processor>, st: State, n: nat, i: nat, fuel: nat)
    requires Untouched(cps, st) && n <= i < |cps| && |st.cps| == |cps| && Forever(cps, i)
    ensures PlaceAll(st, n, fuel) == None
    decreases |cps| - n
  {
    hide Names, Forever, Place, Untouched;
    if n == i {
      CircleDiverges(cps, st, i, fuel);
    } else if Place(st, n, fuel).Some? {
      PlaceLeavesCircle(cps, st, n, fuel);
      AllMeetCircle(cps, Place(st, n, fuel).value, n + 1, i, fuel);
    }
  }

  /**
   For callbacks with distinct names, sorting never ends if and only if following wishes from some callback comes
   round in a circle of callbacks that all want to precede something nobody registers.
   */
  lemma DivergesExactly(cps: seq<Processor>)
    requires Distinct(Names(cps))
    ensures (forall fuel :: Sort(cps, fuel) == None) <==> exists i :: 0 <= i < |cps| && Circles(cps, i)
  {
    hide Place, Names, Forever;
    if NoCircles(cps) {
      SortEnds(cps);
    } else {
      var i :| 0 <= i < |cps| && Circles(cps, i);
      CircleIsForever(cps, [], i, {});
      NothingPlaced(cps);
      forall fuel ensures Sort(cps, fuel) == None {
        AllMeetCircle(cps, State([], cps), 0, i, fuel);
      }
    }
  }

  lemma NothingPlaced(cps: seq<Processor>)
    requires Distinct(Names(cps))
    ensures Untouched(cps, State([], cps))
  {
  }

  const LATER: seq<Processor> :=
    [Processor("a", None, None, false, 0), Processor("b", Some("c"), None, false, 1), Processor("c", Some("a"), None, false, 2)]

  lemma LaterNames()
    ensures Names(LATER) == ["a", "b", "c"]
    ensures RIndex(["a"], "c") == -1 && RIndex(["a", "b", "c"], "c") == 2 && RIndex(["a", "b"], "a") == 0
    ensures RIndex(["a", "b", "c"], "b") == 1 && RIndex(["a", "b", "c"], "a") == 0
    ensures Insert(["a", "b"], 0, "c") == ["c", "a", "b"]
  {
    assert ["a", "b"][..1] == ["a"] && ["a", "b", "c"][..2] == ["a", "b"];
  }

  lemma LaterPlaced()
    ensures PlaceAll(State([], LATER), 0, 5) == Some(State(["c", "a", "b"], LATER))
  {
    LaterNames();
    hide Names, Insert, RIndex;
    var cps, end := LATER, State(["c", "a", "b"], LATER);
    assert "a" !in [] && "b" !in ["a"] && "c" !in ["a", "b"] && "c" in end.sorted && "b" in end.sorted;
    assert [] + ["a"] == ["a"] && ["a"] + ["b"] == ["a", "b"];
    assert Place(State([], cps), 0, 5) == Some(State(["a"], cps));
    assert Place(State(["a", "b"], cps), 2, 4) == Some(end) by {
      assert PlaceBefore(State(["a", "b"], cps), 2, 4) == Some(end);
    }
    assert Place(State(["a"], cps), 1, 5) == Some(end) by {
      assert PlaceBefore(State(["a"], cps), 1, 5) == Place(State(["a", "b"], cps), 2, 4);
    }
    assert Place(end, 2, 5) == Some(end);
    assert PlaceAll(end, 3, 5) == Some(end);
  }

  lemma LaterHandlers()
    ensures HandlersOf(["c", "a", "b"], LATER) == [2, 0, 1]
  {
    LaterNames();
    hide Names, RIndex;
    var order := ["c", "a", "b"];
    assert order[..2] == ["c", "a"] && ["c", "a"][..1] == ["c"] && ["c"][..0] == [];
    assert forall i :: 0 <= i < 3 ==> order[i] in ["a", "b", "c"];
    assert Handlers(["c"], LATER) == [2];
    assert Handlers(["c", "a"], LATER) == [2, 0];
    assert Handlers(order, LATER) == [2, 0, 1];
  }

  /** A wish for a callback registered later may not be granted, even when all wishes can be met. */
  lemma LaterTargetMayFail()
    ensures Sort(LATER, 5) == Some([2, 0, 1]) && !Precedes(["c", "a", "b"], "b", "c")
    ensures Precedes(["b", "c", "a"], "b", "c") && Precedes(["b", "c", "a"], "c", "a")
  {
    LaterPlaced();
    LaterHandlers();
    var wish := ["b", "c", "a"];
    assert wish[0] == "b" && wish[1] == "c" && wish[2] == "a";
  }

  const MUTUAL: seq<Processor> :=
    [Processor("a", Some("x"), Some("b"), false, 0), Processor("b", Some("y"), Some("a"), false, 1)]

  lemma MutualNames()
    ensures Names(MUTUAL) == ["a", "b"]
    ensures RIndex(["a", "b"], "x") == -1 && RIndex(["a", "b"], "y") == -1
    ensures RIndex(["a", "b"], "a") == 0 && RIndex(["a", "b"], "b") == 1
  {
    assert ["a", "b"][..1] == ["a"];
  }

  lemma {:induction false} MutualPlaces(fuel: nat)
    ensures Place(State([], MUTUAL), 0, fuel) == None && Place(State([], MUTUAL), 1, fuel) == None
  {
    MutualNames();
    hide Names;
    var st := State([], MUTUAL);
    assert PlaceBefore(st, 0, fuel) == Some(st) && PlaceBefore(st, 1, fuel) == Some(st);
    if fuel > 0 {
      MutualPlaces(fuel - 1);
    }
    assert PlaceAfter(st, 0, fuel) == None && PlaceAfter(st, 1, fuel) == None;
  }

  /** Two callbacks that want to run after each other, and before something nobody registers, are sorted for ever. */
  lemma MutualWishesDiverge(fuel: nat)
    ensures Sort(MUTUAL, fuel) == None
  {
    MutualPlaces(fuel);
  }
}
