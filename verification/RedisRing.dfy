/**
 Shards of a Redis ring: a shard that fails three votes in a row is down until it wins one, and the
 hash ring holds the shards that are up. The ring is a set of names here.
 */
module RedisRing {
  import opened Wrappers

  const THRESHOLD: nat := 3

  /** How many of the last votes in a row were lost. */
  function LostInARow(votes: seq<bool>): nat {
    if votes == [] || votes[|votes| - 1] then 0 else 1 + LostInARow(votes[..|votes| - 1])
  }

  predicate LostLastThree(votes: seq<bool>) {
    |votes| >= 3 && !votes[|votes| - 1] && !votes[|votes| - 2] && !votes[|votes| - 3]
  }

  lemma ThreeInARow(votes: seq<bool>)
    ensures LostInARow(votes) >= THRESHOLD <==> LostLastThree(votes)
  {
    var n := |votes|;
    if n >= 1 && !votes[n - 1] {
      var a := votes[..n - 1];
      assert LostInARow(votes) == 1 + LostInARow(a);
      if n >= 2 && !votes[n - 2] {
        var b := a[..n - 2];
        assert LostInARow(a) == 1 + LostInARow(b);
        assert n >= 3 ==> b[n - 3] == votes[n - 3];
        assert LostInARow(b) >= 1 <==> n >= 3 && !b[n - 3];
      }
    }
  }

  class Shard {
    var down: nat
    // How often the shard's client was closed.
    var closes: nat
    ghost var votes: seq<bool>

    constructor ()
      ensures Valid() && votes == [] && IsUp() && closes == 0
    {
      down, closes, votes := 0, 0, [];
    }

    /** The counter stops at the threshold. */
    ghost predicate Valid()
      reads this
    {
      down == if LostInARow(votes) < THRESHOLD then LostInARow(votes) else THRESHOLD
    }

    predicate IsDown()
      reads this
    {
      down >= THRESHOLD
    }

    predicate IsUp()
      reads this
    {
      !IsDown()
    }

    /** Counts a vote; true just when the shard went down or came up by it. */
    method Vote(up: bool) returns (changed: bool)
      requires Valid()
      modifies this`down, this`votes
      ensures Valid() && votes == old(votes) + [up]
      ensures changed <==> IsDown() != old(IsDown())
      ensures IsDown() <==> LostLastThree(votes)
    {
      votes := votes + [up];
      assert votes[..|votes| - 1] == old(votes);
      ThreeInARow(votes);
      if up {
        changed := IsDown();
        down := 0;
        return;
      }
      if IsDown() {
        return false;
      }
      down := down + 1;
      changed := IsDown();
    }

    /** Closes the shard's client. */
    method CloseClient()
      modifies this`closes
      ensures closes == old(closes) + 1
    {
      closes := closes + 1;
    }
  }

  /** The keys are the names, and no others. */
  ghost predicate Named(keys: set<string>, names: seq<string>) {
    forall name :: name in keys <==> name in names
  }

  /** The list and the map hold the same shards under the same names, each once. */
  ghost predicate Linked(names: seq<string>, list: seq<Shard>, shards: map<string, Shard>) {
    && |names| == |list|
    && (forall i :: 0 <= i < |list| ==> names[i] in shards && shards[names[i]] == list[i])
    && (forall i, j :: 0 <= i < j < |list| ==> names[i] != names[j] && list[i] != list[j])
    && Named(shards.Keys, names)
  }

  lemma LinkedMore(names: seq<string>, list: seq<Shard>, shards: map<string, Shard>, name: string, shard: Shard)
    requires Linked(names, list, shards) && name !in shards && shard !in list
    ensures Linked(names + [name], list + [shard], shards[name := shard])
    ensures forall i :: 0 <= i < |list| ==> names[i] != name
  {
    assert shards[name := shard].Keys == shards.Keys + {name};
  }

  lemma LinkedSize(names: seq<string>, list: seq<Shard>, shards: map<string, Shard>)
    requires Linked(names, list, shards)
    ensures |names| == |list|
  {
  }

  lemma NamedNone()
    ensures Named({}, [])
  {
  }

  lemma NamedAt(keys: set<string>, names: seq<string>, name: string) returns (k: nat)
    requires Named(keys, names) && name in keys
    ensures k < |names| && names[k] == name
  {
    k :| 0 <= k < |names| && names[k] == name;
  }

  class Shards {
    var hash: set<string>
    var shards: map<string, Shard>
    var list: seq<Shard>
    var closed: bool
    ghost var names: seq<string>
    ghost var history: seq<seq<bool>>

    constructor ()
      ensures Valid() && Balanced() && list == [] && names == [] && shards == map[] && history == [] && !closed
    {
      NamedNone();
      hash, shards, list, closed, names, history := {}, map[], [], false, [], [];
    }

    ghost predicate Wired()
      reads this
    {
      Linked(names, list, shards)
    }

    ghost predicate Valid()
      reads this, list
    {
      Wired() && forall i :: 0 <= i < |list| ==> list[i].Valid()
    }

    /** The hash ring holds exactly the shards that are up. */
    ghost predicate Balanced()
      requires Wired()
      reads this, list
    {
      hash <= shards.Keys && forall i :: 0 <= i < |list| ==> (names[i] in hash <==> list[i].IsUp())
    }

    /** Each shard has had the votes of the heartbeats so far. */
    ghost predicate Recorded()
      reads this, list
    {
      forall i :: 0 <= i < |list| ==> list[i].votes == Column(history, i)
    }

    method Add(name: string)
      requires Valid() && Balanced() && name !in shards
      modifies this
      ensures Valid() && Balanced() && names == old(names) + [name] && |list| == |old(list)| + 1 && list[..|old(list)|] == old(list)
      ensures shards.Keys == old(shards.Keys) + {name}
      ensures var shard := list[|old(list)|]; fresh(shard) && shard.votes == [] && shard.closes == 0
      ensures closed == old(closed) && history == old(history)
    {
      hide LostInARow, Linked, Shard.Valid, Shard.IsUp, Shard.IsDown;
      assert |names| == |list| by { LinkedSize(names, list, shards); }
      var shard := new Shard();
      LinkedMore(names, list, shards, name, shard);
      hash := hash + {name};
      shards := shards[name := shard];
      list := list + [shard];
      names := names + [name];
    }

    /** Builds the hash ring anew. */
    method Rebalance()
      requires Wired()
      modifies this`hash
      ensures Wired() && Balanced()
    {
      hash := set name | name in shards && shards[name].IsUp();
    }

    /** The k-th shard votes; the others are not touched. */
    method VoteAt(k: nat, up: bool) returns (changed: bool)
      requires Valid() && k < |list|
      modifies list[k]
      ensures Valid()
      ensures changed <==> list[k].IsUp() != old(list[k].IsUp())
      ensures list[k].votes == old(list[k].votes) + [up]
      ensures forall i :: 0 <= i < |list| && i != k ==> list[i].votes == old(list[i].votes) && list[i].down == old(list[i].down)
      ensures forall i :: 0 <= i < |list| ==> list[i].closes == old(list[i].closes)
    {
      assert forall i :: 0 <= i < |list| && i != k ==> list[i] != list[k];
      changed := list[k].Vote(up);
    }

    /**
     One heartbeat: every shard is pinged and votes. Although the hash ring is rebuilt only
     if some vote reported a change, afterwards it holds exactly the shards that are up. On a
     closed ring nothing happens.
     */
    method Sweep(pings: seq<bool>)
      requires Valid() && Balanced() && Recorded() && |pings| == |list|
      modifies this`hash, this`history, list
      ensures Valid() && Balanced() && Recorded()
      ensures history == if closed then old(history) else old(history) + [pings]
      ensures closed ==> hash == old(hash)
      ensures forall i :: 0 <= i < |list| ==> list[i].closes == old(list[i].closes)
    {
      hide LostInARow, Column, Named;
      if closed {
        return;
      }
      var rebalance := PingAll(pings);
      if rebalance {
        Rebalance();
      }
      ColumnNext(history, pings);
      history := history + [pings];
    }

    /** Closes the ring: every shard's client is closed, once, and the ring lets go of its shards. Says which failed first. */
    method Close(failing: set<string>) returns (err: Option<string>)
      requires Valid()
      modifies this, list
      ensures Valid() && closed && history == old(history)
      ensures old(closed) ==> err == None && hash == old(hash) && list == old(list) && shards == old(shards)
      ensures !old(closed) ==> Balanced() && hash == {} && list == [] && shards == map[]
      ensures !old(closed) ==> (err == None <==> old(shards).Keys !! failing)
      ensures err.Some? ==> err.value in old(shards) && err.value in failing
      ensures forall i :: 0 <= i < |old(list)| ==>
                old(list)[i].closes == old(list[i].closes) + (if old(closed) then 0 else 1)
                && old(list)[i].votes == old(list[i].votes) && old(list)[i].down == old(list[i].down)
    {
      hide LostInARow, Named, Shard.Valid, Shard.IsUp, Shard.IsDown;
      err := None;
      if closed {
        return;
      }
      closed := true;
      err := CloseClients(failing);
      NamedNone();
      hash, shards, list, names := {}, map[], [], [];
      assert shards.Keys == {};
    }

    /** Closes every shard's client, in any order. */
    method CloseClients(failing: set<string>) returns (err: Option<string>)
      requires Wired()
      modifies list
      ensures Wired() && (err == None <==> shards.Keys !! failing)
      ensures err.Some? ==> err.value in shards && err.value in failing
      ensures forall i :: 0 <= i < |list| ==>
                list[i].closes == old(list[i].closes) + 1 && list[i].votes == old(list[i].votes) && list[i].down == old(list[i].down)
    {
      hide Named;
      err := None;
      var rest := shards.Keys;
      while rest != {}
        invariant rest <= shards.Keys
        invariant err == None <==> (shards.Keys - rest) !! failing
        invariant err.Some? ==> err.value in shards && err.value in failing
        invariant forall i :: 0 <= i < |list| ==>
                    list[i].closes == old(list[i].closes) + (if names[i] in rest then 0 else 1)
                    && list[i].votes == old(list[i].votes) && list[i].down == old(list[i].down)
        decreases rest
      {
        var name :| name in rest;
        ghost var k := NamedAt(shards.Keys, names, name);
        assert shards[name] == list[k] && forall i :: 0 <= i < |list| && i != k ==> list[i] != list[k] && names[i] != name;
        shards[name].CloseClient();
        if name in failing && err == None {
          err := Some(name);
        }
        assert shards.Keys - (rest - {name}) == shards.Keys - rest + {name};
        rest := rest - {name};
      }
      assert shards.Keys - {} == shards.Keys;
    }

    /** Every shard votes; false only if no shard has gone down or come up. */
    method PingAll(pings: seq<bool>) returns (rebalance: bool)
      requires Valid() && Balanced() && |pings| == |list|
      modifies list
      ensures Valid() && (!rebalance ==> Balanced())
      ensures forall i :: 0 <= i < |list| ==> list[i].votes == old(list[i].votes) + [pings[i]]
      ensures forall i :: 0 <= i < |list| ==> list[i].closes == old(list[i].closes)
    {
      hide LostInARow, Named;
      rebalance := false;
      for k := 0 to |list|
        invariant Valid()
        invariant forall i :: 0 <= i < k ==> list[i].votes == old(list[i].votes) + [pings[i]]
        invariant forall i :: k <= i < |list| ==> list[i].votes == old(list[i].votes)
        invariant forall i :: 0 <= i < |list| ==> list[i].closes == old(list[i].closes)
        invariant !rebalance ==> Balanced()
      {
        var changed := VoteAt(k, pings[k]);
        if changed {
          rebalance := true;
        }
      }
    }
  }

  lemma ShardIsDown(s: Shard)
    requires s.Valid()
    ensures s.IsDown() <==> LostLastThree(s.votes)
  {
    ThreeInARow(s.votes);
  }

  predicate Distinct(names: seq<string>) {
    forall i, j :: 0 <= i < j < |names| ==> names[i] != names[j]
  }

  predicate AllOfSize(sweeps: seq<seq<bool>>, n: nat) {
    forall k :: 0 <= k < |sweeps| ==> |sweeps[k]| == n
  }

  method NewRing(names: seq<string>) returns (ring: Shards)
    requires Distinct(names)
    ensures fresh(ring) && fresh(ring.list) && ring.Valid() && ring.Balanced() && !ring.closed && ring.names == names
    ensures ring.Recorded() && ring.history == []
  {
    hide LostInARow;
    ring := new Shards();
    for k := 0 to |names|
      invariant fresh(ring) && fresh(ring.list) && ring.Valid() && ring.Balanced() && !ring.closed && ring.names == names[..k]
      invariant ring.Recorded() && ring.history == []
      invariant forall n :: n in ring.shards ==> n in names[..k]
    {
      assert names[k] !in names[..k];
      ghost var list := ring.list;
      ring.Add(names[k]);
      assert forall i :: 0 <= i < k ==> ring.list[i] == list[i];
    }
    assert names[..|names|] == names;
  }

  /**
   After any sequence of heartbeats over any shards, with any outcome of every ping, the hash ring holds just the shards
   whose last three pings did not all fail.
   */
  method Heartbeats(names: seq<string>, sweeps: seq<seq<bool>>) returns (ring: Shards)
    requires Distinct(names) && AllOfSize(sweeps, |names|)
    ensures ring.Valid() && ring.names == names && ring.history == sweeps && ring.Recorded()
    ensures ring.hash == set i | 0 <= i < |names| && !LostLastThree(Column(sweeps, i)) :: names[i]
  {
    hide Column, Distinct, LostInARow, Named, Shards.Balanced;
    ring := NewRing(names);
    for k := 0 to |sweeps|
      invariant fresh(ring) && fresh(ring.list) && ring.Valid() && ring.Balanced() && !ring.closed && ring.names == names
      invariant ring.Recorded() && ring.history == sweeps[..k]
    {
      ring.Sweep(sweeps[k]);
    }
    assert sweeps[..|sweeps|] == sweeps;
    UpIsNotLost(ring.list);
    HashOf(ring, sweeps);
  }

  /** A balanced ring is known by the votes of its shards. */
  lemma HashOf(ring: Shards, sweeps: seq<seq<bool>>)
    requires ring.Valid() && ring.Balanced() && ring.Recorded() && ring.history == sweeps
    ensures ring.hash == set i | 0 <= i < |ring.names| && !LostLastThree(Column(sweeps, i)) :: ring.names[i]
  {
    hide Column, LostLastThree, LostInARow, Named;
    UpIsNotLost(ring.list);
    forall name | name in ring.hash
      ensures exists i :: 0 <= i < |ring.names| && !LostLastThree(Column(sweeps, i)) && ring.names[i] == name
    {
      var i := NamedAt(ring.shards.Keys, ring.names, name);
      assert ring.list[i].votes == Column(sweeps, i) && ring.list[i].IsUp();
    }
  }

  lemma UpIsNotLost(list: seq<Shard>)
    requires forall i :: 0 <= i < |list| ==> list[i].Valid()
    ensures forall i :: 0 <= i < |list| ==> (list[i].IsUp() <==> !LostLastThree(list[i].votes))
  {
    hide LostLastThree, LostInARow;
    forall i | 0 <= i < |list|
      ensures list[i].IsUp() <==> !LostLastThree(list[i].votes)
    {
      ShardIsDown(list[i]);
    }
  }

  /** The votes of the i-th shard. */
  function Column(sweeps: seq<seq<bool>>, i: nat): seq<bool> {
    if sweeps == [] then []
    else
      var last := sweeps[|sweeps| - 1];
      Column(sweeps[..|sweeps| - 1], i) + (if i < |last| then [last[i]] else [])
  }

  lemma ColumnNext(sweeps: seq<seq<bool>>, last: seq<bool>)
    ensures forall i :: 0 <= i < |last| ==> Column(sweeps + [last], i) == Column(sweeps, i) + [last[i]]
  {
    assert (sweeps + [last])[..|sweeps|] == sweeps;
  }
}
