/**
 YAML node graphs (section 3.2.2.2 of YAML 1.1, "Anchors and Aliases"): events are parsed into nodes, an alias
 node pointing at the node last anchored under its name, which may be one that encloses it; then the graph
 is decoded into plain data, aliases being expanded. Nodes are known by the order of their creation.
 */
module YamlDecode {
  import opened Wrappers

  const MERGE_TAG: string := "tag:yaml.org,2002:merge"

  datatype Node =
    | Scalar(value: string, tag: string, implicit: bool)
    | Alias(name: string, target: nat)
    | Sequence(children: seq<nat>)
    | Mapping(children: seq<nat>)

  // What a scalar stands for; resolving tags and base64 is left to a function.
  datatype Resolved = Plain(text: string) | NoValue | BadBinary

  /** A parsed document: its nodes, the last node of each anchor, and how scalars resolve. */
  datatype Doc = Doc(store: seq<Node>, anchors: map<string, nat>, resolve: Node -> Resolved)

  function Children(node: Node): seq<nat> {
    if node.Sequence? || node.Mapping? then node.children else []
  }

  /** Children come after their parent, aliases after the node they refer to. */
  predicate ValidNode(store: seq<Node>, i: nat)
    requires i < |store|
  {
    && (forall c :: c in Children(store[i]) ==> i < c < |store|)
    && (store[i].Alias? ==> store[i].target < i && !store[store[i].target].Alias?)
    && (store[i].Mapping? ==> |store[i].children| % 2 == 0)
  }

  predicate ValidStore(store: seq<Node>) {
    forall i :: 0 <= i < |store| ==> ValidNode(store, i)
  }

  predicate Valid(d: Doc) {
    ValidStore(d.store) && forall s :: s in d.anchors ==> d.anchors[s] < |d.store|
  }

  // ---------------------------------------------------------------- data

  // A map is the log of what was done to it; of two settings of a key the later one counts.
  datatype Value = Null | Text(text: string) | List(items: seq<Value>) | Map(log: seq<Effect>)

  datatype Effect = Set(key: Value, value: Value) | Reset | TypeError

  datatype Reason = SelfReference | BadKey | WantMap | BadScalar

  datatype Outcome<+T> = Done(value: T) | Failed(reason: Reason) | OutOfFuel

  // How aliases are guarded: by the set of those being expanded, as the decoder does it; by that set, but
  // without a look at it where nothing is to be expanded; or by how many more may be expanded inside one another.
  datatype Guard = Expanding(aliases: set<nat>) | Careful(aliases: set<nat>) | Fuel(left: nat)

  function AliasNodes(store: seq<Node>): set<nat> {
    set i | 0 <= i < |store| && store[i].Alias?
  }

  function Rank(d: Doc, g: Guard): nat {
    match g
    case Expanding(aliases) => |AliasNodes(d.store) - aliases|
    case Careful(aliases) => |AliasNodes(d.store) - aliases|
    case Fuel(left) => left
  }

  /** The guard inside the expansion of alias n. */
  function Enter(d: Doc, n: nat, g: Guard): (r: Outcome<Guard>)
    requires n < |d.store| && d.store[n].Alias?
    ensures r.Done? ==> Rank(d, r.value) < Rank(d, g)
  {
    match g
    case Expanding(aliases) =>
      if n in aliases then Failed(SelfReference)
      else
        RankShrinks(AliasNodes(d.store), aliases, n);
        Done(Expanding(aliases + {n}))
    case Careful(aliases) =>
      if n in aliases then Failed(SelfReference)
      else
        RankShrinks(AliasNodes(d.store), aliases, n);
        Done(Careful(aliases + {n}))
    case Fuel(left) => if left == 0 then OutOfFuel else Done(Fuel(left - 1))
  }

  lemma RankShrinks(all: set<nat>, aliases: set<nat>, n: nat)
    requires n in all && n !in aliases
    ensures |all - (aliases + {n})| == |all - aliases| - 1
  {
    assert all - (aliases + {n}) == (all - aliases) - {n};
  }

  predicate IsMerge(node: Node) {
    node.Scalar? && node.value == "<<" && (node.implicit || node.tag == MERGE_TAG)
  }

  /** One outcome and then another; the first that is not done decides. */
  function Then<T>(a: Outcome<seq<T>>, b: Outcome<seq<T>>): Outcome<seq<T>> {
    if !a.Done? then a else if !b.Done? then b else Done(a.value + b.value)
  }

  function Child(d: Doc, n: nat, i: nat): (c: nat)
    requires Valid(d) && n < |d.store| && i < |Children(d.store[n])|
    ensures n < c < |d.store|
  {
    assert ValidNode(d.store, n);
    assert Children(d.store[n])[i] in Children(d.store[n]);
    Children(d.store[n])[i]
  }

  /** The data a node stands for. */
  function Eval(d: Doc, n: nat, g: Guard): Outcome<Value>
    requires Valid(d) && n < |d.store|
    decreases Rank(d, g), |d.store| - n, 2, 0
  {
    assert ValidNode(d.store, n);
    match d.store[n]
    case Scalar(_, _, _) =>
      (match d.resolve(d.store[n])
       case Plain(text) => Done(Text(text))
       case NoValue => Done(Null)
       case BadBinary => Failed(BadScalar))
    case Alias(_, target) =>
      (match Enter(d, n, g)
       case Done(inner) => Eval(d, target, inner)
       case Failed(reason) => Failed(reason)
       case OutOfFuel => OutOfFuel)
    case Sequence(_) => ListOf(EvalItems(d, n, 0, g))
    case Mapping(_) => MapOf(EvalPairs(d, n, 0, g))
  }

  function ListOf(items: Outcome<seq<Value>>): Outcome<Value> {
    match items
    case Done(v) => Done(List(v))
    case Failed(reason) => Failed(reason)
    case OutOfFuel => OutOfFuel
  }

  function MapOf(log: Outcome<seq<Effect>>): Outcome<Value> {
    match log
    case Done(v) => Done(Map(v))
    case Failed(reason) => Failed(reason)
    case OutOfFuel => OutOfFuel
  }

  function Single(item: Outcome<Value>): Outcome<seq<Value>> {
    match item
    case Done(v) => Done([v])
    case Failed(reason) => Failed(reason)
    case OutOfFuel => OutOfFuel
  }

  /** A key and its value; maps and lists are no keys. */
  function Entry(key: Outcome<Value>, value: Outcome<Value>): Outcome<seq<Effect>> {
    match key
    case Failed(reason) => Failed(reason)
    case OutOfFuel => OutOfFuel
    case Done(k) =>
      if k.Map? || k.List? then Failed(BadKey)
      else
        match value
        case Failed(reason) => Failed(reason)
        case OutOfFuel => OutOfFuel
        case Done(v) => Done([Set(k, v)])
  }

  /** The items of a sequence from the i-th on. */
  function EvalItems(d: Doc, n: nat, i: nat, g: Guard): Outcome<seq<Value>>
    requires Valid(d) && n < |d.store| && i <= |Children(d.store[n])|
    decreases Rank(d, g), |d.store| - n, 1, |Children(d.store[n])| - i
  {
    if i == |Children(d.store[n])| then Done([])
    else Then(Single(Eval(d, Child(d, n, i), g)), EvalItems(d, n, i + 1, g))
  }

  /** What the i-th child, a key, and its value do to a map. */
  function EvalPair(d: Doc, n: nat, i: nat, g: Guard): Outcome<seq<Effect>>
    requires Valid(d) && n < |d.store| && i + 1 < |Children(d.store[n])|
    decreases Rank(d, g), |d.store| - n, 0, 0
  {
    var key, value := Child(d, n, i), Child(d, n, i + 1);
    if IsMerge(d.store[key]) then Merge(d, value, g) else Entry(Eval(d, key, g), Eval(d, value, g))
  }

  /** What the entries of a mapping from the i-th child on do to a map. */
  function EvalPairs(d: Doc, n: nat, i: nat, g: Guard): Outcome<seq<Effect>>
    requires Valid(d) && n < |d.store| && d.store[n].Mapping? && i <= |Children(d.store[n])| && i % 2 == 0
    decreases Rank(d, g), |d.store| - n, 1, |Children(d.store[n])| - i
  {
    assert ValidNode(d.store, n);
    if i == |Children(d.store[n])| then Done([])
    else Then(EvalPair(d, n, i, g), EvalPairs(d, n, i + 2, g))
  }

  /** What decoding a node into an existing map does to it. */
  function IntoMap(d: Doc, n: nat, g: Guard): Outcome<seq<Effect>>
    requires Valid(d) && n < |d.store|
    decreases Rank(d, g), |d.store| - n, 2, 0
  {
    assert ValidNode(d.store, n);
    match d.store[n]
    case Mapping(_) => EvalPairs(d, n, 0, g)
    case Sequence(_) => NoMap(d, n)
    case Scalar(_, _, _) => NoMap(d, n)
    case Alias(_, target) =>
      if g.Careful? && !d.store[target].Mapping? then NoMap(d, target)
      else
        match Enter(d, n, g)
        case Done(inner) => IntoMap(d, target, inner)
        case Failed(reason) => Failed(reason)
        case OutOfFuel => OutOfFuel
  }

  /** What decoding a sequence or a scalar into a map does to it. */
  function NoMap(d: Doc, n: nat): Outcome<seq<Effect>>
    requires n < |d.store|
  {
    if !d.store[n].Scalar? then Done([TypeError])
    else
      match d.resolve(d.store[n])
      case Plain(_) => Done([TypeError])
      case NoValue => Done([Reset])
      case BadBinary => Failed(BadScalar)
  }

  /** Whether a node may be merged: a mapping, or an alias whose name was not last given to something else. */
  predicate Mergeable(d: Doc, n: nat)
    requires Valid(d) && n < |d.store|
  {
    var node := d.store[n];
    node.Mapping? || (node.Alias? && (node.name in d.anchors ==> d.store[d.anchors[node.name]].Mapping?))
  }

  /** What a merge of a node does to the map. */
  function Merge(d: Doc, n: nat, g: Guard): Outcome<seq<Effect>>
    requires Valid(d) && n < |d.store|
    decreases Rank(d, g), |d.store| - n, 3, 0
  {
    if d.store[n].Sequence? then MergeItems(d, n, |Children(d.store[n])|, g)
    else if Mergeable(d, n) then IntoMap(d, n, g)
    else Failed(WantMap)
  }

  /** What a merge of the first i items does: the last of them first, as earlier ones take precedence. */
  function MergeItems(d: Doc, n: nat, i: nat, g: Guard): Outcome<seq<Effect>>
    requires Valid(d) && n < |d.store| && i <= |Children(d.store[n])|
    decreases Rank(d, g), |d.store| - n, 1, i
  {
    if i == 0 then Done([])
    else
      var item := Child(d, n, i - 1);
      Then(if Mergeable(d, item) then IntoMap(d, item, g) else Failed(WantMap), MergeItems(d, n, i - 1, g))
  }

  // ---------------------------------------------------------------- the decoder agrees with unrolling

  /** r is never cut short. Either u is cut short, or r refuses a self reference, or they are the same; with enough fuel u is not cut short. */
  predicate Follows<T(==)>(u: Outcome<T>, r: Outcome<T>, enough: bool) {
    r != OutOfFuel && (r == Failed(SelfReference) || u == r || (u == OutOfFuel && !enough))
  }

  lemma FollowsThen<T>(ua: Outcome<seq<T>>, ub: Outcome<seq<T>>, ra: Outcome<seq<T>>, rb: Outcome<seq<T>>, enough: bool)
    requires Follows(ua, ra, enough) && Follows(ub, rb, enough)
    ensures Follows(Then(ua, ub), Then(ra, rb), enough)
  {
  }

  lemma FollowsEntry(uk: Outcome<Value>, uv: Outcome<Value>, rk: Outcome<Value>, rv: Outcome<Value>, enough: bool)
    requires Follows(uk, rk, enough) && Follows(uv, rv, enough)
    ensures Follows(Entry(uk, uv), Entry(rk, rv), enough)
  {
  }

  /** The decoder's guard, or the careful one. */
  function By(careful: bool, aliases: set<nat>): Guard {
    if careful then Careful(aliases) else Expanding(aliases)
  }

  predicate Enough(d: Doc, k: nat, aliases: set<nat>, careful: bool) {
    k >= |AliasNodes(d.store) - aliases| + if careful then 1 else 0
  }

  lemma EnoughLess(d: Doc, n: nat, k: nat, aliases: set<nat>, careful: bool)
    requires n < |d.store| && d.store[n].Alias? && n !in aliases
    ensures Rank(d, By(careful, aliases + {n})) < Rank(d, By(careful, aliases))
    ensures k > 0 ==> Enough(d, k - 1, aliases + {n}, careful) == Enough(d, k, aliases, careful)
    ensures k == 0 ==> !Enough(d, k, aliases, careful)
  {
    RankShrinks(AliasNodes(d.store), aliases, n);
  }

  lemma NeverNone(d: Doc, aliases: set<nat>)
    ensures !Enough(d, 0, aliases, true)
  {
  }

  lemma {:induction false} EvalFollows(d: Doc, n: nat, k: nat, aliases: set<nat>, careful: bool)
    requires Valid(d) && n < |d.store|
    ensures Follows(Eval(d, n, Fuel(k)), Eval(d, n, By(careful, aliases)), Enough(d, k, aliases, careful))
    decreases Rank(d, By(careful, aliases)), |d.store| - n, 2, 0
  {
    hide EvalItems, EvalPairs, Enough, Rank;
    assert ValidNode(d.store, n);
    match d.store[n] {
      case Scalar(_, _, _) =>
      case Alias(_, target) =>
        if n !in aliases {
          EnoughLess(d, n, k, aliases, careful);
          EvalFollows(d, target, if k > 0 then k - 1 else 0, aliases + {n}, careful);
        }
      case Sequence(_) => ItemsFollow(d, n, 0, k, aliases, careful);
      case Mapping(_) => PairsFollow(d, n, 0, k, aliases, careful);
    }
  }

  lemma {:induction false} ItemsFollow(d: Doc, n: nat, i: nat, k: nat, aliases: set<nat>, careful: bool)
    requires Valid(d) && n < |d.store| && i <= |Children(d.store[n])|
    ensures Follows(EvalItems(d, n, i, Fuel(k)), EvalItems(d, n, i, By(careful, aliases)), Enough(d, k, aliases, careful))
    decreases Rank(d, By(careful, aliases)), |d.store| - n, 1, |Children(d.store[n])| - i
  {
    hide Eval, Child, Then, Valid;
    if i < |Children(d.store[n])| {
      var c := Child(d, n, i);
      EvalFollows(d, c, k, aliases, careful);
      ItemsFollow(d, n, i + 1, k, aliases, careful);
      FollowsThen(Single(Eval(d, c, Fuel(k))), EvalItems(d, n, i + 1, Fuel(k)),
                  Single(Eval(d, c, By(careful, aliases))), EvalItems(d, n, i + 1, By(careful, aliases)), Enough(d, k, aliases, careful));
    }
  }

  lemma {:induction false} PairFollows(d: Doc, n: nat, i: nat, k: nat, aliases: set<nat>, careful: bool)
    requires Valid(d) && n < |d.store| && i + 1 < |Children(d.store[n])|
    ensures Follows(EvalPair(d, n, i, Fuel(k)), EvalPair(d, n, i, By(careful, aliases)), Enough(d, k, aliases, careful))
    decreases Rank(d, By(careful, aliases)), |d.store| - n, 0, 0
  {
    hide Eval, Merge, Child, Entry, IsMerge;
    var key, value := Child(d, n, i), Child(d, n, i + 1);
    if IsMerge(d.store[key]) {
      MergeFollows(d, value, k, aliases, careful);
    } else {
      EvalFollows(d, key, k, aliases, careful);
      EvalFollows(d, value, k, aliases, careful);
      FollowsEntry(Eval(d, key, Fuel(k)), Eval(d, value, Fuel(k)),
                   Eval(d, key, By(careful, aliases)), Eval(d, value, By(careful, aliases)), Enough(d, k, aliases, careful));
    }
  }

  lemma {:induction false} PairsFollow(d: Doc, n: nat, i: nat, k: nat, aliases: set<nat>, careful: bool)
    requires Valid(d) && n < |d.store| && d.store[n].Mapping? && i <= |Children(d.store[n])| && i % 2 == 0
    ensures Follows(EvalPairs(d, n, i, Fuel(k)), EvalPairs(d, n, i, By(careful, aliases)), Enough(d, k, aliases, careful))
    decreases Rank(d, By(careful, aliases)), |d.store| - n, 1, |Children(d.store[n])| - i
  {
    hide EvalPair, Then;
    assert ValidNode(d.store, n);
    if i < |Children(d.store[n])| {
      PairFollows(d, n, i, k, aliases, careful);
      PairsFollow(d, n, i + 2, k, aliases, careful);
      FollowsThen(EvalPair(d, n, i, Fuel(k)), EvalPairs(d, n, i + 2, Fuel(k)),
                  EvalPair(d, n, i, By(careful, aliases)), EvalPairs(d, n, i + 2, By(careful, aliases)), Enough(d, k, aliases, careful));
    }
  }

  lemma {:induction false} IntoMapFollows(d: Doc, n: nat, k: nat, aliases: set<nat>, careful: bool)
    requires Valid(d) && n < |d.store|
    ensures Follows(IntoMap(d, n, Fuel(k)), IntoMap(d, n, By(careful, aliases)), Enough(d, k, aliases, careful))
    decreases Rank(d, By(careful, aliases)), |d.store| - n, 2, 0
  {
    hide EvalPairs, Enough, Rank;
    assert ValidNode(d.store, n);
    match d.store[n] {
      case Mapping(_) => PairsFollow(d, n, 0, k, aliases, careful);
      case Alias(_, target) =>
        if careful && !d.store[target].Mapping? {
          assert k == 0 ==> !Enough(d, k, aliases, careful) by { NeverNone(d, aliases); }
        } else if n !in aliases {
          EnoughLess(d, n, k, aliases, careful);
          IntoMapFollows(d, target, if k > 0 then k - 1 else 0, aliases + {n}, careful);
        }
      case _ =>
    }
  }

  lemma {:induction false} MergeFollows(d: Doc, n: nat, k: nat, aliases: set<nat>, careful: bool)
    requires Valid(d) && n < |d.store|
    ensures Follows(Merge(d, n, Fuel(k)), Merge(d, n, By(careful, aliases)), Enough(d, k, aliases, careful))
    decreases Rank(d, By(careful, aliases)), |d.store| - n, 3, 0
  {
    hide IntoMap, MergeItems, Mergeable;
    if d.store[n].Sequence? {
      MergeItemsFollow(d, n, |Children(d.store[n])|, k, aliases, careful);
    } else if Mergeable(d, n) {
      IntoMapFollows(d, n, k, aliases, careful);
    }
  }

  lemma {:induction false} MergeItemsFollow(d: Doc, n: nat, i: nat, k: nat, aliases: set<nat>, careful: bool)
    requires Valid(d) && n < |d.store| && i <= |Children(d.store[n])|
    ensures Follows(MergeItems(d, n, i, Fuel(k)), MergeItems(d, n, i, By(careful, aliases)), Enough(d, k, aliases, careful))
    decreases Rank(d, By(careful, aliases)), |d.store| - n, 1, i
  {
    hide IntoMap, Child, Then, Mergeable, Valid;
    if i > 0 {
      var c, g := Child(d, n, i - 1), By(careful, aliases);
      MergeItemsFollow(d, n, i - 1, k, aliases, careful);
      IntoMapFollows(d, c, k, aliases, careful);
      FollowsThen(if Mergeable(d, c) then IntoMap(d, c, Fuel(k)) else Failed(WantMap), MergeItems(d, n, i - 1, Fuel(k)),
                  if Mergeable(d, c) then IntoMap(d, c, g) else Failed(WantMap), MergeItems(d, n, i - 1, g),
                  Enough(d, k, aliases, careful));
    }
  }

  // ---------------------------------------------------------------- refusals are real

  /** Node i is merged into a map somewhere: it is the value of a merge, or an item of such a value. */
  ghost predicate IsMerged(d: Doc, i: nat)
    requires Valid(d) && i < |d.store|
  {
    exists n, k :: 0 <= n < |d.store| && 0 <= k && MergesAt(d, n, k, i)
  }

  /** The k-th child of mapping n is a merge key, and i is its value or an item of it. */
  predicate MergesAt(d: Doc, n: nat, k: nat, i: nat)
    requires Valid(d) && n < |d.store| && i < |d.store|
  {
    && d.store[n].Mapping? && k % 2 == 0 && k + 1 < |Children(d.store[n])| && IsMerge(d.store[Child(d, n, k)])
    && var value := Child(d, n, k + 1);
       value == i || (d.store[value].Sequence? && i in Children(d.store[value]))
  }

  /** If a merge takes this node for a mapping, it is one, or an alias of one. */
  predicate Takeable(d: Doc, i: nat)
    requires Valid(d) && i < |d.store|
  {
    d.store[i].Alias? && Mergeable(d, i) ==> ValidNode(d.store, i) && d.store[d.store[i].target].Mapping?
  }

  /** No merge sees an alias whose name was a mapping's at last but was something else's at first. */
  ghost predicate Stable(d: Doc)
    requires Valid(d)
  {
    forall i :: 0 <= i < |d.store| && IsMerged(d, i) ==> Takeable(d, i)
  }

  /** What a merge needs of its value. */
  predicate TakeableValue(d: Doc, value: nat)
    requires Valid(d) && value < |d.store|
  {
    Takeable(d, value) &&
    (d.store[value].Sequence? ==>
      forall i :: 0 <= i < |Children(d.store[value])| ==> Takeable(d, Child(d, value, i)))
  }

  lemma MergeIsStable(d: Doc, n: nat, k: nat)
    requires Valid(d) && Stable(d) && n < |d.store| && d.store[n].Mapping? && k % 2 == 0 && k + 1 < |Children(d.store[n])|
    requires IsMerge(d.store[Child(d, n, k)])
    ensures TakeableValue(d, Child(d, n, k + 1))
  {
    hide IsMerge, Takeable, Mergeable;
    var value := Child(d, n, k + 1);
    assert MergesAt(d, n, k, value);
    if d.store[value].Sequence? {
      forall i | 0 <= i < |Children(d.store[value])|
        ensures Takeable(d, Child(d, value, i))
      {
        assert MergesAt(d, n, k, Child(d, value, i));
      }
    }
  }

  /** However far they are unrolled, up to k levels, these aliases are cut short. */
  predicate Looping(d: Doc, aliases: set<nat>, k: nat)
    requires Valid(d)
  {
    && (forall a :: a in aliases ==> a < |d.store|)
    && (forall a, j: nat :: a in aliases && j <= k ==> Eval(d, a, Fuel(j)) == OutOfFuel)
  }

  predicate Stuck<T(==)>(u: Outcome<T>, r: Outcome<T>) {
    r == Failed(SelfReference) ==> u == OutOfFuel
  }

  lemma StuckThen<T>(ua: Outcome<seq<T>>, ub: Outcome<seq<T>>, ra: Outcome<seq<T>>, rb: Outcome<seq<T>>, enough: bool)
    requires Follows(ua, ra, enough) && Stuck(ua, ra) && Stuck(ub, rb)
    ensures Stuck(Then(ua, ub), Then(ra, rb))
  {
  }

  lemma StuckEntry(uk: Outcome<Value>, uv: Outcome<Value>, rk: Outcome<Value>, rv: Outcome<Value>, enough: bool)
    requires Follows(uk, rk, enough) && Stuck(uk, rk) && Stuck(uv, rv)
    ensures Stuck(Entry(uk, uv), Entry(rk, rv))
  {
  }

  lemma LoopingLess(d: Doc, aliases: set<nat>, k: nat, j: nat)
    requires Valid(d) && Looping(d, aliases, k) && j <= k
    ensures Looping(d, aliases, j)
  {
  }

  /** The decoder re-enters an alias: then that part is cut short at every depth of unrolling. */
  lemma {:induction false} EvalStuck(d: Doc, n: nat, k: nat, aliases: set<nat>, careful: bool)
    requires Valid(d) && (careful || Stable(d)) && n < |d.store| && Looping(d, aliases, k)
    ensures Stuck(Eval(d, n, Fuel(k)), Eval(d, n, By(careful, aliases)))
    decreases k, |d.store| - n, 2, 0
  {
    hide EvalItems, EvalPairs, Looping, Stable;
    match d.store[n] {
      case Scalar(_, _, _) =>
      case Alias(_, _) => AliasStuck(d, n, k, aliases, careful);
      case Sequence(_) => ItemsStuck(d, n, 0, k, aliases, careful);
      case Mapping(_) => PairsStuck(d, n, 0, k, aliases, careful);
    }
  }

  lemma {:induction false} AliasStuck(d: Doc, n: nat, k: nat, aliases: set<nat>, careful: bool)
    requires Valid(d) && (careful || Stable(d)) && n < |d.store| && d.store[n].Alias? && Looping(d, aliases, k)
    ensures Stuck(Eval(d, n, Fuel(k)), Eval(d, n, By(careful, aliases)))
    decreases k, |d.store| - n, 1, 0
  {
    hide Looping, Stable;
    assert ValidNode(d.store, n);
    if n in aliases {
      LoopingAt(d, aliases, k, n);
    } else if k > 0 && Eval(d, n, By(careful, aliases)) == Failed(SelfReference) {
      forall j: nat | j < k
        ensures Eval(d, n, Fuel(j)) == OutOfFuel
      {
        LoopingLess(d, aliases, k, j);
        AliasStuck(d, n, j, aliases, careful);
      }
      LoopingMore(d, aliases, k, n);
      EvalStuck(d, d.store[n].target, k - 1, aliases + {n}, careful);
    }
  }

  lemma LoopingAt(d: Doc, aliases: set<nat>, k: nat, n: nat)
    requires Valid(d) && Looping(d, aliases, k) && n in aliases && n < |d.store|
    ensures Eval(d, n, Fuel(k)) == OutOfFuel
  {
  }

  lemma LoopingMore(d: Doc, aliases: set<nat>, k: nat, n: nat)
    requires Valid(d) && n < |d.store| && k > 0 && Looping(d, aliases, k)
    requires forall j: nat :: j < k ==> Eval(d, n, Fuel(j)) == OutOfFuel
    ensures Looping(d, aliases + {n}, k - 1)
  {
    forall a, j: nat | a in aliases + {n} && j <= k - 1
      ensures Eval(d, a, Fuel(j)) == OutOfFuel
    {
    }
  }

  lemma {:induction false} ItemsStuck(d: Doc, n: nat, i: nat, k: nat, aliases: set<nat>, careful: bool)
    requires Valid(d) && (careful || Stable(d)) && n < |d.store| && i <= |Children(d.store[n])| && Looping(d, aliases, k)
    ensures Stuck(EvalItems(d, n, i, Fuel(k)), EvalItems(d, n, i, By(careful, aliases)))
    decreases k, |d.store| - n, 1, |Children(d.store[n])| - i
  {
    hide Eval, Child, Then, Valid, Looping, Stable;
    if i < |Children(d.store[n])| {
      var c, g := Child(d, n, i), By(careful, aliases);
      EvalFollows(d, c, k, aliases, careful);
      EvalStuck(d, c, k, aliases, careful);
      ItemsStuck(d, n, i + 1, k, aliases, careful);
      StuckThen(Single(Eval(d, c, Fuel(k))), EvalItems(d, n, i + 1, Fuel(k)),
                Single(Eval(d, c, g)), EvalItems(d, n, i + 1, g), Enough(d, k, aliases, careful));
    }
  }

  lemma {:induction false} PairStuck(d: Doc, n: nat, i: nat, k: nat, aliases: set<nat>, careful: bool)
    requires Valid(d) && (careful || Stable(d)) && n < |d.store| && d.store[n].Mapping? && i % 2 == 0 && i + 1 < |Children(d.store[n])|
    requires Looping(d, aliases, k)
    ensures Stuck(EvalPair(d, n, i, Fuel(k)), EvalPair(d, n, i, By(careful, aliases)))
    decreases k, |d.store| - n, 0, 0
  {
    hide Eval, Merge, Child, Entry, IsMerge, Looping, Stable, TakeableValue;
    var key, value := Child(d, n, i), Child(d, n, i + 1);
    if IsMerge(d.store[key]) {
      if !careful {
        MergeIsStable(d, n, i);
      }
      MergeStuck(d, value, k, aliases, careful);
    } else {
      EvalFollows(d, key, k, aliases, careful);
      EvalStuck(d, key, k, aliases, careful);
      EvalStuck(d, value, k, aliases, careful);
      StuckEntry(Eval(d, key, Fuel(k)), Eval(d, value, Fuel(k)),
                 Eval(d, key, By(careful, aliases)), Eval(d, value, By(careful, aliases)), Enough(d, k, aliases, careful));
    }
  }

  lemma {:induction false} PairsStuck(d: Doc, n: nat, i: nat, k: nat, aliases: set<nat>, careful: bool)
    requires Valid(d) && (careful || Stable(d)) && n < |d.store| && d.store[n].Mapping? && Looping(d, aliases, k)
    requires i <= |Children(d.store[n])| && i % 2 == 0
    ensures Stuck(EvalPairs(d, n, i, Fuel(k)), EvalPairs(d, n, i, By(careful, aliases)))
    decreases k, |d.store| - n, 1, |Children(d.store[n])| - i
  {
    hide EvalPair, Then, Looping, Stable;
    assert ValidNode(d.store, n);
    if i < |Children(d.store[n])| {
      PairFollows(d, n, i, k, aliases, careful);
      PairStuck(d, n, i, k, aliases, careful);
      PairsStuck(d, n, i + 2, k, aliases, careful);
      StuckThen(EvalPair(d, n, i, Fuel(k)), EvalPairs(d, n, i + 2, Fuel(k)),
                EvalPair(d, n, i, By(careful, aliases)), EvalPairs(d, n, i + 2, By(careful, aliases)), Enough(d, k, aliases, careful));
    }
  }

  /** Merging a mapping, or an alias of one, is cut short or refused just as decoding it by itself is. */
  lemma SameShape(d: Doc, n: nat, g: Guard)
    requires Valid(d) && n < |d.store|
    requires d.store[n].Mapping? || (d.store[n].Alias? && ValidNode(d.store, n) && d.store[d.store[n].target].Mapping?)
    ensures Eval(d, n, g) == MapOf(IntoMap(d, n, g))
  {
    hide EvalPairs;
  }

  lemma {:induction false} MergeOneStuck(d: Doc, n: nat, k: nat, aliases: set<nat>, careful: bool)
    requires Valid(d) && (careful || Stable(d)) && n < |d.store| && Looping(d, aliases, k) && Mergeable(d, n) && (careful || Takeable(d, n))
    ensures Stuck(IntoMap(d, n, Fuel(k)), IntoMap(d, n, By(careful, aliases)))
    decreases k, |d.store| - n, 3, 0
  {
    hide Eval, Looping, Stable, EvalPairs;
    assert ValidNode(d.store, n);
    if careful && d.store[n].Alias? && !d.store[d.store[n].target].Mapping? {
      return;
    }
    hide IntoMap;
    SameShape(d, n, Fuel(k));
    SameShape(d, n, By(careful, aliases));
    EvalStuck(d, n, k, aliases, careful);
  }

  lemma {:induction false} MergeStuck(d: Doc, n: nat, k: nat, aliases: set<nat>, careful: bool)
    requires Valid(d) && (careful || Stable(d)) && n < |d.store| && Looping(d, aliases, k) && (careful || TakeableValue(d, n))
    ensures Stuck(Merge(d, n, Fuel(k)), Merge(d, n, By(careful, aliases)))
    decreases k, |d.store| - n, 4, 0
  {
    hide IntoMap, MergeItems, Mergeable, Looping, Stable, Takeable;
    if d.store[n].Sequence? {
      MergeItemsStuck(d, n, |Children(d.store[n])|, k, aliases, careful);
    } else if Mergeable(d, n) {
      MergeOneStuck(d, n, k, aliases, careful);
    }
  }

  lemma {:induction false} MergeItemsStuck(d: Doc, n: nat, i: nat, k: nat, aliases: set<nat>, careful: bool)
    requires Valid(d) && (careful || Stable(d)) && n < |d.store| && i <= |Children(d.store[n])| && Looping(d, aliases, k)
    requires careful || forall j :: 0 <= j < i ==> Takeable(d, Child(d, n, j))
    ensures Stuck(MergeItems(d, n, i, Fuel(k)), MergeItems(d, n, i, By(careful, aliases)))
    decreases k, |d.store| - n, 1, i
  {
    hide IntoMap, Child, Then, Mergeable, Valid, Looping, Stable, Takeable;
    if i > 0 {
      var c, g := Child(d, n, i - 1), By(careful, aliases);
      MergeItemsStuck(d, n, i - 1, k, aliases, careful);
      IntoMapFollows(d, c, k, aliases, careful);
      if Mergeable(d, c) {
        MergeOneStuck(d, c, k, aliases, careful);
      }
      StuckThen(if Mergeable(d, c) then IntoMap(d, c, Fuel(k)) else Failed(WantMap), MergeItems(d, n, i - 1, Fuel(k)),
                if Mergeable(d, c) then IntoMap(d, c, g) else Failed(WantMap), MergeItems(d, n, i - 1, g),
                Enough(d, k, aliases, careful));
    }
  }

  /** What the decoder makes of a node. */
  function Decoded(d: Doc, n: nat): Outcome<Value>
    requires Valid(d) && n < |d.store|
  {
    Eval(d, n, Expanding({}))
  }

  /** The node with aliases expanded up to k levels deep. */
  function Unrolled(d: Doc, n: nat, k: nat): Outcome<Value>
    requires Valid(d) && n < |d.store|
  {
    Eval(d, n, Fuel(k))
  }

  /** What a decoder makes of it that looks for a self reference only where it goes on to expand the alias. */
  function CarefullyDecoded(d: Doc, n: nat): Outcome<Value>
    requires Valid(d) && n < |d.store|
  {
    Eval(d, n, Careful({}))
  }

  /**
   Unless it refuses a self reference, the decoder gives what the graph unrolls to, and as many
   levels as there are alias nodes are enough for that; any unrolling that ends gives the same.
   */
  lemma DecodesTheUnrolling(d: Doc, n: nat, k: nat)
    requires Valid(d) && n < |d.store| && Decoded(d, n) != Failed(SelfReference)
    ensures Decoded(d, n) != OutOfFuel
    ensures k >= |AliasNodes(d.store)| ==> Unrolled(d, n, k) == Decoded(d, n)
    ensures Unrolled(d, n, k) != OutOfFuel ==> Unrolled(d, n, k) == Decoded(d, n)
  {
    hide Eval;
    EvalFollows(d, n, k, {}, false);
    assert AliasNodes(d.store) - {} == AliasNodes(d.store);
  }

  /** It refuses exactly the graphs that unroll for ever. */
  lemma RefusesExactlyTheInfinite(d: Doc, n: nat)
    requires Valid(d) && Stable(d) && n < |d.store|
    ensures Decoded(d, n) == Failed(SelfReference) <==> forall k: nat :: Unrolled(d, n, k) == OutOfFuel
  {
    hide Eval;
    if Decoded(d, n) == Failed(SelfReference) {
      forall k: nat
        ensures Unrolled(d, n, k) == OutOfFuel
      {
        EvalStuck(d, n, k, {}, false);
      }
    } else {
      DecodesTheUnrolling(d, n, |AliasNodes(d.store)|);
    }
  }

  /** The careful decoder refuses exactly the graphs that unroll for ever, whatever they are, and else gives the unrolling. */
  lemma CarefulIsExact(d: Doc, n: nat)
    requires Valid(d) && n < |d.store|
    ensures CarefullyDecoded(d, n) == Failed(SelfReference) <==> forall k: nat :: Unrolled(d, n, k) == OutOfFuel
    ensures CarefullyDecoded(d, n) != Failed(SelfReference) ==>
              Unrolled(d, n, |AliasNodes(d.store)| + 1) == CarefullyDecoded(d, n) != OutOfFuel
  {
    hide Eval;
    assert AliasNodes(d.store) - {} == AliasNodes(d.store);
    if CarefullyDecoded(d, n) == Failed(SelfReference) {
      forall k: nat
        ensures Unrolled(d, n, k) == OutOfFuel
      {
        EvalStuck(d, n, k, {}, true);
      }
    } else {
      var enough := |AliasNodes(d.store)| + 1;
      EvalFollows(d, n, enough, {}, true);
      assert Unrolled(d, n, enough) != OutOfFuel;
    }
  }

  /**
   Any graph: the decoder refuses every graph that unrolls for ever; and it refuses one that does not exactly when the careful
   decoder would not, that is, when the look at an alias that is only merged, and is no mapping, decides.
   */
  lemma RefusedThoughFinite(d: Doc, n: nat)
    requires Valid(d) && n < |d.store|
    ensures (forall k: nat :: Unrolled(d, n, k) == OutOfFuel) ==> Decoded(d, n) == Failed(SelfReference)
    ensures Decoded(d, n) == Failed(SelfReference) && (exists k: nat :: Unrolled(d, n, k) != OutOfFuel) <==>
            Decoded(d, n) == Failed(SelfReference) && CarefullyDecoded(d, n) != Failed(SelfReference)
    ensures Decoded(d, n) != Failed(SelfReference) ==> CarefullyDecoded(d, n) == Decoded(d, n)
  {
    hide Eval, Unrolled;
    CarefulIsExact(d, n);
    var enough := |AliasNodes(d.store)| + 1;
    if Decoded(d, n) != Failed(SelfReference) {
      DecodesTheUnrolling(d, n, enough);
      assert Unrolled(d, n, enough) != OutOfFuel;
    }
    if CarefullyDecoded(d, n) != Failed(SelfReference) {
      assert Unrolled(d, n, enough) != OutOfFuel;
    }
  }

  const REDEFINED: Doc := Doc(
    [Sequence([1, 6, 7]), Sequence([2]), Mapping([3, 4]), Scalar("<<", "", true), Sequence([5]),
     Alias("p", 1), Alias("s", 4), Mapping([])],
    map["p" := 7, "s" := 4],
    _ => NoValue)

  lemma RedefinedStore()
    ensures Valid(REDEFINED) && |REDEFINED.store| == 8 && REDEFINED.anchors["p"] == 7
    ensures REDEFINED.store[0] == Sequence([1, 6, 7]) && REDEFINED.store[1] == Sequence([2])
    ensures REDEFINED.store[2] == Mapping([3, 4]) && REDEFINED.store[3] == Scalar("<<", "", true)
    ensures REDEFINED.store[4] == Sequence([5]) && REDEFINED.store[5] == Alias("p", 1)
    ensures REDEFINED.store[6] == Alias("s", 4) && REDEFINED.store[7] == Mapping([])
  {
    var d := REDEFINED;
    assert forall i :: 0 <= i < 8 ==> ValidNode(d.store, i);
    assert d.anchors["p"] == 7 && d.anchors["s"] == 4;
  }

  lemma RedefinedIsValid()
    ensures Valid(REDEFINED) && |REDEFINED.store| == 8
    ensures REDEFINED.store[0] == Sequence([1, 6, 7]) && REDEFINED.store[1] == Sequence([2])
    ensures REDEFINED.store[2] == Mapping([3, 4]) && REDEFINED.store[4] == Sequence([5])
    ensures Child(REDEFINED, 0, 0) == 1 && Child(REDEFINED, 0, 1) == 6 && Child(REDEFINED, 0, 2) == 7
    ensures Child(REDEFINED, 1, 0) == 2 && Child(REDEFINED, 2, 0) == 3 && Child(REDEFINED, 2, 1) == 4 && Child(REDEFINED, 4, 0) == 5
    ensures IsMerge(REDEFINED.store[3]) && Mergeable(REDEFINED, 5)
  {
    RedefinedStore();
    hide Valid;
  }

  lemma RedefinedIsUnstable()
    ensures Valid(REDEFINED) && !Stable(REDEFINED)
  {
    RedefinedStore();
    RedefinedIsValid();
    hide Valid, Mergeable, IsMerge;
    var d := REDEFINED;
    assert 5 in Children(d.store[4]);
    assert MergesAt(d, 2, 0, 5);
    assert IsMerged(d, 5) && !Takeable(d, 5);
  }

  /** The list with the merging mapping in it does whatever the alias in the merge does. */
  lemma RedefinedList(g: Guard)
    ensures Valid(REDEFINED)
    ensures Eval(REDEFINED, 1, g) == ListOf(Single(MapOf(IntoMap(REDEFINED, 5, g))))
  {
    RedefinedIsValid();
    hide Mergeable, IsMerge, IntoMap, Child, Stable;
    var d, into := REDEFINED, IntoMap(REDEFINED, 5, g);
    assert MergeItems(d, 4, 0, g) == Done([]);
    assert MergeItems(d, 4, 1, g) == Then(into, Done([]));
    assert Merge(d, 4, g) == MergeItems(d, 4, 1, g);
    assert EvalPair(d, 2, 0, g) == Merge(d, 4, g);
    assert EvalPairs(d, 2, 2, g) == Done([]);
    assert EvalPairs(d, 2, 0, g) == Then(Then(into, Done([])), Done([]));
    assert Then(into, Done([])) == into by { if into.Done? { assert into.value + [] == into.value; } }
    assert Eval(d, 2, g) == MapOf(into);
    assert EvalItems(d, 1, 1, g) == Done([]);
    assert EvalItems(d, 1, 0, g) == Then(Single(MapOf(into)), Done([]));
    assert Then(Single(MapOf(into)), Done([])) == Single(MapOf(into)) by { if into.Done? { assert [Map(into.value)] + [] == [Map(into.value)]; } }
  }

  lemma RedefinedRoot(g: Guard)
    ensures Valid(REDEFINED)
    ensures Eval(REDEFINED, 0, g) ==
            ListOf(Then(Single(Eval(REDEFINED, 1, g)), Then(Single(Eval(REDEFINED, 6, g)), Done([Map([])]))))
  {
    RedefinedIsValid();
    hide Mergeable, IsMerge, Child, Stable;
    var d := REDEFINED;
    assert Eval(d, 7, g) == Done(Map([])) by { assert EvalPairs(d, 7, 0, g) == Done([]); }
    assert EvalItems(d, 0, 3, g) == Done([]);
    assert EvalItems(d, 0, 2, g) == Then(Done([Map([])]), Done([]));
    assert EvalItems(d, 0, 1, g) == Then(Single(Eval(d, 6, g)), EvalItems(d, 0, 2, g));
    assert EvalItems(d, 0, 0, g) == Then(Single(Eval(d, 1, g)), EvalItems(d, 0, 1, g));
    ThenNothing([Map([])]);
    hide Then;
  }

  lemma RedefinedSecond(g: Guard)
    ensures Valid(REDEFINED)
    ensures Eval(REDEFINED, 4, g) == ListOf(Single(Eval(REDEFINED, 5, g)))
  {
    RedefinedIsValid();
    hide Mergeable, IsMerge, Child, Stable;
    var d := REDEFINED;
    assert EvalItems(d, 4, 1, g) == Done([]);
    assert EvalItems(d, 4, 0, g) == Then(Single(Eval(d, 5, g)), Done([]));
    ThenDone(Eval(d, 5, g));
  }

  lemma ThenDone(e: Outcome<Value>)
    ensures Then(Single(e), Done([])) == Single(e)
  {
    if e.Done? {
      assert [e.value] + [] == [e.value];
    }
  }

  /**
   Without stability the decoder may refuse a finite graph. In [&p [{<<: &s [*p]}], *s, &p {}] the alias
   *p is passed over while it is merged, as it means a sequence, but refused when that merge is met again
   while *p is being expanded.
   */
  lemma RedefinedAnchorIsRefused()
    ensures Valid(REDEFINED) && !Stable(REDEFINED)
    ensures Decoded(REDEFINED, 0) == Failed(SelfReference)
    ensures Unrolled(REDEFINED, 0, 3).Done?
  {
    RedefinedIsUnstable();
    RedefinedIsValid();
    RedefinedIsFinite();
    var d := REDEFINED;
    RedefinedRoot(Expanding({}));
    RedefinedList(Expanding({}));
    RedefinedMet();
    hide Mergeable, IsMerge, Child, Stable, EvalItems, EvalPairs, Unrolled;
    assert d.store[5].Alias? && d.store[6].Alias?;
    assert {} + {6} == {6};
    assert IntoMap(d, 5, Expanding({})) == Done([TypeError]);
    assert Enter(d, 6, Expanding({})) == Done(Expanding({6}));
    assert Eval(d, 6, Expanding({})) == Eval(d, 4, Expanding({6}));
  }

  /** The second time the merge is met while its alias is being expanded. */
  lemma RedefinedMet()
    ensures Valid(REDEFINED) && Eval(REDEFINED, 4, Expanding({6})) == Failed(SelfReference)
  {
    RedefinedIsValid();
    var d := REDEFINED;
    RedefinedList(Expanding({6} + {5}));
    RedefinedSecond(Expanding({6}));
    hide Valid, Mergeable, IsMerge, Child, Stable, EvalItems, EvalPairs;
    assert d.store[5].Alias? && d.store[6].Alias?;
    assert Enter(d, 5, Expanding({6})) == Done(Expanding({6} + {5}));
    assert IntoMap(d, 5, Expanding({6} + {5})) == Failed(SelfReference);
    assert Eval(d, 5, Expanding({6})) == Eval(d, 1, Expanding({6} + {5}));
  }

  lemma RedefinedIsFinite()
    ensures Valid(REDEFINED) && Unrolled(REDEFINED, 0, 3).Done?
  {
    RedefinedIsValid();
    var d := REDEFINED;
    RedefinedRoot(Fuel(3));
    RedefinedList(Fuel(3));
    RedefinedSecond(Fuel(2));
    RedefinedList(Fuel(1));
    hide Mergeable, IsMerge, Child, Stable, EvalItems, EvalPairs;
    assert d.store[5].Alias? && d.store[6].Alias?;
    assert IntoMap(d, 5, Fuel(3)) == Done([TypeError]);
    assert Eval(d, 5, Fuel(2)) == Eval(d, 1, Fuel(1));
    assert IntoMap(d, 5, Fuel(1)) == Done([TypeError]);
  }

  // ---------------------------------------------------------------- the decoder

  lemma ThenMore<T>(a: seq<T>, b: seq<T>, c: Outcome<seq<T>>)
    ensures Then(Done(a), Then(Done(b), c)) == Then(Done(a + b), c)
  {
    if c.Done? {
      assert a + (b + c.value) == a + b + c.value;
    }
  }

  lemma ThenFirst<T>(c: Outcome<seq<T>>)
    ensures Then(Done([]), c) == c
  {
    if c.Done? {
      assert [] + c.value == c.value;
    }
  }

  lemma EnterShrinks(d: Doc, n: nat, aliases: set<nat>)
    requires n < |d.store| && d.store[n].Alias? && n !in aliases
    ensures Rank(d, Expanding(aliases + {n})) < Rank(d, Expanding(aliases))
  {
    RankShrinks(AliasNodes(d.store), aliases, n);
  }

  class Decoder {
    const doc: Doc
    var aliases: set<nat>

    constructor (doc: Doc)
      ensures this.doc == doc && aliases == {}
    {
      this.doc, aliases := doc, {};
    }

    /** Decodes a node into an empty interface. */
    method Unmarshal(n: nat) returns (r: Outcome<Value>)
      requires Valid(doc) && n < |doc.store|
      modifies this
      ensures r == Eval(doc, n, Expanding(old(aliases))) && (r.Done? ==> aliases == old(aliases))
      decreases Rank(doc, Expanding(aliases)), |doc.store| - n, 2, 0
    {
      hide EvalItems, EvalPairs, AliasNodes;
      assert ValidNode(doc.store, n);
      match doc.store[n] {
        case Scalar(_, _, _) =>
          match doc.resolve(doc.store[n]) {
            case Plain(text) => r := Done(Text(text));
            case NoValue => r := Done(Null);
            case BadBinary => r := Failed(BadScalar);
          }
        case Alias(_, target) =>
          if n in aliases {
            return Failed(SelfReference);
          }
          EnterShrinks(doc, n, aliases);
          aliases := aliases + {n};
          r := Unmarshal(target);
          if r.Done? {
            aliases := aliases - {n};
          }
        case Sequence(_) =>
          var items := UnmarshalItems(n);
          r := ListOf(items);
        case Mapping(_) =>
          var log := UnmarshalPairs(n);
          r := MapOf(log);
      }
    }

    method UnmarshalItems(n: nat) returns (r: Outcome<seq<Value>>)
      requires Valid(doc) && n < |doc.store|
      modifies this
      ensures r == EvalItems(doc, n, 0, Expanding(old(aliases))) && (r.Done? ==> aliases == old(aliases))
      decreases Rank(doc, Expanding(aliases)), |doc.store| - n, 1, 0
    {
      hide Eval, Rank, Then, Child;
      var items: seq<Value> := [];
      ghost var g := Expanding(aliases);
      ghost var goal := EvalItems(doc, n, 0, g);
      ThenFirst(goal);
      for i := 0 to |Children(doc.store[n])|
        invariant aliases == old(aliases)
        invariant goal == Then(Done(items), EvalItems(doc, n, i, g))
      {
        var e := Unmarshal(Child(doc, n, i));
        ItemsCut(items, e, EvalItems(doc, n, i + 1, g));
        if !e.Done? {
          r := Single(e);
          return;
        }
        items := items + [e.value];
      }
      assert Then(Done(items), Done([])) == Done(items) by { ThenNothing(items); }
      r := Done(items);
    }

    /** Decodes the entries of a mapping into a map. */
    method UnmarshalPairs(n: nat) returns (r: Outcome<seq<Effect>>)
      requires Valid(doc) && n < |doc.store| && doc.store[n].Mapping?
      modifies this
      ensures r == EvalPairs(doc, n, 0, Expanding(old(aliases))) && (r.Done? ==> aliases == old(aliases))
      decreases Rank(doc, Expanding(aliases)), |doc.store| - n, 1, 0
    {
      hide EvalPair, Rank, Then;
      assert ValidNode(doc.store, n);
      var log: seq<Effect> := [];
      ghost var g := Expanding(aliases);
      ghost var goal := EvalPairs(doc, n, 0, g);
      ThenFirst(goal);
      var i := 0;
      while i < |Children(doc.store[n])|
        invariant 0 <= i <= |Children(doc.store[n])| && i % 2 == 0 && aliases == old(aliases)
        invariant goal == Then(Done(log), EvalPairs(doc, n, i, g))
      {
        var e := UnmarshalPair(n, i);
        PairsCut(log, e, EvalPairs(doc, n, i + 2, g));
        if !e.Done? {
          return e;
        }
        log := log + e.value;
        i := i + 2;
      }
      assert Then(Done(log), Done([])) == Done(log) by { ThenNothing(log); }
      r := Done(log);
    }

    method UnmarshalPair(n: nat, i: nat) returns (r: Outcome<seq<Effect>>)
      requires Valid(doc) && n < |doc.store| && i + 1 < |Children(doc.store[n])|
      modifies this
      ensures r == EvalPair(doc, n, i, Expanding(old(aliases))) && (r.Done? ==> aliases == old(aliases))
      decreases Rank(doc, Expanding(aliases)), |doc.store| - n, 0, 0
    {
      hide Eval, Merge, Rank, Child;
      var key, value := Child(doc, n, i), Child(doc, n, i + 1);
      if IsMerge(doc.store[key]) {
        r := MergeNode(value);
        return;
      }
      var k := Unmarshal(key);
      if !k.Done? {
        return if k.Failed? then Failed(k.reason) else OutOfFuel;
      }
      if k.value.Map? || k.value.List? {
        return Failed(BadKey);
      }
      var e := Unmarshal(value);
      r := Entry(k, e);
    }

    /** Decodes a node into a map that is there already. */
    method UnmarshalInto(n: nat) returns (r: Outcome<seq<Effect>>)
      requires Valid(doc) && n < |doc.store|
      modifies this
      ensures r == IntoMap(doc, n, Expanding(old(aliases))) && (r.Done? ==> aliases == old(aliases))
      decreases Rank(doc, Expanding(aliases)), |doc.store| - n, 2, 0
    {
      hide EvalPairs, AliasNodes;
      assert ValidNode(doc.store, n);
      match doc.store[n] {
        case Mapping(_) =>
          r := UnmarshalPairs(n);
        case Sequence(_) =>
          r := Done([TypeError]);
        case Scalar(_, _, _) =>
          match doc.resolve(doc.store[n]) {
            case Plain(_) => r := Done([TypeError]);
            case NoValue => r := Done([Reset]);
            case BadBinary => r := Failed(BadScalar);
          }
        case Alias(_, target) =>
          if n in aliases {
            return Failed(SelfReference);
          }
          EnterShrinks(doc, n, aliases);
          aliases := aliases + {n};
          r := UnmarshalInto(target);
          if r.Done? {
            aliases := aliases - {n};
          }
      }
    }

    /** Merges a mapping, an alias, or a sequence of those. */
    method MergeNode(n: nat) returns (r: Outcome<seq<Effect>>)
      requires Valid(doc) && n < |doc.store|
      modifies this
      ensures r == Merge(doc, n, Expanding(old(aliases))) && (r.Done? ==> aliases == old(aliases))
      decreases Rank(doc, Expanding(aliases)), |doc.store| - n, 3, 0
    {
      hide IntoMap, MergeItems, Rank;
      if doc.store[n].Sequence? {
        r := MergeSequence(n);
      } else if Mergeable(doc, n) {
        r := UnmarshalInto(n);
      } else {
        r := Failed(WantMap);
      }
    }

    method MergeSequence(n: nat) returns (r: Outcome<seq<Effect>>)
      requires Valid(doc) && n < |doc.store|
      modifies this
      ensures r == MergeItems(doc, n, |Children(doc.store[n])|, Expanding(old(aliases))) && (r.Done? ==> aliases == old(aliases))
      decreases Rank(doc, Expanding(aliases)), |doc.store| - n, 1, 0
    {
      hide IntoMap, Rank, Then, Mergeable, Child;
      var log: seq<Effect> := [];
      ghost var g := Expanding(aliases);
      var i := |Children(doc.store[n])|;
      ghost var goal := MergeItems(doc, n, i, g);
      ThenFirst(goal);
      while i > 0
        invariant 0 <= i <= |Children(doc.store[n])| && aliases == old(aliases)
        invariant goal == Then(Done(log), MergeItems(doc, n, i, g))
      {
        var item := Child(doc, n, i - 1);
        var e: Outcome<seq<Effect>> := Failed(WantMap);
        if Mergeable(doc, item) {
          e := UnmarshalInto(item);
        }
        PairsCut(log, e, MergeItems(doc, n, i - 1, g));
        if !e.Done? {
          return e;
        }
        log := log + e.value;
        i := i - 1;
      }
      assert Then(Done(log), Done([])) == Done(log) by { ThenNothing(log); }
      r := Done(log);
    }
  }

  lemma ThenNothing<T>(a: seq<T>)
    ensures Then(Done(a), Done([])) == Done(a)
  {
    assert a + [] == a;
  }

  lemma ItemsCut(items: seq<Value>, e: Outcome<Value>, later: Outcome<seq<Value>>)
    ensures !e.Done? ==> Then(Done(items), Then(Single(e), later)) == Single(e)
    ensures e.Done? ==> Then(Done(items), Then(Single(e), later)) == Then(Done(items + [e.value]), later)
  {
    if e.Done? {
      ThenMore(items, [e.value], later);
    }
  }

  lemma PairsCut(log: seq<Effect>, e: Outcome<seq<Effect>>, later: Outcome<seq<Effect>>)
    ensures !e.Done? ==> Then(Done(log), Then(e, later)) == e
    ensures e.Done? ==> Then(Done(log), Then(e, later)) == Then(Done(log + e.value), later)
  {
    if e.Done? {
      ThenMore(log, e.value, later);
    }
  }

  // ---------------------------------------------------------------- graphs

  datatype Event =
    | ScalarEvent(anchor: Option<string>, value: string, tag: string, implicit: bool)
    | AliasEvent(name: string)
    | SequenceStart(anchor: Option<string>)
    | SequenceEnd
    | MappingStart(anchor: Option<string>)
    | MappingEnd

  const EMPTY: Graph := Graph([], [], map[])

  datatype ParseError = NoError | UnknownAnchor | UnexpectedEvent | NoMoreEvents

  /** The nodes built so far, the anchor each of them carries, and the last node of each anchor. */
  datatype Graph = Graph(store: seq<Node>, names: seq<Option<string>>, anchors: map<string, nat>)

  /** target is the last node before `before` that carries an anchor. */
  predicate IsLast(names: seq<Option<string>>, name: string, target: nat, before: nat) {
    && target < before <= |names| && names[target] == Some(name)
    && forall j :: target < j < before ==> names[j] != Some(name)
  }

  predicate ValidAnchors(g: Graph) {
    && |g.names| == |g.store|
    && (forall s :: s in g.anchors ==> IsLast(g.names, s, g.anchors[s], |g.names|))
    && (forall j :: 0 <= j < |g.names| && g.names[j].Some? ==> g.names[j].value in g.anchors && !g.store[j].Alias?)
  }

  /** Each alias refers to the node that last carried its name before it. */
  predicate ValidAliases(g: Graph) {
    |g.names| == |g.store| &&
    forall i :: 0 <= i < |g.store| && g.store[i].Alias? ==> IsLast(g.names, g.store[i].name, g.store[i].target, i)
  }

  predicate ValidGraph(g: Graph) {
    ValidStore(g.store) && ValidAnchors(g) && ValidAliases(g)
  }

  function AddNode(g: Graph, node: Node, anchor: Option<string>): Graph {
    Graph(g.store + [node], g.names + [anchor],
          if anchor.Some? then g.anchors[anchor.value := |g.store|] else g.anchors)
  }

  lemma AddNodeValid(g: Graph, node: Node, anchor: Option<string>)
    requires ValidGraph(g) && Children(node) == [] && (node.Alias? ==> anchor == None)
    requires node.Alias? ==> node.name in g.anchors && node.target == g.anchors[node.name]
    ensures ValidGraph(AddNode(g, node, anchor))
  {
    var h := AddNode(g, node, anchor);
    forall i | 0 <= i < |h.store|
      ensures ValidNode(h.store, i)
    {
      if i < |g.store| {
        assert ValidNode(g.store, i) && h.store[i] == g.store[i];
      } else if node.Alias? {
        assert IsLast(g.names, node.name, node.target, |g.names|);
        assert g.names[node.target].Some?;
      }
    }
    assert ValidAnchors(h) by {
      forall s | s in h.anchors
        ensures IsLast(h.names, s, h.anchors[s], |h.names|)
      {
        if anchor != Some(s) {
          assert IsLast(g.names, s, g.anchors[s], |g.names|);
        }
      }
    }
    assert ValidAliases(h) by {
      forall i | 0 <= i < |h.store| && h.store[i].Alias?
        ensures IsLast(h.names, h.store[i].name, h.store[i].target, i)
      {
        if i < |g.store| {
          assert IsLast(g.names, g.store[i].name, g.store[i].target, i);
        } else {
          assert IsLast(g.names, node.name, node.target, |g.names|);
        }
      }
    }
  }

  /** A collection gets more children. */
  function Grow(g: Graph, n: nat, more: seq<nat>): Graph
    requires n < |g.store| && (g.store[n].Sequence? || g.store[n].Mapping?)
  {
    g.(store := g.store[n := g.store[n].(children := g.store[n].children + more)])
  }

  lemma GrowValid(g: Graph, n: nat, more: seq<nat>)
    requires ValidGraph(g) && n < |g.store|
    requires g.store[n].Sequence? || (g.store[n].Mapping? && |more| % 2 == 0)
    requires forall c :: c in more ==> n < c < |g.store|
    ensures ValidGraph(Grow(g, n, more))
  {
    var h := Grow(g, n, more);
    forall i | 0 <= i < |h.store|
      ensures ValidNode(h.store, i)
    {
      assert ValidNode(g.store, i);
      assert forall c :: c in Children(g.store[n]) + more ==> c in Children(g.store[n]) || c in more;
    }
  }

  // ---------------------------------------------------------------- what a stream of events means

  /** A node as it is written: its children in place, an alias by name only. */
  datatype Tree =
    | Leaf(anchor: Option<string>, value: string, tag: string, implicit: bool)
    | Reference(name: string)
    | Items(anchor: Option<string>, items: Trees)
    | Pairs(anchor: Option<string>, pairs: TreePairs)

  datatype Trees = NoTrees | MoreTrees(first: Tree, others: Trees)

  datatype TreePairs = NoPairs | MorePairs(key: Tree, value: Tree, others: TreePairs)

  /** The events of a node. */
  function Written(t: Tree): (events: seq<Event>)
    ensures events != []
  {
    match t
    case Leaf(anchor, value, tag, implicit) => [ScalarEvent(anchor, value, tag, implicit)]
    case Reference(name) => [AliasEvent(name)]
    case Items(anchor, items) => [SequenceStart(anchor)] + (WrittenItems(items) + [SequenceEnd])
    case Pairs(anchor, pairs) => [MappingStart(anchor)] + (WrittenPairs(pairs) + [MappingEnd])
  }

  function WrittenItems(ts: Trees): seq<Event> {
    match ts
    case NoTrees => []
    case MoreTrees(first, others) => Written(first) + WrittenItems(others)
  }

  function WrittenPairs(ps: TreePairs): seq<Event> {
    match ps
    case NoPairs => []
    case MorePairs(key, value, others) => Written(key) + (Written(value) + WrittenPairs(others))
  }

  /**
   A graph after one more node. Each node is numbered when it begins; an alias means the node that last
   took its name, which may still be open; None if no node has.
   */
  function Layout(t: Tree, g: Graph): (h: Option<Graph>)
    ensures h.Some? ==> Grown(g, h.value)
  {
    match t
    case Leaf(anchor, value, tag, implicit) => Some(AddNode(g, Scalar(value, tag, implicit), anchor))
    case Reference(name) => if name in g.anchors then Some(AddNode(g, Alias(name, g.anchors[name]), None)) else None
    case Items(anchor, items) => LayoutItems(items, AddNode(g, Sequence([]), anchor), |g.store|)
    case Pairs(anchor, pairs) => LayoutPairs(pairs, AddNode(g, Mapping([]), anchor), |g.store|)
  }

  /** The items of sequence n. */
  function LayoutItems(ts: Trees, g: Graph, n: nat): (h: Option<Graph>)
    requires n < |g.store| && g.store[n].Sequence?
    ensures h.Some? ==> GrownAt(g, h.value, n)
  {
    match ts
    case NoTrees => Some(g)
    case MoreTrees(first, others) =>
      match Layout(first, g)
      case None => None
      case Some(h) => LayoutItems(others, Grow(h, n, [|g.store|]), n)
  }

  /** The keys and values of mapping n. */
  function LayoutPairs(ps: TreePairs, g: Graph, n: nat): (h: Option<Graph>)
    requires n < |g.store| && g.store[n].Mapping?
    ensures h.Some? ==> GrownAt(g, h.value, n)
  {
    match ps
    case NoPairs => Some(g)
    case MorePairs(key, value, others) =>
      match Layout(key, g)
      case None => None
      case Some(h) =>
        match Layout(value, h)
        case None => None
        case Some(i) => LayoutPairs(others, Grow(i, n, [|g.store|, |h.store|]), n)
  }

  /** h has all nodes of g, unchanged, and at least one more. */
  predicate Grown(g: Graph, h: Graph) {
    |g.store| < |h.store| && forall i :: 0 <= i < |g.store| ==> h.store[i] == g.store[i]
  }

  /** h has all nodes of g, unchanged but for children added to collection n. */
  predicate GrownAt(g: Graph, h: Graph, n: nat)
    requires n < |g.store|
  {
    && |g.store| <= |h.store|
    && (forall i :: 0 <= i < |g.store| && i != n ==> h.store[i] == g.store[i])
    && h.store[n].Sequence? == g.store[n].Sequence? && h.store[n].Mapping? == g.store[n].Mapping?
  }

  // ---------------------------------------------------------------- the parser

  datatype Parsed = Parsed(graph: Graph, pos: nat) | Refused(error: ParseError)

  /** One node, from the event at pos on. */
  function ParseAt(events: seq<Event>, pos: nat, g: Graph): (r: Parsed)
    ensures r.Parsed? ==> pos < r.pos <= |events| && Grown(g, r.graph)
    ensures r.Refused? ==> r.error != NoError
    decreases |events| - pos, 0
  {
    if pos >= |events| then Refused(NoMoreEvents)
    else
      match events[pos]
      case ScalarEvent(anchor, value, tag, implicit) => Parsed(AddNode(g, Scalar(value, tag, implicit), anchor), pos + 1)
      case AliasEvent(name) =>
        if name in g.anchors then Parsed(AddNode(g, Alias(name, g.anchors[name]), None), pos + 1) else Refused(UnknownAnchor)
      case SequenceStart(anchor) => ItemsAt(events, pos + 1, AddNode(g, Sequence([]), anchor), |g.store|)
      case MappingStart(anchor) => PairsAt(events, pos + 1, AddNode(g, Mapping([]), anchor), |g.store|)
      case SequenceEnd => Refused(UnexpectedEvent)
      case MappingEnd => Refused(UnexpectedEvent)
  }

  function ItemsAt(events: seq<Event>, pos: nat, g: Graph, n: nat): (r: Parsed)
    requires n < |g.store| && g.store[n].Sequence?
    ensures r.Parsed? ==> pos < r.pos <= |events| && GrownAt(g, r.graph, n)
    ensures r.Refused? ==> r.error != NoError
    decreases |events| - pos, 1
  {
    if pos >= |events| then Refused(NoMoreEvents)
    else if events[pos] == SequenceEnd then Parsed(g, pos + 1)
    else
      match ParseAt(events, pos, g)
      case Refused(error) => Refused(error)
      case Parsed(h, q) => ItemsAt(events, q, Grow(h, n, [|g.store|]), n)
  }

  function PairsAt(events: seq<Event>, pos: nat, g: Graph, n: nat): (r: Parsed)
    requires n < |g.store| && g.store[n].Mapping?
    ensures r.Parsed? ==> pos < r.pos <= |events| && GrownAt(g, r.graph, n)
    ensures r.Refused? ==> r.error != NoError
    decreases |events| - pos, 1
  {
    if pos >= |events| then Refused(NoMoreEvents)
    else if events[pos] == MappingEnd then Parsed(g, pos + 1)
    else
      match ParseAt(events, pos, g)
      case Refused(error) => Refused(error)
      case Parsed(h, middle) =>
        match ParseAt(events, middle, h)
        case Refused(error) => Refused(error)
        case Parsed(i, q) => PairsAt(events, q, Grow(i, n, [|g.store|, |h.store|]), n)
  }

  /** The text w stands in the stream at pos. */
  predicate StandsAt(events: seq<Event>, pos: nat, w: seq<Event>) {
    pos + |w| <= |events| && events[pos..pos + |w|] == w
  }

  lemma StandsParts(events: seq<Event>, pos: nat, v: seq<Event>, w: seq<Event>)
    ensures StandsAt(events, pos, v + w) <==> StandsAt(events, pos, v) && StandsAt(events, pos + |v|, w)
  {
    if StandsAt(events, pos, v + w) {
      var all := events[pos..pos + |v + w|];
      assert all[..|v|] == events[pos..pos + |v|] && all[|v|..] == events[pos + |v|..pos + |v| + |w|];
    }
    if StandsAt(events, pos, v) && StandsAt(events, pos + |v|, w) {
      assert events[pos..pos + |v + w|] == events[pos..pos + |v|] + events[pos + |v|..pos + |v| + |w|];
    }
  }

  lemma StandsOne(events: seq<Event>, pos: nat, e: Event)
    ensures StandsAt(events, pos, [e]) <==> pos < |events| && events[pos] == e
  {
    if pos < |events| {
      assert events[pos..pos + 1] == [events[pos]];
    }
  }

  /** What is written of a node is parsed to its layout, wherever it stands; it is refused just when an alias has no node. */
  lemma {:induction false} WrittenIsParsed(t: Tree, events: seq<Event>, pos: nat, g: Graph)
    requires StandsAt(events, pos, Written(t))
    ensures ParseAt(events, pos, g) ==
            if Layout(t, g).Some? then Parsed(Layout(t, g).value, pos + |Written(t)|) else Refused(UnknownAnchor)
    decreases t
  {
    hide StandsAt, Grow, AddNode, WrittenItems, WrittenPairs, LayoutItems, LayoutPairs, ItemsAt, PairsAt;
    match t {
      case Leaf(anchor, value, tag, implicit) => StandsOne(events, pos, ScalarEvent(anchor, value, tag, implicit));
      case Reference(name) => StandsOne(events, pos, AliasEvent(name));
      case Items(anchor, items) =>
        StandsParts(events, pos, [SequenceStart(anchor)], WrittenItems(items) + [SequenceEnd]);
        StandsOne(events, pos, SequenceStart(anchor));
        AddedNode(g, Sequence([]), anchor);
        ItemsAreParsed(items, events, pos + 1, AddNode(g, Sequence([]), anchor), |g.store|);
      case Pairs(anchor, pairs) =>
        StandsParts(events, pos, [MappingStart(anchor)], WrittenPairs(pairs) + [MappingEnd]);
        StandsOne(events, pos, MappingStart(anchor));
        AddedNode(g, Mapping([]), anchor);
        PairsAreParsed(pairs, events, pos + 1, AddNode(g, Mapping([]), anchor), |g.store|);
    }
  }

  lemma AddedNode(g: Graph, node: Node, anchor: Option<string>)
    ensures var h := AddNode(g, node, anchor); |h.store| == |g.store| + 1 && h.store[|g.store|] == node && Grown(g, h)
  {
  }

  lemma {:induction false} ItemsAreParsed(ts: Trees, events: seq<Event>, pos: nat, g: Graph, n: nat)
    requires StandsAt(events, pos, WrittenItems(ts) + [SequenceEnd]) && n < |g.store| && g.store[n].Sequence?
    ensures ItemsAt(events, pos, g, n) ==
            if LayoutItems(ts, g, n).Some? then Parsed(LayoutItems(ts, g, n).value, pos + |WrittenItems(ts)| + 1)
            else Refused(UnknownAnchor)
    decreases ts
  {
    hide StandsAt, Grow, Written, Layout, ParseAt;
    match ts {
      case NoTrees =>
        assert WrittenItems(ts) + [SequenceEnd] == [SequenceEnd];
        StandsOne(events, pos, SequenceEnd);
      case MoreTrees(first, others) =>
        var w := Written(first);
        assert WrittenItems(ts) + [SequenceEnd] == w + (WrittenItems(others) + [SequenceEnd]);
        StandsParts(events, pos, w, WrittenItems(others) + [SequenceEnd]);
        WrittenStart(first, events, pos);
        WrittenIsParsed(first, events, pos, g);
        if Layout(first, g).Some? {
          var h := Layout(first, g).value;
          GrowKeeps(h, n, [|g.store|]);
          ItemsAreParsed(others, events, pos + |w|, Grow(h, n, [|g.store|]), n);
        }
    }
  }

  lemma GrowKeeps(h: Graph, n: nat, more: seq<nat>)
    requires n < |h.store| && (h.store[n].Sequence? || h.store[n].Mapping?)
    ensures GrownAt(h, Grow(h, n, more), n)
  {
  }

  /** No node begins with the end of a collection. */
  lemma WrittenStart(t: Tree, events: seq<Event>, pos: nat)
    requires StandsAt(events, pos, Written(t))
    ensures pos < |events| && events[pos] != SequenceEnd && events[pos] != MappingEnd
  {
    hide WrittenItems, WrittenPairs;
    assert events[pos..pos + |Written(t)|][0] == Written(t)[0];
  }

  lemma {:induction false} PairsAreParsed(ps: TreePairs, events: seq<Event>, pos: nat, g: Graph, n: nat)
    requires StandsAt(events, pos, WrittenPairs(ps) + [MappingEnd]) && n < |g.store| && g.store[n].Mapping?
    ensures PairsAt(events, pos, g, n) ==
            if LayoutPairs(ps, g, n).Some? then Parsed(LayoutPairs(ps, g, n).value, pos + |WrittenPairs(ps)| + 1)
            else Refused(UnknownAnchor)
    decreases ps
  {
    hide StandsAt, Grow, Written, Layout, ParseAt;
    match ps {
      case NoPairs =>
        assert WrittenPairs(ps) + [MappingEnd] == [MappingEnd];
        StandsOne(events, pos, MappingEnd);
      case MorePairs(key, value, others) =>
        var v, w := Written(key), Written(value);
        assert WrittenPairs(ps) + [MappingEnd] == v + (w + (WrittenPairs(others) + [MappingEnd]));
        StandsParts(events, pos, v, w + (WrittenPairs(others) + [MappingEnd]));
        StandsParts(events, pos + |v|, w, WrittenPairs(others) + [MappingEnd]);
        WrittenStart(key, events, pos);
        WrittenIsParsed(key, events, pos, g);
        if Layout(key, g).Some? {
          var h := Layout(key, g).value;
          WrittenIsParsed(value, events, pos + |v|, h);
          if Layout(value, h).Some? {
            var i := Layout(value, h).value;
            GrowKeeps(i, n, [|g.store|, |h.store|]);
            PairsAreParsed(others, events, pos + |v| + |w|, Grow(i, n, [|g.store|, |h.store|]), n);
          }
        }
    }
  }

  /** Whatever is parsed was written so: there is a node whose events and layout these are. */
  lemma {:induction false} ParsedIsWritten(events: seq<Event>, pos: nat, g: Graph) returns (t: Tree)
    requires ParseAt(events, pos, g).Parsed?
    ensures var r := ParseAt(events, pos, g);
            StandsAt(events, pos, Written(t)) && r.pos == pos + |Written(t)| && Layout(t, g) == Some(r.graph)
    decreases |events| - pos, 0
  {
    hide StandsAt, Grow, AddNode, WrittenItems, WrittenPairs, LayoutItems, LayoutPairs, ItemsAt, PairsAt;
    StandsOne(events, pos, events[pos]);
    match events[pos] {
      case ScalarEvent(anchor, value, tag, implicit) => t := Leaf(anchor, value, tag, implicit);
      case AliasEvent(name) => t := Reference(name);
      case SequenceStart(anchor) =>
        AddedNode(g, Sequence([]), anchor);
        var ts := ParsedItems(events, pos + 1, AddNode(g, Sequence([]), anchor), |g.store|);
        t := Items(anchor, ts);
        StandsParts(events, pos, [SequenceStart(anchor)], WrittenItems(ts) + [SequenceEnd]);
      case MappingStart(anchor) =>
        AddedNode(g, Mapping([]), anchor);
        var ps := ParsedPairs(events, pos + 1, AddNode(g, Mapping([]), anchor), |g.store|);
        t := Pairs(anchor, ps);
        StandsParts(events, pos, [MappingStart(anchor)], WrittenPairs(ps) + [MappingEnd]);
    }
  }

  lemma {:induction false} ParsedItems(events: seq<Event>, pos: nat, g: Graph, n: nat) returns (ts: Trees)
    requires n < |g.store| && g.store[n].Sequence? && ItemsAt(events, pos, g, n).Parsed?
    ensures var r := ItemsAt(events, pos, g, n);
            && StandsAt(events, pos, WrittenItems(ts) + [SequenceEnd]) && r.pos == pos + |WrittenItems(ts)| + 1
            && LayoutItems(ts, g, n) == Some(r.graph)
    decreases |events| - pos, 1
  {
    hide StandsAt, Grow, Written, Layout, ParseAt;
    if events[pos] == SequenceEnd {
      ts := NoTrees;
      assert WrittenItems(ts) + [SequenceEnd] == [SequenceEnd];
      StandsOne(events, pos, SequenceEnd);
    } else {
      var r := ParseAt(events, pos, g);
      var t := ParsedIsWritten(events, pos, g);
      GrowKeeps(r.graph, n, [|g.store|]);
      var others := ParsedItems(events, r.pos, Grow(r.graph, n, [|g.store|]), n);
      ts := MoreTrees(t, others);
      StandsParts(events, pos, Written(t), WrittenItems(others) + [SequenceEnd]);
      assert WrittenItems(ts) + [SequenceEnd] == Written(t) + (WrittenItems(others) + [SequenceEnd]);
    }
  }

  lemma {:induction false} ParsedPairs(events: seq<Event>, pos: nat, g: Graph, n: nat) returns (ps: TreePairs)
    requires n < |g.store| && g.store[n].Mapping? && PairsAt(events, pos, g, n).Parsed?
    ensures var r := PairsAt(events, pos, g, n);
            && StandsAt(events, pos, WrittenPairs(ps) + [MappingEnd]) && r.pos == pos + |WrittenPairs(ps)| + 1
            && LayoutPairs(ps, g, n) == Some(r.graph)
    decreases |events| - pos, 1
  {
    hide StandsAt, Grow, Written, Layout, ParseAt;
    if events[pos] == MappingEnd {
      ps := NoPairs;
      assert WrittenPairs(ps) + [MappingEnd] == [MappingEnd];
      StandsOne(events, pos, MappingEnd);
    } else {
      var r := ParseAt(events, pos, g);
      var key := ParsedIsWritten(events, pos, g);
      var q := ParseAt(events, r.pos, r.graph);
      var value := ParsedIsWritten(events, r.pos, r.graph);
      GrowKeeps(q.graph, n, [|g.store|, |r.graph.store|]);
      var others := ParsedPairs(events, q.pos, Grow(q.graph, n, [|g.store|, |r.graph.store|]), n);
      ps := MorePairs(key, value, others);
      StandsParts(events, pos, Written(key), Written(value) + (WrittenPairs(others) + [MappingEnd]));
      StandsParts(events, r.pos, Written(value), WrittenPairs(others) + [MappingEnd]);
      assert WrittenPairs(ps) + [MappingEnd] == Written(key) + (Written(value) + (WrittenPairs(others) + [MappingEnd]));
    }
  }

  /** Parsing keeps a graph well formed: in particular, every alias means the node that last took its name. */
  lemma {:induction false} ParsedIsValid(events: seq<Event>, pos: nat, g: Graph)
    requires ValidGraph(g) && ParseAt(events, pos, g).Parsed?
    ensures ValidGraph(ParseAt(events, pos, g).graph)
    decreases |events| - pos, 0
  {
    hide ValidGraph, AddNode, ItemsAt, PairsAt;
    match events[pos] {
      case ScalarEvent(anchor, value, tag, implicit) => AddNodeValid(g, Scalar(value, tag, implicit), anchor);
      case AliasEvent(name) => AddNodeValid(g, Alias(name, g.anchors[name]), None);
      case SequenceStart(anchor) =>
        AddNodeValid(g, Sequence([]), anchor);
        AddedNode(g, Sequence([]), anchor);
        ItemsAreValid(events, pos + 1, AddNode(g, Sequence([]), anchor), |g.store|);
      case MappingStart(anchor) =>
        AddNodeValid(g, Mapping([]), anchor);
        AddedNode(g, Mapping([]), anchor);
        PairsAreValid(events, pos + 1, AddNode(g, Mapping([]), anchor), |g.store|);
    }
  }

  lemma {:induction false} ItemsAreValid(events: seq<Event>, pos: nat, g: Graph, n: nat)
    requires n < |g.store| && g.store[n].Sequence? && ValidGraph(g) && ItemsAt(events, pos, g, n).Parsed?
    ensures ValidGraph(ItemsAt(events, pos, g, n).graph)
    decreases |events| - pos, 1
  {
    hide ValidGraph, ParseAt, Grow;
    if events[pos] != SequenceEnd {
      var r := ParseAt(events, pos, g);
      ParsedIsValid(events, pos, g);
      GrowValid(r.graph, n, [|g.store|]);
      GrowKeeps(r.graph, n, [|g.store|]);
      ItemsAreValid(events, r.pos, Grow(r.graph, n, [|g.store|]), n);
    }
  }

  lemma {:induction false} PairsAreValid(events: seq<Event>, pos: nat, g: Graph, n: nat)
    requires n < |g.store| && g.store[n].Mapping? && ValidGraph(g) && PairsAt(events, pos, g, n).Parsed?
    ensures ValidGraph(PairsAt(events, pos, g, n).graph)
    decreases |events| - pos, 1
  {
    hide ValidGraph, ParseAt, Grow;
    if events[pos] != MappingEnd {
      var r := ParseAt(events, pos, g);
      var q := ParseAt(events, r.pos, r.graph);
      ParsedIsValid(events, pos, g);
      ParsedIsValid(events, r.pos, r.graph);
      GrowValid(q.graph, n, [|g.store|, |r.graph.store|]);
      GrowKeeps(q.graph, n, [|g.store|, |r.graph.store|]);
      PairsAreValid(events, q.pos, Grow(q.graph, n, [|g.store|, |r.graph.store|]), n);
    }
  }

  // ---------------------------------------------------------------- nodes in the order of their events

  /** An event that begins a node. */
  predicate Begins(e: Event) {
    e != SequenceEnd && e != MappingEnd
  }

  function Beginnings(events: seq<Event>): seq<Event> {
    if events == [] then [] else Beginnings(events[..|events| - 1]) + if Begins(events[|events| - 1]) then [events[|events| - 1]] else []
  }

  /** The k-th node is of the kind, and has the name, that the event says. */
  predicate MadeFrom(g: Graph, k: nat, e: Event)
    requires k < |g.store| && k < |g.names|
  {
    match e
    case ScalarEvent(anchor, value, tag, implicit) => g.store[k] == Scalar(value, tag, implicit) && g.names[k] == anchor
    case AliasEvent(name) => g.store[k].Alias? && g.store[k].name == name && g.names[k] == None
    case SequenceStart(anchor) => g.store[k].Sequence? && g.names[k] == anchor
    case MappingStart(anchor) => g.store[k].Mapping? && g.names[k] == anchor
    case _ => false
  }

  /** The nodes from lo on are made, one by one, from the beginnings. */
  predicate Numbered(g: Graph, lo: nat, begun: seq<Event>) {
    |g.store| == |g.names| == lo + |begun| && forall k :: 0 <= k < |begun| ==> MadeFrom(g, lo + k, begun[k])
  }

  lemma BeginningsMore(events: seq<Event>, lo: nat, pos: nat)
    requires lo <= pos < |events|
    ensures Beginnings(events[lo..pos + 1]) ==
            if Begins(events[pos]) then Beginnings(events[lo..pos]) + [events[pos]] else Beginnings(events[lo..pos])
    ensures Beginnings(events[lo..lo]) == []
  {
    assert events[lo..pos + 1][..pos - lo] == events[lo..pos];
  }

  lemma NumberedMore(g: Graph, lo: nat, begun: seq<Event>, node: Node, anchor: Option<string>, e: Event)
    requires Numbered(g, lo, begun)
    requires var h := AddNode(g, node, anchor);
             |h.store| == |g.store| + 1 && |h.names| == |g.names| + 1 && MadeFrom(h, |g.store|, e)
    ensures Numbered(AddNode(g, node, anchor), lo, begun + [e])
  {
  }

  lemma NumberedGrow(g: Graph, lo: nat, begun: seq<Event>, n: nat, more: seq<nat>)
    requires Numbered(g, lo, begun) && n < |g.store| && (g.store[n].Sequence? || g.store[n].Mapping?)
    ensures Numbered(Grow(g, n, more), lo, begun)
  {
    var h := Grow(g, n, more);
    forall k | 0 <= k < |begun|
      ensures MadeFrom(h, lo + k, begun[k])
    {
      assert MadeFrom(g, lo + k, begun[k]);
    }
  }

  /**
   Nodes are numbered in the order in which their events begin. With ParsedIsValid, by which an alias means
   the node that last took its name before it, this says what every alias of a stream of events means.
   */
  lemma {:induction false} ParsedInOrder(events: seq<Event>, lo: nat, pos: nat, base: nat, g: Graph)
    requires lo <= pos && ParseAt(events, pos, g).Parsed? && Numbered(g, base, Beginnings(events[lo..pos]))
    ensures var r := ParseAt(events, pos, g); Numbered(r.graph, base, Beginnings(events[lo..r.pos]))
    decreases |events| - pos, 0
  {
    hide Numbered, AddNode, ItemsAt, PairsAt, Beginnings;
    var begun, e := Beginnings(events[lo..pos]), events[pos];
    BeginningsMore(events, lo, pos);
    match e {
      case ScalarEvent(anchor, value, tag, implicit) =>
        MadeNode(g, base, begun, Scalar(value, tag, implicit), anchor, e);
      case AliasEvent(name) => MadeNode(g, base, begun, Alias(name, g.anchors[name]), None, e);
      case SequenceStart(anchor) =>
        MadeNode(g, base, begun, Sequence([]), anchor, e);
        AddedNode(g, Sequence([]), anchor);
        ItemsInOrder(events, lo, pos + 1, base, AddNode(g, Sequence([]), anchor), |g.store|);
      case MappingStart(anchor) =>
        MadeNode(g, base, begun, Mapping([]), anchor, e);
        AddedNode(g, Mapping([]), anchor);
        PairsInOrder(events, lo, pos + 1, base, AddNode(g, Mapping([]), anchor), |g.store|);
    }
  }

  lemma MadeNode(g: Graph, base: nat, begun: seq<Event>, node: Node, anchor: Option<string>, e: Event)
    requires Numbered(g, base, begun)
    requires match e
             case ScalarEvent(a, value, tag, implicit) => node == Scalar(value, tag, implicit) && anchor == a
             case AliasEvent(name) => node.Alias? && node.name == name && anchor == None
             case SequenceStart(a) => node.Sequence? && anchor == a
             case MappingStart(a) => node.Mapping? && anchor == a
             case _ => false
    ensures Numbered(AddNode(g, node, anchor), base, begun + [e])
  {
    NumberedMore(g, base, begun, node, anchor, e);
  }

  lemma {:induction false} ItemsInOrder(events: seq<Event>, lo: nat, pos: nat, base: nat, g: Graph, n: nat)
    requires n < |g.store| && g.store[n].Sequence? && ItemsAt(events, pos, g, n).Parsed?
    requires lo <= pos && Numbered(g, base, Beginnings(events[lo..pos]))
    ensures var r := ItemsAt(events, pos, g, n); Numbered(r.graph, base, Beginnings(events[lo..r.pos]))
    decreases |events| - pos, 1
  {
    hide Numbered, ParseAt, Grow, Beginnings;
    if events[pos] == SequenceEnd {
      BeginningsMore(events, lo, pos);
    } else {
      var r := ParseAt(events, pos, g);
      ParsedInOrder(events, lo, pos, base, g);
      NumberedGrow(r.graph, base, Beginnings(events[lo..r.pos]), n, [|g.store|]);
      GrowKeeps(r.graph, n, [|g.store|]);
      ItemsInOrder(events, lo, r.pos, base, Grow(r.graph, n, [|g.store|]), n);
    }
  }

  lemma {:induction false} PairsInOrder(events: seq<Event>, lo: nat, pos: nat, base: nat, g: Graph, n: nat)
    requires n < |g.store| && g.store[n].Mapping? && PairsAt(events, pos, g, n).Parsed?
    requires lo <= pos && Numbered(g, base, Beginnings(events[lo..pos]))
    ensures var r := PairsAt(events, pos, g, n); Numbered(r.graph, base, Beginnings(events[lo..r.pos]))
    decreases |events| - pos, 1
  {
    hide Numbered, ParseAt, Grow, Beginnings;
    if events[pos] == MappingEnd {
      BeginningsMore(events, lo, pos);
    } else {
      var r := ParseAt(events, pos, g);
      ParsedInOrder(events, lo, pos, base, g);
      var q := ParseAt(events, r.pos, r.graph);
      ParsedInOrder(events, lo, r.pos, base, r.graph);
      NumberedGrow(q.graph, base, Beginnings(events[lo..q.pos]), n, [|g.store|, |r.graph.store|]);
      GrowKeeps(q.graph, n, [|g.store|, |r.graph.store|]);
      PairsInOrder(events, lo, q.pos, base, Grow(q.graph, n, [|g.store|, |r.graph.store|]), n);
    }
  }

  // ---------------------------------------------------------------- the parser's methods

  class Parser {
    const events: seq<Event>
    var pos: nat
    var graph: Graph

    constructor (events: seq<Event>)
      ensures this.events == events && pos == 0 && graph == EMPTY
    {
      this.events, pos, graph := events, 0, EMPTY;
    }

    /** A node without children is made from the event at hand, which is consumed. */
    method Node(node: Node, anchor: Option<string>)
      requires pos < |events|
      modifies this
      ensures pos == old(pos) + 1 && graph == AddNode(old(graph), node, anchor)
    {
      graph := AddNode(graph, node, anchor);
      pos := pos + 1;
    }

    /** Parses one node. */
    method Parse() returns (n: nat, error: ParseError)
      modifies this
      ensures match ParseAt(events, old(pos), old(graph))
              case Refused(e) => error == e
              case Parsed(h, q) => error == NoError && graph == h && pos == q && n == |old(graph).store|
      decreases |events| - pos, 1
    {
      hide AddNode, ItemsAt, PairsAt;
      n := |graph.store|;
      error := NoError;
      if pos >= |events| {
        return n, NoMoreEvents;
      }
      match events[pos] {
        case ScalarEvent(anchor, value, tag, implicit) =>
          Node(Scalar(value, tag, implicit), anchor);
        case AliasEvent(name) =>
          if name !in graph.anchors {
            return n, UnknownAnchor;
          }
          Node(Alias(name, graph.anchors[name]), None);
        case SequenceStart(anchor) =>
          AddedNode(graph, Sequence([]), anchor);
          Node(Sequence([]), anchor);
          error := ParseSequence(n);
        case MappingStart(anchor) =>
          AddedNode(graph, Mapping([]), anchor);
          Node(Mapping([]), anchor);
          error := ParseMapping(n);
        case SequenceEnd =>
          error := UnexpectedEvent;
        case MappingEnd =>
          error := UnexpectedEvent;
      }
    }

    /** The items of sequence n, up to its end. */
    method ParseSequence(n: nat) returns (error: ParseError)
      requires n < |graph.store| && graph.store[n].Sequence?
      modifies this
      ensures match ItemsAt(events, old(pos), old(graph), n)
              case Refused(e) => error == e
              case Parsed(h, q) => error == NoError && graph == h && pos == q
      decreases |events| - pos, 2
    {
      hide ParseAt, Grow;
      while true
        invariant n < |graph.store| && graph.store[n].Sequence? && pos >= old(pos)
        invariant ItemsAt(events, pos, graph, n) == ItemsAt(events, old(pos), old(graph), n)
        decreases |events| - pos
      {
        if pos >= |events| {
          return NoMoreEvents;
        }
        if events[pos] == SequenceEnd {
          pos := pos + 1;
          return NoError;
        }
        ghost var before := graph;
        var c;
        c, error := Parse();
        if error != NoError {
          return;
        }
        GrowKeeps(graph, n, [c]);
        graph := Grow(graph, n, [c]);
      }
    }

    /** The keys and values of mapping n, up to its end. */
    method ParseMapping(n: nat) returns (error: ParseError)
      requires n < |graph.store| && graph.store[n].Mapping?
      modifies this
      ensures match PairsAt(events, old(pos), old(graph), n)
              case Refused(e) => error == e
              case Parsed(h, q) => error == NoError && graph == h && pos == q
      decreases |events| - pos, 2
    {
      hide ParseAt, Grow;
      while true
        invariant n < |graph.store| && graph.store[n].Mapping? && pos >= old(pos)
        invariant PairsAt(events, pos, graph, n) == PairsAt(events, old(pos), old(graph), n)
        decreases |events| - pos
      {
        if pos >= |events| {
          return NoMoreEvents;
        }
        if events[pos] == MappingEnd {
          pos := pos + 1;
          return NoError;
        }
        var key, value;
        key, error := Parse();
        if error != NoError {
          return;
        }
        value, error := Parse();
        if error != NoError {
          return;
        }
        GrowKeeps(graph, n, [key, value]);
        graph := Grow(graph, n, [key, value]);
      }
    }
  }

  /** The document a finished graph amounts to. */
  function DocOf(g: Graph, resolve: Node -> Resolved): Doc {
    Doc(g.store, g.anchors, resolve)
  }

  // The events of [&p [{<<: &s [*p]}], *s, &p {}].
  const REDEFINED_EVENTS: seq<Event> := [
    SequenceStart(None), SequenceStart(Some("p")), MappingStart(None), ScalarEvent(None, "<<", "", true),
    SequenceStart(Some("s")), AliasEvent("p"), SequenceEnd, MappingEnd, SequenceEnd,
    AliasEvent("s"), MappingStart(Some("p")), MappingEnd, SequenceEnd]

  // One step each of the parser.

  lemma ItemStep(events: seq<Event>, pos: nat, g: Graph, n: nat, h: Graph, q: nat)
    requires n < |g.store| && g.store[n].Sequence? && pos < |events| && events[pos] != SequenceEnd
    requires ParseAt(events, pos, g) == Parsed(h, q)
    ensures n < |h.store| && h.store[n].Sequence? && Grow(h, n, [|g.store|]).store[n].Sequence?
    ensures ItemsAt(events, pos, g, n) == ItemsAt(events, q, Grow(h, n, [|g.store|]), n)
  {
  }

  lemma ItemsEnd(events: seq<Event>, pos: nat, g: Graph, n: nat)
    requires n < |g.store| && g.store[n].Sequence? && pos < |events| && events[pos] == SequenceEnd
    ensures ItemsAt(events, pos, g, n) == Parsed(g, pos + 1)
  {
  }

  lemma OnlyPair(events: seq<Event>, pos: nat, g: Graph, n: nat, h: Graph, middle: nat, i: Graph, q: nat)
    requires n < |g.store| && g.store[n].Mapping? && pos < |events| && events[pos] != MappingEnd
    requires ParseAt(events, pos, g) == Parsed(h, middle) && ParseAt(events, middle, h) == Parsed(i, q)
    requires q < |events| && events[q] == MappingEnd
    ensures n < |i.store| && i.store[n].Mapping?
    ensures PairsAt(events, pos, g, n) == Parsed(Grow(i, n, [|g.store|, |h.store|]), q + 1)
  {
    assert PairsAt(events, q, Grow(i, n, [|g.store|, |h.store|]), n).Parsed?;
  }

  lemma OneNode(events: seq<Event>, pos: nat, g: Graph)
    requires pos < |events|
    ensures match events[pos]
            case ScalarEvent(anchor, value, tag, implicit) =>
              ParseAt(events, pos, g) == Parsed(AddNode(g, Scalar(value, tag, implicit), anchor), pos + 1)
            case AliasEvent(name) =>
              name in g.anchors ==> ParseAt(events, pos, g) == Parsed(AddNode(g, Alias(name, g.anchors[name]), None), pos + 1)
            case SequenceStart(anchor) =>
              var h, n := AddNode(g, Sequence([]), anchor), |g.store|;
              n < |h.store| && h.store[n] == Sequence([]) && ParseAt(events, pos, g) == ItemsAt(events, pos + 1, h, n)
            case MappingStart(anchor) =>
              var h, n := AddNode(g, Mapping([]), anchor), |g.store|;
              n < |h.store| && h.store[n] == Mapping([]) && ParseAt(events, pos, g) == PairsAt(events, pos + 1, h, n)
            case _ => true
  {
  }

  /** A node is added, or grows, to a graph given in full. */
  lemma AddedTo(g: Graph, node: Node, anchor: Option<string>, h: Graph)
    requires h.store == g.store + [node] && h.names == g.names + [anchor]
    requires h.anchors == if anchor.Some? then g.anchors[anchor.value := |g.store|] else g.anchors
    ensures AddNode(g, node, anchor) == h
  {
  }

  lemma GrownTo(g: Graph, n: nat, more: seq<nat>, node: Node, h: Graph)
    requires n < |g.store| && (g.store[n].Sequence? || g.store[n].Mapping?)
    requires node.Sequence? == g.store[n].Sequence? && node.Mapping? == g.store[n].Mapping?
    requires Children(node) == Children(g.store[n]) + more && h == g.(store := g.store[n := node])
    ensures Grow(g, n, more) == h
  {
  }

  const MERGE_KEY: Node := Scalar("<<", "", true)

  // The graph after the root has begun, after *p, after the first item, and before the last item.
  const REDEFINED_1: Graph := Graph([Sequence([])], [None], map[])

  const REDEFINED_5: Graph := Graph(
    [Sequence([]), Sequence([]), Mapping([]), MERGE_KEY, Sequence([])],
    [None, Some("p"), None, None, Some("s")], map["p" := 1, "s" := 4])

  const REDEFINED_6: Graph := Graph(
    [Sequence([]), Sequence([2]), Mapping([3, 4]), MERGE_KEY, Sequence([5]), Alias("p", 1)],
    [None, Some("p"), None, None, Some("s"), None], map["p" := 1, "s" := 4])

  const REDEFINED_7: Graph := Graph(
    [Sequence([1, 6]), Sequence([2]), Mapping([3, 4]), MERGE_KEY, Sequence([5]), Alias("p", 1), Alias("s", 4)],
    [None, Some("p"), None, None, Some("s"), None, None], map["p" := 1, "s" := 4])

  /** The inner list, [*p]. */
  lemma RedefinedMerged()
    ensures ParseAt(REDEFINED_EVENTS, 4, REDEFINED_5.(store := REDEFINED_5.store[..4], names := REDEFINED_5.names[..4],
                                                      anchors := map["p" := 1])) ==
            Parsed(Graph(REDEFINED_5.store[4 := Sequence([5])] + [Alias("p", 1)], REDEFINED_5.names + [None], REDEFINED_5.anchors), 7)
  {
    var events, g := REDEFINED_EVENTS, REDEFINED_5;
    var g4 := g.(store := g.store[..4], names := g.names[..4], anchors := map["p" := 1]);
    var g6 := Graph(g.store + [Alias("p", 1)], g.names + [None], g.anchors);
    var g7 := g6.(store := g6.store[4 := Sequence([5])]);
    assert events[4] == SequenceStart(Some("s")) && events[5] == AliasEvent("p") && events[6] == SequenceEnd;
    AddedTo(g4, Sequence([]), Some("s"), g);
    AddedTo(g, Alias("p", 1), None, g6);
    GrownTo(g6, 4, [5], Sequence([5]), g7);
    hide AddNode, Grow, ParseAt, ItemsAt;
    OneNode(events, 4, g4);
    OneNode(events, 5, g);
    ItemStep(events, 5, g, 4, g6, 6);
    ItemsEnd(events, 6, g7, 4);
    assert g7.store == g.store[4 := Sequence([5])] + [Alias("p", 1)];
  }

  lemma RedefinedFirst()
    ensures ParseAt(REDEFINED_EVENTS, 1, REDEFINED_1) == Parsed(REDEFINED_6, 9)
  {
    var events, s, a := REDEFINED_EVENTS, REDEFINED_5.store, map["p" := 1];
    assert events[1] == SequenceStart(Some("p")) && events[2] == MappingStart(None) && events[7] == MappingEnd;
    assert events[3] == ScalarEvent(None, "<<", "", true) && events[8] == SequenceEnd;
    var g2 := Graph(s[..2], REDEFINED_5.names[..2], a);
    var g3 := Graph(s[..3], REDEFINED_5.names[..3], a);
    var g4 := Graph(s[..4], REDEFINED_5.names[..4], a);
    var g7 := Graph(s[4 := Sequence([5])] + [Alias("p", 1)], REDEFINED_5.names + [None], REDEFINED_5.anchors);
    var g8 := g7.(store := g7.store[2 := Mapping([3, 4])]);
    AddedTo(REDEFINED_1, Sequence([]), Some("p"), g2);
    AddedTo(g2, Mapping([]), None, g3);
    AddedTo(g3, MERGE_KEY, None, g4);
    GrownTo(g7, 2, [3, 4], Mapping([3, 4]), g8);
    GrownTo(g8, 1, [2], Sequence([2]), REDEFINED_6);
    RedefinedMerged();
    hide AddNode, Grow, ParseAt, ItemsAt, PairsAt;
    OneNode(events, 1, REDEFINED_1);
    OneNode(events, 2, g2);
    OneNode(events, 3, g3);
    OnlyPair(events, 3, g3, 2, g4, 4, g7, 7);
    ItemStep(events, 2, g2, 1, g8, 8);
    ItemsEnd(events, 8, REDEFINED_6, 1);
  }

  /** The graph that the decoder refuses although it is finite is what these events are parsed to. */
  lemma RedefinedIsParsed()
    ensures var r := ParseAt(REDEFINED_EVENTS, 0, EMPTY);
            r.Parsed? && r.pos == |REDEFINED_EVENTS| && DocOf(r.graph, REDEFINED.resolve) == REDEFINED
  {
    hide AddNode, Grow, ParseAt, ItemsAt, PairsAt;
    var events := REDEFINED_EVENTS;
    assert events[0] == SequenceStart(None) && events[1] != SequenceEnd && events[9] == AliasEvent("s");
    assert events[10] == MappingStart(Some("p")) && events[12] == SequenceEnd;
    RedefinedGraphs();
    RedefinedFirst();
    EmptyMapping();
    OneNode(events, 0, EMPTY);
    ItemStep(events, 1, REDEFINED_1, 0, REDEFINED_6, 9);
    OneNode(events, 9, REDEFINED_9);
    ItemStep(events, 9, REDEFINED_9, 0, REDEFINED_10, 10);
    OneNode(events, 10, REDEFINED_7);
    ItemStep(events, 10, REDEFINED_7, 0, REDEFINED_12, 12);
    ItemsEnd(events, 12, REDEFINED_12.(store := REDEFINED.store), 0);
  }

  lemma EmptyMapping()
    ensures PairsAt(REDEFINED_EVENTS, 11, REDEFINED_12, 7) == Parsed(REDEFINED_12, 12)
  {
    assert REDEFINED_EVENTS[11] == MappingEnd;
  }

  // The graph with the first item, with *s, and with the last mapping.
  const REDEFINED_9: Graph := REDEFINED_6.(store := REDEFINED_6.store[0 := Sequence([1])])
  const REDEFINED_10: Graph := Graph(REDEFINED_9.store + [Alias("s", 4)], REDEFINED_9.names + [None], REDEFINED_9.anchors)
  const REDEFINED_12: Graph :=
    Graph(REDEFINED_7.store + [Mapping([])], REDEFINED_7.names + [Some("p")], map["p" := 7, "s" := 4])

  lemma RedefinedGraphs()
    ensures AddNode(EMPTY, Sequence([]), None) == REDEFINED_1
    ensures Grow(REDEFINED_6, 0, [1]) == REDEFINED_9
    ensures AddNode(REDEFINED_9, Alias("s", 4), None) == REDEFINED_10
    ensures Grow(REDEFINED_10, 0, [6]) == REDEFINED_7
    ensures AddNode(REDEFINED_7, Mapping([]), Some("p")) == REDEFINED_12
    ensures Grow(REDEFINED_12, 0, [7]) == REDEFINED_12.(store := REDEFINED.store)
  {
    hide AddNode, Grow;
    AddedTo(EMPTY, Sequence([]), None, REDEFINED_1);
    GrownTo(REDEFINED_6, 0, [1], Sequence([1]), REDEFINED_9);
    AddedTo(REDEFINED_9, Alias("s", 4), None, REDEFINED_10);
    GrownTo(REDEFINED_10, 0, [6], Sequence([1, 6]), REDEFINED_7);
    AddedTo(REDEFINED_7, Mapping([]), Some("p"), REDEFINED_12);
    GrownTo(REDEFINED_12, 0, [7], Sequence([1, 6, 7]), REDEFINED_12.(store := REDEFINED.store));
  }

  /** Every graph that the parser can build is one the decoder can take, cycles and all. */
  lemma ParsedIsDecodable(g: Graph, resolve: Node -> Resolved)
    requires ValidGraph(g)
    ensures Valid(DocOf(g, resolve))
  {
    forall s | s in g.anchors
      ensures g.anchors[s] < |g.store|
    {
      assert IsLast(g.names, s, g.anchors[s], |g.names|);
    }
  }

  /** The finite unrolling of a graph, or the refusal of an infinite one. */
  ghost predicate DecodedFrom(g: Graph, resolve: Node -> Resolved, r: Outcome<Value>)
    requires ValidGraph(g) && |g.store| > 0
  {
    ParsedIsDecodable(g, resolve);
    var doc := DocOf(g, resolve);
    && r != OutOfFuel
    && (r != Failed(SelfReference) ==> r == Unrolled(doc, 0, |AliasNodes(g.store)|))
    && ((forall k: nat :: Unrolled(doc, 0, k) == OutOfFuel) <==>
          r == Failed(SelfReference) && CarefullyDecoded(doc, 0) == Failed(SelfReference))
    && (Stable(doc) && r == Failed(SelfReference) ==> CarefullyDecoded(doc, 0) == Failed(SelfReference))
  }

  /**
   From events to data. Whatever the events are, this ends. It fails to parse just when the events begin with
   no node whose aliases have a meaning; it refuses all that unrolls for ever, and nothing else, provided that no
   merge sees an anchor that changed from something else to a mapping.
   */
  method Load(events: seq<Event>, resolve: Node -> Resolved) returns (error: ParseError, r: Outcome<Value>)
    ensures error == NoError <==> exists t :: Written(t) <= events && Layout(t, EMPTY).Some?
    ensures forall t :: Written(t) <= events && Layout(t, EMPTY).Some? ==>
      var g := Layout(t, EMPTY).value;
      ValidGraph(g) && |g.store| > 0 && DecodedFrom(g, resolve, r)
  {
    hide ValidGraph, Eval, Stable, ParseAt, Written, Layout, Unrolled, CarefullyDecoded;
    r := OutOfFuel;
    var p := new Parser(events);
    EmptyIsValid();
    var n;
    n, error := p.Parse();
    if error == NoError {
      ghost var g := p.graph;
      var doc := DocOf(p.graph, resolve);
      ParsedIsValid(events, 0, EMPTY);
      ParsedIsDecodable(g, resolve);
      var d := new Decoder(doc);
      r := d.Unmarshal(n);
      if r != Failed(SelfReference) {
        DecodesTheUnrolling(doc, n, |AliasNodes(doc.store)|);
      }
      CarefulIsExact(doc, n);
      RefusedThoughFinite(doc, n);
      if Stable(doc) {
        RefusesExactlyTheInfinite(doc, n);
      }
      assert DecodedFrom(g, resolve, r);
      ghost var t := ParsedIsWritten(events, 0, EMPTY);
      assert Written(t) <= events && Layout(t, EMPTY).Some?;
    }
    forall t | Written(t) <= events
      ensures ParseAt(events, 0, EMPTY) ==
              if Layout(t, EMPTY).Some? then Parsed(Layout(t, EMPTY).value, 0 + |Written(t)|) else Refused(UnknownAnchor)
    {
      assert events[0..0 + |Written(t)|] == Written(t);
      WrittenIsParsed(t, events, 0, EMPTY);
    }
  }

  lemma EmptyIsValid()
    ensures ValidGraph(EMPTY)
  {
  }
}
