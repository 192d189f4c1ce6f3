/**
 Tables of a TOML document (section "Table" of TOML v0.4.0): headers open a table and create those above it
 implicitly; an implicit table may be defined once more, by a header or a key of its own. The parser remembers
 which tables are implicit under their dotted names.
 */
module TomlTables {
  import opened Strings
  import opened Wrappers

  type Key = seq<string>

  // A value is a table or something else; inline tables are tables.
  datatype Entry = Table(entries: map<string, Entry>) | Leaf(value: int)

  type Hash = map<string, Entry>

  /** What a path leads to. */
  function Lookup(h: Hash, path: Key): Option<Entry>
    decreases |path|
  {
    if path == [] then Some(Table(h))
    else if path[0] !in h then None
    else if |path| == 1 then Some(h[path[0]])
    else
      match h[path[0]]
      case Table(inner) => Lookup(inner, path[1..])
      case Leaf(_) => None
  }

  predicate IsTable(h: Hash, path: Key) {
    Lookup(h, path).Some? && Lookup(h, path).value.Table?
  }

  /** Binds a name in the table at path. */
  function Put(h: Hash, path: Key, name: string, e: Entry): Hash
    requires IsTable(h, path)
    decreases |path|
  {
    if path == [] then h[name := e]
    else
      LookupTail(h, path);
      h[path[0] := Table(Put(h[path[0]].entries, path[1..], name, e))]
  }

  lemma LookupTail(h: Hash, path: Key)
    requires path != [] && IsTable(h, path)
    ensures path[0] in h && h[path[0]].Table? && IsTable(h[path[0]].entries, path[1..])
  {
    if |path| == 1 {
      assert path[1..] == [];
    }
  }

  /** A path of two parts leads where its second part leads from the table of the first. */
  lemma {:induction false} LookupAppend(h: Hash, a: Key, b: Key)
    requires b != []
    ensures Lookup(h, a + b) == if IsTable(h, a) then Lookup(Lookup(h, a).value.entries, b) else None
    decreases |a|
  {
    if a == [] {
      assert a + b == b;
    } else {
      assert (a + b)[1..] == a[1..] + b;
      if a[0] in h && h[a[0]].Table? {
        LookupAppend(h[a[0]].entries, a[1..], b);
        if |a| == 1 {
          assert a[1..] == [];
        }
      }
    }
  }

  /** All tables and values of h are still there in k. */
  ghost predicate Keeps(h: Hash, k: Hash) {
    forall q :: Lookup(h, q).Some? ==>
      Lookup(k, q).Some? && (if Lookup(h, q).value.Table? then Lookup(k, q).value.Table? else Lookup(k, q) == Lookup(h, q))
  }

  lemma KeepsTwice(h: Hash, k: Hash, l: Hash)
    requires Keeps(h, k) && Keeps(k, l)
    ensures Keeps(h, l)
  {
  }

  /** Binding a new name changes what the new path leads to and nothing that was there before. */
  lemma {:induction false} PutAt(h: Hash, path: Key, name: string, e: Entry, q: Key)
    requires IsTable(h, path) && Lookup(h, path + [name]) == None
    ensures var k := Put(h, path, name, e);
            && Lookup(k, path + [name]) == Some(e)
            && (Lookup(h, q).Some? ==>
                  Lookup(k, q).Some? &&
                  (if Lookup(h, q).value.Table? then Lookup(k, q).value.Table? else Lookup(k, q) == Lookup(h, q)))
    decreases |path|
  {
    if path == [] {
      assert path + [name] == [name];
      assert |q| > 0 && q[0] == name ==> Lookup(h, q) == None;
    } else {
      LookupTail(h, path);
      var inner := h[path[0]].entries;
      assert (path + [name])[1..] == path[1..] + [name];
      if q != [] && q[0] == path[0] {
        PutAt(inner, path[1..], name, e, q[1..]);
        if |q| > 1 {
          assert Lookup(h, q) == Lookup(inner, q[1..]);
        }
      } else {
        PutAt(inner, path[1..], name, e, []);
      }
    }
  }

  lemma PutKeeps(h: Hash, path: Key, name: string, e: Entry)
    requires IsTable(h, path) && Lookup(h, path + [name]) == None
    ensures Keeps(h, Put(h, path, name, e)) && Lookup(Put(h, path, name, e), path + [name]) == Some(e)
  {
    hide Lookup, Put;
    PutAt(h, path, name, e, []);
    forall q | Lookup(h, q).Some?
      ensures var k := Put(h, path, name, e);
              Lookup(k, q).Some? && (if Lookup(h, q).value.Table? then Lookup(k, q).value.Table? else Lookup(k, q) == Lookup(h, q))
    {
      PutAt(h, path, name, e, q);
    }
  }

  predicate IsLeaf(h: Hash, path: Key) {
    Lookup(h, path).Some? && Lookup(h, path).value.Leaf?
  }

  /** What a path leads to inside an entry. */
  function Inside(e: Entry, rest: Key): Option<Entry> {
    if rest == [] then Some(e) else if e.Table? then Lookup(e.entries, rest) else None
  }

  /** Binding a new name makes its path, and what continues it, lead into the entry; all other paths lead where they did. */
  lemma {:induction false} PutExact(h: Hash, path: Key, name: string, e: Entry, q: Key)
    requires IsTable(h, path) && Lookup(h, path + [name]) == None && q != [] && !(q <= path)
    ensures Lookup(Put(h, path, name, e), q) ==
            if path + [name] <= q then Inside(e, q[|path| + 1..]) else Lookup(h, q)
    decreases |path|
  {
    if path == [] {
      assert path + [name] == [name];
    } else {
      LookupTail(h, path);
      var inner := h[path[0]].entries;
      assert (path + [name])[1..] == path[1..] + [name];
      if q[0] == path[0] && |q| > 1 {
        assert q[1..] <= path[1..] ==> q <= path;
        PutExact(inner, path[1..], name, e, q[1..]);
        assert path + [name] <= q <==> path[1..] + [name] <= q[1..];
        if |q| > |path| {
          assert q[1..][|path|..] == q[|path| + 1..];
        }
      }
    }
  }

  /** In k, unlike in h, path leads to the value, if it led nowhere; all else is as it was. */
  ghost predicate WithValue(h: Hash, k: Hash, path: Key, value: Entry) {
    forall q :: if Lookup(h, path) == None && path <= q
                then (Lookup(k, q).Some? <==> Inside(value, q[|path|..]).Some?)
                     && (IsLeaf(k, q) <==> Inside(value, q[|path|..]).Some? && Inside(value, q[|path|..]).value.Leaf?)
                else (Lookup(k, q).Some? <==> Lookup(h, q).Some?) && (IsLeaf(k, q) <==> IsLeaf(h, q))
  }

  lemma NoValue(h: Hash, path: Key, value: Entry)
    requires Lookup(h, path).Some?
    ensures WithValue(h, h, path, value)
  {
  }

  lemma PutValue(h: Hash, path: Key, name: string, e: Entry)
    requires IsTable(h, path) && Lookup(h, path + [name]) == None
    ensures WithValue(h, Put(h, path, name, e), path + [name], e)
  {
    hide Lookup, Put, Inside;
    var k := Put(h, path, name, e);
    PutKeeps(h, path, name, e);
    forall q
      ensures if path + [name] <= q
              then (Lookup(k, q).Some? <==> Inside(e, q[|path| + 1..]).Some?)
                   && (IsLeaf(k, q) <==> Inside(e, q[|path| + 1..]).Some? && Inside(e, q[|path| + 1..]).value.Leaf?)
              else (Lookup(k, q).Some? <==> Lookup(h, q).Some?) && (IsLeaf(k, q) <==> IsLeaf(h, q))
    {
      if q == [] || q <= path {
        RootIsTable(h);
        PrefixIsTable(h, path, |q|);
        assert q == path[..|q|];
      } else {
        PutExact(h, path, name, e, q);
      }
    }
  }

  /** An empty table bound to a new name is the only path that is new. */
  lemma {:induction false} PutEmpty(h: Hash, path: Key, name: string, q: Key)
    requires IsTable(h, path) && Lookup(h, path + [name]) == None
    ensures Lookup(Put(h, path, name, Table(map[])), q).Some? ==> Lookup(h, q).Some? || q == path + [name]
    decreases |path|
  {
    if path == [] {
      assert path + [name] == [name];
      assert |q| == 1 && q[0] == name ==> q == [name];
      assert |q| > 1 ==> Lookup(map[], q[1..]) == None;
    } else {
      LookupTail(h, path);
      assert (path + [name])[1..] == path[1..] + [name];
      if |q| > 1 && q[0] == path[0] {
        PutEmpty(h[path[0]].entries, path[1..], name, q[1..]);
        assert q[1..] == path[1..] + [name] ==> q == [q[0]] + q[1..] == path + [name];
      }
    }
  }

  /** key's parents are tables or are not there. */
  predicate ParentsOpen(h: Hash, key: Key) {
    forall i :: 0 < i < |key| ==> Lookup(h, key[..i]) == None || IsTable(h, key[..i])
  }

  predicate ProperPrefix(k: Key, key: Key) {
    k <= key && |k| < |key|
  }

  // ---------------------------------------------------------------- dotted names

  predicate Dotless(key: Key) {
    forall part :: part in key ==> '.' !in part
  }

  function Dotted(key: Key): string {
    if key == [] then "" else Join(key, '.')
  }

  /** Keys without dots in their parts are told apart by their dotted names. */
  lemma DottedInjective(a: Key, b: Key)
    requires a != [] && b != [] && Dotless(a) && Dotless(b) && Dotted(a) == Dotted(b)
    ensures a == b
  {
    SplitJoin(a, '.');
    SplitJoin(b, '.');
  }

  /** Which names are marked implicit. */
  predicate Marked(implicits: map<string, bool>, key: Key) {
    Dotted(key) in implicits && implicits[Dotted(key)]
  }

  /** Every mark belongs to a path that leads to a table. */
  ghost predicate MarksTables(h: Hash, implicits: map<string, bool>) {
    forall s :: s in implicits && implicits[s] ==>
      exists key: Key :: key != [] && Dotless(key) && Dotted(key) == s && IsTable(h, key)
  }

  lemma MarkedIsTable(h: Hash, implicits: map<string, bool>, key: Key)
    requires MarksTables(h, implicits) && key != [] && Dotless(key) && Marked(implicits, key)
    ensures IsTable(h, key)
  {
    var other: Key :| other != [] && Dotless(other) && Dotted(other) == Dotted(key) && IsTable(h, other);
    DottedInjective(key, other);
  }

  lemma MarksStay(h: Hash, k: Hash, implicits: map<string, bool>)
    requires MarksTables(h, implicits) && Keeps(h, k)
    ensures MarksTables(k, implicits)
  {
    hide Lookup, Dotted;
    forall s | s in implicits && implicits[s]
      ensures exists key: Key :: key != [] && Dotless(key) && Dotted(key) == s && IsTable(k, key)
    {
      var key: Key :| key != [] && Dotless(key) && Dotted(key) == s && IsTable(h, key);
      assert IsTable(k, key);
    }
  }

  // ---------------------------------------------------------------- the parser

  datatype Outcome = Fine | Defined | NotATable | Bug

  datatype Op = Header(key: Key) | KeyValue(name: string, value: Entry)

  predicate ValidOp(op: Op) {
    match op
    case Header(key) => key != [] && Dotless(key)
    case KeyValue(name, _) => '.' !in name
  }

  class Parser {
    var mapping: Hash
    var context: Key
    var implicits: map<string, bool>
    ghost var headers: set<Key>

    constructor ()
      ensures Valid() && mapping == map[] && context == [] && implicits == map[] && headers == {}
    {
      mapping, context, implicits, headers := map[], [], map[], {};
      new;
      assert Dotless([]);
    }

    /** The context leads to a table, marks belong to tables, and no table opened by a header is marked. */
    ghost predicate Valid()
      reads this
    {
      && Dotless(context) && IsTable(mapping, context) && MarksTables(mapping, implicits)
      && forall k :: k in headers ==> k != [] && Dotless(k) && IsTable(mapping, k) && !Marked(implicits, k)
    }

    /**
     Gives a name in the current context a value. A name that leads to an implicit table may
     be given again once: then the table stays, the mark goes, and the value is forgotten.
     */
    method SetValue(name: string, value: Entry) returns (r: Outcome)
      requires Dotless(context) && '.' !in name && IsTable(mapping, context)
      modifies this`mapping, this`implicits
      ensures var path := old(context) + [name];
              && (Lookup(old(mapping), path) == None ==>
                    r == Fine && mapping == Put(old(mapping), context, name, value) && implicits == old(implicits))
              && (Lookup(old(mapping), path).Some? && Marked(old(implicits), path) ==>
                    r == Fine && mapping == old(mapping) && implicits == old(implicits)[Dotted(path) := false])
              && (Lookup(old(mapping), path).Some? && !Marked(old(implicits), path) ==>
                    r == Defined && mapping == old(mapping) && implicits == old(implicits))
    {
      hide Dotted;
      var keyContext: Key := [];
      for i := 0 to |context|
        invariant keyContext == context[..i] && mapping == old(mapping) && implicits == old(implicits)
      {
        keyContext := keyContext + [context[i]];
        assert keyContext == context[..i + 1];
        PrefixIsTable(mapping, context, i + 1);
        if Lookup(mapping, keyContext) == None || !Lookup(mapping, keyContext).value.Table? {
          return Bug;
        }
      }
      assert context[..|context|] == context;
      keyContext := keyContext + [name];
      if Lookup(mapping, keyContext).Some? {
        if Marked(implicits, keyContext) {
          implicits := implicits[Dotted(keyContext) := false];
          return Fine;
        }
        return Defined;
      }
      mapping := Put(mapping, context, name, value);
      r := Fine;
    }

    /** Opens the tables above key, creating and marking exactly those that are missing. */
    method OpenParents(key: Key) returns (r: Outcome)
      requires key != [] && Dotless(key) && Valid()
      modifies this`mapping, this`implicits
      ensures r == if ParentsOpen(old(mapping), key) then Fine else NotATable
      ensures Keeps(old(mapping), mapping) && MarksTables(mapping, implicits)
      ensures r == Fine ==> IsTable(mapping, key[..|key| - 1])
      ensures r == Fine ==> forall q :: Lookup(mapping, q).Some? ==> Lookup(old(mapping), q).Some? || ProperPrefix(q, key)
      ensures r == Fine ==> forall k: Key :: k != [] && Dotless(k) ==>
        (Marked(implicits, k) <==> Marked(old(implicits), k) || (Lookup(old(mapping), k) == None && ProperPrefix(k, key)))
    {
      hide Lookup, Dotted, Put, IsTable, Keeps, MarksTables, Marked, Dotless;
      RootIsTable(mapping);
      KeepsSelf(mapping);
      assert key[..0] == [];
      for i := 0 to |key| - 1
        invariant Keeps(old(mapping), mapping) && MarksTables(mapping, implicits) && IsTable(mapping, key[..i])
        invariant forall q :: Lookup(mapping, q).Some? ==> Lookup(old(mapping), q).Some? || (q <= key && |q| <= i)
        invariant forall k: Key :: k != [] && Dotless(k) ==>
          (Marked(implicits, k) <==> Marked(old(implicits), k) || (Lookup(old(mapping), k) == None && k <= key && |k| <= i))
        invariant forall j :: 0 < j <= i ==> Lookup(old(mapping), key[..j]) == None || IsTable(old(mapping), key[..j])
      {
        ghost var h, p := mapping, key[..i + 1];
        assert p == key[..i] + [key[i]];
        DottedPrefix(key, i + 1);
        if Lookup(mapping, key[..i + 1]) == None {
          CreateImplicit(mapping, implicits, key[..i], key[i]);
          MarkNew(implicits, p);
          OnlyNew(mapping, key[..i], key[i]);
          implicits := implicits[Dotted(key[..i + 1]) := true];
          mapping := Put(mapping, key[..i], key[i], Table(map[]));
          KeepsTwice(old(mapping), h, mapping);
          KeptNone(old(mapping), h, p);
          TableFound(mapping, p);
        } else {
          KeptSame(old(mapping), mapping, p);
          TableFound(mapping, p);
        }
        assert forall k: Key :: k <= key && |k| <= i + 1 <==> (k <= key && |k| <= i) || k == p;
        if !Lookup(mapping, key[..i + 1]).value.Table? {
          assert !ParentsOpen(old(mapping), key);
          return NotATable;
        }
      }
      r := Fine;
    }

    /**
     Opens the table key, which must be new or implicit so far. Its missing parents, and nothing else, become
     implicit tables; key itself is implicit no longer.
     */
    method EstablishContext(key: Key) returns (r: Outcome)
      requires key != [] && Dotless(key) && Valid()
      modifies this
      ensures r != Bug && Keeps(old(mapping), mapping)
      ensures r == Fine <==>
        ParentsOpen(old(mapping), key) && (Lookup(old(mapping), key) == None || Marked(old(implicits), key))
      ensures r == Fine ==> Valid() && context == key && headers == old(headers) + {key}
      ensures r == Fine ==> forall q :: Lookup(mapping, q).Some? <==> Lookup(old(mapping), q).Some? || q <= key
      ensures r == Fine ==> forall q :: IsLeaf(mapping, q) <==> IsLeaf(old(mapping), q)
      ensures r == Fine ==> forall k: Key :: k != [] && Dotless(k) ==>
        (Marked(implicits, k) <==>
           k != key && (Marked(old(implicits), k) || (Lookup(old(mapping), k) == None && ProperPrefix(k, key))))
      ensures key in old(headers) ==> r != Fine
    {
      hide Lookup, Dotted, Put, IsTable, Keeps, MarksTables, Marked, ParentsOpen;
      ghost var before := mapping;
      r := OpenParents(key);
      if r != Fine {
        return;
      }
      ghost var after, marks := mapping, implicits;
      var name, parent := key[|key| - 1], key[..|key| - 1];
      assert key == parent + [name];
      context := parent;
      KeptNone(before, after, key);
      HeadersBound(before, headers);
      assert Marked(marks, key) <==> Marked(old(implicits), key);
      if Lookup(after, key) == None {
        PutKeeps(after, parent, name, Table(map[]));
        MarksStay(after, Put(after, parent, name, Table(map[])), implicits);
        UnboundUnmarked(after, implicits, key);
        OnlyNew(after, parent, name);
      } else {
        ClearMark(after, implicits, key);
        TableFound(after, key);
        KeepsSelf(after);
      }
      r := SetValue(name, Table(map[]));
      KeepsTwice(before, after, mapping);
      if r != Fine {
        return;
      }
      context := key;
      headers := headers + {key};
      HeadersStay(before, mapping, old(headers), key);
      OpenedUpTo(before, after, mapping, key);
    }

    /** A key and its value in the current table. */
    method KeyValueLine(name: string, value: Entry) returns (r: Outcome)
      requires '.' !in name && Valid()
      modifies this`mapping, this`implicits
      ensures r != Bug && Keeps(old(mapping), mapping)
      ensures r == Fine ==> Valid()
      ensures var path := context + [name];
              && (r == Fine <==> Lookup(old(mapping), path) == None || Marked(old(implicits), path))
              && (r == Fine ==>
                    Lookup(mapping, path) == if Lookup(old(mapping), path) == None then Some(value) else Lookup(old(mapping), path))
              && (Lookup(old(mapping), path).Some? && r == Fine ==> IsTable(mapping, path))
      ensures r == Fine ==> WithValue(old(mapping), mapping, context + [name], value)
      ensures r == Fine ==> forall k: Key :: k != [] && Dotless(k) ==>
        (Marked(implicits, k) <==> Marked(old(implicits), k) && k != context + [name])
    {
      hide Lookup, Dotted, Put, WithValue, IsLeaf;
      ghost var path := context + [name];
      assert Dotless(path);
      if Lookup(mapping, path) == None {
        PutKeeps(mapping, context, name, value);
        MarksStay(mapping, Put(mapping, context, name, value), implicits);
        UnboundUnmarked(mapping, implicits, path);
        PutValue(mapping, context, name, value);
      } else {
        NoValue(mapping, path, value);
        ClearMark(mapping, implicits, path);
        KeepsSelf(mapping);
        if Marked(implicits, path) {
          MarkedIsTable(mapping, implicits, path);
        }
      }
      r := SetValue(name, value);
    }
  }

  lemma KeepsSelf(h: Hash)
    ensures Keeps(h, h)
  {
  }

  /** Nothing is marked that leads nowhere. */
  lemma UnboundUnmarked(h: Hash, implicits: map<string, bool>, key: Key)
    requires MarksTables(h, implicits) && key != [] && Dotless(key) && Lookup(h, key) == None
    ensures !Marked(implicits, key)
  {
    hide Lookup, Dotted;
    if Marked(implicits, key) {
      MarkedIsTable(h, implicits, key);
    }
  }

  /** Taking a mark away leaves the other marks as they were. */
  lemma ClearMark(h: Hash, implicits: map<string, bool>, key: Key)
    requires MarksTables(h, implicits) && key != [] && Dotless(key)
    ensures MarksTables(h, implicits[Dotted(key) := false])
    ensures Marked(implicits, key) ==> IsTable(h, key)
    ensures forall k: Key :: k != [] && Dotless(k) ==>
      (Marked(implicits[Dotted(key) := false], k) <==> k != key && Marked(implicits, k))
  {
    hide Lookup, Dotted;
    if Marked(implicits, key) {
      MarkedIsTable(h, implicits, key);
    }
    forall k: Key | k != [] && Dotless(k)
      ensures Marked(implicits[Dotted(key) := false], k) <==> k != key && Marked(implicits, k)
    {
      if Dotted(k) == Dotted(key) {
        DottedInjective(k, key);
      }
    }
  }

  lemma RootIsTable(h: Hash)
    ensures IsTable(h, [])
  {
  }

  lemma PrefixIsTable(h: Hash, path: Key, i: nat)
    requires IsTable(h, path) && i <= |path|
    ensures IsTable(h, path[..i])
  {
    assert path == path[..i] + path[i..];
    if i < |path| {
      LookupAppend(h, path[..i], path[i..]);
    } else {
      assert path[..i] == path;
    }
  }

  lemma DottedPrefix(key: Key, i: nat)
    requires Dotless(key) && 0 < i <= |key|
    ensures Dotless(key[..i]) && key[..i] != []
  {
  }

  /** A new table under a mark of its own. */
  lemma CreateImplicit(h: Hash, implicits: map<string, bool>, path: Key, name: string)
    requires IsTable(h, path) && Lookup(h, path + [name]) == None && Dotless(path + [name]) && MarksTables(h, implicits)
    ensures var k := Put(h, path, name, Table(map[]));
            Keeps(h, k) && IsTable(k, path + [name]) && MarksTables(k, implicits[Dotted(path + [name]) := true])
  {
    hide Lookup, Dotted, Put;
    var k, new_ := Put(h, path, name, Table(map[])), path + [name];
    PutKeeps(h, path, name, Table(map[]));
    MarksStay(h, k, implicits);
    assert IsTable(k, new_);
  }

  /** A new mark is that of one path only. */
  lemma MarkNew(implicits: map<string, bool>, key: Key)
    requires key != [] && Dotless(key)
    ensures forall k: Key :: k != [] && Dotless(k) ==>
      (Marked(implicits[Dotted(key) := true], k) <==> Marked(implicits, k) || k == key)
  {
    hide Dotted;
    forall k: Key | k != [] && Dotless(k)
      ensures Marked(implicits[Dotted(key) := true], k) <==> Marked(implicits, k) || k == key
    {
      if Dotted(k) == Dotted(key) {
        DottedInjective(k, key);
      }
    }
  }

  /** Opening a table makes the paths up to it, and no others, lead to tables. */
  lemma OpenedUpTo(before: Hash, after: Hash, now: Hash, key: Key)
    requires key != [] && Keeps(before, now) && IsTable(now, key)
    requires forall q :: Lookup(after, q).Some? ==> Lookup(before, q).Some? || ProperPrefix(q, key)
    requires forall q :: Lookup(now, q).Some? ==> Lookup(after, q).Some? || q == key
    ensures forall q :: Lookup(now, q).Some? <==> Lookup(before, q).Some? || q <= key
    ensures forall q :: IsLeaf(now, q) <==> IsLeaf(before, q)
  {
    hide Lookup;
    forall q
      ensures Lookup(now, q).Some? <==> Lookup(before, q).Some? || q <= key
      ensures IsLeaf(now, q) <==> IsLeaf(before, q)
    {
      if q <= key {
        assert q == key[..|q|];
        PrefixIsTable(now, key, |q|);
      }
    }
  }

  lemma OnlyNew(h: Hash, path: Key, name: string)
    requires IsTable(h, path) && Lookup(h, path + [name]) == None
    ensures forall q :: Lookup(Put(h, path, name, Table(map[])), q).Some? ==> Lookup(h, q).Some? || q == path + [name]
  {
    hide Lookup, Put;
    forall q | Lookup(Put(h, path, name, Table(map[])), q).Some?
      ensures Lookup(h, q).Some? || q == path + [name]
    {
      PutEmpty(h, path, name, q);
    }
  }

  lemma KeptNone(h: Hash, k: Hash, q: Key)
    requires Keeps(h, k)
    ensures Lookup(k, q) == None ==> Lookup(h, q) == None
  {
    hide Lookup;
  }

  lemma KeptSame(h: Hash, k: Hash, q: Key)
    requires Keeps(h, k)
    ensures Lookup(h, q).Some? && Lookup(k, q).Some? ==> Lookup(h, q).value.Table? == Lookup(k, q).value.Table?
    ensures Lookup(h, q).Some? ==> (IsTable(h, q) <==> IsTable(k, q))
  {
    hide Lookup;
  }

  lemma TableFound(h: Hash, q: Key)
    ensures IsTable(h, q) <==> Lookup(h, q).Some? && Lookup(h, q).value.Table?
  {
  }

  lemma HeadersBound(h: Hash, headers: set<Key>)
    requires forall k :: k in headers ==> IsTable(h, k)
    ensures forall k :: k in headers ==> Lookup(h, k).Some?
  {
    hide Lookup;
  }

  lemma HeadersStay(h: Hash, k: Hash, headers: set<Key>, key: Key)
    requires Keeps(h, k) && (forall q :: q in headers ==> IsTable(h, q)) && Lookup(k, key).Some? && Lookup(k, key).value.Table?
    ensures forall q :: q in headers + {key} ==> IsTable(k, q)
  {
    hide Lookup;
  }

  // ---------------------------------------------------------------- documents

  /** The table in which the i-th line stands. */
  function ContextAt(ops: seq<Op>, i: nat): Key
    requires i <= |ops|
  {
    if i == 0 then []
    else if ops[i - 1].Header? then ops[i - 1].key
    else ContextAt(ops, i - 1)
  }

  /** The path that a line defines. */
  function Target(ops: seq<Op>, i: nat): Key
    requires i < |ops|
  {
    match ops[i]
    case Header(key) => key
    case KeyValue(name, _) => ContextAt(ops, i) + [name]
  }

  /** No earlier header has opened a table at the path of this value, or below. */
  predicate Stays(ops: seq<Op>, i: nat)
    requires i < |ops|
  {
    ops[i].KeyValue? && forall j :: 0 <= j < i && ops[j].Header? ==> !(Target(ops, i) <= ops[j].key)
  }

  /** The i-th line's value stays and says something of the path. */
  predicate Reaches(ops: seq<Op>, i: nat, q: Key)
    requires i < |ops|
  {
    ops[i].KeyValue? && Stays(ops, i) && Target(ops, i) <= q && Inside(ops[i].value, q[|Target(ops, i)|..]).Some?
  }

  /** The i-th line by itself defines the path: its own, or one inside its value. */
  predicate Defines(ops: seq<Op>, i: nat, q: Key)
    requires i < |ops|
  {
    Target(ops, i) == q || Reaches(ops, i, q)
  }

  /** The i-th line makes the path lead to a plain value. */
  predicate PutsLeaf(ops: seq<Op>, i: nat, q: Key)
    requires i < |ops|
  {
    Reaches(ops, i, q) && Inside(ops[i].value, q[|Target(ops, i)|..]).value.Leaf?
  }

  /** The path leads somewhere by the i-th line. */
  predicate Binds(ops: seq<Op>, i: nat, q: Key)
    requires i < |ops|
  {
    (ops[i].Header? && q <= ops[i].key) || Reaches(ops, i, q)
  }

  /**
   What the n-th line may be, given the lines before: it defines nothing that one of them defined, and a
   header does not go through a plain value.
   */
  predicate Acceptable(ops: seq<Op>, n: nat)
    requires n < |ops|
  {
    && (forall i :: 0 <= i < n ==> !Defines(ops, i, Target(ops, n)))
    && (ops[n].Header? ==>
          forall i, k :: 0 <= i < n && 0 < k < |ops[n].key| ==> !PutsLeaf(ops, i, ops[n].key[..k]))
  }

  predicate WellFormed(ops: seq<Op>) {
    forall n :: 0 <= n < |ops| ==> Acceptable(ops, n)
  }

  predicate Bound(ops: seq<Op>, n: nat, q: Key)
    requires n <= |ops|
  {
    q == [] || exists i :: 0 <= i < n && Binds(ops, i, q)
  }

  predicate Explicit(ops: seq<Op>, n: nat, q: Key)
    requires n <= |ops|
  {
    exists i :: 0 <= i < n && Defines(ops, i, q)
  }

  predicate LeafBy(ops: seq<Op>, n: nat, q: Key)
    requires n <= |ops|
  {
    exists i :: 0 <= i < n && PutsLeaf(ops, i, q)
  }

  /** The tables and marks are what the first n lines say. */
  ghost predicate Tracks(h: Hash, implicits: map<string, bool>, ops: seq<Op>, n: nat)
    requires n <= |ops|
  {
    && (forall q :: Lookup(h, q).Some? <==> Bound(ops, n, q))
    && (forall q :: IsLeaf(h, q) <==> LeafBy(ops, n, q))
    && (forall q :: q != [] && Dotless(q) ==> (Marked(implicits, q) <==> Bound(ops, n, q) && !Explicit(ops, n, q)))
  }

  lemma TracksStart(ops: seq<Op>)
    ensures Tracks(map[], map[], ops, 0)
  {
    hide Dotted;
    EmptyHash();
  }

  lemma OneMoreLine(ops: seq<Op>, n: nat, q: Key)
    requires n < |ops|
    ensures Bound(ops, n + 1, q) <==> Bound(ops, n, q) || Binds(ops, n, q)
    ensures Explicit(ops, n + 1, q) <==> Explicit(ops, n, q) || Defines(ops, n, q)
    ensures LeafBy(ops, n + 1, q) <==> LeafBy(ops, n, q) || PutsLeaf(ops, n, q)
  {
    hide Binds, Defines, PutsLeaf;
  }

  /** Whatever is defined is bound. */
  lemma ExplicitIsBound(ops: seq<Op>, n: nat, q: Key)
    requires n <= |ops|
    ensures Explicit(ops, n, q) ==> Bound(ops, n, q)
    ensures LeafBy(ops, n, q) ==> Explicit(ops, n, q)
  {
    if Explicit(ops, n, q) {
      var i :| 0 <= i < n && Defines(ops, i, q);
      if ops[i].KeyValue? && !Stays(ops, i) {
        var j :| 0 <= j < i && ops[j].Header? && Target(ops, i) <= ops[j].key;
        assert Binds(ops, j, q);
      } else if ops[i].KeyValue? {
        assert q[|q|..] == [];
        assert Binds(ops, i, q);
      } else {
        assert Binds(ops, i, q);
      }
    }
    if LeafBy(ops, n, q) {
      var i :| 0 <= i < n && PutsLeaf(ops, i, q);
      assert Defines(ops, i, q);
    }
  }

  /** A header is acceptable to the parser exactly when it is acceptable. */
  lemma HeaderAccepted(h: Hash, implicits: map<string, bool>, ops: seq<Op>, n: nat)
    requires n < |ops| && ops[n].Header? && ValidOp(ops[n]) && Tracks(h, implicits, ops, n)
    ensures ParentsOpen(h, ops[n].key) && (Lookup(h, ops[n].key) == None || Marked(implicits, ops[n].key)) <==> Acceptable(ops, n)
  {
    hide Lookup, Dotted, Defines, PutsLeaf, Binds, Marked, Dotless;
    var key := ops[n].key;
    ExplicitIsBound(ops, n, key);
    assert Target(ops, n) == key;
    assert Explicit(ops, n, key) <==> !(forall i :: 0 <= i < n ==> !Defines(ops, i, key));
    assert ParentsOpen(h, key) <==> forall k :: 0 < k < |key| ==> !LeafBy(ops, n, key[..k]) by {
      forall k | 0 < k < |key|
        ensures (Lookup(h, key[..k]) == None || IsTable(h, key[..k])) <==> !LeafBy(ops, n, key[..k])
      {
        assert IsLeaf(h, key[..k]) <==> LeafBy(ops, n, key[..k]);
      }
    }
  }

  lemma KeyAccepted(h: Hash, implicits: map<string, bool>, ops: seq<Op>, n: nat)
    requires n < |ops| && ops[n].KeyValue? && Dotless(Target(ops, n)) && Tracks(h, implicits, ops, n)
    ensures Lookup(h, Target(ops, n)) == None || Marked(implicits, Target(ops, n)) <==> Acceptable(ops, n)
  {
    hide Lookup, Dotted, Defines, PutsLeaf, Binds, Marked, Dotless;
    ExplicitIsBound(ops, n, Target(ops, n));
    assert Explicit(ops, n, Target(ops, n)) <==> !(forall i :: 0 <= i < n ==> !Defines(ops, i, Target(ops, n)));
  }

  lemma HeaderTracks(h: Hash, marks: map<string, bool>, k: Hash, marks': map<string, bool>, ops: seq<Op>, n: nat)
    requires n < |ops| && ops[n].Header? && ValidOp(ops[n]) && Tracks(h, marks, ops, n)
    requires forall q :: Lookup(k, q).Some? <==> Lookup(h, q).Some? || q <= ops[n].key
    requires forall q :: IsLeaf(k, q) <==> IsLeaf(h, q)
    requires forall q: Key :: q != [] && Dotless(q) ==>
      (Marked(marks', q) <==> q != ops[n].key && (Marked(marks, q) || (Lookup(h, q) == None && ProperPrefix(q, ops[n].key))))
    ensures Tracks(k, marks', ops, n + 1)
  {
    hide Lookup, Marked, Dotless, Bound, Explicit, LeafBy, IsLeaf;
    forall q
      ensures Lookup(k, q).Some? <==> Bound(ops, n + 1, q)
      ensures IsLeaf(k, q) <==> LeafBy(ops, n + 1, q)
      ensures q != [] && Dotless(q) ==> (Marked(marks', q) <==> Bound(ops, n + 1, q) && !Explicit(ops, n + 1, q))
    {
      OneMoreLine(ops, n, q);
      ExplicitIsBound(ops, n, q);
      assert Binds(ops, n, q) <==> q <= ops[n].key;
      assert !PutsLeaf(ops, n, q) && (Defines(ops, n, q) <==> q == ops[n].key);
    }
  }

  /** Before its own line, a value's path is unbound or implicit; in the second case the value does not stay. */
  lemma StaysIfNew(h: Hash, marks: map<string, bool>, ops: seq<Op>, n: nat)
    requires n < |ops| && ops[n].KeyValue? && Dotless(Target(ops, n)) && Tracks(h, marks, ops, n) && Acceptable(ops, n)
    ensures Stays(ops, n) <==> Lookup(h, Target(ops, n)) == None
  {
    hide Lookup, Marked, Dotless, IsLeaf, Inside;
    var t := Target(ops, n);
    if Lookup(h, t).Some? {
      assert Bound(ops, n, t);
      var i :| 0 <= i < n && Binds(ops, i, t);
      assert !Defines(ops, i, t);
    }
    if !Stays(ops, n) {
      var j :| 0 <= j < n && ops[j].Header? && t <= ops[j].key;
      assert Binds(ops, j, t);
    }
  }

  lemma KeyTracks(h: Hash, marks: map<string, bool>, k: Hash, marks': map<string, bool>, ops: seq<Op>, n: nat)
    requires n < |ops| && ops[n].KeyValue? && Dotless(Target(ops, n)) && Tracks(h, marks, ops, n) && Acceptable(ops, n)
    requires WithValue(h, k, Target(ops, n), ops[n].value)
    requires forall q: Key :: q != [] && Dotless(q) ==> (Marked(marks', q) <==> Marked(marks, q) && q != Target(ops, n))
    ensures Tracks(k, marks', ops, n + 1)
  {
    StaysIfNew(h, marks, ops, n);
    hide Lookup, Marked, Dotless, Bound, Explicit, LeafBy, IsLeaf, Inside, Stays;
    var t := Target(ops, n);
    assert t != [];
    forall q
      ensures Lookup(k, q).Some? <==> Bound(ops, n + 1, q)
      ensures IsLeaf(k, q) <==> LeafBy(ops, n + 1, q)
      ensures q != [] && Dotless(q) ==> (Marked(marks', q) <==> Bound(ops, n + 1, q) && !Explicit(ops, n + 1, q))
    {
      OneMoreLine(ops, n, q);
      ExplicitIsBound(ops, n, q);
      NothingBelow(h, t, q);
    }
  }

  /** Where a path leads nowhere, no continuation of it leads anywhere. */
  lemma NothingBelow(h: Hash, t: Key, q: Key)
    ensures t != [] && t <= q && Lookup(h, t) == None ==> Lookup(h, q) == None
  {
    if t != [] && t <= q && Lookup(h, t) == None && q != t {
      assert q == t + q[|t|..];
      LookupAppend(h, t, q[|t|..]);
    }
  }

  /** The plain values inside a value are all there, under the path. */
  ghost predicate Holds(h: Hash, path: Key, value: Entry) {
    (value.Table? ==> IsTable(h, path)) &&
    forall q :: Inside(value, q).Some? && Inside(value, q).value.Leaf? ==> Lookup(h, path + q) == Inside(value, q)
  }

  /** The i-th line has had its effect: a header's table is there, and a value, unless a header before it went that way. */
  ghost predicate Effective(h: Hash, ops: seq<Op>, i: nat)
    requires i < |ops|
  {
    match ops[i]
    case Header(key) => IsTable(h, key)
    case KeyValue(_, value) => if Stays(ops, i) then Holds(h, Target(ops, i), value) else IsTable(h, Target(ops, i))
  }

  /** A value put where nothing was. */
  lemma ValueHolds(h: Hash, path: Key, value: Entry)
    requires path != [] && Lookup(h, path) == Some(value)
    ensures Holds(h, path, value)
  {
    forall q | Inside(value, q).Some? && Inside(value, q).value.Leaf?
      ensures Lookup(h, path + q) == Inside(value, q)
    {
      if q == [] {
        assert path + q == path;
      } else {
        LookupAppend(h, path, q);
      }
    }
  }

  /** A plain value is there, or a table is in its place. */
  lemma PlainIsKept(h: Hash, ops: seq<Op>, i: nat)
    requires i < |ops| && ops[i].KeyValue? && ops[i].value.Leaf? && Effective(h, ops, i)
    ensures Lookup(h, Target(ops, i)) == Some(ops[i].value) <==> Stays(ops, i)
  {
    var t := Target(ops, i);
    assert t + [] == t && Inside(ops[i].value, []) == Some(ops[i].value);
  }

  lemma EffectiveStays(h: Hash, k: Hash, ops: seq<Op>, i: nat)
    requires i < |ops| && Keeps(h, k) && Effective(h, ops, i)
    ensures Effective(k, ops, i)
  {
    hide Lookup;
  }

  /**
   A whole document of headers and key/value lines: the parser never runs into one of its BUG branches. It accepts
   exactly the well-formed documents, and then every line has had its effect and the tables are those the lines open.
   */
  method ParseDocument(ops: seq<Op>) returns (r: Outcome, p: Parser)
    requires forall op :: op in ops ==> ValidOp(op)
    ensures r != Bug
    ensures r == Fine <==> WellFormed(ops)
    ensures r == Fine ==> Tracks(p.mapping, p.implicits, ops, |ops|)
    ensures r == Fine ==> fresh(p) && p.Valid() && p.context == ContextAt(ops, |ops|)
    ensures r == Fine ==> forall i :: 0 <= i < |ops| ==> Effective(p.mapping, ops, i)
    ensures r == Fine ==> forall i :: 0 <= i < |ops| && ops[i].KeyValue? && ops[i].value.Leaf? ==>
      (Lookup(p.mapping, Target(ops, i)) == Some(ops[i].value) <==> Stays(ops, i))
    ensures r == Fine ==> forall i, j :: 0 <= i < j < |ops| && ops[i].Header? && ops[j].Header? ==> ops[i].key != ops[j].key
  {
    hide Lookup, Effective, IsTable, Marked, Keeps, MarksTables, Tracks, WithValue, IsLeaf, Acceptable, Dotless, ParentsOpen;
    p := new Parser();
    r := Fine;
    TracksStart(ops);
    for n := 0 to |ops|
      invariant Tracks(p.mapping, p.implicits, ops, n) && forall i :: 0 <= i < n ==> Acceptable(ops, i)
      invariant r == Fine && fresh(p) && p.Valid() && p.context == ContextAt(ops, n)
      invariant forall i :: 0 <= i < n ==> Effective(p.mapping, ops, i)
      invariant forall i :: 0 <= i < n && ops[i].Header? ==> ops[i].key in p.headers
      invariant forall i, j :: 0 <= i < j < n && ops[i].Header? && ops[j].Header? ==> ops[i].key != ops[j].key
    {
      assert ops[n] in ops;
      ghost var h, marks, path := p.mapping, p.implicits, p.context;
      match ops[n] {
        case Header(key) =>
          HeaderAccepted(h, marks, ops, n);
          r := p.EstablishContext(key);
        case KeyValue(name, value) =>
          DotlessMore(path, name);
          KeyAccepted(h, marks, ops, n);
          r := p.KeyValueLine(name, value);
      }
      if r != Fine {
        return;
      }
      if ops[n].Header? {
        HeaderTracks(h, marks, p.mapping, p.implicits, ops, n);
      } else {
        KeyTracks(h, marks, p.mapping, p.implicits, ops, n);
        StaysIfNew(h, marks, ops, n);
      }
      NowEffective(h, p.mapping, ops, n);
      forall i | 0 <= i < n
        ensures Effective(p.mapping, ops, i)
      {
        EffectiveStays(h, p.mapping, ops, i);
      }
    }
    forall i | 0 <= i < |ops| && ops[i].KeyValue? && ops[i].value.Leaf?
      ensures Lookup(p.mapping, Target(ops, i)) == Some(ops[i].value) <==> Stays(ops, i)
    {
      PlainIsKept(p.mapping, ops, i);
    }
  }

  lemma DotlessMore(path: Key, name: string)
    requires Dotless(path) && '.' !in name
    ensures Dotless(path + [name])
  {
  }

  lemma NowEffective(before: Hash, h: Hash, ops: seq<Op>, n: nat)
    requires n < |ops|
    requires ops[n].Header? ==> IsTable(h, ops[n].key)
    requires ops[n].KeyValue? ==>
      var path := Target(ops, n);
      && (Stays(ops, n) <==> Lookup(before, path) == None)
      && (if Lookup(before, path) == None then Lookup(h, path) == Some(ops[n].value) else IsTable(h, path))
    ensures Effective(h, ops, n)
  {
    hide Lookup;
    if ops[n].KeyValue? && Stays(ops, n) {
      ValueHolds(h, Target(ops, n), ops[n].value);
    }
  }

  /**
   [a.b.c], then [a] with b = 1: the document is accepted although b is a table, and the value is
   forgotten. By KeyValueLine this happens just when the path is an implicit table.
   */
  method ValueIsForgotten() returns (p: Parser, r: Outcome)
    ensures r == Fine && IsTable(p.mapping, ["a", "b"])
  {
    hide Lookup, Dotted, Put, Keeps, MarksTables, Marked;
    p := new Parser();
    var abc: Key := ["a", "b", "c"];
    assert forall q: Key :: q != [] ==> Lookup(p.mapping, q) == None by { EmptyHash(); }
    r := p.EstablishContext(abc);
    assert r == Fine && IsTable(p.mapping, ["a", "b"]) && Marked(p.implicits, ["a", "b"]) && IsTable(p.mapping, ["a"])
        && Marked(p.implicits, ["a"]) by {
      assert abc[..1] == ["a"] && abc[..2] == ["a", "b"];
      assert Dotless(["a"]) && Dotless(["a", "b"]);
      PrefixIsTable(p.mapping, abc, 1);
      PrefixIsTable(p.mapping, abc, 2);
    }
    ghost var h := p.mapping;
    r := p.EstablishContext(["a"]);
    assert ["a"] + ["b"] == ["a", "b"] && Dotless(["a", "b"]);
    KeptSame(h, p.mapping, ["a", "b"]);
    r := p.KeyValueLine("b", Leaf(1));
  }

  lemma EmptyHash()
    ensures forall q: Key :: q != [] ==> Lookup(map[], q) == None
  {
  }
}
