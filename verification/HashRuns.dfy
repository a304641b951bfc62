/** Runs of operations on the configuration hash, and the map they build. */
module HashRuns {
  import opened Ring
  import opened HashTable
  import opened HashMapping

  // ---- Runs --------------------------------------------------------------

  datatype Op =
    | SetOp(key: string, val: string)
    | DeleteOp(key: string)
    | GrowOp(logsize: nat)
    | MergeOp(src: Table)

  /** A table stands for a map from lower-case keys to values. */
  ghost predicate Refines(t: Table, m: map<string, string>) {
    && Sound(t) && Light(t)
    && forall k :: Lookup(t, k) == if Lower(k) in m then Some(m[Lower(k)]) else None
  }

  /** What each operation does to the map. */
  ghost function MapStep(m: map<string, string>, op: Op, srcMap: map<string, string>): map<string, string> {
    match op
    case SetOp(key, val) => m[Lower(key) := val]
    case DeleteOp(key) => m - {Lower(key)}
    case GrowOp(_) => m
    case MergeOp(_) => srcMap + m
  }

  /** And what it does to the table. */
  function TableStep(t: Table, op: Op): Table
    requires Sized(t)
  {
    match op
    case SetOp(key, val) => Insert(t, key, val).0
    case DeleteOp(key) => Delete(t, key).0
    case GrowOp(logsize) => Resize(t, logsize)
    case MergeOp(src) => Merge(t, src.slots).0
  }

  ghost predicate OpAllowed(t: Table, op: Op, srcMap: map<string, string>) {
    match op
    case SetOp(_, _) => true
    case DeleteOp(key) => DeletesExactly(t, key)
    case GrowOp(logsize) => logsize >= t.logsize
    case MergeOp(src) => Refines(src, srcMap)
  }

  /** The key is absent, or no other entry's probe path crosses its slot. */
  ghost predicate DeletesExactly(t: Table, key: string) {
    && Sized(t)
    && var at := Find(t, key);
    at.Some? && t.slots[at.value].Entry? ==>
      forall j :: 0 <= j < |t.slots| && j != at.value && t.slots[j].Entry? ==> !Crosses(t.slots, t.logsize, at.value, j)
  }

  lemma {:induction false} Pow2Grows(a: nat, b: nat)
    requires a <= b
    ensures Pow2(a) <= Pow2(b)
    decreases b
  {
    if a < b {
      Pow2Grows(a, b - 1);
    }
  }

  /** An exact deletion leaves no gap in front of any entry. */
  lemma DeleteKeepsSound(t: Table, i: nat)
    requires Sound(t) && i < |t.slots| && t.slots[i].Entry?
    requires forall j :: 0 <= j < |t.slots| && j != i && t.slots[j].Entry? ==> !Crosses(t.slots, t.logsize, i, j)
    ensures Sound(Table(t.slots[i := Empty], t.count - 1, t.logsize))
  {
    var slots := t.slots[i := Empty];
    EntriesUpdate(t.slots, i, Empty);
    forall j | 0 <= j < |slots| && slots[j].Entry?
      ensures PathFull(slots, t.logsize, j)
    {
      assert PathFull(t.slots, t.logsize, j) && !Crosses(t.slots, t.logsize, i, j);
      var home := Home(slots[j].key, t.logsize);
      forall e | 0 <= e < Offset(home, j, |slots|)
        ensures slots[Cell(home, e, |slots|)].Entry?
      {
        assert e != Offset(home, i, |slots|);
      }
    }
  }

  lemma FewerIsLight(t: Table, u: Table)
    requires Sized(t) && Sized(u) && Light(t) && |u.slots| >= |t.slots| && 0 <= u.count <= t.count
    ensures Light(u)
  {
    LoadBound(t.count, |t.slots|);
    LoadBound(u.count, |u.slots|);
  }

  /** An exact deletion keeps the table sound and takes out exactly that key. */
  lemma ExactDelete(t: Table, key: string)
    requires Sound(t) && Light(t) && DeletesExactly(t, key)
    ensures Sound(Delete(t, key).0) && Light(Delete(t, key).0)
    ensures forall k :: Lookup(Delete(t, key).0, k) == if SameKey(k, key) then None else Lookup(t, k)
  {
    FoundIffHeld(t, key);
    if HasKey(t.slots, key) {
      DeleteExactIff(t, key);
      DeleteKeepsSound(t, Find(t, key).value);
      assert Delete(t, key).0 == Table(t.slots[Find(t, key).value := Empty], t.count - 1, t.logsize);
      hide NoGaps, DistinctKeys, Lookup, Find, HasKey, DeletesExactly, Delete;
      FewerIsLight(t, Delete(t, key).0);
    } else {
      AbsentDelete(t, key);
    }
  }

  lemma AbsentDelete(t: Table, key: string)
    requires Sound(t) && Light(t) && Lookup(t, key).None?
    ensures Delete(t, key).0 == t && forall k :: SameKey(k, key) ==> Lookup(t, k) == None
  {
    LightHasRoom(t, key);
    forall k | SameKey(k, key)
      ensures Lookup(t, k) == None
    {
      SameKeyLookup(t, k, key);
    }
  }

  lemma DeleteRefines(t: Table, m: map<string, string>, key: string)
    requires Refines(t, m) && DeletesExactly(t, key)
    ensures Refines(Delete(t, key).0, m - {Lower(key)})
  {
    hide Sound, Light, DeletesExactly, Delete, Lookup;
    ExactDelete(t, key);
  }

  lemma StepRefines(t: Table, m: map<string, string>, op: Op, srcMap: map<string, string>)
    requires Refines(t, m) && OpAllowed(t, op, srcMap)
    ensures Refines(TableStep(t, op), MapStep(m, op, srcMap))
  {
    match op
    case SetOp(key, val) => InsertMeans(t, key, val);
    case DeleteOp(key) => DeleteRefines(t, m, key);
    case GrowOp(logsize) =>
      Pow2Grows(t.logsize, logsize);
      EntriesBound(t.slots);
      ResizeKeeps(t, logsize);
      LoadBound(t.count, Pow2(t.logsize));
      LoadBound(t.count, Pow2(logsize));
    case MergeOp(src) =>
      MergeMeans(t, src.slots);
      forall k
        ensures FirstWith(src.slots, k) == Lookup(src, k)
      {
        FirstIsLookup(src, k);
      }
  }

  /** A run from a new table, and from the empty map beside it. */
  ghost predicate IsRun(tables: seq<Table>, maps: seq<map<string, string>>, ops: seq<Op>,
                        srcs: seq<map<string, string>>) {
    && |tables| == |maps| == |ops| + 1 && |srcs| == |ops|
    && tables[0] == NewTable() && maps[0] == map[]
    && forall n :: 0 <= n < |ops| ==> RunStep(tables[n], maps[n], ops[n], srcs[n], tables[n + 1], maps[n + 1])
  }

  ghost predicate RunStep(t: Table, m: map<string, string>, op: Op, src: map<string, string>,
                          u: Table, m': map<string, string>) {
    Sized(t) ==> OpAllowed(t, op, src) && u == TableStep(t, op) && m' == MapStep(m, op, src)
  }

  /** Over every run of insertions, replacements, exact deletions, growth and merges
      from a new table, the table stands for the map the same steps give. */
  lemma {:induction false} RunRefines(tables: seq<Table>, maps: seq<map<string, string>>, ops: seq<Op>,
                                      srcs: seq<map<string, string>>, n: nat)
    requires IsRun(tables, maps, ops, srcs) && n < |tables|
    ensures Refines(tables[n], maps[n])
  {
    if n == 0 {
      NewRefines();
    } else {
      RunRefines(tables, maps, ops, srcs, n - 1);
      assert RunStep(tables[n - 1], maps[n - 1], ops[n - 1], srcs[n - 1], tables[n], maps[n]);
      StepRefines(tables[n - 1], maps[n - 1], ops[n - 1], srcs[n - 1]);
    }
  }

  lemma NewRefines()
    ensures Refines(NewTable(), map[])
  {
    var t := NewTable();
    NoEntries(t.slots);
    LoadBound(0, |t.slots|);
    forall k
      ensures Lookup(t, k) == None
    {
      FoundIffHeld(t, k);
    }
  }

  // ---- Runs with any deletions ---------------------------------------------

  lemma LooseResize(t: Table, logsize: nat)
    requires Sized(t) && t.count == Entries(t.slots) && logsize >= t.logsize
    ensures var u := Resize(t, logsize);
            Sized(u) && u.count == t.count == Entries(u.slots) && u.logsize == logsize && |u.slots| >= |t.slots|
  {
    Pow2Grows(t.logsize, logsize);
    EntriesBound(t.slots);
    if logsize != t.logsize {
      ResizeRepairs(t, logsize);
    }
  }

  /** Insertion never fails and keeps this, whatever gaps and duplicates there are. */
  lemma LooseInsert(t: Table, key: string, val: string)
    requires Loose(t)
    ensures Insert(t, key, val).1 && Loose(Insert(t, key, val).0)
  {
    LightHasRoom(t, key);
    var at := Find(t, key).value;
    if t.slots[at].Empty? {
      var w := Table(t.slots[at := Entry(key, val)], t.count + 1, t.logsize);
      EntriesUpdate(t.slots, at, Entry(key, val));
      GrowthLoad(t.count, |t.slots|);
      assert |EmptySlots(w.logsize + 1)| == 2 * |w.slots|;
      hide Find, Entries, Resize;
      LooseResize(w, w.logsize + 1);
    } else {
      EntriesUpdate(t.slots, at, Entry(t.slots[at].key, val));
    }
  }

  lemma LooseDelete(t: Table, key: string)
    requires Loose(t)
    ensures Delete(t, key).1 && Loose(Delete(t, key).0)
  {
    LightHasRoom(t, key);
    var at := Find(t, key).value;
    if t.slots[at].Entry? {
      EntriesUpdate(t.slots, at, Empty);
      FewerIsLight(t, Delete(t, key).0);
    }
  }

  lemma {:induction false} LooseMerge(t: Table, src: seq<Slot>)
    requires Loose(t)
    ensures Merge(t, src).1 && Loose(Merge(t, src).0)
    decreases |src|
  {
    if src != [] {
      hide Loose, Insert, Lookup;
      if src[0].Entry? {
        LooseInsert(t, src[0].key, src[0].val);
        LooseMerge(Insert(t, src[0].key, src[0].val).0, src[1..]);
      }
      LooseMerge(t, src[1..]);
    }
  }

  ghost predicate LooseStep(t: Table, op: Op, u: Table) {
    Sized(t) ==> (op.GrowOp? ==> op.logsize >= t.logsize) && u == TableStep(t, op)
  }

  /** A run of a session's configuration: any operations, any deletions. */
  ghost predicate IsLooseRun(tables: seq<Table>, ops: seq<Op>) {
    && |tables| == |ops| + 1 && tables[0] == NewTable()
    && forall n :: 0 <= n < |ops| ==> LooseStep(tables[n], ops[n], tables[n + 1])
  }

  /** Over every such run the count is the number of entries and the load stays at
      most the threshold; so every probe ends, and insertion never fails. */
  lemma {:induction false} RunStaysLoose(tables: seq<Table>, ops: seq<Op>, n: nat)
    requires IsLooseRun(tables, ops) && n < |tables|
    ensures Loose(tables[n])
    ensures forall key :: Find(tables[n], key).Some?
    ensures forall key, val :: Insert(tables[n], key, val).1
  {
    if n == 0 {
      NewRefines();
    } else {
      RunStaysLoose(tables, ops, n - 1);
      var t := tables[n - 1];
      assert LooseStep(t, ops[n - 1], tables[n]);
      match ops[n - 1]
      case SetOp(key, val) => LooseInsert(t, key, val);
      case DeleteOp(key) => LooseDelete(t, key);
      case GrowOp(logsize) =>
        LooseResize(t, logsize);
        FewerIsLight(t, Resize(t, logsize));
      case MergeOp(src) => LooseMerge(t, src.slots);
    }
    forall key
      ensures Find(tables[n], key).Some?
    {
      LightHasRoom(tables[n], key);
    }
    forall key, val
      ensures Insert(tables[n], key, val).1
    {
      LooseInsert(tables[n], key, val);
    }
  }

  // ---- Setting a key and unsetting it again --------------------------------

  /** A key that is not found, set and unset again, leaves the table as it was, gaps
      and all, unless setting it made the table grow. */
  lemma SetThenUnset(t: Table, key: string, val: string)
    requires Loose(t) && Lookup(t, key).None? && (t.count + 1) * 100 / |t.slots| <= GROWTH_THRESHOLD
    ensures Insert(t, key, val).1 && Sized(Insert(t, key, val).0)
    ensures Delete(Insert(t, key, val).0, key) == (t, true)
  {
    LightHasRoom(t, key);
    var home := Home(key, t.logsize);
    var d := ProbeWitness(t.slots, key, home, 0);
    var at := Cell(home, d, |t.slots|);
    var u := Insert(t, key, val).0;
    assert u == Table(t.slots[at := Entry(key, val)], t.count + 1, t.logsize);
    forall e | 0 <= e < d
      ensures !StopsAt(u.slots[Cell(home, e, |u.slots|)], key)
    {
      assert !StopsAt(t.slots[Cell(home, e, |t.slots|)], key);
    }
    ProbeStops(u.slots, key, home, 0, d);
    assert u.slots[at := Empty] == t.slots;
  }

  /** In a sound table, growth or not, that changes no lookup exactly if no other
      probe path crosses the slot the key was in. */
  lemma SetThenUnsetIff(t: Table, key: string, val: string)
    requires Sound(t) && Light(t) && Lookup(t, key).None?
    ensures Sized(Insert(t, key, val).0)
    ensures var u := Insert(t, key, val).0;
            (forall k :: Lookup(Delete(u, key).0, k) == Lookup(t, k)) <==> DeletesExactly(u, key)
  {
    var u := Insert(t, key, val).0;
    InsertMeans(t, key, val);
    FoundIffHeld(u, key);
    DeleteExactIff(u, key);
    hide NoGaps, DistinctKeys, Light, Insert, Find, Crosses;
    forall k
      ensures SameKey(k, key) ==> Lookup(t, k) == None
    {
      if SameKey(k, key) {
        SameKeyLookup(t, k, key);
      }
    }
    var w := Delete(u, key).0;
    assert forall k :: Lookup(u, k) == if SameKey(k, key) then Some(val) else Lookup(t, k);
    assert (forall k :: Lookup(w, k) == Lookup(t, k)) <==>
           (forall k :: Lookup(w, k) == if SameKey(k, key) then None else Lookup(u, k));
  }

  // ---- A run that leaves a gap ---------------------------------------------

  lemma StoredIsLast(slots: seq<Slot>, key: string, val: string)
    requires DistinctKeys(slots) && Stored(slots, key, val)
    ensures LastWith(slots, key) == Some(val)
  {
    LastStored(slots, key);
    var i :| 0 <= i < |slots| && slots[i].Entry? && SameKey(key, slots[i].key) && slots[i].val == val;
    var j :| 0 <= j < |slots| && slots[j].Entry? && SameKey(key, slots[j].key)
      && slots[j].val == LastWith(slots, key).value;
    assert !(i < j) && !(j < i);
  }

  lemma DeleteKeepsDistinct(t: Table, key: string)
    requires Sized(t) && DistinctKeys(t.slots)
    ensures DistinctKeys(Delete(t, key).0.slots)
  {}

  lemma LostKey(a: string, b: string, va: string, vb: string, t1: Table, t2: Table, t3: Table)
    requires Home(a, INITIAL_LOGSIZE) == Home(b, INITIAL_LOGSIZE) && !SameKey(a, b)
    requires t1 == Insert(NewTable(), a, va).0 && Sized(t1) && t2 == Insert(t1, b, vb).0
    requires Sized(t2) && t3 == Delete(t2, a).0
    ensures Loose(t3) && Lookup(t3, b) == None && LastWith(t3.slots, b) == Some(vb)
  {
    NewRefines();
    NewSlots();
    hide Home, Insert, Delete, Lookup, NoGaps, DistinctKeys, NewTable;
    CollisionLost(NewTable(), a, b, va, vb);
    InsertMeans(NewTable(), a, va);
    InsertMeans(t1, b, vb);
    LooseDelete(t2, a);
    DeleteKeepsDistinct(t2, a);
    StoredIsLast(t3.slots, b, vb);
  }

  lemma NewSlots()
    ensures Sized(NewTable()) && NewTable().count == 0 && NewTable().logsize == INITIAL_LOGSIZE
    ensures |NewTable().slots| == 256 && forall i :: 0 <= i < 256 ==> NewTable().slots[i].Empty?
  {
    assert Pow2(INITIAL_LOGSIZE) == 256;
  }

  /** Of two keys that start at the same slot of a new table, the second is not found
      after the first has been deleted, but it is still listed when the table is sent. */
  lemma LostKeyListed(a: string, b: string, va: string, vb: string) returns (tables: seq<Table>, ops: seq<Op>)
    requires Home(a, INITIAL_LOGSIZE) == Home(b, INITIAL_LOGSIZE) && !SameKey(a, b)
    ensures IsLooseRun(tables, ops) && Loose(tables[|ops|])
    ensures Lookup(tables[|ops|], b) == None && LastWith(tables[|ops|].slots, b) == Some(vb)
  {
    NewRefines();
    hide Home, Insert, Delete, Lookup, LastWith, NoGaps, DistinctKeys, NewTable, Pow2;
    var t1 := Insert(NewTable(), a, va).0;
    InsertMeans(NewTable(), a, va);
    var t2 := Insert(t1, b, vb).0;
    InsertMeans(t1, b, vb);
    var t3 := Delete(t2, a).0;
    LostKey(a, b, va, vb, t1, t2, t3);
    tables, ops := [NewTable(), t1, t2, t3], [SetOp(a, va), SetOp(b, vb), DeleteOp(a)];
  }
}
