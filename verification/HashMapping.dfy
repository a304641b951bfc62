/** The configuration hash behaves as a map from keys, up to case, to values:
    what each operation does to lookups, when deletion is exact, and what arrives of a
    table that is sent. */
module HashMapping {
  import opened Ring
  import opened HashTable

  // ---- Counting and load -------------------------------------------------

  lemma {:induction false} EntriesUpdate(slots: seq<Slot>, i: nat, s: Slot)
    requires i < |slots|
    ensures Entries(slots[i := s]) == Entries(slots)
            - (if slots[i].Entry? then 1 else 0) + (if s.Entry? then 1 else 0)
  {
    if i == 0 {
      assert slots[i := s][1..] == slots[1..];
    } else {
      assert slots[i := s][1..] == slots[1..][i - 1 := s];
      EntriesUpdate(slots[1..], i - 1, s);
    }
  }

  lemma {:induction false} RoomMeansEmpty(slots: seq<Slot>) returns (i: nat)
    requires Entries(slots) < |slots|
    ensures i < |slots| && slots[i].Empty?
  {
    if slots[0].Empty? {
      i := 0;
    } else {
      i := RoomMeansEmpty(slots[1..]);
      i := i + 1;
    }
  }

  lemma {:induction false} NoEntries(slots: seq<Slot>)
    requires forall i :: 0 <= i < |slots| ==> slots[i].Empty?
    ensures Entries(slots) == 0
  {
    if slots != [] {
      NoEntries(slots[1..]);
    }
  }

  lemma {:induction false} EntriesBound(slots: seq<Slot>)
    ensures Entries(slots) <= |slots|
  {
    if slots != [] {
      EntriesBound(slots[1..]);
    }
  }

  lemma Scaled(q: nat, k: nat, size: nat)
    requires q <= k
    ensures q * size <= k * size
  {
    assert (k - q) * size >= 0;
  }

  lemma QuotientBound(a: nat, size: nat, k: nat)
    requires 0 < size
    ensures a / size <= k <==> a < (k + 1) * size
  {
    var q := a / size;
    assert q * size <= a < q * size + size;
    if q <= k {
      Scaled(q + 1, k + 1, size);
    } else {
      Scaled(k + 1, q, size);
    }
  }

  /** The load test without its division. */
  lemma LoadBound(count: nat, size: nat)
    requires 0 < size
    ensures count * 100 / size <= 50 <==> count * 100 < 51 * size
  {
    QuotientBound(count * 100, size, 50);
  }

  /** A lightly loaded table has a free slot, so every probe ends. */
  lemma LightHasRoom(t: Table, key: string)
    requires Sized(t) && t.count == Entries(t.slots) && Light(t)
    ensures Entries(t.slots) < |t.slots| && Find(t, key).Some?
  {
    LoadBound(t.count, |t.slots|);
    var free := RoomMeansEmpty(t.slots);
    FindSucceeds(t, key, free);
  }

  // ---- Insertion ---------------------------------------------------------

  /** Filling the slot a probe stopped at keeps the table free of gaps. */
  lemma FillKeepsNoGaps(slots: seq<Slot>, logsize: nat, home: nat, d: nat, key: string, val: string)
    requires |slots| == Pow2(logsize) && NoGaps(slots, logsize)
    requires home == Home(key, logsize) && d < |slots| && slots[Cell(home, d, |slots|)].Empty?
    requires forall e :: 0 <= e < d ==> slots[Cell(home, e, |slots|)].Entry?
    ensures NoGaps(slots[Cell(home, d, |slots|) := Entry(key, val)], logsize)
  {
    var at := Cell(home, d, |slots|);
    var filled := slots[at := Entry(key, val)];
    forall i | 0 <= i < |filled| && filled[i].Entry?
      ensures PathFull(filled, logsize, i)
    {
      if i != at {
        assert PathFull(slots, logsize, i);
      } else {
        assert Offset(home, at, |slots|) == d;
      }
    }
  }

  /** Inserting a key that is not there, before any growth. */
  lemma InsertNew(t: Table, key: string, val: string)
    requires Sound(t) && Find(t, key).Some? && t.slots[Find(t, key).value].Empty?
    ensures !HasKey(t.slots, key)
    ensures var u := Table(t.slots[Find(t, key).value := Entry(key, val)], t.count + 1, t.logsize);
            && Sound(u)
            && forall k, v :: Stored(u.slots, k, v) <==> Stored(t.slots, k, v) || (SameKey(k, key) && v == val)
  {
    var home := Home(key, t.logsize);
    var d := ProbeWitness(t.slots, key, home, 0);
    var at := Cell(home, d, |t.slots|);
    if i :| 0 <= i < |t.slots| && t.slots[i].Entry? && SameKey(key, t.slots[i].key) {
      FindsKey(t, key, i);
    }
    var slots := t.slots[at := Entry(key, val)];
    FillKeepsNoGaps(t.slots, t.logsize, home, d, key, val);
    EntriesUpdate(t.slots, at, Entry(key, val));
    forall k, v
      ensures Stored(slots, k, v) <==> Stored(t.slots, k, v) || (SameKey(k, key) && v == val)
    {
      if Stored(t.slots, k, v) {
        var i :| 0 <= i < |t.slots| && t.slots[i].Entry? && SameKey(k, t.slots[i].key) && t.slots[i].val == v;
        assert slots[i] == t.slots[i];
      }
      if SameKey(k, key) && v == val {
        assert slots[at] == Entry(key, val);
      }
    }
  }

  /** Replacing the value of a key that is there. */
  lemma InsertReplace(t: Table, key: string, val: string)
    requires Sound(t) && Find(t, key).Some? && t.slots[Find(t, key).value].Entry?
    ensures var at := Find(t, key).value;
            var u := t.(slots := t.slots[at := Entry(t.slots[at].key, val)]);
            && Sound(u)
            && forall k, v :: Stored(u.slots, k, v) <==>
                              if SameKey(k, key) then v == val else Stored(t.slots, k, v)
  {
    var at := Find(t, key).value;
    var slots := t.slots[at := Entry(t.slots[at].key, val)];
    EntriesUpdate(t.slots, at, slots[at]);
    forall i | 0 <= i < |slots| && slots[i].Entry?
      ensures PathFull(slots, t.logsize, i)
    {
      assert PathFull(t.slots, t.logsize, i);
    }
    forall k, v
      ensures Stored(slots, k, v) <==> if SameKey(k, key) then v == val else Stored(t.slots, k, v)
    {
      ReplaceStored(t.slots, at, key, val, k, v);
    }
  }

  lemma ReplaceStored(slots: seq<Slot>, at: nat, key: string, val: string, k: string, v: string)
    requires DistinctKeys(slots) && at < |slots| && slots[at].Entry? && SameKey(key, slots[at].key)
    ensures Stored(slots[at := Entry(slots[at].key, val)], k, v) <==>
            if SameKey(k, key) then v == val else Stored(slots, k, v)
  {
    var u := slots[at := Entry(slots[at].key, val)];
    if SameKey(k, key) {
      if v == val {
        assert u[at].Entry?;
      }
      if Stored(u, k, v) {
        var i :| 0 <= i < |u| && u[i].Entry? && SameKey(k, u[i].key) && u[i].val == v;
        assert !(i < at) && !(at < i);
      }
    } else {
      if Stored(slots, k, v) {
        var i :| 0 <= i < |slots| && slots[i].Entry? && SameKey(k, slots[i].key) && slots[i].val == v;
        assert u[i] == slots[i];
      }
    }
  }

  // ---- Rehashing ---------------------------------------------------------

  lemma {:induction false} FreeWitness(slots: seq<Slot>, home: nat, d: nat, free: nat) returns (stop: nat)
    requires home < |slots| && d <= |slots| && free < |slots| && slots[free].Empty?
    requires forall e :: 0 <= e < d ==> slots[Cell(home, e, |slots|)].Entry?
    ensures d <= stop < |slots| && FreeFrom(slots, home, d) == Some(Cell(home, stop, |slots|))
    ensures slots[Cell(home, stop, |slots|)].Empty?
    ensures forall e :: 0 <= e < stop ==> slots[Cell(home, e, |slots|)].Entry?
    decreases |slots| - d
  {
    var at := Offset(home, free, |slots|);
    assert d <= at;
    if slots[Cell(home, d, |slots|)].Empty? {
      stop := d;
    } else {
      stop := FreeWitness(slots, home, d + 1, free);
    }
  }

  /** Moving one entry keeps the new array free of gaps and adds that entry. */
  lemma PlaceOne(slots: seq<Slot>, logsize: nat, s: Slot)
    requires |slots| == Pow2(logsize) && NoGaps(slots, logsize) && s.Entry? && Entries(slots) < |slots|
    ensures var at := FreeFrom(slots, Home(s.key, logsize), 0);
            && at.Some?
            && NoGaps(slots[at.value := s], logsize)
            && Entries(slots[at.value := s]) == Entries(slots) + 1
  {
    var home := Home(s.key, logsize);
    var free := RoomMeansEmpty(slots);
    var d := FreeWitness(slots, home, 0, free);
    FillKeepsNoGaps(slots, logsize, home, d, s.key, s.val);
    EntriesUpdate(slots, Cell(home, d, |slots|), s);
  }

  /** Where a key or a binding is after one entry has been put into a free slot. */
  lemma PlaceStored(slots: seq<Slot>, at: nat, s: Slot)
    requires at < |slots| && slots[at].Empty? && s.Entry?
    ensures forall k, v :: Stored(slots[at := s], k, v) <==> Stored(slots, k, v) || (SameKey(k, s.key) && v == s.val)
    ensures forall k :: HasKey(slots[at := s], k) <==> HasKey(slots, k) || SameKey(k, s.key)
  {
    var u := slots[at := s];
    forall k, v
      ensures Stored(u, k, v) <==> Stored(slots, k, v) || (SameKey(k, s.key) && v == s.val)
    {
      if Stored(slots, k, v) {
        var i :| 0 <= i < |slots| && slots[i].Entry? && SameKey(k, slots[i].key) && slots[i].val == v;
        assert u[i] == slots[i];
      }
      assert u[at] == s;
    }
    forall k
      ensures HasKey(u, k) <==> HasKey(slots, k) || SameKey(k, s.key)
    {
      if HasKey(slots, k) {
        var i :| 0 <= i < |slots| && slots[i].Entry? && SameKey(k, slots[i].key);
        assert u[i] == slots[i];
      }
      assert u[at] == s;
    }
  }

  lemma SuffixStored(slots: seq<Slot>, i: nat)
    requires i < |slots|
    ensures forall k, v :: Stored(slots[i..], k, v) <==>
              Stored(slots[i + 1..], k, v) || (slots[i].Entry? && SameKey(k, slots[i].key) && v == slots[i].val)
    ensures forall k :: HasKey(slots[i..], k) <==>
              HasKey(slots[i + 1..], k) || (slots[i].Entry? && SameKey(k, slots[i].key))
  {
    var a, b := slots[i..], slots[i + 1..];
    assert a[0] == slots[i] && forall j :: 0 <= j < |b| ==> b[j] == a[j + 1];
    forall k, v
      ensures Stored(a, k, v) <==> Stored(b, k, v) || (a[0].Entry? && SameKey(k, a[0].key) && v == a[0].val)
    {
      if Stored(a, k, v) {
        var j :| 0 <= j < |a| && a[j].Entry? && SameKey(k, a[j].key) && a[j].val == v;
        assert j > 0 ==> b[j - 1] == a[j];
      }
      if Stored(b, k, v) {
        var j :| 0 <= j < |b| && b[j].Entry? && SameKey(k, b[j].key) && b[j].val == v;
        assert a[j + 1] == b[j];
      }
    }
    forall k
      ensures HasKey(a, k) <==> HasKey(b, k) || (a[0].Entry? && SameKey(k, a[0].key))
    {
      if HasKey(a, k) {
        var j :| 0 <= j < |a| && a[j].Entry? && SameKey(k, a[j].key);
        assert j > 0 ==> b[j - 1] == a[j];
      }
      if HasKey(b, k) {
        var j :| 0 <= j < |b| && b[j].Entry? && SameKey(k, b[j].key);
        assert a[j + 1] == b[j];
      }
    }
  }

  /** Rehashing any array into one with room for its entries leaves no gap and
      loses and invents nothing. */
  lemma {:induction false} RehashKeeps(from: seq<Slot>, i: nat, into: seq<Slot>, logsize: nat)
    requires |into| == Pow2(logsize) && i <= |from| && NoGaps(into, logsize)
    requires Entries(into) + Entries(from[i..]) <= |into|
    ensures var r := Rehash(from, i, into, logsize);
            && NoGaps(r, logsize)
            && Entries(r) == Entries(into) + Entries(from[i..])
            && (forall k, v :: Stored(r, k, v) <==> Stored(into, k, v) || Stored(from[i..], k, v))
            && (forall k :: HasKey(r, k) <==> HasKey(into, k) || HasKey(from[i..], k))
    decreases |from| - i
  {
    if i == |from| {
    } else {
      assert from[i..][1..] == from[i + 1..];
      SuffixStored(from, i);
      if from[i].Empty? {
        RehashKeeps(from, i + 1, into, logsize);
      } else {
        PlaceOne(into, logsize, from[i]);
        var at := FreeFrom(into, Home(from[i].key, logsize), 0).value;
        PlaceStored(into, at, from[i]);
        RehashKeeps(from, i + 1, into[at := from[i]], logsize);
      }
    }
  }

  /** Distinct keys stay distinct while they are moved. */
  lemma {:induction false} RehashDistinct(from: seq<Slot>, i: nat, into: seq<Slot>, logsize: nat)
    requires |into| == Pow2(logsize) && i <= |from| && NoGaps(into, logsize)
    requires Entries(into) + Entries(from[i..]) <= |into|
    requires DistinctKeys(from) && DistinctKeys(into)
    requires forall j :: i <= j < |from| && from[j].Entry? ==> !HasKey(into, from[j].key)
    ensures DistinctKeys(Rehash(from, i, into, logsize))
    decreases |from| - i
  {
    if i < |from| {
      assert from[i..][1..] == from[i + 1..];
      if from[i].Empty? {
        RehashDistinct(from, i + 1, into, logsize);
      } else {
        PlaceOne(into, logsize, from[i]);
        var at := FreeFrom(into, Home(from[i].key, logsize), 0).value;
        PlaceStored(into, at, from[i]);
        RehashDistinct(from, i + 1, into[at := from[i]], logsize);
      }
    }
  }

  /** A rehash into a table with room makes every stored key findable again,
      whatever gaps and duplicates the table had. */
  lemma ResizeRepairs(t: Table, logsize: nat)
    requires Sized(t) && logsize != t.logsize && Entries(t.slots) <= Pow2(logsize)
    ensures var u := Resize(t, logsize);
            && Sized(u) && NoGaps(u.slots, logsize) && Entries(u.slots) == Entries(t.slots)
            && (forall k, v :: Stored(u.slots, k, v) <==> Stored(t.slots, k, v))
            && (forall k :: Lookup(u, k).Some? <==> HasKey(t.slots, k))
  {
    var into := EmptySlots(logsize);
    NoEntries(into);
    assert t.slots[0..] == t.slots;
    RehashKeeps(t.slots, 0, into, logsize);
    var u := Resize(t, logsize);
    forall k
      ensures Lookup(u, k).Some? <==> HasKey(u.slots, k)
    {
      FoundIffHeld(u, k);
    }
  }

  /** Without gaps, a lookup succeeds exactly for the keys held. */
  lemma FoundIffHeld(t: Table, key: string)
    requires Sized(t) && NoGaps(t.slots, t.logsize)
    ensures Lookup(t, key).Some? <==> HasKey(t.slots, key)
  {
    if i :| 0 <= i < |t.slots| && t.slots[i].Entry? && SameKey(key, t.slots[i].key) {
      FindsKey(t, key, i);
    }
  }

  /** Resizing a sound table changes no binding. */
  lemma ResizeKeeps(t: Table, logsize: nat)
    requires Sound(t) && Entries(t.slots) <= Pow2(logsize)
    ensures Sound(Resize(t, logsize)) && Resize(t, logsize).count == t.count && Resize(t, logsize).logsize == logsize
    ensures forall k, v :: Stored(Resize(t, logsize).slots, k, v) <==> Stored(t.slots, k, v)
    ensures forall k :: Lookup(Resize(t, logsize), k) == Lookup(t, k)
  {
    if logsize != t.logsize {
      ResizeRepairs(t, logsize);
      var into := EmptySlots(logsize);
      NoEntries(into);
      assert t.slots[0..] == t.slots;
      RehashDistinct(t.slots, 0, into, logsize);
    }
    SameLookups(t, Resize(t, logsize));
  }

  lemma SameLookups(t: Table, u: Table)
    requires Sound(t) && Sound(u)
    requires forall k, v :: Stored(u.slots, k, v) <==> Stored(t.slots, k, v)
    ensures forall k :: Lookup(u, k) == Lookup(t, k)
  {
    forall k
      ensures Lookup(u, k) == Lookup(t, k)
    {
      LookupIffStored(t, k);
      LookupIffStored(u, k);
      if Lookup(t, k).Some? {
        assert Stored(t.slots, k, Lookup(t, k).value);
      }
      if Lookup(u, k).Some? {
        assert Stored(u.slots, k, Lookup(u, k).value);
      }
    }
  }

  // ---- What insertion means ----------------------------------------------

  /** The new key's table, and its growth. */
  lemma InsertGrows(t: Table, key: string, val: string)
    requires Sound(t) && Light(t) && Find(t, key).Some? && t.slots[Find(t, key).value].Empty?
    ensures !HasKey(t.slots, key)
    ensures var (u, ok) := Insert(t, key, val);
            && ok && Sound(u) && Light(u) && u.count == t.count + 1
            && forall k, v :: Stored(u.slots, k, v) <==> Stored(t.slots, k, v) || (SameKey(k, key) && v == val)
  {
    var w := Table(t.slots[Find(t, key).value := Entry(key, val)], t.count + 1, t.logsize);
    assert w.count * 100 / (2 * |w.slots|) <= GROWTH_THRESHOLD by {
      GrowthLoad(t.count, |t.slots|);
    }
    hide Light;
    InsertNew(t, key, val);
    hide NoGaps, DistinctKeys, Stored, HasKey, Find, Entries, Resize, Pow2;
    GrowIfHeavy(w);
  }

  /** The growth step at the end of an insertion. */
  lemma GrowIfHeavy(w: Table)
    requires Sound(w) && w.count * 100 / (2 * |w.slots|) <= GROWTH_THRESHOLD
    ensures var u := if w.count * 100 / |w.slots| > GROWTH_THRESHOLD then Resize(w, w.logsize + 1) else w;
            && Sound(u) && Light(u) && u.count == w.count
            && forall k, v :: Stored(u.slots, k, v) <==> Stored(w.slots, k, v)
  {
    EntriesBound(w.slots);
    var twice := 2 * |w.slots|;
    assert Pow2(w.logsize + 1) == twice;
    hide NoGaps, DistinctKeys, Stored, HasKey, Find, Entries, Resize, Pow2;
    if w.count * 100 / |w.slots| > GROWTH_THRESHOLD {
      ResizeKeeps(w, w.logsize + 1);
    }
  }

  /** On a sound, lightly loaded table insertion succeeds, leaves the table sound
      and lightly loaded, and changes exactly the lookups of that key. */
  lemma InsertMeans(t: Table, key: string, val: string)
    requires Sound(t) && Light(t)
    ensures var (u, ok) := Insert(t, key, val);
            && ok && Sound(u) && Light(u)
            && u.count == t.count + (if HasKey(t.slots, key) then 0 else 1)
            && (forall k :: Lookup(u, k) == if SameKey(k, key) then Some(val) else Lookup(t, k))
  {
    LightHasRoom(t, key);
    FoundIffHeld(t, key);
    if t.slots[Find(t, key).value].Empty? {
      InsertGrows(t, key, val);
    } else {
      InsertReplace(t, key, val);
    }
    var u := Insert(t, key, val).0;
    hide NoGaps, DistinctKeys, Find, Entries, Insert, Light;
    forall k
      ensures Lookup(u, k) == if SameKey(k, key) then Some(val) else Lookup(t, k)
    {
      LookupIffStored(t, k);
      LookupIffStored(u, k);
      InsertedLookup(t, u, key, val, k);
    }
  }

  /** The table does not distinguish letters by case: what is set under a key is found under
      every key that differs from it in the case of letters only, and for all other keys
      nothing has changed. */
  lemma CaseIgnored(t: Table, a: string, v: string, b: string)
    requires Sound(t) && Light(t)
    ensures Sized(Insert(t, a, v).0)
    ensures Lookup(Insert(t, a, v).0, b) == if SameButCase(a, b) then Some(v) else Lookup(t, b)
  {
    InsertMeans(t, a, v);
    SameKeyIff(a, b);
  }

  lemma InsertedLookup(t: Table, u: Table, key: string, val: string, k: string)
    requires Sized(t) && Sized(u)
    requires forall v :: Lookup(t, k) == Some(v) <==> Stored(t.slots, k, v)
    requires forall v :: Lookup(u, k) == Some(v) <==> Stored(u.slots, k, v)
    requires SameKey(k, key) ==> forall v :: v == val ==> Stored(u.slots, k, v)
    requires !SameKey(k, key) ==> forall v :: Stored(u.slots, k, v) <==> Stored(t.slots, k, v)
    ensures Lookup(u, k) == if SameKey(k, key) then Some(val) else Lookup(t, k)
  {
    if SameKey(k, key) {
      assert Stored(u.slots, k, val);
    } else {
      if Lookup(t, k).Some? { assert Stored(t.slots, k, Lookup(t, k).value); }
      if Lookup(u, k).Some? { assert Stored(u.slots, k, Lookup(u, k).value); }
    }
  }

  /** One more entry than the threshold allows is no more than the threshold
      allows at twice the size. */
  lemma GrowthLoad(count: nat, size: nat)
    requires 0 < size && count * 100 / size <= 50
    ensures (count + 1) * 100 / (2 * size) <= 50
  {
    LoadBound(count, size);
    LoadBound(count + 1, 2 * size);
  }

  // ---- Deletion ----------------------------------------------------------

  /** The probe path of the entry in slot j runs through slot i before it. */
  predicate Crosses(slots: seq<Slot>, logsize: nat, i: nat, j: nat)
    requires |slots| == Pow2(logsize) && i < |slots| && j < |slots| && slots[j].Entry?
  {
    var home := Home(slots[j].key, logsize);
    Offset(home, i, |slots|) < Offset(home, j, |slots|)
  }

  /** After a deletion an entry in another slot is found exactly when its probe
      path does not cross the emptied slot. */
  lemma DeleteOther(t: Table, i: nat, j: nat)
    requires Sound(t) && i < |t.slots| && j < |t.slots| && i != j && t.slots[i].Entry? && t.slots[j].Entry?
    ensures var u := t.(slots := t.slots[i := Empty]);
            Lookup(u, t.slots[j].key) ==
            if Crosses(t.slots, t.logsize, i, j) then None else Some(t.slots[j].val)
  {
    var u := t.(slots := t.slots[i := Empty]);
    var key := t.slots[j].key;
    var home := Home(key, t.logsize);
    var cap := |t.slots|;
    var di, dj := Offset(home, i, cap), Offset(home, j, cap);
    assert PathFull(t.slots, t.logsize, j);
    var stop := if di < dj then di else dj;
    forall e | 0 <= e < stop
      ensures !StopsAt(u.slots[Cell(home, e, cap)], key)
    {
      var c := Cell(home, e, cap);
      assert t.slots[c].Entry? && c != j && c != i;
      assert !SameKey(t.slots[c].key, key);
    }
    ProbeStops(u.slots, key, home, 0, stop);
  }

  /** A key that is stored nowhere else is not found after the deletion. */
  lemma DeleteGone(t: Table, i: nat, k: string)
    requires Sound(t) && i < |t.slots| && t.slots[i].Entry?
    requires forall j :: 0 <= j < |t.slots| && j != i && t.slots[j].Entry? ==> !SameKey(k, t.slots[j].key)
    ensures Lookup(t.(slots := t.slots[i := Empty]), k) == None
  {
    var u := t.(slots := t.slots[i := Empty]);
    var at := Find(u, k);
    assert at.Some? ==> StopsAt(u.slots[at.value], k);
  }

  /** Deleting a key that is present is removal from the map exactly when no
      other entry's probe path crosses the emptied slot. */
  lemma DeleteExactIff(t: Table, key: string)
    requires Sound(t) && HasKey(t.slots, key)
    ensures Find(t, key).Some? && t.slots[Find(t, key).value].Entry? && Delete(t, key).1
    ensures var i := Find(t, key).value;
            var u := Delete(t, key).0;
            (forall k :: Lookup(u, k) == if SameKey(k, key) then None else Lookup(t, k)) <==>
            (forall j :: 0 <= j < |t.slots| && j != i && t.slots[j].Entry? ==> !Crosses(t.slots, t.logsize, i, j))
  {
    FoundIffHeld(t, key);
    var i := Find(t, key).value;
    var u := Delete(t, key).0;
    var w := t.(slots := t.slots[i := Empty]);
    assert forall k :: Lookup(u, k) == Lookup(w, k);
    forall j | 0 <= j < |t.slots| && j != i && t.slots[j].Entry?
      ensures !SameKey(t.slots[j].key, key)
      ensures Lookup(t, t.slots[j].key) == Some(t.slots[j].val)
      ensures Lookup(u, t.slots[j].key) == if Crosses(t.slots, t.logsize, i, j) then None else Some(t.slots[j].val)
    {
      assert !SameKey(t.slots[j].key, t.slots[i].key);
      DeleteOther(t, i, j);
      LookupIffStored(t, t.slots[j].key);
      assert Stored(t.slots, t.slots[j].key, t.slots[j].val);
    }
    if forall j :: 0 <= j < |t.slots| && j != i && t.slots[j].Entry? ==> !Crosses(t.slots, t.logsize, i, j) {
      forall k
        ensures Lookup(u, k) == if SameKey(k, key) then None else Lookup(t, k)
      {
        DeleteLookup(t, i, key, k);
      }
    }
  }

  lemma DeleteLookup(t: Table, i: nat, key: string, k: string)
    requires Sound(t) && i < |t.slots| && t.slots[i].Entry? && SameKey(key, t.slots[i].key)
    requires forall j :: 0 <= j < |t.slots| && j != i && t.slots[j].Entry? ==> !Crosses(t.slots, t.logsize, i, j)
    ensures Lookup(t.(slots := t.slots[i := Empty]), k) == if SameKey(k, key) then None else Lookup(t, k)
  {
    LookupIffStored(t, k);
    if j :| 0 <= j < |t.slots| && j != i && t.slots[j].Entry? && SameKey(k, t.slots[j].key) {
      assert !SameKey(t.slots[j].key, t.slots[i].key);
      DeleteOther(t, i, j);
      SameKeyLookup(t.(slots := t.slots[i := Empty]), k, t.slots[j].key);
      assert Stored(t.slots, k, t.slots[j].val);
    } else {
      DeleteGone(t, i, k);
      if !SameKey(k, key) {
        assert !HasKey(t.slots, k);
      }
    }
  }

  /** Keys that differ only in case are looked up alike. */
  lemma {:induction false} SameKeyLookup(t: Table, a: string, b: string)
    requires Sized(t) && SameKey(a, b)
    ensures Lookup(t, a) == Lookup(t, b)
  {
    SameHome(a, b, t.logsize);
    SameKeyProbe(t.slots, a, b, Home(a, t.logsize), 0);
  }

  lemma {:induction false} SameKeyProbe(slots: seq<Slot>, a: string, b: string, home: nat, d: nat)
    requires home < |slots| && d <= |slots| && SameKey(a, b)
    ensures ProbeFrom(slots, a, home, d) == ProbeFrom(slots, b, home, d)
    decreases |slots| - d
  {
    if d < |slots| {
      SameKeyProbe(slots, a, b, home, d + 1);
    }
  }

  /** If the next slot is free, nothing crosses: the deletion is exact. */
  lemma NextFreeNoCrossing(t: Table, i: nat)
    requires Sound(t) && i < |t.slots| && t.slots[i].Entry?
    requires t.slots[(i + 1) % |t.slots|].Empty?
    ensures forall j :: 0 <= j < |t.slots| && j != i && t.slots[j].Entry? ==> !Crosses(t.slots, t.logsize, i, j)
  {
    var cap := |t.slots|;
    var next := (i + 1) % cap;
    assert next == if i + 1 < cap then i + 1 else 0 by {
      if i + 1 < cap { Small(i + 1, cap); } else { Whole(cap); }
    }
    forall j | 0 <= j < cap && j != i && t.slots[j].Entry?
      ensures !Crosses(t.slots, t.logsize, i, j)
    {
      var home := Home(t.slots[j].key, t.logsize);
      var di, dj := Offset(home, i, cap), Offset(home, j, cap);
      assert PathFull(t.slots, t.logsize, j);
      if di + 1 < cap {
        assert Cell(home, di + 1, cap) == next;
      }
    }
  }

  /** Of two keys whose probing starts at the same slot of an empty table, set
      one after the other, deleting the first loses the second: it is still
      stored, but behind a slot that has become free. */
  lemma CollisionLost(t: Table, a: string, b: string, va: string, vb: string)
    requires Sized(t) && t.count == 0 && 4 <= |t.slots| && forall i :: 0 <= i < |t.slots| ==> t.slots[i].Empty?
    requires Home(a, t.logsize) == Home(b, t.logsize) && !SameKey(a, b)
    ensures var t1 := Insert(t, a, va).0; Sized(t1) && Sized(Insert(t1, b, vb).0)
    ensures var t2 := Insert(Insert(t, a, va).0, b, vb).0;
            && Lookup(t2, a) == Some(va) && Lookup(t2, b) == Some(vb)
            && Stored(Delete(t2, a).0.slots, b, vb) && Lookup(Delete(t2, a).0, b) == None
  {
    var home, cap := Home(a, t.logsize), |t.slots|;
    var next := Cell(home, 1, cap);
    LoadBound(1, cap);
    LoadBound(2, cap);
    ProbeStops(t.slots, a, home, 0, 0);
    var t1 := t.(slots := t.slots[home := Entry(a, va)], count := 1);
    assert Insert(t, a, va).0 == t1;
    ProbeStops(t1.slots, b, home, 0, 1);
    var t2 := t1.(slots := t1.slots[next := Entry(b, vb)], count := 2);
    assert Insert(t1, b, vb).0 == t2;
    ProbeStops(t2.slots, a, home, 0, 0);
    ProbeStops(t2.slots, b, home, 0, 1);
    var u := t2.(slots := t2.slots[home := Empty], count := 1);
    assert Delete(t2, a).0 == u;
    ProbeStops(u.slots, b, home, 0, 0);
    assert u.slots[next] == Entry(b, vb);
  }

  /** The basis xor one character, times the prime. */
  lemma MixOne(s: string)
    requires |s| == 1
    ensures Mix(s, FNV_OFFSET_BASIS) == MixChar(FNV_OFFSET_BASIS, s[0])
  {
    MixStep(s, FNV_OFFSET_BASIS);
    MixNone(s[1..], MixChar(FNV_OFFSET_BASIS, s[0]));
  }

  lemma MixStep(s: string, h: bv32)
    requires s != []
    ensures Mix(s, h) == Mix(s[1..], MixChar(h, s[0]))
  {}

  lemma MixNone(s: string, h: bv32)
    requires s == []
    ensures Mix(s, h) == h
  {}

  lemma OneLower(s: string)
    requires |s| == 1 && !('A' <= s[0] <= 'Z')
    ensures Lower(s) == s
  {
    assert Lower(s[1..]) == [];
  }

  lemma HomeOfA(s: string)
    requires |s| == 1 && s[0] == 'a'
    ensures Home(s, INITIAL_LOGSIZE) == 5
  {
    hide Home, Mask, MixChar;
    OneHome(s, INITIAL_LOGSIZE);
    BitsOfA();
  }

  lemma HomeOfN(s: string)
    requires |s| == 1 && s[0] == 'n'
    ensures Home(s, INITIAL_LOGSIZE) == 5
  {
    hide Home, Mask, MixChar;
    OneHome(s, INITIAL_LOGSIZE);
    BitsOfN();
  }

  /** Such keys exist: "a" and "n" start at the same slot of a new table. */
  lemma CollidingKeys(a: string, n: string)
    requires |a| == 1 && a[0] == 'a' && |n| == 1 && n[0] == 'n'
    ensures Home(a, INITIAL_LOGSIZE) == Home(n, INITIAL_LOGSIZE) && !SameKey(a, n)
  {
    hide Home;
    HomeOfA(a);
    HomeOfN(n);
    OneLower(a);
    OneLower(n);
  }

  lemma OneHome(s: string, logsize: nat)
    requires |s| == 1 && !('A' <= s[0] <= 'Z')
    ensures Home(s, logsize) == Mask(MixChar(FNV_OFFSET_BASIS, s[0]), logsize)
  {
    hide Mix, Mask, MixChar;
    OneLower(s);
    MixOne(s);
  }

  lemma BitsOfA()
    ensures Mask(MixChar(FNV_OFFSET_BASIS, 'a'), INITIAL_LOGSIZE) == 5
  {
    assert CharBits('a') == 0x61;
    assert (FNV_OFFSET_BASIS ^ 0x61) * FNV_PRIME == 0xE40C292C;
    FoldedA();
    assert Pow2(8) == 256;
  }

  lemma FoldedA()
    ensures ((0xE40C292C as bv32) >> 8) ^ 0xE40C292C == 0xE4E82505 && (0xE4E82505 as bv32) as int == 0xE4E82505
  {}

  lemma BitsOfN()
    ensures Mask(MixChar(FNV_OFFSET_BASIS, 'n'), INITIAL_LOGSIZE) == 5
  {
    assert CharBits('n') == 0x6E;
    assert (FNV_OFFSET_BASIS ^ 0x6E) * FNV_PRIME == 0xEB0C3431;
    FoldedN();
    assert Pow2(8) == 256;
  }

  lemma FoldedN()
    ensures ((0xEB0C3431 as bv32) >> 8) ^ 0xEB0C3431 == 0xEBE73805 && (0xEBE73805 as bv32) as int == 0xEBE73805
  {}

  // ---- Merging -----------------------------------------------------------

  /** The first entry with the key, in slot order. */
  function FirstWith(slots: seq<Slot>, key: string): Option<string> {
    if slots == [] then None
    else if slots[0].Entry? && SameKey(key, slots[0].key) then Some(slots[0].val)
    else FirstWith(slots[1..], key)
  }

  /** hcfg_merge, over the source's slots. */
  function Merge(dst: Table, src: seq<Slot>): (Table, bool)
    requires Sized(dst)
    decreases |src|
  {
    if src == [] then (dst, true)
    else if src[0].Empty? || Lookup(dst, src[0].key).Some? then Merge(dst, src[1..])
    else
      var (u, ok) := Insert(dst, src[0].key, src[0].val);
      if ok && Sized(u) then Merge(u, src[1..]) else (u, false)
  }

  /** Merging keeps every binding of the destination and adds those of the
      source, any table, for keys the destination lacks. */
  lemma {:induction false} MergeMeans(dst: Table, src: seq<Slot>)
    requires Sound(dst) && Light(dst)
    ensures var (u, ok) := Merge(dst, src);
            && ok && Sound(u) && Light(u)
            && forall k :: Lookup(u, k) == if Lookup(dst, k).Some? then Lookup(dst, k) else FirstWith(src, k)
    decreases |src|
  {
    if src != [] {
      if src[0].Empty? {
        MergeMeans(dst, src[1..]);
      } else if Lookup(dst, src[0].key).Some? {
        MergeMeans(dst, src[1..]);
        forall k | SameKey(k, src[0].key)
          ensures Lookup(dst, k).Some?
        {
          SameKeyLookup(dst, k, src[0].key);
        }
      } else {
        InsertMeans(dst, src[0].key, src[0].val);
        MergeMeans(Insert(dst, src[0].key, src[0].val).0, src[1..]);
        forall k | SameKey(k, src[0].key)
          ensures Lookup(dst, k).None?
        {
          SameKeyLookup(dst, k, src[0].key);
        }
      }
    }
  }

  /** In a table without duplicates the first entry with a key is the one a
      lookup gives. */
  lemma FirstIsLookup(t: Table, k: string)
    requires Sound(t)
    ensures FirstWith(t.slots, k) == Lookup(t, k)
  {
    LookupIffStored(t, k);
    FirstStored(t.slots, k);
  }

  lemma {:induction false} FirstStored(slots: seq<Slot>, k: string)
    ensures FirstWith(slots, k).Some? ==> Stored(slots, k, FirstWith(slots, k).value)
    ensures FirstWith(slots, k).None? ==> !HasKey(slots, k)
  {
    if slots == [] {
    } else if slots[0].Entry? && SameKey(k, slots[0].key) {
      assert slots[0].val == FirstWith(slots, k).value;
    } else {
      FirstStored(slots[1..], k);
      assert slots[0..] == slots;
      SuffixStored(slots, 0);
    }
  }

  // ---- The wire form -----------------------------------------------------

  /** The entries in slot order, as hcfg_serialize writes them. */
  function Listing(slots: seq<Slot>): (r: seq<(string, string)>)
    ensures |r| == Entries(slots)
  {
    if slots == [] then []
    else if slots[0].Entry? then [(slots[0].key, slots[0].val)] + Listing(slots[1..])
    else Listing(slots[1..])
  }

  /** The entries set one by one, as hcfg_deserialize does. */
  function SetAll(t: Table, list: seq<(string, string)>): (Table, bool)
    requires Sized(t)
    decreases |list|
  {
    if list == [] then (t, true)
    else
      var (u, ok) := Insert(t, list[0].0, list[0].1);
      if ok && Sized(u) then SetAll(u, list[1..]) else (u, false)
  }

  ghost predicate DistinctList(list: seq<(string, string)>) {
    forall i, j :: 0 <= i < j < |list| ==> !SameKey(list[i].0, list[j].0)
  }

  /** The last value listed with the key. */
  function LastIn(list: seq<(string, string)>, key: string): Option<string> {
    if list == [] then None
    else if LastIn(list[1..], key).Some? then LastIn(list[1..], key)
    else if SameKey(key, list[0].0) then Some(list[0].1)
    else None
  }

  /** The value of the last entry with the key, in slot order. */
  function LastWith(slots: seq<Slot>, key: string): Option<string> {
    if slots == [] then None
    else if LastWith(slots[1..], key).Some? then LastWith(slots[1..], key)
    else if slots[0].Entry? && SameKey(key, slots[0].key) then Some(slots[0].val)
    else None
  }

  lemma {:induction false} ListingLast(slots: seq<Slot>, key: string)
    ensures LastIn(Listing(slots), key) == LastWith(slots, key)
  {
    if slots != [] {
      ListingLast(slots[1..], key);
      assert slots[0].Entry? ==> Listing(slots)[1..] == Listing(slots[1..]);
    }
  }

  lemma {:induction false} LastStored(slots: seq<Slot>, key: string)
    ensures LastWith(slots, key).Some? ==> Stored(slots, key, LastWith(slots, key).value)
    ensures LastWith(slots, key).Some? <==> HasKey(slots, key)
  {
    if slots != [] {
      LastStored(slots[1..], key);
      assert slots[0..] == slots;
      SuffixStored(slots, 0);
    }
  }

  lemma {:induction false} LastListed(list: seq<(string, string)>, key: string)
    ensures LastIn(list, key).Some? <==> exists i :: 0 <= i < |list| && SameKey(key, list[i].0)
  {
    if list != [] {
      var rest := list[1..];
      LastListed(rest, key);
      if i :| 0 <= i < |list| && SameKey(key, list[i].0) {
        assert i > 0 ==> rest[i - 1] == list[i];
      }
      if i :| 0 <= i < |rest| && SameKey(key, rest[i].0) {
        assert list[i + 1] == rest[i];
      }
    }
  }

  /** A list has distinct keys if its tail has, and the first does not come again. */
  lemma DistinctCons(list: seq<(string, string)>)
    requires list != []
    ensures DistinctList(list) <==> LastIn(list[1..], list[0].0).None? && DistinctList(list[1..])
  {
    var rest := list[1..];
    LastListed(rest, list[0].0);
    assert forall i :: 0 <= i < |rest| ==> rest[i] == list[i + 1];
    if DistinctList(list) {
      forall i | 0 <= i < |rest|
        ensures !SameKey(list[0].0, rest[i].0)
      {
        assert !SameKey(list[0].0, list[i + 1].0);
      }
    }
    if LastIn(rest, list[0].0).None? && DistinctList(rest) {
      forall i, j | 0 <= i < j < |list|
        ensures !SameKey(list[i].0, list[j].0)
      {
        assert list[j] == rest[j - 1];
        if i > 0 { assert list[i] == rest[i - 1]; }
      }
    }
  }

  lemma DistinctFirst(slots: seq<Slot>)
    requires slots != []
    ensures DistinctKeys(slots) <==> (slots[0].Entry? ==> !HasKey(slots[1..], slots[0].key)) && DistinctKeys(slots[1..])
  {
    var rest := slots[1..];
    assert forall i :: 0 <= i < |rest| ==> rest[i] == slots[i + 1];
    if DistinctKeys(slots) && slots[0].Entry? {
      forall i | 0 <= i < |rest| && rest[i].Entry?
        ensures !SameKey(slots[0].key, rest[i].key)
      {
        assert !SameKey(slots[0].key, slots[i + 1].key);
      }
    }
    if (slots[0].Entry? ==> !HasKey(rest, slots[0].key)) && DistinctKeys(rest) {
      forall i, j | 0 <= i < j < |slots| && slots[i].Entry? && slots[j].Entry?
        ensures !SameKey(slots[i].key, slots[j].key)
      {
        assert slots[j] == rest[j - 1];
        if i > 0 { assert slots[i] == rest[i - 1]; }
      }
    }
  }

  lemma {:induction false} ListingDistinct(slots: seq<Slot>)
    ensures DistinctList(Listing(slots)) <==> DistinctKeys(slots)
  {
    if slots != [] {
      ListingDistinct(slots[1..]);
      DistinctFirst(slots);
      if slots[0].Entry? {
        assert Listing(slots)[1..] == Listing(slots[1..]);
        DistinctCons(Listing(slots));
        ListingLast(slots[1..], slots[0].key);
        LastStored(slots[1..], slots[0].key);
      }
    }
  }

  /** The keys listed are distinct, and none is in the table. */
  ghost predicate AllNew(t: Table, list: seq<(string, string)>)
    requires Sized(t)
  {
    DistinctList(list) && forall i :: 0 <= i < |list| ==> Lookup(t, list[i].0).None?
  }

  /** Insertion where there is room for one more entry: the table does not grow. */
  lemma InsertHere(t: Table, key: string, val: string)
    requires Sound(t) && (t.count + 1) * 100 / |t.slots| <= GROWTH_THRESHOLD
    ensures var (u, ok) := Insert(t, key, val);
            && ok && Sound(u) && u.logsize == t.logsize && |u.slots| == |t.slots|
            && u.count == t.count + (if Lookup(t, key).Some? then 0 else 1)
            && (forall k :: Lookup(u, k) == if SameKey(k, key) then Some(val) else Lookup(t, k))
  {
    hide NoGaps, DistinctKeys, Find, Lookup, HasKey, Insert, Entries;
    LessLoad(t.count, t.count + 1, |t.slots|);
    FoundIffHeld(t, key);
    InsertMeans(t, key, val);
    StaysSmall(t, key, val);
  }

  lemma StaysSmall(t: Table, key: string, val: string)
    requires Sized(t) && (t.count + 1) * 100 / |t.slots| <= GROWTH_THRESHOLD
    ensures Insert(t, key, val).0.logsize == t.logsize && |Insert(t, key, val).0.slots| == |t.slots|
  {
    hide Find, Resize;
  }

  lemma LessLoad(a: nat, b: nat, size: nat)
    requires 0 < size && a <= b && b * 100 / size <= GROWTH_THRESHOLD
    ensures a * 100 / size <= GROWTH_THRESHOLD
  {
    LoadBound(a, size);
    LoadBound(b, size);
  }

  lemma NewCons(t: Table, u: Table, list: seq<(string, string)>)
    requires list != [] && Sized(t) && Sized(u)
    requires forall k :: Lookup(u, k) == if SameKey(k, list[0].0) then Some(list[0].1) else Lookup(t, k)
    ensures AllNew(t, list) <==> Lookup(t, list[0].0).None? && AllNew(u, list[1..])
  {
    hide Lookup;
    var rest := list[1..];
    DistinctCons(list);
    LastListed(rest, list[0].0);
    assert forall i :: 0 <= i < |rest| ==> rest[i] == list[i + 1];
    if AllNew(t, list) {
      forall i | 0 <= i < |rest|
        ensures Lookup(u, rest[i].0).None?
      {
        assert !SameKey(list[0].0, list[i + 1].0);
      }
    }
    if Lookup(t, list[0].0).None? && AllNew(u, rest) {
      forall i | 0 <= i < |list|
        ensures Lookup(t, list[i].0).None?
      {
        if i > 0 {
          assert Lookup(u, rest[i - 1].0).None?;
        }
      }
      forall i | 0 <= i < |rest|
        ensures !SameKey(list[0].0, rest[i].0)
      {
        assert Lookup(u, rest[i].0).None?;
      }
    }
  }

  /** Setting any list of pairs, no longer than the threshold allows at the table's
      size, never makes it grow; each key gets the last value listed with it, and
      every pair counts exactly if all their keys are new and distinct. */
  lemma {:induction false} SetAllStores(t: Table, list: seq<(string, string)>)
    requires Sound(t) && (t.count + |list|) * 100 / |t.slots| <= GROWTH_THRESHOLD
    ensures var (u, ok) := SetAll(t, list);
            && ok && Sound(u) && Light(u) && u.logsize == t.logsize && u.count <= t.count + |list|
            && (u.count == t.count + |list| <==> AllNew(t, list))
            && forall k :: Lookup(u, k) == if LastIn(list, k).Some? then LastIn(list, k) else Lookup(t, k)
    decreases |list|
  {
    hide Insert, Lookup, NoGaps, DistinctKeys, DistinctList;
    if list == [] {
      assert DistinctList(list) by { NoPairsDistinct(); }
    } else {
      MoreLoad(t.count, |list|, |t.slots|);
      InsertHere(t, list[0].0, list[0].1);
      var u := Insert(t, list[0].0, list[0].1).0;
      LessLoad(u.count + |list[1..]|, t.count + |list|, |t.slots|);
      SetAllStores(u, list[1..]);
      NewCons(t, u, list);
    }
  }

  lemma NoPairsDistinct()
    ensures DistinctList([])
  {}

  lemma MoreLoad(count: nat, more: nat, size: nat)
    requires 0 < size && 0 < more && (count + more) * 100 / size <= GROWTH_THRESHOLD
    ensures (count + 1) * 100 / size <= GROWTH_THRESHOLD
  {
    LessLoad(count + 1, count + more, size);
  }

  /** The same bindings, count and size. */
  ghost predicate SameConfiguration(t: Table, u: Table) {
    && Sized(t) && Sized(u) && u.count == t.count && u.logsize == t.logsize
    && forall k :: Lookup(u, k) == Lookup(t, k)
  }

  /** A configuration written to the wire and set into a new one: every stored key is
      found in what arrives, with the value in the last slot that has it. */
  lemma WireRoundTrip(t: Table)
    requires Loose(t)
    ensures Sized(Resize(NewTable(), t.logsize))
    ensures var (u, ok) := SetAll(Resize(NewTable(), t.logsize), Listing(t.slots));
            && ok && Sound(u) && Light(u) && u.logsize == t.logsize && u.count <= t.count
            && (u.count == t.count <==> DistinctKeys(t.slots))
            && forall k :: Lookup(u, k) == LastWith(t.slots, k)
  {
    var empty, list := Resize(NewTable(), t.logsize), Listing(t.slots);
    StartsEmpty(t.logsize);
    hide NewTable, Resize, NoGaps, DistinctKeys, Pow2, Lookup, SetAll;
    SetAllStores(empty, list);
    ListingDistinct(t.slots);
    forall k
      ensures LastIn(list, k) == LastWith(t.slots, k)
    {
      ListingLast(t.slots, k);
    }
  }

  /** It is the same configuration exactly if no probe run had a gap and no key was
      stored twice. */
  lemma WireSameIff(t: Table)
    requires Loose(t)
    ensures Sized(Resize(NewTable(), t.logsize))
    ensures SameConfiguration(t, SetAll(Resize(NewTable(), t.logsize), Listing(t.slots)).0) <==>
            NoGaps(t.slots, t.logsize) && DistinctKeys(t.slots)
  {
    WireRoundTrip(t);
    var u := SetAll(Resize(NewTable(), t.logsize), Listing(t.slots)).0;
    hide NewTable, Resize, SetAll, Listing, NoGaps, DistinctKeys, Lookup, LastWith, Entries, Light;
    if NoGaps(t.slots, t.logsize) && DistinctKeys(t.slots) {
      forall k
        ensures LastWith(t.slots, k) == Lookup(t, k)
      {
        LastIsLookup(t, k);
      }
    }
    if SameConfiguration(t, u) {
      LastFoundMeansNoGaps(t);
    }
  }

  /** In a sound table the last entry with a key is the one a lookup gives. */
  lemma LastIsLookup(t: Table, k: string)
    requires Sized(t) && NoGaps(t.slots, t.logsize) && DistinctKeys(t.slots)
    ensures LastWith(t.slots, k) == Lookup(t, k)
  {
    LookupIffStored(t, k);
    LastStored(t.slots, k);
  }

  /** If every stored key is found, with distinct keys, there are no gaps. */
  lemma LastFoundMeansNoGaps(t: Table)
    requires Sized(t) && DistinctKeys(t.slots) && forall k :: Lookup(t, k) == LastWith(t.slots, k)
    ensures NoGaps(t.slots, t.logsize)
  {
    forall i | 0 <= i < |t.slots| && t.slots[i].Entry?
      ensures PathFull(t.slots, t.logsize, i)
    {
      LastStored(t.slots, t.slots[i].key);
      assert HasKey(t.slots, t.slots[i].key);
      FoundMeansPathFull(t, i);
    }
  }

  lemma FoundMeansPathFull(t: Table, i: nat)
    requires Sized(t) && DistinctKeys(t.slots) && i < |t.slots| && t.slots[i].Entry?
    requires Lookup(t, t.slots[i].key).Some?
    ensures PathFull(t.slots, t.logsize, i)
  {
    var key := t.slots[i].key;
    var home := Home(key, t.logsize);
    var d := ProbeWitness(t.slots, key, home, 0);
    var at := Cell(home, d, |t.slots|);
    assert at == i by {
      assert SameKey(key, t.slots[at].key);
      assert !(at < i) && !(i < at);
    }
    assert Offset(home, i, |t.slots|) == d;
    forall e | 0 <= e < d
      ensures t.slots[Cell(home, e, |t.slots|)].Entry?
    {
      assert !StopsAt(t.slots[Cell(home, e, |t.slots|)], key);
    }
  }

  /** A new table of the size announced holds nothing. */
  lemma StartsEmpty(logsize: nat)
    ensures var e := Resize(NewTable(), logsize);
            && Sound(e) && e.count == 0 && e.logsize == logsize
            && forall k :: Lookup(e, k) == None
  {
    var e := Resize(NewTable(), logsize);
    NoEntries(NewTable().slots);
    ResizeKeeps(NewTable(), logsize);
    forall k
      ensures Lookup(e, k) == None
    {
      FoundIffHeld(NewTable(), k);
    }
    if logsize != INITIAL_LOGSIZE {
      assert Entries(e.slots) == 0;
    }
  }
}
