/** The configuration object: the hash array and its bookkeeping as fields, the
    library's routines as methods that change them in place. */
module Hcfg {
  import opened Ring
  import opened HashTable
  import opened HashMapping

  /** An insertion keeps the array a power of two long. */
  lemma InsertSized(t: Table, key: string, val: string)
    requires Sized(t)
    ensures Sized(Insert(t, key, val).0)
  {}

  class Config {
    var hash: array<Slot>
    var count: int
    var logsize: nat

    ghost function Contents(): Table
      reads this, hash
    {
      Table(hash[..], count, logsize)
    }

    ghost predicate Valid()
      reads this, hash
    {
      Sized(Contents())
    }

    /** hcfg_alloc. */
    constructor ()
      ensures Valid() && fresh(hash) && Contents() == NewTable()
    {
      count, logsize := 0, INITIAL_LOGSIZE;
      hash := new Slot[Pow2(INITIAL_LOGSIZE)](_ => Empty);
      new;
      assert hash[..] == EmptySlots(INITIAL_LOGSIZE);
    }

    /** hash_function. */
    static method HashFunction(key: string, logsize: nat) returns (idx: nat)
      ensures idx == Home(key, logsize)
    {
      var hash := FNV_OFFSET_BASIS;
      var i := 0;
      while i < |key|
        invariant 0 <= i <= |key|
        invariant Mix(Lower(key[i..]), hash) == Mix(Lower(key), FNV_OFFSET_BASIS)
      {
        assert Lower(key[i..]) == [LowerChar(key[i])] + Lower(key[i + 1..]);
        hash := MixChar(hash, LowerChar(key[i]));
        i := i + 1;
      }
      idx := Mask(hash, logsize);
    }

    /** hash_find: probe from the key's slot until it, or a free slot, is met,
        or the probing has come round. */
    method HashFind(key: string) returns (at: Option<nat>)
      requires Valid()
      ensures at == Find(Contents(), key)
    {
      var capacity := Pow2(logsize);
      var origIdx := HashFunction(key, logsize);
      var idx := origIdx;
      ghost var d := 0;
      while hash[idx].Entry? && !SameKey(key, hash[idx].key)
        invariant 0 <= d < capacity == hash.Length && idx == Cell(origIdx, d, capacity)
        invariant ProbeFrom(hash[..], key, origIdx, d) == Find(Contents(), key)
        decreases capacity - d
      {
        Around(origIdx, d, capacity);
        idx := (idx + 1) % capacity;
        d := d + 1;
        if idx == origIdx {
          return None;
        }
      }
      at := Some(idx);
    }

    /** The next slot, and when it is the first one again. */
    static lemma Around(orig: nat, d: nat, cap: nat)
      requires orig < cap && d < cap
      ensures (Cell(orig, d, cap) + 1) % cap == if d + 1 == cap then orig else Cell(orig, d + 1, cap)
      ensures d + 1 < cap ==> Cell(orig, d + 1, cap) != orig
    {
      var c := Cell(orig, d, cap);
      if c + 1 < cap { Small(c + 1, cap); } else { Whole(cap); }
    }

    /** The inner loop of hash_resize: the first free slot for a key. */
    static method FreeSlot(slots: array<Slot>, home: nat) returns (idx: nat)
      requires home < slots.Length && Entries(slots[..]) < slots.Length
      ensures FreeFrom(slots[..], home, 0) == Some(idx)
    {
      idx := home;
      ghost var free := RoomMeansEmpty(slots[..]);
      ghost var stop := FreeWitness(slots[..], home, 0, free);
      ghost var d := 0;
      while slots[idx].Entry?
        invariant 0 <= d <= stop < slots.Length && idx == Cell(home, d, slots.Length)
        invariant FreeFrom(slots[..], home, d) == FreeFrom(slots[..], home, 0)
        decreases stop - d
      {
        Around(home, d, slots.Length);
        idx := (idx + 1) % slots.Length;
        d := d + 1;
      }
    }

    /** The outer loop of hash_resize: move every entry into the new array. */
    method MoveEntries(newHash: array<Slot>, newLogsize: nat)
      requires newHash != hash && newHash.Length == Pow2(newLogsize)
      requires newHash[..] == EmptySlots(newLogsize) && Entries(hash[..]) <= newHash.Length
      modifies newHash
      ensures newHash[..] == Rehash(hash[..], 0, EmptySlots(newLogsize), newLogsize)
    {
      ghost var was := hash[..];
      NoEntries(newHash[..]);
      assert was[0..] == was;
      ghost var whole := Rehash(was, 0, newHash[..], newLogsize);
      var i := 0;
      while i < hash.Length
        invariant 0 <= i <= hash.Length && hash[..] == was
        invariant Entries(newHash[..]) + Entries(was[i..]) <= newHash.Length
        invariant Rehash(was, i, newHash[..], newLogsize) == whole
      {
        MoveOne(was, i, newHash[..], newLogsize);
        hide Rehash, Entries, FreeFrom;
        if hash[i].Entry? {
          var home := HashFunction(hash[i].key, newLogsize);
          var idx := FreeSlot(newHash, home);
          ghost var placed := newHash[..][idx := hash[i]];
          newHash[idx] := hash[i];
          assert newHash[..] == placed;
        }
        i := i + 1;
      }
    }

    /** One step of that loop. */
    static lemma MoveOne(was: seq<Slot>, i: nat, into: seq<Slot>, logsize: nat)
      requires |into| == Pow2(logsize) && i < |was| && Entries(into) + Entries(was[i..]) <= |into|
      ensures was[i].Empty? ==> Rehash(was, i, into, logsize) == Rehash(was, i + 1, into, logsize)
      ensures was[i].Empty? ==> Entries(into) + Entries(was[i + 1..]) <= |into|
      ensures was[i].Entry? ==> Entries(into) < |into|
      ensures was[i].Entry? ==>
                forall idx: nat :: FreeFrom(into, Home(was[i].key, logsize), 0) == Some(idx) ==>
                  && idx < |into|
                  && Rehash(was, i, into, logsize) == Rehash(was, i + 1, into[idx := was[i]], logsize)
                  && Entries(into[idx := was[i]]) + Entries(was[i + 1..]) <= |into|
    {
      assert was[i..][1..] == was[i + 1..];
      if was[i].Entry? {
        var at := FreeFrom(into, Home(was[i].key, logsize), 0);
        if at.Some? {
          EntriesUpdate(into, at.value, was[i]);
        }
      }
    }

    /** hash_resize; the program would look for a free slot forever if the new
        array were too small. */
    method HashResize(newLogsize: nat)
      requires Valid() && Entries(hash[..]) <= Pow2(newLogsize)
      modifies this
      ensures Valid() && Contents() == Resize(old(Contents()), newLogsize)
      ensures hash == old(hash) || fresh(hash)
    {
      if newLogsize == logsize {
        return;
      }
      var newHash := new Slot[Pow2(newLogsize)](_ => Empty);
      assert newHash[..] == EmptySlots(newLogsize);
      MoveEntries(newHash, newLogsize);
      hash := newHash;
      logsize := newLogsize;
    }

    /** hash_insert. */
    method HashInsert(key: string, val: string) returns (ok: bool)
      requires Valid()
      modifies this, hash
      ensures Valid() && (Contents(), ok) == Insert(old(Contents()), key, val)
      ensures hash == old(hash) || fresh(hash)
    {
      var at := HashFind(key);
      if at.None? {
        return false;
      }
      ghost var was := hash[..];
      if hash[at.value].Empty? {
        hash[at.value] := Entry(key, val);
        assert hash[..] == was[at.value := Entry(key, val)];
        count := count + 1;
        if count * 100 / Pow2(logsize) > GROWTH_THRESHOLD {
          EntriesBound(hash[..]);
          HashResize(logsize + 1);
        }
      } else {
        hash[at.value] := Entry(hash[at.value].key, val);
        assert hash[..] == was[at.value := Entry(was[at.value].key, val)];
      }
      ok := true;
    }

    /** hash_delete. */
    method HashDelete(key: string) returns (ok: bool)
      requires Valid()
      modifies this`count, hash
      ensures Valid() && (Contents(), ok) == Delete(old(Contents()), key)
    {
      var at := HashFind(key);
      if at.None? {
        return false;
      }
      ghost var was := hash[..];
      if hash[at.value].Entry? {
        hash[at.value] := Empty;
        assert hash[..] == was[at.value := Empty];
        count := count - 1;
      }
      ok := true;
    }

    /** hcfg_get. */
    method Get(key: string) returns (val: Option<string>)
      requires Valid()
      ensures val == Lookup(Contents(), key)
    {
      var at := HashFind(key);
      if at.None? || hash[at.value].Empty? {
        return None;
      }
      val := Some(hash[at.value].val);
    }

    /** hcfg_set: setting no value is unsetting the key. */
    method Set(key: string, val: Option<string>) returns (ok: bool)
      requires Valid()
      modifies this, hash
      ensures Valid() && (hash == old(hash) || fresh(hash))
      ensures (Contents(), ok) == match val case None => Delete(old(Contents()), key)
                                            case Some(v) => Insert(old(Contents()), key, v)
    {
      match val {
        case None => ok := HashDelete(key);
        case Some(v) => ok := HashInsert(key, v);
      }
    }

    /** hcfg_copy: slot by slot into a new array of the same size. */
    constructor Copy(src: Config)
      requires src.Valid()
      ensures Valid() && fresh(hash) && Contents() == src.Contents()
    {
      count, logsize := src.count, src.logsize;
      var copy := new Slot[Pow2(src.logsize)](_ => Empty);
      var i := 0;
      while i < copy.Length
        invariant 0 <= i <= copy.Length && fresh(copy)
        invariant forall k :: 0 <= k < i ==> copy[k] == src.hash[k]
        invariant forall k :: i <= k < copy.Length ==> copy[k] == Empty
      {
        if src.hash[i].Entry? {
          copy[i] := src.hash[i];
        }
        i := i + 1;
      }
      hash := copy;
      new;
      assert hash[..] == src.hash[..];
    }

    /** hcfg_merge: take over the source's entries whose keys are missing here. */
    method MergeFrom(src: Config) returns (ok: bool)
      requires Valid() && src.Valid() && src != this && src.hash != hash
      modifies this, hash
      ensures Valid() && (Contents(), ok) == Merge(old(Contents()), src.hash[..])
    {
      ghost var from := src.hash[..];
      ghost var whole := Merge(Contents(), from);
      var i := 0;
      assert from[0..] == from;
      while i < src.hash.Length
        invariant 0 <= i <= src.hash.Length && Valid() && src.hash[..] == from
        invariant src.hash != hash && (hash == old(hash) || fresh(hash))
        invariant Merge(Contents(), from[i..]) == whole
      {
        assert from[i..][0] == from[i] && from[i..][1..] == from[i + 1..];
        var slot := src.hash[i];
        i := i + 1;
        if slot.Entry? {
          var entry := HashFind(slot.key);
          if entry.None? || hash[entry.value].Empty? {
            InsertSized(Contents(), slot.key, slot.val);
            ok := HashInsert(slot.key, slot.val);
            if !ok {
              return;
            }
          }
        }
      }
      ok := true;
    }

    /** hash_clear. */
    method Clear()
      requires Valid()
      modifies this`count, hash
      ensures Valid() && Contents() == Table(EmptySlots(logsize), 0, logsize)
    {
      var i := 0;
      while i < hash.Length
        invariant 0 <= i <= hash.Length
        invariant forall k :: 0 <= k < i ==> hash[k] == Empty
      {
        hash[i] := Empty;
        i := i + 1;
      }
      count := 0;
      assert hash[..] == EmptySlots(logsize);
    }
  }
}
