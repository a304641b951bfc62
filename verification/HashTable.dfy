/** The configuration hash: open addressing with linear probing over a table
    whose size is a power of two, keys compared without regard to case. */
module HashTable {
  import opened Ring

  datatype Slot = Empty | Entry(key: string, val: string)

  /** The hash array with its element count and the logarithm of its size. */
  datatype Table = Table(slots: seq<Slot>, count: int, logsize: nat)

  datatype Option<T> = None | Some(value: T)

  const GROWTH_THRESHOLD: nat := 50
  const INITIAL_LOGSIZE: nat := 8

  function Pow2(n: nat): (r: nat)
    ensures r >= 1
  {
    if n == 0 then 1 else 2 * Pow2(n - 1)
  }

  // ---- Keys --------------------------------------------------------------

  /** tolower in the C locale. */
  function LowerChar(c: char): char {
    if 'A' <= c <= 'Z' then c - 'A' + 'a' else c
  }

  function Lower(s: string): (r: string)
    ensures |r| == |s|
  {
    if s == [] then [] else [LowerChar(s[0])] + Lower(s[1..])
  }

  /** strcasecmp finds no difference. */
  predicate SameKey(a: string, b: string) {
    Lower(a) == Lower(b)
  }

  /** One is the capital letter whose small letter the other is. */
  predicate CapitalOf(c: char, d: char) {
    'A' <= c <= 'Z' && d as int == c as int + 32
  }

  /** The same length, and at every place the same character or the same letter. */
  ghost predicate SameButCase(a: string, b: string) {
    && |a| == |b|
    && forall i :: 0 <= i < |a| ==> a[i] == b[i] || CapitalOf(a[i], b[i]) || CapitalOf(b[i], a[i])
  }

  /** What no difference to strcasecmp means: only letters may differ, in case. */
  lemma {:induction false} SameKeyIff(a: string, b: string)
    ensures SameKey(a, b) <==> SameButCase(a, b)
    decreases |a|
  {
    if a != [] && b != [] {
      SameKeyIff(a[1..], b[1..]);
      assert Lower(a)[0] == LowerChar(a[0]) && Lower(a)[1..] == Lower(a[1..]);
      assert Lower(b)[0] == LowerChar(b[0]) && Lower(b)[1..] == Lower(b[1..]);
      assert forall i :: 1 <= i < |a| ==> a[i] == a[1..][i - 1];
      assert forall i :: 1 <= i < |b| ==> b[i] == b[1..][i - 1];
      assert SameButCase(a, b) <==>
             SameButCase(a[1..], b[1..]) && (a[0] == b[0] || CapitalOf(a[0], b[0]) || CapitalOf(b[0], a[0])) by {
        if SameButCase(a[1..], b[1..]) && (a[0] == b[0] || CapitalOf(a[0], b[0]) || CapitalOf(b[0], a[0])) {
          forall i | 0 <= i < |a|
            ensures a[i] == b[i] || CapitalOf(a[i], b[i]) || CapitalOf(b[i], a[i])
          {
            assert i == 0 || (a[i] == a[1..][i - 1] && b[i] == b[1..][i - 1]);
          }
        }
        if SameButCase(a, b) {
          forall i | 0 <= i < |a[1..]|
            ensures a[1..][i] == b[1..][i] || CapitalOf(a[1..][i], b[1..][i]) || CapitalOf(b[1..][i], a[1..][i])
          {
            assert a[1..][i] == a[i + 1] && b[1..][i] == b[i + 1];
          }
        }
      }
    }
  }

  const FNV_OFFSET_BASIS: bv32 := 0x811C9DC5
  const FNV_PRIME: bv32 := 0x01000193

  /** A character as the int that is mixed into the hash: plain char is signed. */
  function CharBits(c: char): bv32 {
    if c < 128 as char then (c as int) as bv32
    else if c < 256 as char then 0xFFFFFF00 | ((c as int) as bv32)
    else 0
  }

  function MixChar(hash: bv32, c: char): bv32 {
    (hash ^ CharBits(c)) * FNV_PRIME
  }

  function Mix(lowered: string, hash: bv32): bv32 {
    if lowered == [] then hash else Mix(lowered[1..], MixChar(hash, lowered[0]))
  }

  /** Fold the upper bits in and keep the low `logsize` bits; masking with a
      power of two less one is the remainder by that power. */
  function Mask(hash: bv32, logsize: nat): (r: nat)
    ensures r < Pow2(logsize)
  {
    var folded := if logsize < 32 then (hash >> logsize) ^ hash else hash;
    (folded as int) % Pow2(logsize)
  }

  /** hash_function: the slot a key's probing starts from. */
  function Home(key: string, logsize: nat): (r: nat)
    ensures r < Pow2(logsize)
  {
    Mask(Mix(Lower(key), FNV_OFFSET_BASIS), logsize)
  }

  // ---- Probing -----------------------------------------------------------

  predicate Sized(t: Table) {
    |t.slots| == Pow2(t.logsize)
  }

  /** Whether probing for the key stops at a slot. */
  predicate StopsAt(slot: Slot, key: string) {
    slot.Empty? || SameKey(key, slot.key)
  }

  /** Probing from distance d on: the first slot that is empty or has the key. */
  function ProbeFrom(slots: seq<Slot>, key: string, home: nat, d: nat): (r: Option<nat>)
    requires home < |slots| && d <= |slots|
    ensures r.Some? ==> r.value < |slots| && StopsAt(slots[r.value], key)
    decreases |slots| - d
  {
    if d == |slots| then None
    else if StopsAt(slots[Cell(home, d, |slots|)], key) then Some(Cell(home, d, |slots|))
    else ProbeFrom(slots, key, home, d + 1)
  }

  /** hash_find. */
  function Find(t: Table, key: string): (r: Option<nat>)
    requires Sized(t)
    ensures r.Some? ==> r.value < |t.slots| && StopsAt(t.slots[r.value], key)
  {
    ProbeFrom(t.slots, key, Home(key, t.logsize), 0)
  }

  /** hcfg_get. */
  function Lookup(t: Table, key: string): Option<string>
    requires Sized(t)
  {
    var at := Find(t, key);
    if at.Some? && t.slots[at.value].Entry? then Some(t.slots[at.value].val) else None
  }

  // ---- Well-formed tables ------------------------------------------------

  /** How far slot i is from where probing for a key starts. */
  function Offset(home: nat, i: nat, cap: nat): (d: nat)
    requires home < cap && i < cap
    ensures d < cap && Cell(home, d, cap) == i
    ensures forall e :: 0 <= e < cap && Cell(home, e, cap) == i ==> e == d
  {
    if home <= i then i - home else i + cap - home
  }

  /** Every slot probed before slot i, when looking for the key in it, is taken. */
  ghost predicate PathFull(slots: seq<Slot>, logsize: nat, i: nat)
    requires |slots| == Pow2(logsize) && i < |slots| && slots[i].Entry?
  {
    var home := Home(slots[i].key, logsize);
    forall e :: 0 <= e < Offset(home, i, |slots|) ==> slots[Cell(home, e, |slots|)].Entry?
  }

  /** No entry has a gap in front of it. */
  ghost predicate NoGaps(slots: seq<Slot>, logsize: nat)
    requires |slots| == Pow2(logsize)
  {
    forall i :: 0 <= i < |slots| && slots[i].Entry? ==> PathFull(slots, logsize, i)
  }

  ghost predicate DistinctKeys(slots: seq<Slot>) {
    forall i, j :: 0 <= i < j < |slots| && slots[i].Entry? && slots[j].Entry? ==> !SameKey(slots[i].key, slots[j].key)
  }

  function Entries(slots: seq<Slot>): nat {
    if slots == [] then 0 else (if slots[0].Entry? then 1 else 0) + Entries(slots[1..])
  }

  /** A table all of whose keys can be found, each once. */
  ghost predicate Sound(t: Table) {
    Sized(t) && NoGaps(t.slots, t.logsize) && DistinctKeys(t.slots) && t.count == Entries(t.slots)
  }

  /** The load the growth rule keeps. */
  predicate Light(t: Table)
    requires Sized(t)
  {
    t.count * 100 / |t.slots| <= GROWTH_THRESHOLD
  }

  /** What no operation breaks: the count is right and the load bounded. */
  ghost predicate Loose(t: Table) {
    Sized(t) && t.count == Entries(t.slots) && Light(t)
  }

  /** The key is stored with the value. */
  ghost predicate Stored(slots: seq<Slot>, key: string, val: string) {
    exists i :: 0 <= i < |slots| && slots[i].Entry? && SameKey(key, slots[i].key) && slots[i].val == val
  }

  ghost predicate HasKey(slots: seq<Slot>, key: string) {
    exists i :: 0 <= i < |slots| && slots[i].Entry? && SameKey(key, slots[i].key)
  }

  // ---- What probing finds ------------------------------------------------

  /** Probing passes over taken slots with other keys and stops at the first
      one that is free or has the key. */
  lemma {:induction false} ProbeStops(slots: seq<Slot>, key: string, home: nat, d: nat, stop: nat)
    requires home < |slots| && d <= stop < |slots|
    requires forall e :: d <= e < stop ==> !StopsAt(slots[Cell(home, e, |slots|)], key)
    requires StopsAt(slots[Cell(home, stop, |slots|)], key)
    ensures ProbeFrom(slots, key, home, d) == Some(Cell(home, stop, |slots|))
    decreases stop - d
  {
    if d < stop {
      assert !StopsAt(slots[Cell(home, d, |slots|)], key);
      ProbeStops(slots, key, home, d + 1, stop);
    }
  }

  lemma {:induction false} ProbeWitness(slots: seq<Slot>, key: string, home: nat, d: nat) returns (stop: nat)
    requires home < |slots| && d <= |slots|
    requires ProbeFrom(slots, key, home, d).Some?
    ensures d <= stop < |slots| && ProbeFrom(slots, key, home, d) == Some(Cell(home, stop, |slots|))
    ensures forall e :: d <= e < stop ==> !StopsAt(slots[Cell(home, e, |slots|)], key)
    decreases |slots| - d
  {
    if StopsAt(slots[Cell(home, d, |slots|)], key) {
      stop := d;
    } else {
      stop := ProbeWitness(slots, key, home, d + 1);
    }
  }

  lemma {:induction false} ProbeFails(slots: seq<Slot>, key: string, home: nat, d: nat)
    requires home < |slots| && d <= |slots| && ProbeFrom(slots, key, home, d).None?
    ensures forall e :: d <= e < |slots| ==> slots[Cell(home, e, |slots|)].Entry?
    decreases |slots| - d
  {
    if d < |slots| {
      ProbeFails(slots, key, home, d + 1);
    }
  }

  /** A free slot anywhere is enough for every probe to end. */
  lemma FindSucceeds(t: Table, key: string, free: nat)
    requires Sized(t) && free < |t.slots| && t.slots[free].Empty?
    ensures Find(t, key).Some?
  {
    var home := Home(key, t.logsize);
    var d := Offset(home, free, |t.slots|);
    if ProbeFrom(t.slots, key, home, 0).None? {
      ProbeFails(t.slots, key, home, 0);
    }
  }

  /** Equal keys start at the same slot. */
  lemma SameHome(a: string, b: string, logsize: nat)
    requires SameKey(a, b)
    ensures Home(a, logsize) == Home(b, logsize)
  {}

  /** With no gap in front of it, an entry's key is found, at that slot or at an
      earlier one with the same key. */
  lemma FindsKey(t: Table, key: string, i: nat)
    requires Sized(t) && i < |t.slots| && t.slots[i].Entry? && SameKey(key, t.slots[i].key)
    requires PathFull(t.slots, t.logsize, i)
    ensures var at := Find(t, key); at.Some? && t.slots[at.value].Entry? && SameKey(key, t.slots[at.value].key)
  {
    SameHome(key, t.slots[i].key, t.logsize);
    var home := Home(key, t.logsize);
    var d := Offset(home, i, |t.slots|);
    var stop := FirstStop(t.slots, key, home, 0, d);
    ProbeStops(t.slots, key, home, 0, stop);
    if stop < d {
      assert t.slots[Cell(home, stop, |t.slots|)].Entry?;
    }
  }

  /** The first distance, up to one that stops, at which probing stops. */
  lemma {:induction false} FirstStop(slots: seq<Slot>, key: string, home: nat, d: nat, bound: nat) returns (stop: nat)
    requires home < |slots| && d <= bound < |slots| && StopsAt(slots[Cell(home, bound, |slots|)], key)
    ensures d <= stop <= bound && StopsAt(slots[Cell(home, stop, |slots|)], key)
    ensures forall e :: d <= e < stop ==> !StopsAt(slots[Cell(home, e, |slots|)], key)
    decreases bound - d
  {
    if StopsAt(slots[Cell(home, d, |slots|)], key) {
      stop := d;
    } else {
      stop := FirstStop(slots, key, home, d + 1, bound);
    }
  }

  /** In a sound table a lookup gives exactly the value stored with the key. */
  lemma LookupIffStored(t: Table, key: string)
    requires Sized(t) && NoGaps(t.slots, t.logsize) && DistinctKeys(t.slots)
    ensures forall val :: Lookup(t, key) == Some(val) <==> Stored(t.slots, key, val)
    ensures Lookup(t, key).Some? <==> HasKey(t.slots, key)
  {
    if HasKey(t.slots, key) {
      var i :| 0 <= i < |t.slots| && t.slots[i].Entry? && SameKey(key, t.slots[i].key);
      FindsKey(t, key, i);
      var at := Find(t, key).value;
      hide Find, NoGaps, PathFull;
      forall val | Stored(t.slots, key, val)
        ensures val == t.slots[at].val
      {
        var j :| 0 <= j < |t.slots| && t.slots[j].Entry? && SameKey(key, t.slots[j].key) && t.slots[j].val == val;
        assert !(j < at) && !(at < j);
      }
      assert Stored(t.slots, key, t.slots[at].val);
    }
  }

  // ---- The operations ----------------------------------------------------

  /** The first free slot from distance d on, where a rehashed entry goes. */
  function FreeFrom(slots: seq<Slot>, home: nat, d: nat): (r: Option<nat>)
    requires home < |slots| && d <= |slots|
    ensures r.Some? ==> r.value < |slots| && slots[r.value].Empty?
    decreases |slots| - d
  {
    if d == |slots| then None
    else if slots[Cell(home, d, |slots|)].Empty? then Some(Cell(home, d, |slots|))
    else FreeFrom(slots, home, d + 1)
  }

  /** Move the entries from slot i on into the new array. */
  function Rehash(from: seq<Slot>, i: nat, into: seq<Slot>, logsize: nat): (r: seq<Slot>)
    requires |into| == Pow2(logsize) && i <= |from|
    ensures |r| == |into|
    decreases |from| - i
  {
    if i == |from| then into
    else if from[i].Empty? then Rehash(from, i + 1, into, logsize)
    else
      var at := FreeFrom(into, Home(from[i].key, logsize), 0);
      Rehash(from, i + 1, if at.Some? then into[at.value := from[i]] else into, logsize)
  }

  function EmptySlots(logsize: nat): (r: seq<Slot>)
    ensures |r| == Pow2(logsize) && forall i :: 0 <= i < |r| ==> r[i] == Empty
  {
    seq(Pow2(logsize), _ => Empty)
  }

  /** hash_resize. */
  function Resize(t: Table, logsize: nat): Table {
    if logsize == t.logsize then t
    else Table(Rehash(t.slots, 0, EmptySlots(logsize), logsize), t.count, logsize)
  }

  /** hash_insert; the flag says whether it returned 0. */
  function Insert(t: Table, key: string, val: string): (Table, bool)
    requires Sized(t)
  {
    var at := Find(t, key);
    if at.None? then (t, false)
    else if t.slots[at.value].Empty? then
      var u := Table(t.slots[at.value := Entry(key, val)], t.count + 1, t.logsize);
      (if u.count * 100 / |u.slots| > GROWTH_THRESHOLD then Resize(u, u.logsize + 1) else u, true)
    else
      (t.(slots := t.slots[at.value := Entry(t.slots[at.value].key, val)]), true)
  }

  /** hash_delete: the slot is emptied, and nothing marks that it was in use. */
  function Delete(t: Table, key: string): (Table, bool)
    requires Sized(t)
  {
    var at := Find(t, key);
    if at.None? then (t, false)
    else if t.slots[at.value].Entry? then (Table(t.slots[at.value := Empty], t.count - 1, t.logsize), true)
    else (t, true)
  }

  /** The table hcfg_alloc gives. */
  function NewTable(): Table {
    Table(EmptySlots(INITIAL_LOGSIZE), 0, INITIAL_LOGSIZE)
  }
}
