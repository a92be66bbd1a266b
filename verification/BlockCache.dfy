// The block cache of wasm/platform/wasm-diskio.c as a value: resident blocks, the ring of
// clean ones, eviction, and the flat byte array a disk stands for.
module BlockCache {
  import opened Common

  const MAX_DISKS := 8
  const BLOCK_SIZE := 0x2_0000
  const CLEAN_BUDGET := 512
  const FETCH_RUN := 4
  const STAGE_SIZE := FETCH_RUN * BLOCK_SIZE

  datatype BlockState = Absent | Clean | Dirty

  // A registered disk: the file the browser holds, and the resident blocks.
  datatype Disk = Disk(inUse: bool, file: seq<Byte>, block: seq<Option<seq<Byte>>>, state: seq<BlockState>)

  datatype Entry = Entry(disk: nat, idx: nat)

  const NO_DISK := Disk(false, [], [], [])

  function BlockCount(size: nat): nat { (size + BLOCK_SIZE - 1) / BLOCK_SIZE }

  // The last block is shorter in the file; its tail reads as zeros.
  function SourceByte(file: seq<Byte>, o: nat): Byte { if o < |file| then file[o] else 0 }

  function SourceBlock(file: seq<Byte>, b: nat): (r: seq<Byte>)
    ensures |r| == BLOCK_SIZE
  {
    seq<Byte>(BLOCK_SIZE, k requires 0 <= k < BLOCK_SIZE => SourceByte(file, b * BLOCK_SIZE + k))
  }

  // ---- what the guest sees -----------------------------------------------------------

  function StateOf(d: Disk, b: nat): BlockState { if b < |d.state| then d.state[b] else Absent }

  function ByteAt(d: Disk, o: nat): Byte
    requires o < |d.file|
  {
    var b, k := o / BLOCK_SIZE, o % BLOCK_SIZE;
    if b < |d.block| && StateOf(d, b) == Dirty && d.block[b].Some? && k < |d.block[b].value|
    then d.block[b].value[k] else d.file[o]
  }

  // The flat byte array a disk stands for: the file, overlaid with the written blocks.
  function View(d: Disk): (r: seq<Byte>)
    ensures |r| == |d.file|
  {
    seq<Byte>(|d.file|, o requires 0 <= o < |d.file| => ByteAt(d, o))
  }

  function Overwrite(v: seq<Byte>, offset: nat, data: seq<Byte>): (r: seq<Byte>)
    requires offset + |data| <= |v|
    ensures |r| == |v|
  {
    v[..offset] + data + v[offset + |data|..]
  }

  // ---- one disk's invariant ------------------------------------------------------------

  predicate BlockOk(d: Disk, b: nat)
    requires b < |d.block| == |d.state|
  {
    && (d.state[b] == Absent <==> d.block[b] == None)
    && (d.block[b].Some? ==> |d.block[b].value| == BLOCK_SIZE)
    && (d.state[b] == Clean ==> d.block[b] == Some(SourceBlock(d.file, b)))
  }

  ghost predicate DiskOk(d: Disk) {
    && |d.block| == |d.state| == BlockCount(|d.file|)
    && (forall b :: 0 <= b < |d.state| ==> BlockOk(d, b))
    && (!d.inUse ==> d == NO_DISK)
  }

  // ---- the ring, as a queue of entries ---------------------------------------------------

  predicate Resident(disks: seq<Disk>, e: Entry) {
    e.disk < |disks| && disks[e.disk].inUse && StateOf(disks[e.disk], e.idx) != Absent
  }

  predicate Live(disks: seq<Disk>, e: Entry) {
    e.disk < |disks| && disks[e.disk].inUse && StateOf(disks[e.disk], e.idx) == Clean
  }

  // How many entries an eviction takes off the ring: the stale ones at its head and the
  // first live one.
  function EvictCount(disks: seq<Disk>, ring: seq<Entry>): (n: nat)
    ensures n <= |ring| && (ring != [] ==> n > 0)
  {
    if ring == [] then 0
    else if Live(disks, ring[0]) then 1
    else 1 + EvictCount(disks, ring[1..])
  }

  function Freed(disks: seq<Disk>, e: Entry): seq<Disk> {
    if Live(disks, e) && e.idx < |disks[e.disk].block| then
      var d := disks[e.disk];
      disks[e.disk := d.(block := d.block[e.idx := None], state := d.state[e.idx := Absent])]
    else disks
  }

  function EvictFrom(disks: seq<Disk>, ring: seq<Entry>): seq<Disk>
    requires ring != []
  {
    Freed(disks, ring[EvictCount(disks, ring) - 1])
  }

  // One past the last live entry.
  function LastLive(disks: seq<Disk>, ring: seq<Entry>): (p: nat)
    ensures p <= |ring|
    ensures p > 0 ==> Live(disks, ring[p - 1])
    ensures forall i :: p <= i < |ring| ==> !Live(disks, ring[i])
  {
    if ring == [] then 0
    else if Live(disks, ring[|ring| - 1]) then |ring|
    else LastLive(disks, ring[..|ring| - 1])
  }

  // Entering n new blocks evicts the first of them again just when, by the time the ring
  // is full, no older live entry is left to evict in its stead.
  predicate EvictsItself(disks: seq<Disk>, ring: seq<Entry>, n: nat) {
    1 <= CLEAN_BUDGET - |ring| + LastLive(disks, ring) < n
  }

  predicate Distinct(ring: seq<Entry>) {
    forall i, j :: 0 <= i < j < |ring| ==> ring[i] != ring[j]
  }

  // ---- the cache as a value ----------------------------------------------------------

  datatype Cache = Cache(disks: seq<Disk>, ring: seq<Entry>)

  function Placed(disks: seq<Disk>, id: nat, b: nat): seq<Disk>
    requires id < |disks| && b < |disks[id].block| == |disks[id].state|
  {
    var d := disks[id];
    disks[id := d.(block := d.block[b := Some(SourceBlock(d.file, b))], state := d.state[b := Clean])]
  }

  // clean_ring_insert
  function Inserted(c: Cache, e: Entry): Cache {
    if |c.ring| < CLEAN_BUDGET then c.(ring := c.ring + [e])
    else Cache(EvictFrom(c.disks, c.ring), c.ring[EvictCount(c.disks, c.ring)..] + [e])
  }

  predicate InDisk(disks: seq<Disk>, id: nat, b: nat) {
    id < |disks| && b < |disks[id].block| == |disks[id].state|
  }

  // Same disks, same files, same number of blocks.
  predicate Shape(disks: seq<Disk>, disks': seq<Disk>) {
    && |disks'| == |disks|
    && forall i :: 0 <= i < |disks| ==>
         && disks'[i].inUse == disks[i].inUse && disks'[i].file == disks[i].file
         && |disks'[i].block| == |disks[i].block| && |disks'[i].state| == |disks[i].state|
  }

  // Place one block and enter it.
  function PlaceStep(c: Cache, id: nat, b: nat): (r: Cache)
    requires InDisk(c.disks, id, b)
    ensures Shape(c.disks, r.disks)
  {
    Inserted(c.(disks := Placed(c.disks, id, b)), Entry(id, b))
  }

  // A run of n fetched blocks, entered one after the other.
  function PlacedRun(c: Cache, id: nat, idx: nat, n: nat): (r: Cache)
    requires id < |c.disks| && idx + n <= |c.disks[id].block| == |c.disks[id].state|
    ensures Shape(c.disks, r.disks)
  {
    if n == 0 then c else PlaceStep(PlacedRun(c, id, idx, n - 1), id, idx + n - 1)
  }

  // Dirty blocks stay as they are and no other block becomes dirty.
  predicate SameDirty(d: Disk, d': Disk) {
    && d'.inUse == d.inUse && d'.file == d.file && |d'.block| == |d.block| && |d'.state| == |d.state|
    && forall b :: 0 <= b < |d.state| ==>
         (d'.state[b] == Dirty <==> d.state[b] == Dirty) && (d.state[b] == Dirty && b < |d.block| ==> d'.block[b] == d.block[b])
  }

  ghost predicate CacheOk(c: Cache, pinned: set<Entry>) {
    && |c.disks| == MAX_DISKS && |c.ring| <= CLEAN_BUDGET && Distinct(c.ring)
    && (forall i :: 0 <= i < MAX_DISKS ==> DiskOk(c.disks[i]))
    && (forall i :: 0 <= i < |c.ring| ==> Resident(c.disks, c.ring[i]) && c.ring[i] !in pinned)
    && (forall e :: e in pinned ==> Resident(c.disks, e))
    && (forall e :: Live(c.disks, e) && e !in pinned ==> e in c.ring)
  }

  lemma SameDirtyView(d: Disk, d': Disk)
    requires SameDirty(d, d') && |d.block| == |d.state|
    ensures View(d') == View(d)
  {
    forall o | 0 <= o < |d.file| ensures ByteAt(d', o) == ByteAt(d, o) {
    }
  }

  lemma SameDirtyTrans(a: Disk, b: Disk, c: Disk)
    requires SameDirty(a, b) && SameDirty(b, c)
    ensures SameDirty(a, c)
  {
  }

  lemma SameDirtyRefl(disks: seq<Disk>)
    ensures forall i :: 0 <= i < |disks| ==> SameDirty(disks[i], disks[i])
  {
  }

  lemma FreedDirty(disks: seq<Disk>, e: Entry)
    ensures |Freed(disks, e)| == |disks|
    ensures forall i :: 0 <= i < |disks| ==> SameDirty(disks[i], Freed(disks, e)[i])
  {
  }

  lemma PlacedDirty(disks: seq<Disk>, id: nat, b: nat)
    requires InDisk(disks, id, b) && disks[id].state[b] == Absent
    ensures |Placed(disks, id, b)| == |disks|
    ensures forall i :: 0 <= i < |disks| ==> SameDirty(disks[i], Placed(disks, id, b)[i])
  {
  }

  // Freeing one entry's block changes the state of no other entry.
  lemma FreedOther(disks: seq<Disk>, e: Entry, x: Entry)
    requires x != e
    ensures Live(Freed(disks, e), x) == Live(disks, x)
    ensures Resident(Freed(disks, e), x) == Resident(disks, x)
  {
  }

  lemma FreedSelf(disks: seq<Disk>, e: Entry)
    requires e.disk < |disks| && |disks[e.disk].block| == |disks[e.disk].state|
    ensures !Live(Freed(disks, e), e)
  {
  }

  lemma PlacedOther(disks: seq<Disk>, id: nat, b: nat, x: Entry)
    requires InDisk(disks, id, b) && x != Entry(id, b)
    ensures Live(Placed(disks, id, b), x) == Live(disks, x)
    ensures Resident(Placed(disks, id, b), x) == Resident(disks, x)
  {
  }

  lemma FreedOk(disks: seq<Disk>, e: Entry, i: nat)
    requires i < |disks| && DiskOk(disks[i])
    ensures DiskOk(Freed(disks, e)[i])
  {
    var d, d' := disks[i], Freed(disks, e)[i];
    forall b | 0 <= b < |d'.state| ensures BlockOk(d', b) {
      assert BlockOk(d, b);
    }
  }

  lemma PlacedOk(disks: seq<Disk>, id: nat, b: nat, i: nat)
    requires InDisk(disks, id, b) && disks[id].inUse && i < |disks| && DiskOk(disks[i])
    ensures DiskOk(Placed(disks, id, b)[i])
  {
    var d, d' := disks[i], Placed(disks, id, b)[i];
    forall x | 0 <= x < |d'.state| ensures BlockOk(d', x) {
      assert BlockOk(d, x);
    }
  }

  // ---- eviction --------------------------------------------------------------------

  lemma {:induction false} EvictCountSplit(disks: seq<Disk>, a: seq<Entry>, b: seq<Entry>)
    ensures (exists i :: 0 <= i < |a| && Live(disks, a[i])) ==>
      EvictCount(disks, a + b) == EvictCount(disks, a) && |a| > 0 && Live(disks, a[EvictCount(disks, a) - 1])
    ensures (forall i :: 0 <= i < |a| ==> !Live(disks, a[i])) ==> EvictCount(disks, a + b) == |a| + EvictCount(disks, b)
  {
    hide Live;
    if a == [] {
      assert a + b == b;
    } else {
      assert (a + b)[1..] == a[1..] + b;
      EvictCountSplit(disks, a[1..], b);
      if !Live(disks, a[0]) && exists i :: 0 <= i < |a| && Live(disks, a[i]) {
        var i :| 0 <= i < |a| && Live(disks, a[i]);
        assert Live(disks, a[1..][i - 1]);
      }
    }
  }

  // What is taken off the ring without being freed was stale.
  lemma {:induction false} EvictedStale(disks: seq<Disk>, ring: seq<Entry>)
    ensures var n := EvictCount(disks, ring);
      forall i :: 0 <= i < n - 1 ==> !Live(disks, ring[i])
  {
    if ring != [] && !Live(disks, ring[0]) {
      EvictedStale(disks, ring[1..]);
      var n := EvictCount(disks, ring);
      forall i | 0 <= i < n - 1 ensures !Live(disks, ring[i]) {
        if i > 0 {
          assert ring[i] == ring[1..][i - 1];
        }
      }
    }
  }

  // Entering a block that has just been placed keeps every invariant of the cache, and
  // leaves every written block alone.
  lemma InsertedOk(c: Cache, e: Entry, pinned: set<Entry>)
    requires CacheOk(c, pinned) && e in pinned && Live(c.disks, e)
    ensures CacheOk(Inserted(c, e), pinned - {e})
    ensures forall i :: 0 <= i < MAX_DISKS ==> SameDirty(c.disks[i], Inserted(c, e).disks[i])
  {
    if |c.ring| == CLEAN_BUDGET {
      FreedDirty(c.disks, c.ring[EvictCount(c.disks, c.ring) - 1]);
      EvictedOk(c, pinned);
      AppendedOk(Evicted(c), e, pinned);
    } else {
      AppendedOk(c, e, pinned);
    }
  }

  function Evicted(c: Cache): Cache
    requires c.ring != []
  {
    Cache(EvictFrom(c.disks, c.ring), c.ring[EvictCount(c.disks, c.ring)..])
  }

  lemma AppendedOk(c: Cache, e: Entry, pinned: set<Entry>)
    requires CacheOk(c, pinned) && e in pinned && |c.ring| < CLEAN_BUDGET
    ensures CacheOk(c.(ring := c.ring + [e]), pinned - {e})
  {
    var ring' := c.ring + [e];
    assert ring'[|c.ring|] == e;
    forall y | Live(c.disks, y) && y !in pinned - {e} ensures y in ring' {
      if y != e {
        var i :| 0 <= i < |c.ring| && c.ring[i] == y;
        assert ring'[i] == y;
      }
    }
  }

  // Eviction: entries keep their block, unpinned clean blocks their entry, and the blocks
  // pinned in memory stay there.
  lemma EvictedOk(c: Cache, pinned: set<Entry>)
    requires CacheOk(c, pinned) && c.ring != []
    ensures CacheOk(Evicted(c), pinned)
    ensures forall e :: e in pinned ==> Live(Evicted(c).disks, e) == Live(c.disks, e)
  {
    var c' := Evicted(c);
    var n := EvictCount(c.disks, c.ring);
    var x := c.ring[n - 1];
    FreedDirty(c.disks, x);
    forall i | 0 <= i < MAX_DISKS ensures DiskOk(c'.disks[i]) {
      FreedOk(c.disks, x, i);
    }
    forall y | y != x ensures Live(c'.disks, y) == Live(c.disks, y) && Resident(c'.disks, y) == Resident(c.disks, y) {
      FreedOther(c.disks, x, y);
    }
    hide Live, Resident, Freed, DiskOk, EvictCount, SameDirty;
    forall y | Live(c'.disks, y) && y !in pinned ensures y in c'.ring {
      EvictedEntry(c, y);
    }
  }

  // A block that is still clean after an eviction had its entry behind the evicted ones.
  lemma EvictedEntry(c: Cache, y: Entry)
    requires c.ring != [] && Live(Evicted(c).disks, y) && (Live(c.disks, y) ==> y in c.ring)
    requires forall i :: 0 <= i < |c.ring| ==> Resident(c.disks, c.ring[i])
    requires forall i :: 0 <= i < |c.disks| ==> DiskOk(c.disks[i])
    ensures y in Evicted(c).ring
  {
    var n := EvictCount(c.disks, c.ring);
    var x := c.ring[n - 1];
    EvictedStale(c.disks, c.ring);
    FreedSelf(c.disks, x);
    if y != x {
      FreedOther(c.disks, x, y);
      var i :| 0 <= i < |c.ring| && c.ring[i] == y;
      assert i >= n;
      assert Evicted(c).ring[i - n] == y;
    }
  }

  lemma PlacedCacheOk(c: Cache, id: nat, b: nat, pinned: set<Entry>)
    requires CacheOk(c, pinned) && InDisk(c.disks, id, b) && c.disks[id].inUse && c.disks[id].state[b] == Absent
    ensures CacheOk(c.(disks := Placed(c.disks, id, b)), pinned + {Entry(id, b)})
    ensures Live(Placed(c.disks, id, b), Entry(id, b)) && Entry(id, b) !in pinned && Entry(id, b) !in c.ring
    ensures forall i :: 0 <= i < MAX_DISKS ==> SameDirty(c.disks[i], Placed(c.disks, id, b)[i])
  {
    var e, disks' := Entry(id, b), Placed(c.disks, id, b);
    assert !Resident(c.disks, e);
    PlacedDirty(c.disks, id, b);
    forall i | 0 <= i < MAX_DISKS ensures DiskOk(disks'[i]) {
      PlacedOk(c.disks, id, b, i);
    }
    forall x | x != e ensures Live(disks', x) == Live(c.disks, x) && Resident(disks', x) == Resident(c.disks, x) {
      PlacedOther(c.disks, id, b, x);
    }
  }

  // ---- a run of fetched blocks -------------------------------------------------------

  predicate AbsentRun(disks: seq<Disk>, id: nat, idx: nat, k: nat, n: nat) {
    && id < |disks| && k <= n && idx + n <= |disks[id].block| == |disks[id].state|
    && forall b :: idx + k <= b < idx + n ==> disks[id].state[b] == Absent
  }

  lemma InsertedAbsent(c: Cache, e: Entry, id: nat, idx: nat, k: nat, n: nat)
    requires AbsentRun(c.disks, id, idx, k, n)
    ensures AbsentRun(Inserted(c, e).disks, id, idx, k, n)
  {
  }

  // Entering a run of blocks keeps the cache in order and every written block as it is.
  lemma {:induction false} PlacedRunOk(c: Cache, id: nat, idx: nat, k: nat, n: nat, pinned: set<Entry>)
    requires CacheOk(c, pinned) && id < MAX_DISKS && c.disks[id].inUse && k <= n && AbsentRun(c.disks, id, idx, 0, n)
    ensures CacheOk(PlacedRun(c, id, idx, k), pinned)
    ensures AbsentRun(PlacedRun(c, id, idx, k).disks, id, idx, k, n)
    ensures forall i :: 0 <= i < MAX_DISKS ==> SameDirty(c.disks[i], PlacedRun(c, id, idx, k).disks[i])
    decreases k
  {
    hide PlaceStep, SameDirty, DiskOk, Resident, Live, Distinct;
    if k == 0 {
      SameDirtyRefl(c.disks);
    } else {
      PlacedRunOk(c, id, idx, k - 1, n, pinned);
      var c1 := PlacedRun(c, id, idx, k - 1);
      PlaceStepOk(c1, id, idx, k - 1, n, pinned);
      forall i | 0 <= i < MAX_DISKS ensures SameDirty(c.disks[i], PlacedRun(c, id, idx, k).disks[i]) {
        SameDirtyTrans(c.disks[i], c1.disks[i], PlacedRun(c, id, idx, k).disks[i]);
      }
    }
  }

  lemma PlaceStepOk(c: Cache, id: nat, idx: nat, k: nat, n: nat, pinned: set<Entry>)
    requires CacheOk(c, pinned) && id < MAX_DISKS && c.disks[id].inUse && k < n && AbsentRun(c.disks, id, idx, k, n)
    ensures CacheOk(PlaceStep(c, id, idx + k), pinned)
    ensures AbsentRun(PlaceStep(c, id, idx + k).disks, id, idx, k + 1, n)
    ensures forall i :: 0 <= i < MAX_DISKS ==> SameDirty(c.disks[i], PlaceStep(c, id, idx + k).disks[i])
  {
    var e, c1 := Entry(id, idx + k), c.(disks := Placed(c.disks, id, idx + k));
    PlacedCacheOk(c, id, idx + k, pinned);
    InsertedOk(c1, e, pinned + {e});
    assert pinned + {e} - {e} == pinned;
    InsertedAbsent(c1, e, id, idx, k + 1, n);
    forall i | 0 <= i < MAX_DISKS ensures SameDirty(c.disks[i], Inserted(c1, e).disks[i]) {
      SameDirtyTrans(c.disks[i], c1.disks[i], Inserted(c1, e).disks[i]);
    }
  }

  function Entries(id: nat, idx: nat, n: nat): seq<Entry> {
    seq(n, k requires 0 <= k < n => Entry(id, idx + k))
  }

  // After n blocks of a run: d old entries are gone, all of them no later than the last
  // live one, and the new ones are all there.
  ghost predicate Kept(c0: Cache, c: Cache, id: nat, idx: nat, n: nat, d: nat) {
    && d <= |c0.ring| && c.ring == c0.ring[d..] + Entries(id, idx, n)
    && (d <= LastLive(c0.disks, c0.ring) || (d == |c0.ring| == CLEAN_BUDGET && LastLive(c0.disks, c0.ring) == 0 && n > 0))
    && (forall e :: e in c0.ring[d..] ==> Live(c.disks, e) == Live(c0.disks, e))
    && (forall e :: e in Entries(id, idx, n) ==> Live(c.disks, e))
  }

  lemma KeptPlaced(c0: Cache, c: Cache, id: nat, idx: nat, n: nat, d: nat)
    requires Kept(c0, c, id, idx, n, d) && InDisk(c.disks, id, idx + n) && c.disks[id].inUse
    requires forall i :: 0 <= i < |c0.ring| ==> c0.ring[i] != Entry(id, idx + n)
    ensures var c1 := c.(disks := Placed(c.disks, id, idx + n));
      && Kept(c0, c1, id, idx, n, d) && Live(c1.disks, Entry(id, idx + n))
  {
    var disks' := Placed(c.disks, id, idx + n);
    forall x | x != Entry(id, idx + n) ensures Live(disks', x) == Live(c.disks, x) {
      PlacedOther(c.disks, id, idx + n, x);
    }
  }

  lemma EntriesIn(id: nat, idx: nat, n: nat)
    ensures forall e :: e in Entries(id, idx, n + 1) <==> e in Entries(id, idx, n) || e == Entry(id, idx + n)
  {
    EntriesNext(id, idx, n);
    assert Entries(id, idx, n + 1)[n] == Entry(id, idx + n);
    assert forall k :: 0 <= k < n ==> Entries(id, idx, n + 1)[k] == Entries(id, idx, n)[k];
  }

  lemma EntriesNext(id: nat, idx: nat, n: nat)
    ensures Entries(id, idx, n + 1) == Entries(id, idx, n) + [Entry(id, idx + n)]
  {
  }

  // The ring is not full: the new entry goes behind the others.
  lemma KeptAppend(c0: Cache, c: Cache, id: nat, idx: nat, n: nat, d: nat)
    requires Kept(c0, c, id, idx, n, d) && Live(c.disks, Entry(id, idx + n)) && |c.ring| < CLEAN_BUDGET
    ensures Kept(c0, Inserted(c, Entry(id, idx + n)), id, idx, n + 1, d)
  {
    EntriesNext(id, idx, n);
    Associate(c0.ring[d..], Entries(id, idx, n), [Entry(id, idx + n)]);
  }

  lemma SplitRing(a: seq<Entry>, d: nat, p: nat, b: seq<Entry>)
    requires d < p <= |a|
    ensures a[d..] + b == a[d..p] + (a[p..] + b)
    ensures a[d..p][p - 1 - d] == a[p - 1] && a[p - 1] in a[d..]
  {
    assert a[d..][p - 1 - d] == a[p - 1];
  }

  // How far an eviction goes when a live old entry is left, or nothing but old entries.
  lemma EvictOld(c0: Cache, c: Cache, id: nat, idx: nat, n: nat, d: nat)
    requires Kept(c0, c, id, idx, n, d) && |c.ring| == CLEAN_BUDGET >= |c0.ring|
    requires d < LastLive(c0.disks, c0.ring) || n == 0
    ensures var d', p := d + EvictCount(c.disks, c.ring), LastLive(c0.disks, c0.ring);
      0 < EvictCount(c.disks, c.ring) && (d' <= p || (d' == |c0.ring| == CLEAN_BUDGET && p == 0))
  {
    hide EvictCount, Live;
    var p := LastLive(c0.disks, c0.ring);
    if d < p {
      hide Entries;
      var a, b := c0.ring[d..p], c0.ring[p..] + Entries(id, idx, n);
      SplitRing(c0.ring, d, p, Entries(id, idx, n));
      assert Live(c.disks, a[p - 1 - d]);
      EvictCountSplit(c.disks, a, b);
    } else {
      assert p == 0 && c.ring == c0.ring[d..];
      EvictCountSplit(c.disks, c.ring, []);
      assert c.ring + [] == c.ring;
      assert forall i :: 0 <= i < |c.ring| ==> !Live(c.disks, c.ring[i]);
    }
  }

  // Taking m entries off the ring when all of them are old ones.
  lemma TakeOld(ring: seq<Entry>, a: seq<Entry>, d: nat, b: seq<Entry>, m: nat)
    requires d <= |a| && ring == a[d..] + b && Distinct(ring) && 0 < m && d + m <= |a|
    ensures ring[m..] == a[d + m..] + b
    ensures forall y :: y in a[d + m..] ==> y in a[d..] && y != ring[m - 1]
    ensures forall y :: y in b ==> y != ring[m - 1]
  {
    assert a[d + m..] == a[d..][m..];
    assert ring[m..] == a[d..][m..] + b;
    forall y | y in a[d + m..] ensures y in a[d..] && y != ring[m - 1] {
      var k :| 0 <= k < |a| - d - m && a[d + m..][k] == y;
      assert a[d..][m + k] == y == ring[m + k];
    }
    forall y | y in b ensures y != ring[m - 1] {
      var k :| 0 <= k < |b| && b[k] == y;
      assert ring[|a| - d + k] == y;
    }
  }

  lemma InsertedFull(c: Cache, e: Entry)
    requires |c.ring| == CLEAN_BUDGET
    ensures var m := EvictCount(c.disks, c.ring);
      Inserted(c, e) == Cache(Freed(c.disks, c.ring[m - 1]), c.ring[m..] + [e])
  {
  }

  lemma KeptBehind(c0: Cache, c: Cache, x: Entry, id: nat, idx: nat, n: nat, d: nat, d': nat)
    requires Kept(c0, c, id, idx, n, d) && d <= d' <= |c0.ring|
    requires d' <= LastLive(c0.disks, c0.ring) || (d' == |c0.ring| == CLEAN_BUDGET && LastLive(c0.disks, c0.ring) == 0)
    requires forall y :: y in c0.ring[d'..] ==> y in c0.ring[d..] && y != x
    requires forall y :: y in Entries(id, idx, n) ==> y != x
    requires Entry(id, idx + n) != x && Live(c.disks, Entry(id, idx + n))
    ensures Kept(c0, Cache(Freed(c.disks, x), c0.ring[d'..] + Entries(id, idx, n) + [Entry(id, idx + n)]), id, idx, n + 1, d')
  {
    KeptOthers(c.disks, x);
    hide LastLive, Live, Entries, Freed;
    EntriesNext(id, idx, n);
    EntriesIn(id, idx, n);
    Associate(c0.ring[d'..], Entries(id, idx, n), [Entry(id, idx + n)]);
  }

  lemma EvictTakes(c0: Cache, c: Cache, e: Entry, id: nat, idx: nat, n: nat, d: nat, d': nat)
    requires Kept(c0, c, id, idx, n, d) && |c.ring| == CLEAN_BUDGET && Distinct(c.ring) && e !in c.ring
    requires 0 < EvictCount(c.disks, c.ring) && d' == d + EvictCount(c.disks, c.ring) <= |c0.ring|
    ensures var m := EvictCount(c.disks, c.ring);
      && c.ring[m..] == c0.ring[d'..] + Entries(id, idx, n) && c.ring[m - 1] != e
      && (forall y :: y in c0.ring[d'..] ==> y in c0.ring[d..] && y != c.ring[m - 1])
      && (forall y :: y in Entries(id, idx, n) ==> y != c.ring[m - 1])
  {
    hide LastLive, EvictCount, Live, Distinct, Entries;
    var m := EvictCount(c.disks, c.ring);
    assert c.ring[m - 1] in c.ring;
    TakeOld(c.ring, c0.ring, d, Entries(id, idx, n), m);
  }

  // It is full, and an old entry gives way.
  lemma KeptEvict(c0: Cache, c: Cache, id: nat, idx: nat, n: nat, d: nat) returns (d': nat)
    requires Kept(c0, c, id, idx, n, d) && Live(c.disks, Entry(id, idx + n)) && |c.ring| == CLEAN_BUDGET
    requires Distinct(c.ring) && Entry(id, idx + n) !in c.ring
    requires |c0.ring| <= CLEAN_BUDGET && (d < LastLive(c0.disks, c0.ring) || n == 0)
    ensures Kept(c0, Inserted(c, Entry(id, idx + n)), id, idx, n + 1, d')
  {
    hide Kept, Live, Distinct, LastLive, EvictCount, Entries, Inserted, Freed;
    var e, m := Entry(id, idx + n), EvictCount(c.disks, c.ring);
    d' := d + m;
    EvictOld(c0, c, id, idx, n, d);
    EvictTakes(c0, c, e, id, idx, n, d, d');
    InsertedFull(c, e);
    KeptBehind(c0, c, c.ring[m - 1], id, idx, n, d, d');
  }

  lemma KeptOthers(disks: seq<Disk>, x: Entry)
    ensures forall y :: y != x ==> Live(Freed(disks, x), y) == Live(disks, y)
  {
    forall y | y != x ensures Live(Freed(disks, x), y) == Live(disks, y) {
      FreedOther(disks, x, y);
    }
  }

  lemma NoneLeft(c0: Cache, c: Cache, id: nat, idx: nat, n: nat, d: nat)
    requires Kept(c0, c, id, idx, n, d) && d >= LastLive(c0.disks, c0.ring) && n > 0
    ensures EvictCount(c.disks, c.ring) == |c0.ring| - d + 1
    ensures c.ring[|c0.ring| - d] == Entry(id, idx) && |c.ring| == |c0.ring| - d + n
  {
    hide Live, LastLive;
    var kept, run := c0.ring[d..], Entries(id, idx, n);
    assert run[0] == Entry(id, idx) && run[0] in run && EvictCount(c.disks, run) == 1;
    forall i | 0 <= i < |kept| ensures !Live(c.disks, kept[i]) {
      assert kept[i] in kept && kept[i] == c0.ring[d + i];
    }
    hide Entries, EvictCount;
    EvictCountSplit(c.disks, kept, run);
  }

  // No old live entry is left: the first block of the run is the one evicted.
  lemma FirstEvicted(c0: Cache, c: Cache, id: nat, idx: nat, n: nat, d: nat)
    requires Kept(c0, c, id, idx, n, d) && InDisk(c.disks, id, idx)
    requires |c.ring| == CLEAN_BUDGET && d >= LastLive(c0.disks, c0.ring) && n > 0
    ensures var c' := Inserted(c, Entry(id, idx + n));
      && |c'.ring| == n && id < |c'.disks| && StateOf(c'.disks[id], idx) == Absent
  {
    NoneLeft(c0, c, id, idx, n, d);
    FreedSelf(c.disks, Entry(id, idx));
  }

  lemma NotInRing(c0: Cache, id: nat, idx: nat, k: nat, n: nat, pinned: set<Entry>)
    requires CacheOk(c0, pinned) && AbsentRun(c0.disks, id, idx, 0, n) && k < n
    ensures forall i :: 0 <= i < |c0.ring| ==> c0.ring[i] != Entry(id, idx + k)
  {
    assert !Resident(c0.disks, Entry(id, idx + k));
  }

  // What has become of the ring after a run of n blocks.
  ghost predicate RunResult(c0: Cache, c: Cache, id: nat, idx: nat, n: nat, d: nat) {
    if EvictsItself(c0.disks, c0.ring, n)
    then |c.ring| <= n && id < |c.disks| && StateOf(c.disks[id], idx) == Absent
    else Kept(c0, c, id, idx, n, d)
  }

  lemma {:induction false} PlacedRunShape(c0: Cache, id: nat, idx: nat, k: nat, n: nat, pinned: set<Entry>) returns (d: nat)
    requires CacheOk(c0, pinned) && id < MAX_DISKS && c0.disks[id].inUse && AbsentRun(c0.disks, id, idx, 0, n)
    requires k <= n <= FETCH_RUN
    ensures RunResult(c0, PlacedRun(c0, id, idx, k), id, idx, k, d)
    decreases k
  {
    hide PlaceStep, DiskOk, Resident, Live, Distinct, RunResult;
    if k == 0 {
      d := 0;
      RunStart(c0, id, idx);
    } else {
      d := PlacedRunShape(c0, id, idx, k - 1, n, pinned);
      PlacedRunOk(c0, id, idx, k - 1, n, pinned);
      NotInRing(c0, id, idx, k - 1, n, pinned);
      d := RunStep(c0, PlacedRun(c0, id, idx, k - 1), id, idx, k - 1, n, d, pinned);
    }
  }

  lemma RunStart(c: Cache, id: nat, idx: nat)
    requires |c.ring| <= CLEAN_BUDGET
    ensures RunResult(c, c, id, idx, 0, 0)
  {
    assert c.ring[0..] + Entries(id, idx, 0) == c.ring;
  }

  lemma RunStep(c0: Cache, c: Cache, id: nat, idx: nat, k: nat, n: nat, d: nat, pinned: set<Entry>) returns (d': nat)
    requires RunResult(c0, c, id, idx, k, d) && k < n <= FETCH_RUN && |c0.ring| <= CLEAN_BUDGET
    requires CacheOk(c, pinned) && id < MAX_DISKS && c.disks[id].inUse && AbsentRun(c.disks, id, idx, k, n)
    requires forall i :: 0 <= i < |c0.ring| ==> c0.ring[i] != Entry(id, idx + k)
    ensures RunResult(c0, PlaceStep(c, id, idx + k), id, idx, k + 1, d')
  {
    var e := Entry(id, idx + k);
    var c1 := c.(disks := Placed(c.disks, id, idx + k));
    PlacedCacheOk(c, id, idx + k, pinned);
    d' := d;
    if !EvictsItself(c0.disks, c0.ring, k) {
      KeptPlaced(c0, c, id, idx, k, d);
      if |c.ring| < CLEAN_BUDGET {
        KeptAppend(c0, c1, id, idx, k, d);
      } else if d < LastLive(c0.disks, c0.ring) || k == 0 {
        d' := KeptEvict(c0, c1, id, idx, k, d);
      } else {
        FirstEvicted(c0, c1, id, idx, k, d);
      }
    }
  }

  // At most as many clean blocks as the ring has room for are resident without being pinned.
  lemma CleanBounded(c: Cache, pinned: set<Entry>, clean: set<Entry>)
    requires CacheOk(c, pinned) && forall e :: e in clean ==> Live(c.disks, e) && e !in pinned
    ensures |clean| <= CLEAN_BUDGET
  {
    var entries := set e | e in c.ring;
    assert clean <= entries;
    SubsetSize(clean, entries);
    SeqSize(c.ring);
  }

  lemma {:induction false} SeqSize(s: seq<Entry>)
    ensures |(set e | e in s)| <= |s|
  {
    if s != [] {
      SeqSize(s[1..]);
      assert (set e | e in s) == (set e | e in s[1..]) + {s[0]};
    }
  }

  lemma {:induction false} SubsetSize(a: set<Entry>, b: set<Entry>)
    requires a <= b
    ensures |a| <= |b|
    decreases a
  {
    if a != {} {
      var e :| e in a;
      SubsetSize(a - {e}, b - {e});
    }
  }

  // ---- reading and writing through a resident block --------------------------------------

  function Written(d: Disk, b: nat, at: nat, data: seq<Byte>): Disk
    requires b < |d.block| == |d.state| && d.block[b].Some? && at + |data| <= |d.block[b].value|
  {
    d.(block := d.block[b := Some(Overwrite(d.block[b].value, at, data))], state := d.state[b := Dirty])
  }

  // A resident block holds what the guest sees.
  lemma BlockShows(d: Disk, b: nat, k: nat)
    requires DiskOk(d) && b < |d.state| && d.state[b] != Absent && k < BLOCK_SIZE && b * BLOCK_SIZE + k < |d.file|
    ensures d.block[b].Some? && |d.block[b].value| == BLOCK_SIZE
    ensures d.block[b].value[k] == ByteAt(d, b * BLOCK_SIZE + k)
  {
    assert BlockOk(d, b);
    var o := b * BLOCK_SIZE + k;
    assert o / BLOCK_SIZE == b && o % BLOCK_SIZE == k;
    assert SourceBlock(d.file, b)[k] == SourceByte(d.file, o);
  }

  lemma SameSlice(a: seq<Byte>, i: nat, b: seq<Byte>, j: nat, n: nat)
    requires i + n <= |a| && j + n <= |b|
    requires forall x :: j <= x < j + n ==> b[x] == a[x - j + i]
    ensures a[i..i + n] == b[j..j + n]
  {
  }

  lemma ChunkRead(d: Disk, b: nat, at: nat, n: nat)
    requires DiskOk(d) && b < |d.state| && d.state[b] != Absent
    requires at + n <= BLOCK_SIZE && b * BLOCK_SIZE + at + n <= |d.file|
    ensures d.block[b].Some? && |d.block[b].value| == BLOCK_SIZE
    ensures d.block[b].value[at..at + n] == View(d)[b * BLOCK_SIZE + at..b * BLOCK_SIZE + at + n]
  {
    assert BlockOk(d, b);
    var o := b * BLOCK_SIZE + at;
    forall x | o <= x < o + n ensures View(d)[x] == d.block[b].value[x - b * BLOCK_SIZE] {
      BlockShows(d, b, x - b * BLOCK_SIZE);
    }
    SameSlice(d.block[b].value, at, View(d), o, n);
  }

  lemma ChunkWritten(d: Disk, b: nat, at: nat, data: seq<Byte>)
    requires DiskOk(d) && b < |d.state| && d.state[b] != Absent
    requires at + |data| <= BLOCK_SIZE && b * BLOCK_SIZE + at + |data| <= |d.file|
    ensures d.block[b].Some? && |d.block[b].value| == BLOCK_SIZE
    ensures View(Written(d, b, at, data)) == Overwrite(View(d), b * BLOCK_SIZE + at, data)
  {
    assert BlockOk(d, b);
    var d' := Written(d, b, at, data);
    forall o | 0 <= o < |d.file|
      ensures View(d')[o] == Overwrite(View(d), b * BLOCK_SIZE + at, data)[o]
    {
      ByteWritten(d, b, at, data, o);
    }
  }

  lemma ByteWritten(d: Disk, b: nat, at: nat, data: seq<Byte>, o: nat)
    requires DiskOk(d) && b < |d.state| && d.state[b] != Absent && o < |d.file|
    requires d.block[b].Some? && |d.block[b].value| == BLOCK_SIZE
    requires at + |data| <= BLOCK_SIZE && b * BLOCK_SIZE + at + |data| <= |d.file|
    ensures ByteAt(Written(d, b, at, data), o) == Overwrite(View(d), b * BLOCK_SIZE + at, data)[o]
  {
    var k := o % BLOCK_SIZE;
    assert o == (o / BLOCK_SIZE) * BLOCK_SIZE + k;
    if o / BLOCK_SIZE == b {
      BlockShows(d, b, k);
    }
  }

  lemma WrittenOk(c: Cache, id: nat, b: nat, at: nat, data: seq<Byte>, pinned: set<Entry>)
    requires CacheOk(c, pinned) && id < MAX_DISKS && c.disks[id].inUse && b < |c.disks[id].state| && c.disks[id].state[b] != Absent
    requires at + |data| <= BLOCK_SIZE
    ensures c.disks[id].block[b].Some? && |c.disks[id].block[b].value| == BLOCK_SIZE
    ensures CacheOk(c.(disks := c.disks[id := Written(c.disks[id], b, at, data)]), pinned)
  {
    var d := c.disks[id];
    assert DiskOk(d) && BlockOk(d, b);
    var d' := Written(d, b, at, data);
    var disks' := c.disks[id := d'];
    forall x | 0 <= x < |d'.state| ensures BlockOk(d', x) {
      assert BlockOk(d, x);
    }
    forall e ensures Resident(disks', e) == Resident(c.disks, e) && (Live(disks', e) ==> Live(c.disks, e)) {
    }
  }

  lemma OverwriteTwice(v: seq<Byte>, o: nat, a: seq<Byte>, b: seq<Byte>)
    requires o + |a| + |b| <= |v|
    ensures Overwrite(Overwrite(v, o, a), o + |a|, b) == Overwrite(v, o, a + b)
  {
  }

  // Blocks once written stay written.
  predicate DirtyStays(disks: seq<Disk>, disks': seq<Disk>) {
    && |disks'| == |disks|
    && forall i :: 0 <= i < |disks| ==> DiskDirtyStays(disks[i], disks'[i])
  }

  predicate DiskDirtyStays(d: Disk, d': Disk) {
    d.inUse ==>
      && d'.inUse && d'.file == d.file && |d'.state| == |d.state|
      && forall b :: 0 <= b < |d.state| && d.state[b] == Dirty ==> d'.state[b] == Dirty
  }

  // ---- the ring buffer -------------------------------------------------------------

  function Queue(buf: seq<Entry>, head: nat, count: nat): (r: seq<Entry>)
    requires |buf| == CLEAN_BUDGET && head < CLEAN_BUDGET && count <= CLEAN_BUDGET
    ensures |r| == count
  {
    seq(count, i requires 0 <= i < count => buf[(head + i) % CLEAN_BUDGET])
  }

  lemma QueuePop(buf: seq<Entry>, head: nat, count: nat)
    requires |buf| == CLEAN_BUDGET && head < CLEAN_BUDGET && 0 < count <= CLEAN_BUDGET
    ensures Queue(buf, (head + 1) % CLEAN_BUDGET, count - 1) == Queue(buf, head, count)[1..]
    ensures Queue(buf, head, count)[0] == buf[head]
  {
    forall i | 0 <= i < count - 1
      ensures Queue(buf, (head + 1) % CLEAN_BUDGET, count - 1)[i] == Queue(buf, head, count)[1..][i]
    {
      assert ((head + 1) % CLEAN_BUDGET + i) % CLEAN_BUDGET == (head + (i + 1)) % CLEAN_BUDGET;
    }
  }

  lemma QueuePush(buf: seq<Entry>, head: nat, count: nat, e: Entry)
    requires |buf| == CLEAN_BUDGET && head < CLEAN_BUDGET && count < CLEAN_BUDGET
    ensures Queue(buf[(head + count) % CLEAN_BUDGET := e], head, count + 1) == Queue(buf, head, count) + [e]
  {
    var buf' := buf[(head + count) % CLEAN_BUDGET := e];
    forall i | 0 <= i < count ensures Queue(buf', head, count)[i] == Queue(buf, head, count)[i] {
      assert (head + i) % CLEAN_BUDGET != (head + count) % CLEAN_BUDGET;
    }
  }
}
