// wasm/platform/wasm-diskio.c: hard disk images read block by block out of a file the
// browser holds. Blocks are faulted in, kept while clean in a bounded ring, evicted
// oldest first, and kept for good once written.
module DiskIo {
  import opened Common
  import opened BlockCache

  // How many blocks from idx on one request asks for: the absent ones, up to FETCH_RUN.
  function RunFrom(d: Disk, idx: nat, run: nat): (r: nat)
    requires run <= FETCH_RUN
    ensures run <= r <= FETCH_RUN
    decreases FETCH_RUN - run
  {
    if run < FETCH_RUN && idx + run < |d.state| && d.state[idx + run] == Absent then RunFrom(d, idx, run + 1) else run
  }

  // Some leading blocks of the file may be preloaded from a header of len bytes: no block
  // then ends inside the file without the header reaching its end.
  predicate HeaderOk(file: seq<Byte>, header: seq<Byte>) {
    && |header| <= |file| && header == file[..|header|]
    && (|header| % BLOCK_SIZE == 0 || |header| / BLOCK_SIZE != BlockCount(|file|) - 1
        || forall o :: |header| <= o < |file| ==> file[o] == 0)
  }

  // What preloading puts in block idx: the bytes staged for it, then zeros.
  function Staged(stage: seq<Byte>, len: nat, idx: nat): (p: seq<Byte>)
    requires idx * BLOCK_SIZE < len <= |stage|
    ensures |p| == BLOCK_SIZE
  {
    var n := if len - idx * BLOCK_SIZE > BLOCK_SIZE then BLOCK_SIZE else len - idx * BLOCK_SIZE;
    stage[idx * BLOCK_SIZE..idx * BLOCK_SIZE + n] + seq<Byte>(BLOCK_SIZE - n, _ => 0)
  }

  function RunPlaced(d: Disk, idx: nat, mallocs: nat): nat {
    var run := RunFrom(d, idx, 1);
    if mallocs < run then mallocs else run
  }

  // The cache after a fault of block idx.
  function Faulted(c: Cache, id: nat, idx: nat, fetchOk: bool, mallocs: nat): (r: Cache)
    ensures Shape(c.disks, r.disks)
  {
    if id < |c.disks| && idx < |c.disks[id].state| == |c.disks[id].block| && c.disks[id].state[idx] == Absent && fetchOk
      && idx + RunPlaced(c.disks[id], idx, mallocs) <= |c.disks[id].block|
    then PlacedRun(c, id, idx, RunPlaced(c.disks[id], idx, mallocs))
    else c
  }

  // How much of a transfer stays within the block at offset off.
  function ChunkSize(off: nat, left: nat): (n: nat)
    requires left > 0
    ensures 0 < n <= left && off % BLOCK_SIZE + n <= BLOCK_SIZE
    ensures n < left ==> (off + n) % BLOCK_SIZE == 0
  {
    var idx := off / BLOCK_SIZE;
    var inBlock := off - idx * BLOCK_SIZE;
    if BLOCK_SIZE - inBlock > left then left else BLOCK_SIZE - inBlock
  }

  class DiskEngine {
    var disks: seq<Disk>
    const cleanRing: array<Entry>
    var cleanHead: nat
    var cleanCount: nat
    const fetchStage: array<Byte>
    const preloadStage: array<Byte>   // filled by the page before it calls Preload
    // Blocks that are resident but not in the ring: the preloaded ones.
    ghost var pinned: set<Entry>

    constructor ()
      ensures Valid() && fresh(cleanRing) && fresh(fetchStage) && fresh(preloadStage)
      ensures pinned == {} && Ring() == [] && forall i :: 0 <= i < MAX_DISKS ==> disks[i] == NO_DISK
    {
      disks := seq(MAX_DISKS, _ => NO_DISK);
      cleanRing := new Entry[CLEAN_BUDGET](_ => Entry(0, 0));
      cleanHead, cleanCount := 0, 0;
      fetchStage := new Byte[STAGE_SIZE](_ => 0);
      preloadStage := new Byte[STAGE_SIZE](_ => 0);
      pinned := {};
    }

    predicate Wf()
      reads this
    {
      cleanRing.Length == CLEAN_BUDGET && cleanHead < CLEAN_BUDGET && cleanCount <= CLEAN_BUDGET
    }

    ghost function Ring(): seq<Entry>
      requires Wf()
      reads this, cleanRing
    {
      Queue(cleanRing[..], cleanHead, cleanCount)
    }

    ghost function Now(): Cache
      requires Wf()
      reads this, cleanRing
    {
      Cache(disks, Ring())
    }

    ghost predicate Valid()
      reads this, cleanRing
    {
      Wf() && fetchStage.Length == preloadStage.Length == STAGE_SIZE && CacheOk(Now(), pinned)
    }

    lemma EightDisks()
      requires Valid()
      ensures |disks| == MAX_DISKS
    {
    }

    // ---- the ring ------------------------------------------------------------------

    method Free(e: Entry)
      requires Live(disks, e) && e.idx < |disks[e.disk].block|
      modifies this`disks
      ensures disks == Freed(old(disks), e)
    {
      var d := disks[e.disk];
      disks := disks[e.disk := d.(block := d.block[e.idx := None], state := d.state[e.idx := Absent])];
    }

    method PopHead() returns (e: Entry)
      requires Wf() && cleanCount > 0
      modifies this`cleanHead, this`cleanCount
      ensures Wf() && cleanCount == old(cleanCount) - 1
      ensures e == old(Ring())[0] && Ring() == old(Ring())[1..]
    {
      QueuePop(cleanRing[..], cleanHead, cleanCount);
      e := cleanRing[cleanHead];
      cleanHead := (cleanHead + 1) % CLEAN_BUDGET;
      cleanCount := cleanCount - 1;
    }

    // Free the oldest block that is still clean, dropping the stale entries before it.
    method EvictOldest()
      requires Wf() && cleanCount > 0
      requires forall i :: 0 <= i < cleanCount ==> Resident(disks, Ring()[i])
      requires forall i :: 0 <= i < |disks| ==> |disks[i].block| == |disks[i].state|
      modifies this`disks, this`cleanHead, this`cleanCount
      ensures Wf() && cleanCount < CLEAN_BUDGET && Now() == Evicted(old(Now()))
    {
      hide Queue, Freed, EvictCount, Live, Resident;
      ghost var ring0, k, freed := Ring(), 0, false;
      var n := 0;
      while n < cleanCount
        invariant n == 0 && Wf() && disks == old(disks) && !freed
        invariant k + cleanCount == |ring0| && Ring() == ring0[k..]
        invariant forall i :: 0 <= i < k ==> !Live(disks, ring0[i])
        decreases cleanCount
      {
        if (cleanHead + n) % CLEAN_BUDGET == cleanHead {
          var e := PopHead();
          k := k + 1;
          assert e == ring0[k - 1];
          LiveIfClean(disks, e);
          if disks[e.disk].inUse && disks[e.disk].state[e.idx] == Clean {
            LiveAt(disks, ring0, k - 1);
            Free(e);
            freed := true;
            break;
          }
          n := -1;   // restart the scan from the new head
        }
        n := n + 1;
      }
      if !freed {
        AllStale(disks, ring0);
      }
    }

    // clean_ring_insert
    method CleanRingInsert(id: nat, idx: nat)
      requires Wf() && (forall i :: 0 <= i < cleanCount ==> Resident(disks, Ring()[i]))
      requires forall i :: 0 <= i < |disks| ==> |disks[i].block| == |disks[i].state|
      modifies this`disks, this`cleanHead, this`cleanCount, cleanRing
      ensures Wf() && Now() == Inserted(old(Now()), Entry(id, idx))
    {
      hide Queue, Freed, EvictCount, Resident;
      if cleanCount == CLEAN_BUDGET {
        EvictOldest();
      }
      QueuePush(cleanRing[..], cleanHead, cleanCount, Entry(id, idx));
      cleanRing[(cleanHead + cleanCount) % CLEAN_BUDGET] := Entry(id, idx);
      cleanCount := cleanCount + 1;
    }

    // ---- faults ---------------------------------------------------------------------

    // diskio_fetch: the browser copies len bytes of the file from offset on into the stage.
    method Fetch(file: seq<Byte>, offset: nat, len: nat)
      requires len <= fetchStage.Length && offset + len <= |file|
      modifies fetchStage
      ensures fetchStage[..len] == file[offset..offset + len]
    {
      forall k | 0 <= k < len {
        fetchStage[k] := file[offset + k];
      }
    }

    // Fetch n blocks' worth, zero-filled past the end of the file.
    method FetchRun(file: seq<Byte>, idx: nat, n: nat)
      requires fetchStage.Length == STAGE_SIZE && 0 < n <= FETCH_RUN && idx * BLOCK_SIZE < |file|
      modifies fetchStage
      ensures forall k :: 0 <= k < n ==> fetchStage[k * BLOCK_SIZE..(k + 1) * BLOCK_SIZE] == SourceBlock(file, idx + k)
    {
      var offset := idx * BLOCK_SIZE;
      var remain := |file| - offset;
      var len := if remain >= n * BLOCK_SIZE then n * BLOCK_SIZE else remain;
      Fetch(file, offset, len);
      ghost var got := fetchStage[..len];
      forall k | len <= k < n * BLOCK_SIZE {
        fetchStage[k] := 0;
      }
      ghost var stage := fetchStage[..];
      assert stage[..len] == got;
      forall k | 0 <= k < n
        ensures fetchStage[k * BLOCK_SIZE..(k + 1) * BLOCK_SIZE] == SourceBlock(file, idx + k)
      {
        StagedBlock(stage, file, idx, n, len, k);
        assert fetchStage[k * BLOCK_SIZE..(k + 1) * BLOCK_SIZE] == stage[k * BLOCK_SIZE..(k + 1) * BLOCK_SIZE];
      }
    }

    // The number of blocks to fetch with block idx.
    method RunLength(d: Disk, idx: nat) returns (run: nat)
      requires idx < |d.state|
      ensures run == RunFrom(d, idx, 1)
    {
      run := 1;
      while run < FETCH_RUN
        invariant 1 <= run <= FETCH_RUN && RunFrom(d, idx, run) == RunFrom(d, idx, 1)
      {
        if idx + run >= |d.state| || d.state[idx + run] != Absent {
          break;
        }
        run := run + 1;
      }
    }

    // Give block b the bytes p, and enter it in the ring.
    method PlaceBlock(id: nat, b: nat, p: seq<Byte>)
      requires Valid() && InDisk(disks, id, b) && disks[id].inUse && disks[id].state[b] == Absent
      requires p == SourceBlock(disks[id].file, b)
      modifies this`disks, this`cleanHead, this`cleanCount, cleanRing
      ensures Wf() && Now() == PlaceStep(old(Now()), id, b)
    {
      PlacedCacheOk(Now(), id, b, pinned);
      var d := disks[id];
      disks := disks[id := d.(block := d.block[b := Some(p)], state := d.state[b := Clean])];
      hide Placed, Live, Resident, Inserted, DiskOk, Queue, Distinct;
      BlocksAndStates(disks);
      CleanRingInsert(id, b);
    }

    // Distribute a fetched run to blocks of their own, for as many as memory can be had.
    method PlaceRun(id: nat, idx: nat, run: nat, mallocs: nat) returns (n: nat)
      requires Valid() && fetchStage.Length == STAGE_SIZE && id < MAX_DISKS && disks[id].inUse
      requires run <= FETCH_RUN && AbsentRun(disks, id, idx, 0, run)
      requires forall k :: 0 <= k < run ==>
        fetchStage[k * BLOCK_SIZE..(k + 1) * BLOCK_SIZE] == SourceBlock(disks[id].file, idx + k)
      modifies this`disks, this`cleanHead, this`cleanCount, cleanRing
      ensures Valid() && n == (if mallocs < run then mallocs else run)
      ensures Now() == PlacedRun(old(Now()), id, idx, n)
    {
      hide PlaceStep, SourceBlock, Queue, Resident, Live, Distinct, DiskOk, SameDirty;
      n := 0;
      ghost var c0 := Now();
      while n < run
        invariant Valid() && n <= run && n <= mallocs
        invariant Now() == PlacedRun(c0, id, idx, n) && AbsentRun(disks, id, idx, n, run)
        invariant id < |disks| && disks[id].inUse && disks[id].file == c0.disks[id].file
      {
        if n == mallocs {
          break;
        }
        PlaceStepOk(Now(), id, idx, n, run, pinned);
        PlaceBlock(id, idx + n, fetchStage[n * BLOCK_SIZE..(n + 1) * BLOCK_SIZE]);
        n := n + 1;
      }
    }

    // diskio_block: have block idx resident. fetchOk says whether the browser delivers, and
    // mallocs how many blocks memory can be had for.
    method DiskBlock(id: nat, idx: nat, fetchOk: bool, mallocs: nat) returns (ok: bool)
      requires Valid() && id < MAX_DISKS && disks[id].inUse && idx < |disks[id].state|
      modifies this`disks, this`cleanHead, this`cleanCount, cleanRing, fetchStage
      ensures Valid() && disks[id].inUse && idx < |disks[id].state|
      ensures ok <==> disks[id].state[idx] != Absent
      ensures ok <==>
        || old(disks[id].state[idx] != Absent)
        || (fetchOk && mallocs > 0 &&
            var run := RunFrom(old(disks)[id], idx, 1);
            !EvictsItself(old(disks), old(Ring()), if mallocs < run then mallocs else run))
      ensures forall i :: 0 <= i < MAX_DISKS ==> SameDirty(old(disks)[i], disks[i])
      ensures old(disks[id].state[idx] != Absent) ==> disks == old(disks)
      // The new state is that of placing the run, as far as memory goes, block by block.
      ensures Now() == Faulted(old(Now()), id, idx, fetchOk, mallocs)
    {
      hide EvictsItself, Live, Distinct, LastLive, SourceBlock, View;
      SameDirtyRefl(disks);
      if disks[id].state[idx] != Absent {
        return true;
      }
      var run := RunLength(disks[id], idx);
      RunAbsent(disks, id, idx);
      if !fetchOk {
        return false;
      }
      ghost var c0 := Now();
      InFile(disks[id], idx);
      FetchRun(disks[id].file, idx, run);
      var n := PlaceRun(id, idx, run, mallocs);
      RunOutcome(c0, id, idx, n, run, pinned);
      return disks[id].block[idx].Some?;
    }

    // ---- reading and writing ---------------------------------------------------------

    // One block's part of a transfer: write buf[from..from + n] at in-block offset at, or
    // read it from there.
    method Chunk(id: nat, idx: nat, at: nat, n: nat, buf: array<Byte>, from: nat, isWrite: bool)
      requires Valid() && id < MAX_DISKS && disks[id].inUse && idx < |disks[id].state| && disks[id].state[idx] != Absent
      requires at + n <= BLOCK_SIZE && idx * BLOCK_SIZE + at + n <= |disks[id].file|
      requires from + n <= buf.Length && buf != fetchStage
      modifies this`disks, buf
      ensures Valid() && Wf() && disks[id].inUse
      ensures isWrite ==>
        && buf[..] == old(buf[..])
        && disks == old(disks)[id := disks[id]] && disks[id].file == old(disks[id].file)
        && View(disks[id]) == Overwrite(View(old(disks)[id]), idx * BLOCK_SIZE + at, buf[from..from + n])
        && Dirt(disks[id]) == Dirt(old(disks)[id]) + {idx}
        && idx < |old(disks)[id].block| == |old(disks)[id].state| && old(disks)[id].block[idx].Some? && at + n <= |old(disks)[id].block[idx].value|
        && disks[id] == BlockCache.Written(old(disks)[id], idx, at, buf[from..from + n])
      ensures !isWrite ==>
        && disks == old(disks)
        && buf[..] == Overwrite(old(buf[..]), from, View(disks[id])[idx * BLOCK_SIZE + at..idx * BLOCK_SIZE + at + n])
      ensures DirtyStays(old(disks), disks) && ResidentStays(old(disks)[id], disks[id])
    {
      hide Resident, Live, Distinct, Queue;
      var d := disks[id];
      var o := idx * BLOCK_SIZE + at;
      assert DiskOk(d);
      hide View, Dirt, DiskOk, SourceBlock;
      if isWrite {
        var data := buf[from..from + n];
        ChunkWritten(d, idx, at, data);
        WrittenOk(Now(), id, idx, at, data, pinned);
        var p := d.block[idx].value;
        p := p[..at] + data + p[at + n..];
        disks := disks[id := d.(block := d.block[idx := Some(p)], state := d.state[idx := Dirty])];
        assert disks[id] == BlockCache.Written(d, idx, at, data);
        DirtWritten(d, idx, at, data);
      } else {
        ChunkRead(d, idx, at, n);
        CopyOut(d.block[idx].value, at, n, buf, from);
      }
    }

    method CopyOut(p: seq<Byte>, at: nat, n: nat, buf: array<Byte>, from: nat)
      requires at + n <= |p| && from + n <= buf.Length
      modifies buf
      ensures buf[..] == Overwrite(old(buf[..]), from, p[at..at + n])
    {
      forall k | 0 <= k < n {
        buf[from + k] := p[at + k];
      }
      assert buf[from..from + n] == p[at..at + n];
    }

    // The block at offset is made resident; what fetches and allocations do is left open.
    method Fault(id: nat, offset: nat) returns (ok: bool)
      requires Valid() && id < MAX_DISKS && disks[id].inUse && offset < |disks[id].file|
      modifies this`disks, this`cleanHead, this`cleanCount, cleanRing, fetchStage
      ensures Valid() && disks[id].inUse && offset / BLOCK_SIZE < |disks[id].state|
      ensures ok ==> disks[id].state[offset / BLOCK_SIZE] != Absent
      ensures SameViews(old(disks), disks) && DirtyStays(old(disks), disks)
      ensures Resides(old(disks)[id], offset, offset + 1) ==> ok && disks == old(disks)
    {
      var fetchOk: bool, mallocs: nat := *, *;
      assert DiskOk(disks[id]);
      assert offset / BLOCK_SIZE < |disks[id].state|;
      ghost var before := disks;
      BlocksAndStates(disks);
      assert Resides(disks[id], offset, offset + 1) ==> disks[id].state[offset / BLOCK_SIZE] != Absent by {
        if Resides(disks[id], offset, offset + 1) {
          var b := offset / BLOCK_SIZE;
          assert b * BLOCK_SIZE < offset + 1 && StateOf(disks[id], b) != Absent;
        }
      }
      ok := DiskBlock(id, offset / BLOCK_SIZE, fetchOk, mallocs);
      FaultViews(before, disks);
    }

    // One block's part of a transfer, its block faulted in first.
    method Piece(id: nat, off: nat, n: nat, buf: array<Byte>, from: nat, isWrite: bool) returns (ok: bool)
      requires Valid() && id < MAX_DISKS && disks[id].inUse && off + n <= |disks[id].file| && 0 < n
      requires off % BLOCK_SIZE + n <= BLOCK_SIZE
      requires from + n <= buf.Length && buf != fetchStage
      modifies this`disks, this`cleanHead, this`cleanCount, cleanRing, fetchStage, buf
      ensures Valid() && |disks| == MAX_DISKS && DirtyStays(old(disks), disks)
      ensures disks[id].inUse && disks[id].file == old(disks)[id].file
      ensures OtherViews(old(disks), disks, id)
      ensures !ok || !isWrite ==> View(disks[id]) == View(old(disks)[id]) && Dirt(disks[id]) == Dirt(old(disks)[id])
      ensures !ok || isWrite ==> buf[..] == old(buf[..])
      ensures ok && isWrite ==>
        && View(disks[id]) == Overwrite(View(old(disks)[id]), off, buf[from..from + n])
        && Dirt(disks[id]) == Dirt(old(disks)[id]) + Blocks(off, n)
      ensures ok && !isWrite ==> buf[..] == Overwrite(old(buf[..]), from, View(disks[id])[off..off + n])
      ensures Resides(old(disks)[id], off, off + 1) ==> ok && ResidentStays(old(disks)[id], disks[id])
    {
      hide DirtyStays, DiskOk, Resident, Live, Distinct, View, Overwrite, Queue, Dirt, Blocks;
      ok := Fault(id, off);
      if ok {
        BlocksOne(off, n);
        ghost var faulted := disks;
        assert off == off / BLOCK_SIZE * BLOCK_SIZE + off % BLOCK_SIZE;
        Chunk(id, off / BLOCK_SIZE, off % BLOCK_SIZE, n, buf, from, isWrite);
        DirtyStaysTrans(old(disks), faulted, disks);
      }
    }

    // One round of the loop of diskio_rw, after done bytes.
    method Round(id: nat, offset: nat, done: nat, left: nat, buf: array<Byte>, isWrite: bool, ghost d0: Disk, ghost b0: seq<Byte>)
      returns (ok: bool, chunk: nat)
      requires Valid() && id < MAX_DISKS && disks[id].inUse && disks[id].file == d0.file
      requires left > 0 && offset + done + left <= |d0.file| && done + left <= buf.Length == |b0| && buf != fetchStage
      requires Transferred(d0, disks[id], offset, b0, buf[..], done, isWrite)
      modifies this`disks, this`cleanHead, this`cleanCount, cleanRing, fetchStage, buf
      ensures Valid() && |disks| == MAX_DISKS && DirtyStays(old(disks), disks)
      ensures disks[id].inUse && disks[id].file == d0.file && 0 < chunk <= left
      ensures Transferred(d0, disks[id], offset, b0, buf[..], if ok then done + chunk else done, isWrite)
      ensures OtherViews(old(disks), disks, id)
      ensures Resides(old(disks)[id], offset + done, offset + done + left) ==>
        ok && Resides(disks[id], offset + done + chunk, offset + done + left)
    {
      hide DirtyStays, Transferred, DiskOk, Resident, Live, Distinct, View, Overwrite, Queue, ChunkSize, Resides, ResidentStays, Dirt, Blocks;
      chunk := ChunkSize(offset + done, left);
      ghost var d1, b1 := disks[id], buf[..];
      ok := Piece(id, offset + done, chunk, buf, done, isWrite);
      ResidesOn(d1, disks[id], offset + done, chunk, offset + done + left);
      if ok {
        MoreDone(d0, d1, disks[id], offset, b0, b1, buf[..], done, chunk, isWrite);
      } else {
        StillDone(d0, d1, disks[id], offset, b0, buf[..], done, isWrite);
      }
    }

    // The loop of diskio_rw, for arguments it has accepted.
    method Transfer(id: nat, offset: nat, len: nat, buf: array<Byte>, isWrite: bool) returns (r: nat, ghost done: nat)
      requires Valid() && id < MAX_DISKS && disks[id].inUse && offset + len <= |disks[id].file|
      requires len <= buf.Length && buf != fetchStage
      modifies this`disks, this`cleanHead, this`cleanCount, cleanRing, fetchStage, buf
      ensures Valid() && r <= 1 && DirtyStays(old(disks), disks) && done <= len && (r == 0 ==> done == len)
      ensures Transferred(old(disks)[id], disks[id], offset, old(buf[..]), buf[..], done, isWrite)
      ensures OtherViews(old(disks), disks, id)
      ensures Resides(old(disks)[id], offset, offset + len) ==> r == 0
    {
      hide *;
      EightDisks();
      ghost var d0, b0, before0 := disks[id], buf[..], disks;
      NothingDone(d0, offset, b0, isWrite);
      NoChange(disks, id);
      var from := 0;
      while from < len
        invariant from <= len
        invariant Valid() && |disks| == MAX_DISKS && DirtyStays(before0, disks)
        invariant disks[id].inUse && disks[id].file == d0.file
        invariant Transferred(d0, disks[id], offset, b0, buf[..], from, isWrite)
        invariant OtherViews(before0, disks, id)
        invariant Resides(d0, offset, offset + len) ==> Resides(disks[id], offset + from, offset + len)
      {
        ghost var before := disks;
        var ok, chunk := Round(id, offset, from, len - from, buf, isWrite, d0, b0);
        DirtyStaysTrans(before0, before, disks);
        OtherViewsTrans(before0, before, disks, id);
        if !ok {
          return 1, from;
        }
        from := from + chunk;
      }
      return 0, len;
    }

    // diskio_rw. r is 0 on success; done counts the bytes that were transferred.
    method DiskRw(id: int, offset: int, len: int, buf: array<Byte>, isWrite: bool) returns (r: nat, ghost done: nat)
      requires Valid() && len <= buf.Length && buf != fetchStage
      modifies this`disks, this`cleanHead, this`cleanCount, cleanRing, fetchStage, buf
      ensures Valid() && r <= 1 && DirtyStays(old(disks), disks)
      ensures r == 0 ==> Accepts(old(disks), id, offset, len) && done == (if len > 0 then len else 0)
      ensures Accepts(old(disks), id, offset, len) && (len <= 0 || Resides(old(disks)[id], offset, offset + len)) ==> r == 0
      ensures !Accepts(old(disks), id, offset, len) || len <= 0 ==> done == 0 && disks == old(disks) && buf[..] == old(buf[..])
      ensures Accepts(old(disks), id, offset, len) && len > 0 ==>
        && done <= len && Transferred(old(disks)[id], disks[id], offset, old(buf[..]), buf[..], done, isWrite)
      ensures OtherViews(old(disks), disks, id)
    {
      NoChange(disks, id);
      if id < 0 || id >= MAX_DISKS || !disks[id].inUse {
        return 1, 0;
      }
      if offset < 0 || offset + len > |disks[id].file| {
        return 1, 0;
      }
      r, done := 0, 0;
      if len > 0 {
        hide DirtyStays, Transferred, DiskOk, Resident, Live, Distinct, View, Overwrite, Queue, Resides, Dirt;
        r, done := Transfer(id, offset, len, buf, isWrite);
      }
    }

    // ---- registration and preload --------------------------------------------------------

    // wasm_diskio_register: the number of the new disk, or -1. allocOk says whether its
    // tables can be allocated.
    method Register(file: seq<Byte>, allocOk: bool) returns (id: int)
      requires Valid()
      modifies this`disks
      ensures Valid() && -1 <= id < MAX_DISKS
      ensures id == -1 <==> file == [] || !allocOk || forall j :: 0 <= j < MAX_DISKS ==> old(disks)[j].inUse
      ensures id == -1 ==> disks == old(disks)
      ensures id >= 0 ==>
        && !old(disks)[id].inUse && disks[id].inUse && disks == old(disks)[id := disks[id]]
        && View(disks[id]) == disks[id].file == file && (forall b :: 0 <= b < |disks[id].state| ==> disks[id].state[b] == Absent)
      ensures id >= 0 ==> forall j :: 0 <= j < id ==> old(disks)[j].inUse
    {
      if |file| <= 0 {
        return -1;
      }
      var i := 0;
      while i < MAX_DISKS
        invariant i <= MAX_DISKS && forall j :: 0 <= j < i ==> disks[j].inUse
      {
        if !disks[i].inUse {
          break;
        }
        i := i + 1;
      }
      if i == MAX_DISKS || !allocOk {
        return -1;
      }
      var n := BlockCount(|file|);
      RegisteredOk(Now(), i, file, pinned);
      disks := disks[i := Disk(true, file, seq(n, _ => None), seq(n, _ => Absent))];
      return i;
    }

    // Make block idx resident from the preload stage, outside the ring.
    method Pin(id: nat, idx: nat, p: seq<Byte>)
      requires Valid() && InDisk(disks, id, idx) && disks[id].inUse && disks[id].state[idx] == Absent
      requires p == SourceBlock(disks[id].file, idx)
      modifies this`disks, this`pinned
      ensures Valid() && disks == Placed(old(disks), id, idx) && pinned == old(pinned) + {Entry(id, idx)}
      ensures forall i :: 0 <= i < MAX_DISKS ==> SameDirty(old(disks)[i], disks[i])
    {
      PlacedCacheOk(Now(), id, idx, pinned);
      var d := disks[id];
      disks := disks[id := d.(block := d.block[idx := Some(p)], state := d.state[idx := Clean])];
      pinned := pinned + {Entry(id, idx)};
    }

    // Pin block idx with the n bytes staged for it.
    method PinStaged(id: nat, idx: nat, n: nat, len: nat)
      requires Valid() && InDisk(disks, id, idx) && disks[id].inUse && disks[id].state[idx] == Absent
      requires 0 < len <= STAGE_SIZE && HeaderOk(disks[id].file, preloadStage[..len]) && idx < BlockCount(len)
      requires n == if len - idx * BLOCK_SIZE > BLOCK_SIZE then BLOCK_SIZE else len - idx * BLOCK_SIZE
      requires n < BLOCK_SIZE ==> idx == |disks[id].state| - 1
      modifies this`disks, this`pinned
      ensures Valid() && old(pinned) <= pinned && SameViews(old(disks), disks) && DirtyStays(old(disks), disks)
      ensures id < |disks| && disks[id].inUse && disks[id].file == old(disks[id].file)
      ensures forall b: nat :: StateOf(disks[id], b) == if b == idx then Clean else StateOf(old(disks)[id], b)
    {
      assert preloadStage[..][..len] == preloadStage[..len];
      StagedExactly(disks[id].file, preloadStage[..], len, idx);
      PlacedStates(disks, id, idx);
      Pin(id, idx, preloadStage[idx * BLOCK_SIZE..idx * BLOCK_SIZE + n] + seq<Byte>(BLOCK_SIZE - n, _ => 0));
      BlocksAndStates(old(disks));
      FaultViews(old(disks), disks);
    }

    // wasm_diskio_preload: the number of leading blocks now resident.
    method Preload(id: int, len: int, mallocs: nat) returns (resident: nat)
      requires Valid()
      requires 0 <= id < MAX_DISKS && disks[id].inUse && 0 < len <= STAGE_SIZE ==> HeaderOk(disks[id].file, preloadStage[..len])
      modifies this`disks, this`pinned
      ensures Valid() && Ring() == old(Ring()) && old(pinned) <= pinned
      ensures SameViews(old(disks), disks) && DirtyStays(old(disks), disks)
      ensures !(0 <= id < MAX_DISKS && old(disks)[id].inUse && 0 < len <= STAGE_SIZE) ==> resident == 0 && disks == old(disks)
      ensures 0 <= id < MAX_DISKS && disks[id].inUse ==>
        forall b :: 0 <= b < resident ==> StateOf(disks[id], b) != Absent
      ensures 0 <= id < MAX_DISKS && disks[id].inUse && 0 < len <= STAGE_SIZE && mallocs >= FETCH_RUN ==>
        resident == if len / BLOCK_SIZE == BlockCount(|disks[id].file|) - 1 then BlockCount(len) else len / BLOCK_SIZE
    {
      NoViewsChange(disks);
      resident := 0;
      if id < 0 || id >= MAX_DISKS || !disks[id].inUse || len <= 0 || len > STAGE_SIZE {
        return;
      }
      ghost var file := disks[id].file;
      var nblk, idx, free := BlockCount(len), 0, mallocs;
      while idx < nblk && idx < |disks[id].state|
        invariant Valid() && Ring() == old(Ring()) && old(pinned) <= pinned && idx == resident <= nblk
        invariant SameViews(old(disks), disks) && DirtyStays(old(disks), disks)
        invariant disks[id].inUse && disks[id].file == file && HeaderOk(file, preloadStage[..len])
        invariant forall b :: 0 <= b < idx ==> StateOf(disks[id], b) != Absent
        invariant idx <= |disks[id].state| && free + idx >= mallocs
        invariant idx * BLOCK_SIZE <= len || len / BLOCK_SIZE == |disks[id].state| - 1
      {
        var n := len - idx * BLOCK_SIZE;
        if n > BLOCK_SIZE {
          n := BLOCK_SIZE;
        }
        HeaderEdge(file, len, idx);
        if n < BLOCK_SIZE && idx != |disks[id].state| - 1 {
          break;
        }
        if disks[id].state[idx] == Absent {
          if free == 0 {
            break;
          }
          free := free - 1;
          ghost var before := disks;
          PinStaged(id, idx, n, len);
          SameViewsTrans(old(disks), before, disks);
          DirtyStaysTrans(old(disks), before, disks);
        }
        resident := resident + 1;
        idx := idx + 1;
      }
    }
  }

  lemma NoViewsChange(disks: seq<Disk>)
    ensures SameViews(disks, disks) && DirtyStays(disks, disks)
  {
  }

  lemma SameViewsTrans(a: seq<Disk>, b: seq<Disk>, c: seq<Disk>)
    requires SameViews(a, b) && SameViews(b, c)
    ensures SameViews(a, c)
  {
  }

  lemma PlacedStates(disks: seq<Disk>, id: nat, b: nat)
    requires InDisk(disks, id, b)
    ensures forall x: nat :: StateOf(Placed(disks, id, b)[id], x) == if x == b then Clean else StateOf(disks[id], x)
  {
  }

  // The last block a header reaches: cut short by the header or by the file.
  lemma HeaderEdge(file: seq<Byte>, len: nat, idx: nat)
    requires len <= |file| && idx < BlockCount(len)
    ensures idx < BlockCount(|file|) && BlockCount(|file|) * BLOCK_SIZE >= |file|
    ensures len - idx * BLOCK_SIZE < BLOCK_SIZE ==> idx == len / BLOCK_SIZE && idx + 1 == BlockCount(len)
    ensures len - idx * BLOCK_SIZE >= BLOCK_SIZE ==> (idx + 1) * BLOCK_SIZE <= len
  {
  }

  lemma StagedAt(file: seq<Byte>, stage: seq<Byte>, len: nat, idx: nat, k: nat)
    requires len <= |stage| && len <= |file| && stage[..len] == file[..len] && idx * BLOCK_SIZE < len && k < BLOCK_SIZE
    ensures Staged(stage, len, idx)[k] == if idx * BLOCK_SIZE + k < len then file[idx * BLOCK_SIZE + k] else 0
    ensures SourceBlock(file, idx)[k] == SourceByte(file, idx * BLOCK_SIZE + k)
  {
    if idx * BLOCK_SIZE + k < len {
      assert stage[idx * BLOCK_SIZE + k] == stage[..len][idx * BLOCK_SIZE + k] == file[..len][idx * BLOCK_SIZE + k];
    }
  }

  // A block that the loop does not stop at gets the file's bytes if and only if it is covered,
  // or all of the file behind the header is zeros.
  lemma StagedExactly(file: seq<Byte>, stage: seq<Byte>, len: nat, idx: nat)
    requires 0 < len <= |stage| && len <= |file| && stage[..len] == file[..len] && idx < BlockCount(len)
    requires len < (idx + 1) * BLOCK_SIZE ==> idx == BlockCount(|file|) - 1
    ensures Staged(stage, len, idx) == SourceBlock(file, idx) <==>
      (idx + 1) * BLOCK_SIZE <= len || forall o :: len <= o < |file| ==> file[o] == 0
  {
    var p, q := Staged(stage, len, idx), SourceBlock(file, idx);
    forall k: nat | k < BLOCK_SIZE
      ensures p[k] == if idx * BLOCK_SIZE + k < len then file[idx * BLOCK_SIZE + k] else 0
      ensures q[k] == SourceByte(file, idx * BLOCK_SIZE + k)
    {
      StagedAt(file, stage, len, idx, k);
    }
    hide Staged, SourceBlock;
    if p == q && len < (idx + 1) * BLOCK_SIZE {
      forall o | len <= o < |file| ensures file[o] == 0 {
        assert p[o - idx * BLOCK_SIZE] == q[o - idx * BLOCK_SIZE];
      }
    }
  }

  // The front of a file that ends inside its last block, and before its end: the guest is then
  // shown zeros for the rest of it.
  lemma ShortHeaderGoesWrong()
    ensures var file: seq<Byte> := [1, 1];
      !HeaderOk(file, file[..1]) && Staged(file, 1, 0) != SourceBlock(file, 0)
  {
    var file: seq<Byte> := [1, 1];
    assert file[1] != 0;
    StagedExactly(file, file, 1, 0);
  }

  // ---- a session in which a fault fails ---------------------------------------------------

  // A one-byte write to block b: the fault, as DiskBlock makes it with every fetch and
  // allocation granted, and then the write if the block is there.
  function FaultAndWrite(c: Cache, id: nat, b: nat, x: Byte): (r: Cache)
    requires id < |c.disks| && DiskOk(c.disks[id]) && b < |c.disks[id].state|
  {
    var c1 := Faulted(c, id, b, true, FETCH_RUN);
    var p := c1.disks[id].block[b];
    if p.Some? && |p.value| > 0 then c1.(disks := c1.disks[id := BlockCache.Written(c1.disks[id], b, 0, [x])]) else c1
  }

  const N := CLEAN_BUDGET + FETCH_RUN - 1

  function Zeros(n: nat): (r: seq<Byte>)
    ensures |r| == n
  {
    seq<Byte>(n, _ => 0)
  }

  function OneAndZeros(): seq<Byte> { Overwrite(Zeros(BLOCK_SIZE), 0, [1]) }

  // A disk of N blocks of zeros, a 1 having been written to the first byte of the last k.
  function WrittenDisk(k: nat): Disk
    requires k <= N
  {
    Disk(true, Zeros(N * BLOCK_SIZE), seq(N, b => if b >= N - k then Some(OneAndZeros()) else None),
         seq(N, b => if b >= N - k then Dirty else Absent))
  }

  // The cache then, the blocks having been written from the last one down.
  function AfterWrites(k: nat): Cache
    requires k <= N
  {
    Cache([WrittenDisk(k)] + seq(MAX_DISKS - 1, _ => NO_DISK), seq(k, i requires 0 <= i < k => Entry(0, N - 1 - i)))
  }

  lemma WrittenDiskOk(k: nat)
    requires k <= N
    ensures DiskOk(WrittenDisk(k))
  {
    var d := WrittenDisk(k);
    assert |d.file| == N * BLOCK_SIZE && BlockCount(|d.file|) == N;
    assert |OneAndZeros()| == BLOCK_SIZE;
    forall b | 0 <= b < |d.state| ensures BlockOk(d, b) {
    }
  }

  lemma ZeroSource(b: nat)
    requires b < N
    ensures SourceBlock(Zeros(N * BLOCK_SIZE), b) == Zeros(BLOCK_SIZE)
  {
    var block := SourceBlock(Zeros(N * BLOCK_SIZE), b);
    forall k | 0 <= k < BLOCK_SIZE ensures block[k] == 0 {
      assert block[k] == SourceByte(Zeros(N * BLOCK_SIZE), b * BLOCK_SIZE + k);
    }
  }

  // Each write of the session is to the block in front of the resident ones, so its fault
  // fetches just that block, and leaves one more entry on the ring.
  lemma OneMoreWrite(k: nat)
    requires k < CLEAN_BUDGET
    ensures DiskOk(AfterWrites(k).disks[0]) && |AfterWrites(k).disks[0].state| == N
    ensures FaultAndWrite(AfterWrites(k), 0, N - 1 - k, 1) == AfterWrites(k + 1)
  {
    WrittenDiskOk(k);
    var c, b := AfterWrites(k), N - 1 - k;
    var d := c.disks[0];
    ZeroSource(b);
    hide SourceBlock, Zeros, OneAndZeros, Overwrite, BlockOk, EvictFrom;
    assert RunFrom(d, b, 1) == 1;
    assert PlacedRun(c, 0, b, 0) == c;
    var c1 := PlacedRun(c, 0, b, 1);
    var zeros := Zeros(BLOCK_SIZE);
    assert c1.disks == c.disks[0 := d.(block := d.block[b := Some(zeros)], state := d.state[b := Clean])];
    assert c1.ring == c.ring + [Entry(0, b)] == AfterWrites(k + 1).ring;
    var w := BlockCache.Written(c1.disks[0], b, 0, [1]);
    assert w == WrittenDisk(k + 1) by {
      assert OneAndZeros() == Overwrite(zeros, 0, [1]) by { OneAndZerosIs(); }
      assert w.block == WrittenDisk(k + 1).block && w.state == WrittenDisk(k + 1).state;
    }
    assert c1.disks[0 := w] == AfterWrites(k + 1).disks;
  }

  lemma OneAndZerosIs()
    ensures OneAndZeros() == Overwrite(Zeros(BLOCK_SIZE), 0, [1])
  {
  }

  ghost predicate WriteStep(c: Cache, k: nat, c': Cache) {
    && k < N && 0 < |c.disks| && DiskOk(c.disks[0]) && |c.disks[0].state| == N
    && c' == FaultAndWrite(c, 0, N - 1 - k, 1)
  }

  // A fault of block 0 would fetch four blocks and evict its own.
  predicate NextReadFails(c: Cache) {
    && 0 < |c.disks| && c.disks[0].inUse && 0 < |c.disks[0].state| && c.disks[0].state[0] == Absent
    && RunFrom(c.disks[0], 0, 1) == FETCH_RUN && EvictsItself(c.disks, c.ring, FETCH_RUN)
  }

  // It is not there afterwards.
  predicate FaultLosesBlock(c: Cache) {
    var c' := Faulted(c, 0, 0, true, FETCH_RUN);
    0 < |c'.disks| && StateOf(c'.disks[0], 0) == Absent
  }

  lemma AfterWritesOk(k: nat)
    requires k < CLEAN_BUDGET
    ensures CacheOk(AfterWrites(k), {})
  {
    var c := AfterWrites(k);
    WrittenDiskOk(k);
    hide Zeros, OneAndZeros, BlockOk;
    NoDiskOk();
    hide DiskOk;
    assert forall i :: 0 <= i < k ==> Resident(c.disks, c.ring[i]);
    assert forall e :: !Live(c.disks, e);
  }

  lemma NoDiskOk()
    ensures DiskOk(NO_DISK)
  {
  }

  lemma LastLost()
    ensures FaultLosesBlock(AfterWrites(CLEAN_BUDGET - 1))
  {
    var c := AfterWrites(CLEAN_BUDGET - 1);
    LastFault();
    AfterWritesOk(CLEAN_BUDGET - 1);
    RunAbsent(c.disks, 0, 0);
    hide CacheOk, EvictsItself, PlacedRun, DiskOk, WrittenDisk;
    RunOutcome(c, 0, 0, FETCH_RUN, FETCH_RUN, {});
  }

  // After 511 writes to a disk just attached, from its last block down, a read of block 0,
  // with every fetch and allocation granted, fails: the four blocks it fetches fill the ring,
  // and the first of them is evicted for the last.
  lemma FaultCanFail() returns (session: seq<Cache>)
    ensures |session| == CLEAN_BUDGET && session[0].ring == []
    ensures session[0].disks == [Disk(true, Zeros(N * BLOCK_SIZE), seq(N, _ => None), seq(N, _ => Absent))] + seq(MAX_DISKS - 1, _ => NO_DISK)
    ensures forall k :: 0 <= k < CLEAN_BUDGET - 1 ==> WriteStep(session[k], k, session[k + 1])
    ensures NextReadFails(session[CLEAN_BUDGET - 1])
    ensures FaultLosesBlock(session[CLEAN_BUDGET - 1])
  {
    session := seq(CLEAN_BUDGET, k requires 0 <= k < CLEAN_BUDGET => AfterWrites(k));
    JustAttached();
    LastFault();
    LastLost();
    hide WrittenDisk, FaultAndWrite, Zeros, NextReadFails, DiskOk, FaultLosesBlock;
    forall k | 0 <= k < CLEAN_BUDGET - 1 ensures WriteStep(session[k], k, session[k + 1]) {
      OneMoreWrite(k);
      assert session[k] == AfterWrites(k) && session[k + 1] == AfterWrites(k + 1);
    }
  }

  lemma JustAttached()
    ensures AfterWrites(0).ring == []
    ensures AfterWrites(0).disks == [Disk(true, Zeros(N * BLOCK_SIZE), seq(N, _ => None), seq(N, _ => Absent))] + seq(MAX_DISKS - 1, _ => NO_DISK)
  {
    var d := WrittenDisk(0);
    assert d.block == seq(N, _ => None) && d.state == seq(N, _ => Absent);
  }

  lemma LastFault()
    ensures NextReadFails(AfterWrites(CLEAN_BUDGET - 1))
  {
    var c := AfterWrites(CLEAN_BUDGET - 1);
    assert forall i :: 0 <= i < |c.ring| ==> !Live(c.disks, c.ring[i]);
    assert LastLive(c.disks, c.ring) == 0;
    assert RunFrom(c.disks[0], 0, 3) == 4;
  }

  lemma RegisteredOk(c: Cache, id: nat, file: seq<Byte>, pinned: set<Entry>)
    requires CacheOk(c, pinned) && id < MAX_DISKS && !c.disks[id].inUse
    ensures var n := BlockCount(|file|);
      var d := Disk(true, file, seq(n, _ => None), seq(n, _ => Absent));
      && CacheOk(c.(disks := c.disks[id := d]), pinned) && View(d) == file
  {
    var n := BlockCount(|file|);
    var d := Disk(true, file, seq(n, _ => None), seq(n, _ => Absent));
    var disks' := c.disks[id := d];
    forall e ensures Resident(disks', e) == Resident(c.disks, e) && Live(disks', e) == Live(c.disks, e) {
    }
    forall b | 0 <= b < |d.state| ensures BlockOk(d, b) {
    }
  }

  lemma NoChange(disks: seq<Disk>, id: int)
    ensures DirtyStays(disks, disks) && OtherViews(disks, disks, id)
  {
  }

  // The arguments a transfer does not turn down.
  predicate Accepts(disks: seq<Disk>, id: int, offset: int, len: int) {
    0 <= id < |disks| && id < MAX_DISKS && disks[id].inUse && 0 <= offset && offset + len <= |disks[id].file|
  }

  lemma DirtWritten(d: Disk, b: nat, at: nat, data: seq<Byte>)
    requires b < |d.block| == |d.state| && d.block[b].Some? && at + |data| <= |d.block[b].value|
    ensures Dirt(BlockCache.Written(d, b, at, data)) == Dirt(d) + {b}
  {
  }

  // A transfer of n bytes as on a flat byte array.
  predicate Transferred(d: Disk, d': Disk, offset: nat, buf: seq<Byte>, buf': seq<Byte>, n: nat, isWrite: bool)
    requires offset + n <= |d.file| && n <= |buf|
  {
    if isWrite then View(d') == Overwrite(View(d), offset, buf[..n]) && Dirt(d') == Dirt(d) + Blocks(offset, n) && buf' == buf
    else View(d') == View(d) && Dirt(d') == Dirt(d) && buf' == Overwrite(buf, 0, View(d)[offset..offset + n])
  }

  // The blocks that have been written, which stay in memory for good.
  function Dirt(d: Disk): set<nat> { set b: nat | b < |d.state| && d.state[b] == Dirty }

  // The blocks of the n bytes from lo on.
  function Blocks(lo: nat, n: nat): set<nat> {
    if n == 0 then {} else set b: nat | b <= (lo + n - 1) / BLOCK_SIZE && NotBefore(lo, b)
  }

  predicate NotBefore(lo: nat, b: nat) { lo / BLOCK_SIZE <= b }

  lemma BlocksJoin(lo: nat, n: nat, m: nat)
    ensures Blocks(lo, n + m) == Blocks(lo, n) + Blocks(lo + n, m)
  {
    if n > 0 && m > 0 {
      assert (lo + n) / BLOCK_SIZE <= (lo + n - 1) / BLOCK_SIZE + 1;
    }
  }

  lemma BlocksOne(off: nat, n: nat)
    requires 0 < n && off % BLOCK_SIZE + n <= BLOCK_SIZE
    ensures Blocks(off, n) == {off / BLOCK_SIZE}
  {
    assert (off + n - 1) / BLOCK_SIZE == off / BLOCK_SIZE;
  }

  // What a guest can tell of a disk, now or later, is the same.
  predicate SameView(d: Disk, d': Disk) { View(d') == View(d) && Dirt(d') == Dirt(d) && d'.inUse == d.inUse && d'.file == d.file }

  predicate SameViews(disks: seq<Disk>, disks': seq<Disk>) {
    |disks'| == |disks| && forall i :: 0 <= i < |disks| ==> SameView(disks[i], disks'[i])
  }

  lemma FaultViews(disks: seq<Disk>, disks': seq<Disk>)
    requires |disks'| == |disks| && forall i :: 0 <= i < |disks| ==> SameDirty(disks[i], disks'[i]) && |disks[i].block| == |disks[i].state|
    ensures SameViews(disks, disks') && DirtyStays(disks, disks')
  {
    forall i | 0 <= i < |disks| ensures SameView(disks[i], disks'[i]) {
      SameDirtyView(disks[i], disks'[i]);
      assert forall b: nat :: b in Dirt(disks'[i]) <==> b in Dirt(disks[i]);
    }
  }

  predicate OtherViews(disks: seq<Disk>, disks': seq<Disk>, id: int) {
    |disks'| == |disks| && forall i :: 0 <= i < |disks| && i != id ==> SameView(disks[i], disks'[i])
  }

  lemma OtherViewsTrans(a: seq<Disk>, b: seq<Disk>, c: seq<Disk>, id: int)
    requires OtherViews(a, b, id) && OtherViews(b, c, id)
    ensures OtherViews(a, c, id)
  {
  }

  lemma DirtyStaysTrans(a: seq<Disk>, b: seq<Disk>, c: seq<Disk>)
    requires DirtyStays(a, b) && DirtyStays(b, c)
    ensures DirtyStays(a, c)
  {
  }

  // The blocks of the bytes from lo up to hi are all in memory.
  ghost predicate Resides(d: Disk, lo: nat, hi: nat) {
    forall b :: lo / BLOCK_SIZE <= b && b * BLOCK_SIZE < hi ==> StateOf(d, b) != Absent
  }

  ghost predicate ResidentStays(d: Disk, d': Disk) {
    forall b: nat :: StateOf(d, b) != Absent ==> StateOf(d', b) != Absent
  }

  lemma ResidesOn(d: Disk, d': Disk, lo: nat, n: nat, hi: nat)
    requires 0 < n && lo + n <= hi
    ensures Resides(d, lo, hi) ==> Resides(d, lo, lo + 1)
    ensures Resides(d, lo, hi) && ResidentStays(d, d') ==> Resides(d', lo + n, hi)
  {
  }

  lemma NothingDone(d: Disk, offset: nat, buf: seq<Byte>, isWrite: bool)
    requires offset <= |d.file|
    ensures Transferred(d, d, offset, buf, buf, 0, isWrite)
  {
    assert Overwrite(View(d), offset, buf[..0]) == View(d);
    assert Overwrite(buf, 0, View(d)[offset..offset + 0]) == buf;
  }

  lemma StillDone(d0: Disk, d1: Disk, d2: Disk, offset: nat, b0: seq<Byte>, b: seq<Byte>, n: nat, isWrite: bool)
    requires offset + n <= |d0.file| && n <= |b0| && Transferred(d0, d1, offset, b0, b, n, isWrite) && View(d2) == View(d1) && Dirt(d2) == Dirt(d1)
    ensures Transferred(d0, d2, offset, b0, b, n, isWrite)
  {
  }

  // One more chunk.
  lemma MoreDone(d0: Disk, d1: Disk, d2: Disk, offset: nat, b0: seq<Byte>, b1: seq<Byte>, b2: seq<Byte>, n: nat, m: nat, isWrite: bool)
    requires offset + n + m <= |d0.file| && n + m <= |b0|
    requires Transferred(d0, d1, offset, b0, b1, n, isWrite) && |b1| == |b0| && |View(d1)| == |View(d0)|
    requires isWrite ==> b2 == b1 && View(d2) == Overwrite(View(d1), offset + n, b1[n..n + m]) && Dirt(d2) == Dirt(d1) + Blocks(offset + n, m)
    requires !isWrite ==> View(d2) == View(d1) && Dirt(d2) == Dirt(d1) && b2 == Overwrite(b1, n, View(d1)[offset + n..offset + n + m])
    ensures Transferred(d0, d2, offset, b0, b2, n + m, isWrite)
  {
    hide Dirt, Blocks, View, Overwrite;
    BlocksJoin(offset, n, m);
    if isWrite {
      OverwriteTwice(View(d0), offset, b0[..n], b0[n..n + m]);
      assert b0[..n] + b0[n..n + m] == b0[..n + m];
    } else {
      var v := View(d0);
      OverwriteTwice(b0, 0, v[offset..offset + n], v[offset + n..offset + n + m]);
      assert v[offset..offset + n] + v[offset + n..offset + n + m] == v[offset..offset + (n + m)];
    }
  }

  lemma {:induction false} RunFromAbsent(d: Disk, idx: nat, run: nat)
    requires 0 < run <= FETCH_RUN && idx + run <= |d.state| && forall b :: idx <= b < idx + run ==> d.state[b] == Absent
    ensures idx + RunFrom(d, idx, run) <= |d.state|
    ensures forall b :: idx <= b < idx + RunFrom(d, idx, run) ==> d.state[b] == Absent
    decreases FETCH_RUN - run
  {
    if run < FETCH_RUN && idx + run < |d.state| && d.state[idx + run] == Absent {
      RunFromAbsent(d, idx, run + 1);
    }
  }

  lemma RunAbsent(disks: seq<Disk>, id: nat, idx: nat)
    requires id < |disks| && idx < |disks[id].state| == |disks[id].block| && disks[id].state[idx] == Absent
    ensures 0 < RunFrom(disks[id], idx, 1) && AbsentRun(disks, id, idx, 0, RunFrom(disks[id], idx, 1))
  {
    RunFromAbsent(disks[id], idx, 1);
  }

  lemma InFile(d: Disk, idx: nat)
    requires DiskOk(d) && idx < |d.state|
    ensures idx * BLOCK_SIZE < |d.file|
  {
  }

  // A fault ends with its block resident unless none could be placed or the first one
  // placed was evicted again.
  lemma RunOutcome(c0: Cache, id: nat, idx: nat, n: nat, run: nat, pinned: set<Entry>)
    requires CacheOk(c0, pinned) && id < MAX_DISKS && c0.disks[id].inUse && n <= run <= FETCH_RUN && run > 0
    requires AbsentRun(c0.disks, id, idx, 0, run)
    ensures var c := PlacedRun(c0, id, idx, n);
      && idx < |c.disks[id].state| == |c.disks[id].block| && c.disks[id].inUse
      && (c.disks[id].state[idx] != Absent <==> n > 0 && !EvictsItself(c0.disks, c0.ring, n))
      && (c.disks[id].block[idx].Some? <==> c.disks[id].state[idx] != Absent)
      && forall i :: 0 <= i < MAX_DISKS ==> SameDirty(c0.disks[i], c.disks[i])
  {
    PlacedRunOk(c0, id, idx, n, run, pinned);
    var d := PlacedRunShape(c0, id, idx, n, run, pinned);
    var c := PlacedRun(c0, id, idx, n);
    assert DiskOk(c.disks[id]) && BlockOk(c.disks[id], idx);
    if n > 0 && !EvictsItself(c0.disks, c0.ring, n) {
      assert Entries(id, idx, n)[0] == Entry(id, idx);
      assert Live(c.disks, Entry(id, idx));
    }
  }

  lemma BlocksAndStates(disks: seq<Disk>)
    ensures (forall i :: 0 <= i < |disks| ==> DiskOk(disks[i])) ==>
      forall i :: 0 <= i < |disks| ==> |disks[i].block| == |disks[i].state|
  {
  }

  lemma StagedBlock(stage: seq<Byte>, file: seq<Byte>, idx: nat, n: nat, len: nat, k: nat)
    requires |stage| == STAGE_SIZE && k < n <= FETCH_RUN && len <= n * BLOCK_SIZE
    requires idx * BLOCK_SIZE + len <= |file| && (len == n * BLOCK_SIZE || idx * BLOCK_SIZE + len == |file|)
    requires stage[..len] == file[idx * BLOCK_SIZE..idx * BLOCK_SIZE + len]
    requires forall x :: len <= x < n * BLOCK_SIZE ==> stage[x] == 0
    ensures stage[k * BLOCK_SIZE..(k + 1) * BLOCK_SIZE] == SourceBlock(file, idx + k)
  {
    var block := SourceBlock(file, idx + k);
    forall x | k * BLOCK_SIZE <= x < (k + 1) * BLOCK_SIZE ensures stage[x] == block[x - k * BLOCK_SIZE] {
      assert block[x - k * BLOCK_SIZE] == SourceByte(file, (idx + k) * BLOCK_SIZE + (x - k * BLOCK_SIZE));
      assert (idx + k) * BLOCK_SIZE + (x - k * BLOCK_SIZE) == idx * BLOCK_SIZE + x;
      if x < len {
        assert stage[..len][x] == file[idx * BLOCK_SIZE..idx * BLOCK_SIZE + len][x];
      }
    }
    SameSlice(block, 0, stage, k * BLOCK_SIZE, BLOCK_SIZE);
    assert block[0..BLOCK_SIZE] == block;
  }

  lemma LiveIfClean(disks: seq<Disk>, e: Entry)
    requires Resident(disks, e)
    ensures e.disk < |disks| && disks[e.disk].inUse && e.idx < |disks[e.disk].state|
    ensures Live(disks, e) <==> disks[e.disk].state[e.idx] == Clean
  {
  }

  lemma StaleBefore(disks: seq<Disk>, ring: seq<Entry>, k: nat)
    requires k <= |ring| && forall i :: 0 <= i < k ==> !Live(disks, ring[i])
    ensures EvictCount(disks, ring) == k + EvictCount(disks, ring[k..])
  {
    assert ring == ring[..k] + ring[k..];
    EvictCountSplit(disks, ring[..k], ring[k..]);
  }

  lemma LiveAt(disks: seq<Disk>, ring: seq<Entry>, k: nat)
    requires k < |ring| && Live(disks, ring[k]) && forall i :: 0 <= i < k ==> !Live(disks, ring[i])
    ensures EvictCount(disks, ring) == k + 1
  {
    StaleBefore(disks, ring, k);
  }

  // With nothing live on the ring an eviction only empties it.
  lemma AllStale(disks: seq<Disk>, ring: seq<Entry>)
    requires ring != [] && forall i :: 0 <= i < |ring| ==> !Live(disks, ring[i])
    ensures EvictCount(disks, ring) == |ring| && EvictFrom(disks, ring) == disks
  {
    StaleBefore(disks, ring, |ring|);
  }

  // ---- whole sessions ----------------------------------------------------------------

  datatype Command =
    | Attach(file: seq<Byte>, allocOk: bool)
    | PreloadHeader(id: int, mallocs: nat)   // as the page does right after attaching
    | Read(id: int, offset: int, len: nat)
    | Write(id: int, offset: int, data: seq<Byte>)

  datatype Reply = Failed | Done | Got(bytes: seq<Byte>) | Attached(id: nat)

  // What the guest can tell of a disk: its bytes, and the blocks it has written.
  datatype Flat = Flat(bytes: seq<Byte>, written: set<nat>)

  type Slots = seq<Option<Flat>>

  predicate Free(flats: Slots, id: nat) { id < |flats| && flats[id] == None && forall j :: 0 <= j < id ==> flats[j].Some? }

  predicate Full(flats: Slots) { forall j :: 0 <= j < |flats| ==> flats[j].Some? }

  predicate Takes(flats: Slots, id: int, offset: int, len: nat) {
    0 <= id < |flats| && flats[id].Some? && 0 <= offset && offset + len <= |flats[id].value.bytes|
  }

  // The first k bytes of a write.
  function WrittenTo(flats: Slots, id: int, offset: int, data: seq<Byte>, k: nat): Slots
    requires Takes(flats, id, offset, |data|) && k <= |data|
  {
    var f := flats[id].value;
    flats[id := Some(Flat(Overwrite(f.bytes, offset, data[..k]), f.written + Blocks(offset, k)))]
  }

  // What one command gives and does if every disk is a flat byte array. A transfer within a
  // disk fails only if some block of it is not in memory; a failed write may have written the
  // front of its data.
  ghost predicate FlatStep(flats: Slots, resident: seq<set<nat>>, c: Command, r: Reply, flats': Slots) {
    |resident| == |flats| &&
    match c
    case Attach(file, allocOk) =>
      if file == [] || !allocOk || Full(flats) then r == Failed && flats' == flats
      else r.Attached? && Free(flats, r.id) && flats' == flats[r.id := Some(Flat(file, {}))]
    case PreloadHeader(_, _) => r == Done && flats' == flats
    case Read(id, offset, len) =>
      && flats' == flats
      && if !Takes(flats, id, offset, len) then r == Failed
         else r == Got(flats[id].value.bytes[offset..offset + len]) || (r == Failed && !(Blocks(offset, len) <= resident[id]))
    case Write(id, offset, data) =>
      if !Takes(flats, id, offset, |data|) then r == Failed && flats' == flats
      else
        || (r == Done && flats' == WrittenTo(flats, id, offset, data, |data|))
        || (r == Failed && !(Blocks(offset, |data|) <= resident[id]) && PartlyWritten(flats, id, offset, data, flats'))
  }

  ghost predicate PartlyWritten(flats: Slots, id: int, offset: int, data: seq<Byte>, flats': Slots)
    requires Takes(flats, id, offset, |data|)
  {
    exists k :: 0 <= k <= |data| && flats' == WrittenTo(flats, id, offset, data, k)
  }

  function FlatOf(d: Disk): Option<Flat> { if d.inUse then Some(Flat(View(d), Dirt(d))) else None }

  function Flats(disks: seq<Disk>): (r: Slots)
    ensures |r| == |disks|
  {
    seq(|disks|, i requires 0 <= i < |disks| => FlatOf(disks[i]))
  }

  // The blocks in memory.
  function Residents(disks: seq<Disk>): (r: seq<set<nat>>)
    ensures |r| == |disks|
  {
    seq(|disks|, i requires 0 <= i < |disks| => set b: nat | b < |disks[i].state| && disks[i].state[b] != Absent)
  }

  // A written block is in memory.
  predicate WrittenStay(flats: Slots, resident: seq<set<nat>>) {
    |resident| == |flats| && forall i :: 0 <= i < |flats| && flats[i].Some? ==> flats[i].value.written <= resident[i]
  }

  lemma DirtResides(disks: seq<Disk>)
    ensures WrittenStay(Flats(disks), Residents(disks))
  {
    hide View;
    var flats, res := Flats(disks), Residents(disks);
    forall i | 0 <= i < |flats| && flats[i].Some? ensures flats[i].value.written <= res[i] {
      assert flats[i].value.written == Dirt(disks[i]);
      assert forall b: nat :: b in Dirt(disks[i]) ==> b in res[i];
    }
  }

  lemma FlatsUpdate(disks: seq<Disk>, disks': seq<Disk>, id: int)
    requires 0 <= id < |disks| && OtherViews(disks, disks', id)
    ensures Flats(disks') == Flats(disks)[id := FlatOf(disks'[id])]
  {
    hide View, Dirt;
    forall i | 0 <= i < |disks| && i != id ensures Flats(disks')[i] == Flats(disks)[i] {
      assert SameView(disks[i], disks'[i]);
    }
  }

  lemma FlatsSame(disks: seq<Disk>, disks': seq<Disk>)
    requires SameViews(disks, disks')
    ensures Flats(disks') == Flats(disks)
  {
    hide View, Dirt;
    forall i | 0 <= i < |disks| ensures Flats(disks')[i] == Flats(disks)[i] {
      assert SameView(disks[i], disks'[i]);
    }
  }

  lemma BlocksResident(disks: seq<Disk>, id: nat, offset: nat, len: nat)
    requires id < |disks|
    ensures len > 0 && Blocks(offset, len) <= Residents(disks)[id] ==> Resides(disks[id], offset, offset + len)
  {
    var res := Residents(disks)[id];
    if len > 0 && Blocks(offset, len) <= res {
      forall b | offset / BLOCK_SIZE <= b && b * BLOCK_SIZE < offset + len ensures StateOf(disks[id], b) != Absent {
        assert b <= (offset + len - 1) / BLOCK_SIZE;
        assert b in Blocks(offset, len);
        assert b in res;
      }
    }
  }

  lemma SameArguments(disks: seq<Disk>, id: int, offset: int, len: nat)
    requires |disks| == MAX_DISKS && forall i :: 0 <= i < MAX_DISKS ==> |View(disks[i])| == |disks[i].file|
    ensures Takes(Flats(disks), id, offset, len) <==> Accepts(disks, id, offset, len)
  {
  }

  method DoRead(e: DiskEngine, id: int, offset: int, len: nat) returns (r: Reply)
    requires e.Valid()
    modifies e, e.cleanRing, e.fetchStage
    ensures e.Valid() && FlatStep(old(Flats(e.disks)), old(Residents(e.disks)), Read(id, offset, len), r, Flats(e.disks))
    ensures DirtyStays(old(e.disks), e.disks)
  {
    hide View, Dirt, Overwrite, Resides, Residents, Blocks;
    ghost var before := e.disks;
    var buf := new Byte[len](_ => 0);
    ghost var b0 := buf[..];
    e.EightDisks();
    SameArguments(before, id, offset, len);
    var rc, done := e.DiskRw(id, offset, len, buf, false);
    if rc == 0 {
      r := Got(buf[..]);
    } else {
      r := Failed;
    }
    ReadShown(before, e.disks, id, offset, len, b0, buf[..], rc, done);
  }

  // What DiskRw promises of a read, as the guest sees it.
  lemma ReadShown(disks: seq<Disk>, disks': seq<Disk>, id: int, offset: int, len: nat, b0: seq<Byte>, b: seq<Byte>, rc: nat, done: nat)
    requires |disks| == MAX_DISKS && |b0| == len && OtherViews(disks, disks', id) && DirtyStays(disks, disks')
    requires Takes(Flats(disks), id, offset, len) <==> Accepts(disks, id, offset, len)
    requires rc == 0 ==> Accepts(disks, id, offset, len) && done == len
    requires Accepts(disks, id, offset, len) && (len <= 0 || Resides(disks[id], offset, offset + len)) ==> rc == 0
    requires !Accepts(disks, id, offset, len) || len <= 0 ==> disks' == disks && b == b0
    requires Accepts(disks, id, offset, len) && len > 0 ==> done <= len && Transferred(disks[id], disks'[id], offset, b0, b, done, false)
    ensures FlatStep(Flats(disks), Residents(disks), Read(id, offset, len), if rc == 0 then Got(b) else Failed, Flats(disks'))
  {
    hide View, Dirt, Resides, Residents, Blocks;
    if Accepts(disks, id, offset, len) {
      BlocksResident(disks, id, offset, len);
      if len > 0 {
        FlatsUpdate(disks, disks', id);
        assert disks'[id].inUse && Flats(disks') == Flats(disks);
        if rc == 0 {
          assert b == View(disks[id])[offset..offset + len] by {
            assert b0[len..] == [];
          }
        }
      }
    }
  }

  method DoWrite(e: DiskEngine, id: int, offset: int, data: seq<Byte>) returns (r: Reply)
    requires e.Valid()
    modifies e, e.cleanRing, e.fetchStage
    ensures e.Valid() && FlatStep(old(Flats(e.disks)), old(Residents(e.disks)), Write(id, offset, data), r, Flats(e.disks))
    ensures DirtyStays(old(e.disks), e.disks)
  {
    hide View, Dirt, Overwrite, Resides, Residents, Blocks;
    ghost var before := e.disks;
    var buf := new Byte[|data|](i requires 0 <= i < |data| => data[i]);
    assert buf[..] == data;
    e.EightDisks();
    SameArguments(before, id, offset, |data|);
    var rc, done := e.DiskRw(id, offset, |data|, buf, true);
    r := if rc == 0 then Done else Failed;
    WriteShown(before, e.disks, id, offset, data, rc, done);
  }

  lemma WriteShown(disks: seq<Disk>, disks': seq<Disk>, id: int, offset: int, data: seq<Byte>, rc: nat, done: nat)
    requires |disks| == MAX_DISKS && OtherViews(disks, disks', id) && DirtyStays(disks, disks')
    requires Takes(Flats(disks), id, offset, |data|) <==> Accepts(disks, id, offset, |data|)
    requires rc == 0 ==> Accepts(disks, id, offset, |data|) && done == |data|
    requires Accepts(disks, id, offset, |data|) && (|data| <= 0 || Resides(disks[id], offset, offset + |data|)) ==> rc == 0
    requires !Accepts(disks, id, offset, |data|) || |data| <= 0 ==> disks' == disks
    requires Accepts(disks, id, offset, |data|) && |data| > 0 ==> done <= |data| && Transferred(disks[id], disks'[id], offset, data, data, done, true)
    ensures FlatStep(Flats(disks), Residents(disks), Write(id, offset, data), if rc == 0 then Done else Failed, Flats(disks'))
  {
    hide View, Dirt, Resides, Residents;
    if Accepts(disks, id, offset, |data|) {
      BlocksResident(disks, id, offset, |data|);
      var k := if |data| > 0 then done else 0;
      var f := Flats(disks)[id].value;
      assert f == Flat(View(disks[id]), Dirt(disks[id]));
      if |data| > 0 {
        FlatsUpdate(disks, disks', id);
        assert disks'[id].inUse && data[..|data|] == data;
        assert FlatOf(disks'[id]) == Some(Flat(Overwrite(f.bytes, offset, data[..k]), f.written + Blocks(offset, k)));
      } else {
        assert Overwrite(View(disks[id]), offset, data) == View(disks[id]) && data[..0] == data;
        assert f.written + Blocks(offset, 0) == f.written;
        assert Flats(disks)[id := Some(f)] == Flats(disks);
      }
      assert Flats(disks') == WrittenTo(Flats(disks), id, offset, data, k);
    }
  }

  // The header a page stages: as much of the file as the stage holds.
  lemma PageHeaderOk(file: seq<Byte>)
    ensures HeaderOk(file, file[..if |file| < STAGE_SIZE then |file| else STAGE_SIZE])
  {
  }

  method DoPreload(e: DiskEngine, id: int, mallocs: nat) returns (r: Reply)
    requires e.Valid()
    modifies e, e.preloadStage
    ensures e.Valid() && r == Done && Flats(e.disks) == old(Flats(e.disks))
    ensures DirtyStays(old(e.disks), e.disks)
  {
    var len := 0;
    if 0 <= id < MAX_DISKS && e.disks[id].inUse {
      var file := e.disks[id].file;
      len := if |file| < STAGE_SIZE then |file| else STAGE_SIZE;
      forall k | 0 <= k < len {
        e.preloadStage[k] := file[k];
      }
      assert e.preloadStage[..len] == file[..len];
      PageHeaderOk(file);
    }
    var resident := e.Preload(id, len, mallocs);
    FlatsSame(old(e.disks), e.disks);
    r := Done;
  }

  lemma NothingWritten(d: Disk)
    requires forall b :: 0 <= b < |d.state| ==> d.state[b] == Absent
    ensures Dirt(d) == {}
  {
  }

  method DoAttach(e: DiskEngine, file: seq<Byte>, allocOk: bool) returns (r: Reply)
    requires e.Valid()
    modifies e
    ensures e.Valid() && FlatStep(old(Flats(e.disks)), old(Residents(e.disks)), Attach(file, allocOk), r, Flats(e.disks))
    ensures DirtyStays(old(e.disks), e.disks)
  {
    ghost var before := e.disks;
    e.EightDisks();
    var id := e.Register(file, allocOk);
    r := if id >= 0 then Attached(id) else Failed;
    if id >= 0 {
      NothingWritten(e.disks[id]);
      FlatsUpdate(before, e.disks, id);
      assert Flats(before)[id] == None;
      assert forall j :: 0 <= j < id ==> Flats(before)[j].Some?;
    } else {
      NoChange(before, 0);
      assert (forall j :: 0 <= j < MAX_DISKS ==> before[j].inUse) ==> Full(Flats(before));
    }
  }

  method DoCommand(e: DiskEngine, c: Command) returns (r: Reply)
    requires e.Valid()
    modifies e, e.cleanRing, e.fetchStage, e.preloadStage
    ensures e.Valid() && FlatStep(old(Flats(e.disks)), old(Residents(e.disks)), c, r, Flats(e.disks))
    ensures DirtyStays(old(e.disks), e.disks)
  {
    match c {
      case Attach(file, allocOk) => r := DoAttach(e, file, allocOk);
      case PreloadHeader(id, mallocs) => r := DoPreload(e, id, mallocs);
      case Read(id, offset, len) => r := DoRead(e, id, offset, len);
      case Write(id, offset, data) => r := DoWrite(e, id, offset, data);
    }
  }

  // Over any run of attachments, preloads, reads and writes, with faults, evictions and
  // failures wherever they fall, the replies are those of flat byte arrays that start as
  // the attached files and keep every write; a transfer within blocks already written never
  // fails.
  method Session(commands: seq<Command>) returns (replies: seq<Reply>, ghost trace: seq<Slots>, ghost resident: seq<seq<set<nat>>>)
    ensures |replies| == |commands| && |trace| == |resident| == |commands| + 1
    ensures trace[0] == seq<Option<Flat>>(MAX_DISKS, _ => None)
    ensures forall i :: 0 <= i <= |commands| ==> WrittenStay(trace[i], resident[i])
    ensures forall i :: 0 <= i < |commands| ==> FlatStep(trace[i], resident[i], commands[i], replies[i], trace[i + 1])
  {
    hide FlatStep, Flats, Residents, WrittenStay;
    var e := new DiskEngine();
    replies := [];
    trace, resident := [Flats(e.disks)], [Residents(e.disks)];
    NothingAttached(e.disks);
    DirtResides(e.disks);
    for n := 0 to |commands|
      invariant e.Valid() && fresh(e) && fresh(e.cleanRing) && fresh(e.fetchStage) && fresh(e.preloadStage)
      invariant |replies| == n && |trace| == |resident| == n + 1 && trace[n] == Flats(e.disks) && resident[n] == Residents(e.disks)
      invariant trace[0] == seq<Option<Flat>>(MAX_DISKS, _ => None)
      invariant forall i :: 0 <= i <= n ==> WrittenStay(trace[i], resident[i])
      invariant forall i :: 0 <= i < n ==> FlatStep(trace[i], resident[i], commands[i], replies[i], trace[i + 1])
    {
      var r := DoCommand(e, commands[n]);
      replies := replies + [r];
      trace, resident := trace + [Flats(e.disks)], resident + [Residents(e.disks)];
      DirtResides(e.disks);
    }
  }

  lemma NothingAttached(disks: seq<Disk>)
    requires |disks| == MAX_DISKS && forall i :: 0 <= i < MAX_DISKS ==> disks[i] == NO_DISK
    ensures Flats(disks) == seq<Option<Flat>>(MAX_DISKS, _ => None)
  {
  }
}
