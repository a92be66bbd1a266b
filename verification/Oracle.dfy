// wasm/jit/wasm-jit-oracle.c: journals of RAM writes, rolling them back and writing them
// again, and what a verified execution leaves in RAM.
module Oracle {
  import opened Common

  const JOURNAL_MAX := 8192

  // A journal entry: a little-endian value of 1, 2 or 4 bytes, before and after.
  datatype Entry = Entry(addr: nat, size: nat, oldv: nat, newv: nat)

  predicate SizeOk(size: nat) { size == 1 || size == 2 || size == 4 }

  predicate Fits(n: nat, addr: nat, size: nat) { SizeOk(size) && addr + size <= n }

  // ---- values in RAM -------------------------------------------------------------------

  function Read(ram: seq<Byte>, addr: nat, size: nat): nat
    requires addr + size <= |ram|
    decreases size
  {
    if size == 0 then 0 else ram[addr] as int + 0x100 * Read(ram, addr + 1, size - 1)
  }

  function Write(ram: seq<Byte>, addr: nat, size: nat, v: nat): (r: seq<Byte>)
    requires addr + size <= |ram|
    ensures |r| == |ram|
    decreases size
  {
    if size == 0 then ram else Write(ram[addr := v % 0x100], addr + 1, size - 1, v / 0x100)
  }

  lemma {:induction false} WriteElsewhere(ram: seq<Byte>, addr: nat, size: nat, v: nat, p: nat)
    requires addr + size <= |ram| && p < |ram| && !(addr <= p < addr + size)
    ensures Write(ram, addr, size, v)[p] == ram[p]
    decreases size
  {
    if size > 0 {
      WriteElsewhere(ram[addr := v % 0x100], addr + 1, size - 1, v / 0x100, p);
    }
  }

  // What is written over does not matter.
  lemma {:induction false} WriteSame(a: seq<Byte>, b: seq<Byte>, addr: nat, size: nat, v: nat, p: nat)
    requires |a| == |b| && addr + size <= |a| && addr <= p < addr + size
    ensures Write(a, addr, size, v)[p] == Write(b, addr, size, v)[p]
    decreases size
  {
    if p == addr {
      WriteElsewhere(a[addr := v % 0x100], addr + 1, size - 1, v / 0x100, p);
      WriteElsewhere(b[addr := v % 0x100], addr + 1, size - 1, v / 0x100, p);
    } else {
      WriteSame(a[addr := v % 0x100], b[addr := v % 0x100], addr + 1, size - 1, v / 0x100, p);
    }
  }

  lemma {:induction false} WriteRead(ram: seq<Byte>, addr: nat, size: nat)
    requires addr + size <= |ram|
    ensures Write(ram, addr, size, Read(ram, addr, size)) == ram
    decreases size
  {
    if size > 0 {
      var v := Read(ram, addr, size);
      assert v % 0x100 == ram[addr] && v / 0x100 == Read(ram, addr + 1, size - 1);
      assert ram[addr := ram[addr]] == ram;
      WriteRead(ram, addr + 1, size - 1);
    }
  }

  // Writing the old value back undoes a write.
  lemma WriteBack(ram: seq<Byte>, addr: nat, size: nat, v: nat)
    requires addr + size <= |ram|
    ensures Write(Write(ram, addr, size, v), addr, size, Read(ram, addr, size)) == ram
  {
    var w, o := Write(ram, addr, size, v), Read(ram, addr, size);
    WriteRead(ram, addr, size);
    forall p | 0 <= p < |ram| ensures Write(w, addr, size, o)[p] == ram[p] {
      if addr <= p < addr + size {
        WriteSame(w, ram, addr, size, o, p);
      } else {
        WriteElsewhere(w, addr, size, o, p);
        WriteElsewhere(ram, addr, size, v, p);
      }
    }
  }

  // ---- journals ------------------------------------------------------------------------

  predicate InRam(n: nat, es: seq<Entry>) {
    forall i :: 0 <= i < |es| ==> Fits(n, es[i].addr, es[i].size)
  }

  // RAM after the first k writes of a journal.
  function Replay(ram: seq<Byte>, es: seq<Entry>, k: nat): (r: seq<Byte>)
    requires k <= |es| && InRam(|ram|, es)
    ensures |r| == |ram|
  {
    if k == 0 then ram else Write(Replay(ram, es, k - 1), es[k - 1].addr, es[k - 1].size, es[k - 1].newv)
  }

  // Entry k's old value is what its write found.
  predicate OldIsFound(ram: seq<Byte>, es: seq<Entry>, k: nat)
    requires InRam(|ram|, es) && k < |es|
  {
    es[k].oldv == Read(Replay(ram, es, k), es[k].addr, es[k].size)
  }

  ghost predicate Faithful(ram: seq<Byte>, es: seq<Entry>)
    requires InRam(|ram|, es)
  {
    forall k :: 0 <= k < |es| ==> OldIsFound(ram, es, k)
  }

  lemma {:induction false} ReplayPrefix(ram: seq<Byte>, es: seq<Entry>, e: Entry, k: nat)
    requires InRam(|ram|, es) && Fits(|ram|, e.addr, e.size) && k <= |es|
    ensures InRam(|ram|, es + [e]) && Replay(ram, es + [e], k) == Replay(ram, es, k)
    decreases k
  {
    if k > 0 {
      ReplayPrefix(ram, es, e, k - 1);
    }
  }

  // Journals that agree but for the old values replay alike.
  predicate SameWrites(a: seq<Entry>, b: seq<Entry>) {
    |a| == |b| && forall i :: 0 <= i < |a| ==> a[i].addr == b[i].addr && a[i].size == b[i].size && a[i].newv == b[i].newv
  }

  lemma {:induction false} ReplaySame(ram: seq<Byte>, a: seq<Entry>, b: seq<Entry>, k: nat)
    requires InRam(|ram|, a) && InRam(|ram|, b) && SameWrites(a, b) && k <= |a|
    ensures Replay(ram, a, k) == Replay(ram, b, k)
    decreases k
  {
    if k > 0 {
      ReplaySame(ram, a, b, k - 1);
    }
  }

  predicate Touches(es: seq<Entry>, p: nat) {
    exists i :: 0 <= i < |es| && es[i].addr <= p < es[i].addr + es[i].size
  }

  // A byte the first k writes cover no longer depends on what was there; any other stays.
  lemma {:induction false} ReplayOver(a: seq<Byte>, b: seq<Byte>, es: seq<Entry>, k: nat, p: nat)
    requires |a| == |b| && InRam(|a|, es) && k <= |es| && p < |a|
    ensures Touches(es[..k], p) ==> Replay(a, es, k)[p] == Replay(b, es, k)[p]
    ensures !Touches(es[..k], p) ==> Replay(a, es, k)[p] == a[p]
    decreases k
  {
    if k > 0 {
      ReplayOver(a, b, es, k - 1, p);
      var e := es[k - 1];
      var x, y := Replay(a, es, k - 1), Replay(b, es, k - 1);
      assert es[..k][k - 1] == e;
      if e.addr <= p < e.addr + e.size {
        WriteSame(x, y, e.addr, e.size, e.newv, p);
      } else {
        WriteElsewhere(x, e.addr, e.size, e.newv, p);
        WriteElsewhere(y, e.addr, e.size, e.newv, p);
        TouchedBefore(es, k, p);
      }
    }
  }

  lemma TouchedBefore(es: seq<Entry>, k: nat, p: nat)
    requires 0 < k <= |es| && !(es[k - 1].addr <= p < es[k - 1].addr + es[k - 1].size)
    ensures Touches(es[..k], p) <==> Touches(es[..k - 1], p)
  {
    if Touches(es[..k - 1], p) {
      var i :| 0 <= i < k - 1 && es[..k - 1][i].addr <= p < es[..k - 1][i].addr + es[..k - 1][i].size;
      assert es[..k][i] == es[..k - 1][i];
    }
    if Touches(es[..k], p) {
      var i :| 0 <= i < k && es[..k][i].addr <= p < es[..k][i].addr + es[..k][i].size;
      assert i < k - 1 && es[..k - 1][i] == es[..k][i];
    }
  }

  lemma OverWhole(a: seq<Byte>, b: seq<Byte>, es: seq<Entry>)
    requires |a| == |b| && InRam(|a|, es)
    ensures forall p :: 0 <= p < |a| ==> Touches(es, p) ==> Replay(a, es, |es|)[p] == Replay(b, es, |es|)[p]
    ensures forall p :: 0 <= p < |a| ==> !Touches(es, p) ==> Replay(a, es, |es|)[p] == a[p] && Replay(b, es, |es|)[p] == b[p]
  {
    assert es[..|es|] == es;
    hide *;
    forall p | 0 <= p < |a|
      ensures Touches(es, p) ==> Replay(a, es, |es|)[p] == Replay(b, es, |es|)[p]
      ensures !Touches(es, p) ==> Replay(a, es, |es|)[p] == a[p] && Replay(b, es, |es|)[p] == b[p]
    {
      ReplayOver(a, b, es, |es|, p);
      ReplayOver(b, a, es, |es|, p);
    }
  }

  lemma SameUntouched(x: seq<Byte>, y: seq<Byte>, left: seq<Byte>, ram: seq<Byte>, a: seq<Entry>)
    requires |x| == |y| == |left| == |ram|
    requires forall p :: 0 <= p < |ram| ==> Touches(a, p) ==> x[p] == y[p]
    requires forall p :: 0 <= p < |ram| ==> !Touches(a, p) ==> x[p] == left[p] && y[p] == ram[p]
    ensures x == y <==> forall p :: 0 <= p < |ram| && !Touches(a, p) ==> left[p] == ram[p]
  {
    hide Touches;
  }

  // ---- the oracle ------------------------------------------------------------------

  datatype Store = Store(addr: nat, size: nat, v: nat)

  // What one interpreter step, or the compiled block, does: its stores, whether it met a
  // device, the state it ends in, and whether it ends in a fault, raised at oldpc.
  datatype InterpStep<S> = InterpStep(stores: seq<Store>, io: bool, state: S, aborted: bool, oldpc: nat)

  datatype JitRun<S> = JitRun(stores: seq<Store>, io: bool, state: S, aborted: bool, oldpc: nat)

  datatype Result = Verified | Skipped | Abandoned | Mismatch

  predicate StoresOk(n: nat, ss: seq<Store>) {
    forall i :: 0 <= i < |ss| ==> Fits(n, ss[i].addr, ss[i].size)
  }

  // RAM after plain stores, as a run without the oracle would leave it.
  function Stored(ram: seq<Byte>, ss: seq<Store>): (r: seq<Byte>)
    requires StoresOk(|ram|, ss)
    ensures |r| == |ram|
  {
    if ss == [] then ram
    else
      var s := ss[|ss| - 1];
      Write(Stored(ram, ss[..|ss| - 1]), s.addr, s.size, s.v)
  }

  // A journal accounts for the stores, one entry each.
  predicate Records(es: seq<Entry>, ss: seq<Store>) {
    |es| == |ss| && forall i :: 0 <= i < |es| ==> es[i].addr == ss[i].addr && es[i].size == ss[i].size && es[i].newv == ss[i].v
  }

  lemma RecordsNext(es: seq<Entry>, ss: seq<Store>, e: Entry, s: Store)
    requires Records(es, ss) && e.addr == s.addr && e.size == s.size && e.newv == s.v
    ensures Records(es + [e], ss + [s])
  {
  }

  lemma {:induction false} ReplayRecords(ram: seq<Byte>, es: seq<Entry>, ss: seq<Store>, k: nat)
    requires InRam(|ram|, es) && StoresOk(|ram|, ss) && Records(es, ss) && k <= |es|
    ensures Replay(ram, es, k) == Stored(ram, ss[..k])
    decreases k
  {
    if k > 0 {
      ReplayRecords(ram, es, ss, k - 1);
      assert ss[..k][..k - 1] == ss[..k - 1];
    }
  }

  // Writing a journal again, from anywhere, makes its stores again.
  lemma ReplayedStores(ram: seq<Byte>, es: seq<Entry>, ss: seq<Store>)
    requires InRam(|ram|, es) && Records(es, ss)
    ensures StoresOk(|ram|, ss) && Replay(ram, es, |es|) == Stored(ram, ss)
  {
    ReplayRecords(ram, es, ss, |es|);
    assert ss[..|es|] == ss;
  }

  lemma SameStores(a: seq<Entry>, b: seq<Entry>, sa: seq<Store>, sb: seq<Store>)
    requires Records(a, sa) && Records(b, sb)
    ensures SameWrites(a, b) <==> sa == sb
  {
  }

  function EntriesOf(ss: seq<Store>): seq<Entry>
    requires forall i :: 0 <= i < |ss| ==> SizeOk(ss[i].size)
  {
    seq(|ss|, i requires 0 <= i < |ss| => Entry(ss[i].addr, ss[i].size, 0, ss[i].v))
  }

  predicate Hits(ss: seq<Store>, p: nat) {
    exists i :: 0 <= i < |ss| && ss[i].addr <= p < ss[i].addr + ss[i].size
  }

  lemma HitsTouches(ss: seq<Store>, p: nat)
    requires forall i :: 0 <= i < |ss| ==> SizeOk(ss[i].size)
    ensures Hits(ss, p) <==> Touches(EntriesOf(ss), p)
  {
    if Hits(ss, p) {
      var i :| 0 <= i < |ss| && ss[i].addr <= p < ss[i].addr + ss[i].size;
      assert EntriesOf(ss)[i].addr == ss[i].addr && EntriesOf(ss)[i].size == ss[i].size;
    }
  }

  // The bytes that the JIT's stores leave alone are as the replay found them.
  predicate KeptOutside(ram: seq<Byte>, left: seq<Byte>, jit: seq<Store>)
    requires |left| == |ram|
  {
    forall p :: 0 <= p < |ram| && !Hits(jit, p) ==> left[p] == ram[p]
  }

  // Making the JIT's stores again over what an abandoned replay has left gives the JIT's RAM
  // just when every byte the replay changed is one that they write.
  lemma AbandonedReplay(ram: seq<Byte>, left: seq<Byte>, jit: seq<Store>)
    requires |left| == |ram| && StoresOk(|ram|, jit)
    ensures Stored(left, jit) == Stored(ram, jit) <==> KeptOutside(ram, left, jit)
  {
    var a := EntriesOf(jit);
    ReplayedStores(ram, a, jit);
    ReplayedStores(left, a, jit);
    hide Replay, Stored, EntriesOf, Touches, Hits;
    OverWhole(left, ram, a);
    SameUntouched(Replay(left, a, |a|), Replay(ram, a, |a|), left, ram, a);
    forall p | 0 <= p < |ram| ensures Hits(jit, p) <==> Touches(a, p) {
      HitsTouches(jit, p);
    }
  }

  class JitOracle {
    const ram: array<Byte>
    const journalA: array<Entry>
    const journalB: array<Entry>
    var nA: nat
    var nB: nat
    var phase: nat
    var taint: bool

    constructor (ram: array<Byte>)
      ensures this.ram == ram && Valid() && phase == 0 && fresh(journalA) && fresh(journalB)
    {
      this.ram := ram;
      journalA := new Entry[JOURNAL_MAX](_ => Entry(0, 1, 0, 0));
      journalB := new Entry[JOURNAL_MAX](_ => Entry(0, 1, 0, 0));
      nA, nB, phase, taint := 0, 0, 0, false;
    }

    predicate Valid()
      reads this
    {
      journalA.Length == journalB.Length == JOURNAL_MAX && nA <= JOURNAL_MAX && nB <= JOURNAL_MAX && journalA != journalB
    }

    function A(): seq<Entry>
      requires Valid()
      reads this, journalA
    {
      journalA[..nA]
    }

    function B(): seq<Entry>
      requires Valid()
      reads this, journalB
    {
      journalB[..nB]
    }

    // The journal of the running phase.
    function Now(): seq<Entry>
      requires Valid()
      reads this, journalA, journalB
    {
      if phase == 1 then A() else B()
    }

    // While nothing is tainted the running journal accounts for all of RAM since ram0.
    ghost predicate Tracks(ram0: seq<Byte>)
      reads this, ram, journalA, journalB
    {
      Valid() && |ram0| == ram.Length &&
      (!taint ==> InRam(|ram0|, Now()) && Faithful(ram0, Now()) && ram[..] == Replay(ram0, Now(), |Now()|))
    }

    // wjit_oracle_note_ram_write
    method NoteRamWrite(addr: nat, size: nat, oldv: nat, newv: nat)
      requires Valid() && phase != 0
      modifies this`nA, this`nB, this`taint, journalA, journalB
      ensures Valid() && (old(taint) ==> taint)
      ensures phase == 1 ==> B() == old(B())
      ensures phase != 1 ==> A() == old(A())
      ensures !taint ==> Now() == old(Now()) + [Entry(addr, size, oldv, newv)]
      ensures taint <==> old(taint) || |old(Now())| >= JOURNAL_MAX
    {
      if phase == 1 {
        if nA >= JOURNAL_MAX {
          taint := true;
          return;
        }
        journalA[nA] := Entry(addr, size, oldv, newv);
        nA := nA + 1;
      } else {
        if nB >= JOURNAL_MAX {
          taint := true;
          return;
        }
        journalB[nB] := Entry(addr, size, oldv, newv);
        nB := nB + 1;
      }
    }

    method ReadRam(addr: nat, size: nat) returns (v: nat)
      requires addr + size <= ram.Length
      ensures v == Read(ram[..], addr, size)
      decreases size
    {
      if size == 0 {
        return 0;
      }
      var rest := ReadRam(addr + 1, size - 1);
      v := ram[addr] as int + 0x100 * rest;
    }

    // ram_write_raw
    method WriteRaw(addr: nat, size: nat, v: nat)
      requires addr + size <= ram.Length
      modifies ram
      ensures ram[..] == Write(old(ram[..]), addr, size, v)
      decreases size
    {
      if size > 0 {
        ram[addr] := v % 0x100;
        WriteRaw(addr + 1, size - 1, v / 0x100);
      }
    }

    // mem_write_ram*_page with the oracle running: note, then store.
    method StoreRam(s: Store, ghost ram0: seq<Byte>)
      requires Tracks(ram0) && phase != 0 && Fits(ram.Length, s.addr, s.size)
      modifies this`nA, this`nB, this`taint, journalA, journalB, ram
      ensures Tracks(ram0) && ram[..] == Write(old(ram[..]), s.addr, s.size, s.v)
      ensures phase == 1 ==> B() == old(B())
      ensures phase != 1 ==> A() == old(A())
      ensures !taint ==> Now() == old(Now()) + [Entry(s.addr, s.size, Read(old(ram[..]), s.addr, s.size), s.v)]
      ensures taint <==> old(taint) || |old(Now())| >= JOURNAL_MAX
    {
      ghost var es, before := Now(), ram[..];
      var oldv := ReadRam(s.addr, s.size);
      NoteRamWrite(s.addr, s.size, oldv, s.v);
      WriteRaw(s.addr, s.size, s.v);
      if !taint {
        NotedFaithful(ram0, es, Entry(s.addr, s.size, oldv, s.v), before);
      }
    }

    // The stores of a run or a step, in order, after those done before.
    method StoreAll(ss: seq<Store>, ghost ram0: seq<Byte>, ghost done: seq<Store>)
      requires Tracks(ram0) && phase != 0 && StoresOk(ram.Length, ss) && !taint && Records(Now(), done)
      modifies this`nA, this`nB, this`taint, journalA, journalB, ram
      ensures Tracks(ram0) && ram[..] == Stored(old(ram[..]), ss)
      ensures phase == 1 ==> B() == old(B())
      ensures phase != 1 ==> A() == old(A())
      ensures !taint ==> Records(Now(), done + ss)
      ensures taint <==> |done + ss| > JOURNAL_MAX
    {
      hide Faithful, InRam, Replay;
      ghost var before := ram[..];
      assert done + ss[..0] == done;
      for i := 0 to |ss|
        invariant Tracks(ram0) && ram[..] == Stored(before, ss[..i])
        invariant phase == 1 ==> B() == old(B())
        invariant phase != 1 ==> A() == old(A())
        invariant !taint ==> Records(Now(), done + ss[..i])
        invariant taint <==> |done| + i > JOURNAL_MAX
      {
        assert ss[..i + 1][..i] == ss[..i];
        StoreNext(ss, i, ram0, done);
      }
      assert ss[..|ss|] == ss;
    }

    method StoreNext(ss: seq<Store>, i: nat, ghost ram0: seq<Byte>, ghost done: seq<Store>)
      requires Tracks(ram0) && phase != 0 && StoresOk(ram.Length, ss) && i < |ss|
      requires !taint ==> Records(Now(), done + ss[..i])
      requires taint <==> |done| + i > JOURNAL_MAX
      modifies this`nA, this`nB, this`taint, journalA, journalB, ram
      ensures Tracks(ram0) && ram[..] == Write(old(ram[..]), ss[i].addr, ss[i].size, ss[i].v)
      ensures phase == 1 ==> B() == old(B())
      ensures phase != 1 ==> A() == old(A())
      ensures !taint ==> Records(Now(), done + ss[..i + 1])
      ensures taint <==> |done| + (i + 1) > JOURNAL_MAX
    {
      hide Faithful, InRam, Replay, Read, Write;
      ghost var es, clean, e := Now(), !taint, Entry(ss[i].addr, ss[i].size, Read(ram[..], ss[i].addr, ss[i].size), ss[i].v);
      StoreRam(ss[i], ram0);
      if clean {
        RecordsNext(es, done + ss[..i], e, ss[i]);
        assert done + ss[..i] + [ss[i]] == done + ss[..i + 1];
      }
    }

    // journals_equal
    method JournalsEqual() returns (equal: bool)
      requires Valid()
      ensures equal == SameWrites(A(), B())
    {
      if nA != nB {
        return false;
      }
      for i := 0 to nA
        invariant forall j :: 0 <= j < i ==> A()[j].addr == B()[j].addr && A()[j].size == B()[j].size && A()[j].newv == B()[j].newv
      {
        if journalA[i].addr != journalB[i].addr || journalA[i].size != journalB[i].size || journalA[i].newv != journalB[i].newv {
          return false;
        }
      }
      return true;
    }

    // journal_a_rollback
    method Rollback(ghost ram0: seq<Byte>)
      requires Valid() && |ram0| == ram.Length && InRam(|ram0|, A()) && Faithful(ram0, A())
      requires ram[..] == Replay(ram0, A(), |A()|)
      modifies ram
      ensures ram[..] == ram0
    {
      hide Replay, Faithful, Write;
      ReplayNone(ram0, A());
      var i: nat := nA;
      while i > 0
        invariant i <= nA && ram[..] == Replay(ram0, A(), i)
      {
        i := i - 1;
        var e := journalA[i];
        assert e == A()[i];
        RollbackStep(ram0, A(), i);
        WriteRaw(e.addr, e.size, e.oldv);
      }
    }

    // journal_a_reapply
    method Reapply()
      requires Valid() && InRam(ram.Length, A())
      modifies ram
      ensures ram[..] == Replay(old(ram[..]), A(), |A()|)
    {
      ghost var before := ram[..];
      for i := 0 to nA
        invariant ram[..] == Replay(before, A(), i)
      {
        var e := journalA[i];
        assert e == A()[i];
        WriteRaw(e.addr, e.size, e.newv);
      }
    }
  }

  lemma ReplayNone(ram: seq<Byte>, es: seq<Entry>)
    requires InRam(|ram|, es)
    ensures Replay(ram, es, 0) == ram
  {
  }

  lemma RollbackStep(ram0: seq<Byte>, es: seq<Entry>, i: nat)
    requires InRam(|ram0|, es) && Faithful(ram0, es) && i < |es|
    ensures Write(Replay(ram0, es, i + 1), es[i].addr, es[i].size, es[i].oldv) == Replay(ram0, es, i)
  {
    hide Write, Read;
    assert OldIsFound(ram0, es, i);
    WriteBack(Replay(ram0, es, i), es[i].addr, es[i].size, es[i].newv);
  }

  lemma ReplayNext(ram: seq<Byte>, es: seq<Entry>, k: nat)
    requires InRam(|ram|, es) && k < |es|
    ensures Replay(ram, es, k + 1) == Write(Replay(ram, es, k), es[k].addr, es[k].size, es[k].newv)
  {
  }

  lemma NotedFaithful(ram0: seq<Byte>, es: seq<Entry>, e: Entry, ram: seq<Byte>)
    requires InRam(|ram0|, es) && Faithful(ram0, es) && ram == Replay(ram0, es, |es|)
    requires Fits(|ram0|, e.addr, e.size) && e.oldv == Read(ram, e.addr, e.size)
    ensures InRam(|ram0|, es + [e]) && Faithful(ram0, es + [e])
    ensures Replay(ram0, es + [e], |es| + 1) == Write(ram, e.addr, e.size, e.newv)
  {
    hide Read, Write, Replay, InRam;
    var all := es + [e];
    InRamNext(|ram0|, es, e);
    ReplayPrefix(ram0, es, e, |es|);
    ReplayNext(ram0, all, |es|);
    forall k | 0 <= k < |all| ensures OldIsFound(ram0, all, k) {
      NotedAt(ram0, es, e, ram, k);
    }
  }

  lemma InRamNext(n: nat, es: seq<Entry>, e: Entry)
    requires InRam(n, es) && Fits(n, e.addr, e.size)
    ensures InRam(n, es + [e])
  {
  }

  lemma NotedAt(ram0: seq<Byte>, es: seq<Entry>, e: Entry, ram: seq<Byte>, k: nat)
    requires InRam(|ram0|, es) && InRam(|ram0|, es + [e]) && Faithful(ram0, es) && ram == Replay(ram0, es, |es|)
    requires Fits(|ram0|, e.addr, e.size) && e.oldv == Read(ram, e.addr, e.size) && k <= |es|
    ensures OldIsFound(ram0, es + [e], k)
  {
    hide Read, Replay;
    assert k < |es| ==> OldIsFound(ram0, es, k);
    ReplayPrefix(ram0, es, e, k);
  }

  // Everything the replay stored up to and including step k.
  function StepsStores<S>(steps: seq<InterpStep<S>>, k: nat): seq<Store>
    requires k <= |steps|
  {
    if k == 0 then [] else StepsStores(steps, k - 1) + steps[k - 1].stores
  }

  lemma {:induction false} StoredAppend(ram: seq<Byte>, a: seq<Store>, b: seq<Store>)
    requires StoresOk(|ram|, a) && StoresOk(|ram|, b)
    ensures StoresOk(|ram|, a + b) && Stored(ram, a + b) == Stored(Stored(ram, a), b)
    decreases |b|
  {
    if b == [] {
      assert a + b == a;
    } else {
      assert (a + b)[..|a| + |b| - 1] == a + b[..|b| - 1];
      StoredAppend(ram, a, b[..|b| - 1]);
    }
  }

  ghost predicate StepsOk<S>(n: nat, steps: seq<InterpStep<S>>) {
    forall k :: 0 <= k < |steps| ==> StoresOk(n, steps[k].stores)
  }

  lemma {:induction false} StepsStoresOk<S>(n: nat, steps: seq<InterpStep<S>>, k: nat)
    requires StepsOk(n, steps) && k <= |steps|
    ensures StoresOk(n, StepsStores(steps, k))
    decreases k
  {
    if k > 0 {
      StepsStoresOk(n, steps, k - 1);
    }
  }

  // How many steps a replay may take, for a block of this many instructions.
  function MaxSteps(ins: nat): nat { (if ins > 0 then ins else 1) * 4096 + 64 }

  // codegen_wasm_oracle_exec. The block and the interpreter are given by what they do from
  // the same start, the interpreter for as many steps as the replay of a block of ins
  // instructions may take; used counts the steps it took.
  method Exec<S(==)>(o: JitOracle, jit: JitRun<S>, ins: nat, steps: seq<InterpStep<S>>) returns (r: Result, used: nat)
    requires |steps| == MaxSteps(ins)
    requires o.Valid() && o.phase == 0 && StoresOk(o.ram.Length, jit.stores) && StepsOk(o.ram.Length, steps)
    modifies o, o.ram, o.journalA, o.journalB
    ensures Leaves(r, used, o.ram[..], old(o.ram[..]), jit, steps)
    // Which of these it is.
    ensures (r, used) == if Replayable(jit) then Judged(jit, steps, 0) else (Skipped, 0)
  {
    hide Faithful, Stored, Write, Read, Replay, StepsStores, Records, RamOk, VerdictOk, Judged, InRam, Leaves;
    ghost var ram0 := o.ram[..];
    var ran := RunJit(o, jit);
    if !ran {
      r, used := Skipped, 0;
      SkippedLeaves(o.ram[..], ram0, jit, steps);
    } else {
      ghost var a := o.A();
      r, used := ReplayBlock(o, jit, steps, ram0);
      VerdictLeaves(r, used, o.ram[..], ram0, a, jit, steps);
    }
  }

  // RAM after the oracle has taken used steps and given its verdict.
  ghost predicate Leaves<S>(r: Result, used: nat, ram: seq<Byte>, ram0: seq<Byte>, jit: JitRun<S>, steps: seq<InterpStep<S>>) {
    && used <= |steps| && StoresOk(|ram0|, jit.stores) && StoresOk(|ram0|, StepsStores(steps, used))
    && if used > 0 then RamOk(r, ram, ram0, StepsStores(steps, used), steps[used - 1], jit)
       else if r == Skipped then ram == Stored(ram0, jit.stores)
       else r == Mismatch && ram == ram0
  }

  lemma SkippedLeaves<S>(ram: seq<Byte>, ram0: seq<Byte>, jit: JitRun<S>, steps: seq<InterpStep<S>>)
    requires StoresOk(|ram0|, jit.stores) && ram == Stored(ram0, jit.stores)
    ensures Leaves(Skipped, 0, ram, ram0, jit, steps)
  {
    StepsUsed(steps, 0);
  }

  lemma VerdictLeaves<S>(r: Result, used: nat, ram: seq<Byte>, ram0: seq<Byte>, a: seq<Entry>, jit: JitRun<S>, steps: seq<InterpStep<S>>)
    requires used <= |steps| && Records(a, jit.stores) && StoresOk(|ram0|, jit.stores)
    requires used == 0 ==> r == Mismatch && ram == ram0
    requires used > 0 ==> VerdictOk(r, ram, ram0, a, StepsStores(steps, used), steps[used - 1], jit)
    ensures Leaves(r, used, ram, ram0, jit, steps)
  {
    hide Records, VerdictOk, RamOk;
    StepsUsed(steps, 0);
    if used > 0 {
      VerdictRam(r, ram, ram0, a, StepsStores(steps, used), steps[used - 1], jit);
    }
  }

  // What a verdict means for RAM, in terms of stores alone.
  ghost predicate RamOk<S>(r: Result, ram: seq<Byte>, ram0: seq<Byte>, done: seq<Store>, step: InterpStep<S>, jit: JitRun<S>)
    requires StoresOk(|ram0|, done) && StoresOk(|ram0|, jit.stores)
  {
    match r
    case Verified =>
      && step.state == jit.state && (step.aborted && jit.aborted ==> step.oldpc == jit.oldpc)
      && ram == Stored(ram0, jit.stores) == Stored(ram0, done)
    case Skipped => ram == Stored(ram0, jit.stores)
    case Mismatch => ram == Stored(ram0, done)
    case Abandoned =>
      var left := Stored(ram0, done);
      ram == Stored(left, jit.stores) && (ram == Stored(ram0, jit.stores) <==> KeptOutside(ram0, left, jit.stores))
  }

  lemma VerdictRam<S>(r: Result, ram: seq<Byte>, ram0: seq<Byte>, a: seq<Entry>, done: seq<Store>, step: InterpStep<S>, jit: JitRun<S>)
    requires VerdictOk(r, ram, ram0, a, done, step, jit) && Records(a, jit.stores)
    ensures StoresOk(|ram0|, done) && StoresOk(|ram0|, jit.stores) && RamOk(r, ram, ram0, done, step, jit)
  {
    hide Records, Replay, Stored, KeptOutside;
    var left := Stored(ram0, done);
    ReplayedStores(left, a, jit.stores);
    ReplayedStores(ram0, a, jit.stores);
    AbandonedReplay(ram0, left, jit.stores);
  }

  // A block met no device, and its stores fit the journal.
  predicate Replayable<S>(jit: JitRun<S>) { !jit.io && |jit.stores| <= JOURNAL_MAX }

  // The verdict of a step, if it gives one; done are the stores of the replay so far.
  function VerdictOf<S(==)>(jit: JitRun<S>, step: InterpStep<S>, done: seq<Store>): Option<Result> {
    if step.io || |done| > JOURNAL_MAX then Some(Abandoned)
    else if step.aborted && jit.aborted && step.oldpc != jit.oldpc then Some(Mismatch)
    else if step.state == jit.state && done == jit.stores then Some(Verified)
    else if step.aborted then Some(Mismatch)
    else None
  }

  // The verdict of the first step from k on that gives one, and the steps taken.
  function Judged<S(==)>(jit: JitRun<S>, steps: seq<InterpStep<S>>, k: nat): (Result, nat)
    requires k <= |steps|
    decreases |steps| - k
  {
    if k == |steps| then (Mismatch, k)
    else match VerdictOf(jit, steps[k], StepsStores(steps, k + 1))
      case Some(v) => (v, k + 1)
      case None => Judged(jit, steps, k + 1)
  }

  // Run the block with its stores journaled, and undo them unless it has to be skipped.
  method RunJit<S>(o: JitOracle, jit: JitRun<S>) returns (ran: bool)
    requires o.Valid() && o.phase == 0 && StoresOk(o.ram.Length, jit.stores)
    modifies o, o.ram, o.journalA, o.journalB
    ensures o.Valid() && ran == Replayable(jit)
    ensures !ran ==> o.ram[..] == Stored(old(o.ram[..]), jit.stores)
    ensures ran ==> !o.taint && o.ram[..] == old(o.ram[..]) && InRam(o.ram.Length, o.A()) && Records(o.A(), jit.stores)
  {
    hide Faithful, Stored, Replay, Records, InRam, StoresOk;
    ghost var ram0 := o.ram[..];
    JournalRun(o, jit);
    ran := !o.taint;
    if ran {
      o.Rollback(ram0);
    }
  }

  method JournalRun<S>(o: JitOracle, jit: JitRun<S>)
    requires o.Valid() && o.phase == 0 && StoresOk(o.ram.Length, jit.stores)
    modifies o, o.ram, o.journalA, o.journalB
    ensures o.Valid() && o.taint == !Replayable(jit) && o.ram[..] == Stored(old(o.ram[..]), jit.stores)
    ensures !o.taint ==>
      && InRam(o.ram.Length, o.A()) && Faithful(old(o.ram[..]), o.A()) && Records(o.A(), jit.stores)
      && o.ram[..] == Replay(old(o.ram[..]), o.A(), |o.A()|)
  {
    ghost var ram0 := o.ram[..];
    o.taint, o.nA, o.nB := false, 0, 0;
    o.phase := 1;
    StartRun(o, ram0);
    assert [] + jit.stores == jit.stores;
    hide Faithful, Stored, Replay, Records, InRam, StoresOk;
    o.StoreAll(jit.stores, ram0, []);
    o.phase := 0;
    if jit.io {
      o.taint := true;
    }
  }

  lemma StartRun(o: JitOracle, ram0: seq<Byte>)
    requires o.Valid() && o.phase == 1 && o.nA == 0 && o.ram[..] == ram0
    ensures o.Tracks(ram0) && Records(o.Now(), [])
  {
    ReplayNone(ram0, o.A());
  }

  lemma NoStores(ram: seq<Byte>)
    ensures Stored(ram, []) == ram
  {
  }

  // In the middle of a replay that has made the given stores.
  ghost predicate Replaying(o: JitOracle, ram0: seq<Byte>, a: seq<Entry>, done: seq<Store>)
    reads o, o.ram, o.journalA, o.journalB
  {
    && o.Tracks(ram0) && o.phase == 2 && o.A() == a && StoresOk(|ram0|, done) && o.ram[..] == Stored(ram0, done)
    && (!o.taint ==> Records(o.B(), done))
  }

  method ReplayStores(o: JitOracle, ss: seq<Store>, io: bool, ghost ram0: seq<Byte>, ghost a: seq<Entry>, ghost done: seq<Store>)
    requires Replaying(o, ram0, a, done) && !o.taint && StoresOk(o.ram.Length, ss)
    modifies o`nA, o`nB, o`taint, o.journalA, o.journalB, o.ram
    ensures Replaying(o, ram0, a, done + ss) && (o.taint <==> io || |done + ss| > JOURNAL_MAX)
  {
    hide Replay, Faithful, Stored, Records;
    StoredAppend(ram0, done, ss);
    o.StoreAll(ss, ram0, done);
    if io {
      o.taint := true;
    }
  }

  // Whether the replay has reproduced the JIT's state and journal.
  method Reproduced(o: JitOracle, same: bool, ghost ram0: seq<Byte>, ghost a: seq<Entry>, ghost done: seq<Store>, ghost js: seq<Store>) returns (yes: bool)
    requires Replaying(o, ram0, a, done) && !o.taint && InRam(|ram0|, a) && Records(a, js)
    ensures yes <==> same && done == js
    ensures yes ==> o.ram[..] == Stored(ram0, js)
  {
    hide Stored, Write, Read;
    SameStores(a, o.B(), js, done);
    var equal := o.JournalsEqual();
    yes := same && equal;
  }

  // What a verdict, given after the replay has made the stores done, says of RAM.
  ghost predicate VerdictOk<S>(r: Result, ram: seq<Byte>, ram0: seq<Byte>, a: seq<Entry>, done: seq<Store>, step: InterpStep<S>, jit: JitRun<S>) {
    && InRam(|ram0|, a) && StoresOk(|ram0|, done) && r != Skipped
    && (r == Verified ==>
          && step.state == jit.state && (step.aborted && jit.aborted ==> step.oldpc == jit.oldpc)
          && done == jit.stores && ram == Stored(ram0, done))
    && (r == Mismatch ==> ram == Stored(ram0, done))
    && (r == Abandoned ==> ram == Replay(Stored(ram0, done), a, |a|))
  }

  // One interpreter step of the replay, and the verdict if it gives one.
  method ReplayStep<S(==)>(o: JitOracle, jit: JitRun<S>, step: InterpStep<S>, ghost ram0: seq<Byte>, ghost a: seq<Entry>, ghost done: seq<Store>)
    returns (v: Option<Result>)
    requires Replaying(o, ram0, a, done) && !o.taint && InRam(|ram0|, a) && StoresOk(o.ram.Length, step.stores)
    requires Records(a, jit.stores)
    modifies o, o.ram, o.journalA, o.journalB
    ensures v == VerdictOf(jit, step, done + step.stores)
    ensures v == None ==> Replaying(o, ram0, a, done + step.stores) && !o.taint
    ensures v.Some? ==> VerdictOk(v.value, o.ram[..], ram0, a, done + step.stores, step, jit)
  {
    hide Replay, Faithful, Stored, StoresOk, InRam, Replaying, SameWrites, Records;
    ReplayStores(o, step.stores, step.io, ram0, a, done);
    StoppedReplay(o, ram0, a, done + step.stores);
    if o.taint {
      o.phase := 0;
      o.Reapply();
      v := Some(Abandoned);
    } else if step.aborted && jit.aborted && step.oldpc != jit.oldpc {
      v := Some(Mismatch);
    } else {
      var yes := Reproduced(o, step.state == jit.state, ram0, a, done + step.stores, jit.stores);
      v := if yes then Some(Verified) else if step.aborted then Some(Mismatch) else None;
    }
  }

  method ReplaySteps<S(==)>(o: JitOracle, jit: JitRun<S>, steps: seq<InterpStep<S>>, ghost ram0: seq<Byte>, ghost a: seq<Entry>)
    returns (v: Option<Result>, used: nat)
    requires Replaying(o, ram0, a, []) && !o.taint && StepsOk(o.ram.Length, steps) && InRam(|ram0|, a)
    requires Records(a, jit.stores)
    modifies o, o.ram, o.journalA, o.journalB
    ensures used <= |steps| && Judged(jit, steps, 0) == (if v.Some? then v.value else Mismatch, used)
    ensures v == None ==> Replaying(o, ram0, a, StepsStores(steps, used))
    ensures v.Some? ==> used > 0 && VerdictOk(v.value, o.ram[..], ram0, a, StepsStores(steps, used), steps[used - 1], jit)
  {
    hide *;
    StepsUsed(steps, 0);
    JudgedEnd(jit, steps);
    v, used := None, 0;
    while used < |steps| && v == None
      invariant used <= |steps|
      invariant Judged(jit, steps, 0) == if v.Some? then (v.value, used) else Judged(jit, steps, used)
      invariant v == None ==> Replaying(o, ram0, a, StepsStores(steps, used)) && !o.taint
      invariant v.Some? ==> used > 0 && VerdictOk(v.value, o.ram[..], ram0, a, StepsStores(steps, used), steps[used - 1], jit)
      decreases |steps| - used
    {
      StepStores(steps, used, o.ram.Length);
      StepsUsed(steps, used + 1);
      JudgedNext(jit, steps, used);
      v := ReplayStep(o, jit, steps[used], ram0, a, StepsStores(steps, used));
      used := used + 1;
    }
  }

  lemma JudgedNext<S>(jit: JitRun<S>, steps: seq<InterpStep<S>>, k: nat)
    requires k < |steps|
    ensures var v := VerdictOf(jit, steps[k], StepsStores(steps, k + 1));
      Judged(jit, steps, k) == if v.Some? then (v.value, k + 1) else Judged(jit, steps, k + 1)
  {
  }

  lemma JudgedEnd<S>(jit: JitRun<S>, steps: seq<InterpStep<S>>)
    ensures Judged(jit, steps, |steps|) == (Mismatch, |steps|)
  {
  }

  // The replay, after the rollback.
  method ReplayBlock<S(==)>(o: JitOracle, jit: JitRun<S>, steps: seq<InterpStep<S>>, ghost ram0: seq<Byte>) returns (r: Result, used: nat)
    requires o.Valid() && !o.taint && o.ram[..] == ram0 && StepsOk(o.ram.Length, steps) && InRam(|ram0|, o.A())
    requires Records(o.A(), jit.stores)
    modifies o, o.ram, o.journalA, o.journalB
    ensures (r, used) == Judged(jit, steps, 0)
    ensures used <= |steps| && (used == 0 ==> r == Mismatch && o.ram[..] == ram0)
    ensures used > 0 ==> VerdictOk(r, o.ram[..], ram0, old(o.A()), StepsStores(steps, used), steps[used - 1], jit)
  {
    ghost var a := o.A();
    o.nB := 0;
    o.phase := 2;
    StartReplay(o, ram0, a);
    hide *;
    var v;
    v, used := ReplaySteps(o, jit, steps, ram0, a);
    StepsUsed(steps, 0);
    if v.Some? {
      r := v.value;
    } else {
      r := Mismatch;
      StoppedReplay(o, ram0, a, StepsStores(steps, used));
      NoStores(ram0);
      if used > 0 {
        GivenUp(o, ram0, a, StepsStores(steps, used), steps[used - 1], jit);
      }
    }
    o.phase := 0;
  }

  lemma GivenUp<S>(o: JitOracle, ram0: seq<Byte>, a: seq<Entry>, done: seq<Store>, step: InterpStep<S>, jit: JitRun<S>)
    requires Replaying(o, ram0, a, done) && InRam(|ram0|, a)
    ensures VerdictOk(Mismatch, o.ram[..], ram0, a, done, step, jit)
  {
  }

  lemma StartReplay(o: JitOracle, ram0: seq<Byte>, a: seq<Entry>)
    requires o.Valid() && o.phase == 2 && o.nB == 0 && o.ram[..] == ram0 && o.A() == a
    ensures Replaying(o, ram0, a, [])
  {
    ReplayNone(ram0, o.B());
    NoStores(ram0);
  }

  lemma StoppedReplay(o: JitOracle, ram0: seq<Byte>, a: seq<Entry>, done: seq<Store>)
    requires Replaying(o, ram0, a, done)
    ensures o.Valid() && o.A() == a && |ram0| == o.ram.Length && StoresOk(|ram0|, done) && o.ram[..] == Stored(ram0, done)
  {
  }

  lemma StepStores<S>(steps: seq<InterpStep<S>>, k: nat, n: nat)
    requires StepsOk(n, steps) && k < |steps|
    ensures StoresOk(n, steps[k].stores)
  {
  }

  lemma StepsUsed<S>(steps: seq<InterpStep<S>>, k: nat)
    requires k <= |steps|
    ensures StepsStores(steps, k) == if k == 0 then [] else StepsStores(steps, k - 1) + steps[k - 1].stores
  {
  }

  // A replay that stores before it meets a device can lose the JIT's RAM: the block here
  // stores nothing, and the byte the interpreter stored stays.
  const QUIET := JitRun([], false, 0, false, 0)
  const LOUD := InterpStep([Store(0, 1, 1)], true, 0, false, 0)

  // A replay whose first step meets a device is abandoned there.
  lemma LoudReplay<S>(jit: JitRun<S>, steps: seq<InterpStep<S>>)
    requires |steps| > 0 && steps[0].io
    ensures StepsStores(steps, 1) == steps[0].stores && Judged(jit, steps, 0) == (Abandoned, 1)
  {
    StepsUsed(steps, 1);
    StepsUsed(steps, 0);
    JudgedNext(jit, steps, 0);
  }

  lemma LoudStores()
    ensures StoresOk(1, [Store(0, 1, 1)]) && Stored([0], [Store(0, 1, 1)]) == [1] && !KeptOutside([0], [1], [])
  {
    assert Stored([0], []) == [0];
    assert [Store(0, 1, 1)][..0] == [];
    assert Write([0], 0, 1, 1) == [1];
    assert !Hits([], 0);
  }

  lemma StoresFit(steps: seq<InterpStep<int>>)
    requires forall k :: 0 <= k < |steps| ==> steps[k] == LOUD
    ensures StepsOk(1, steps)
  {
  }

  method AbandonedLosesRam() returns (ram: array<Byte>, r: Result)
    ensures r == Abandoned && ram[..] == [1] && Stored([0], QUIET.stores) == [0]
  {
    ram := new Byte[1](_ => 0);
    assert ram[..] == [0];
    var o := new JitOracle(ram);
    var steps := seq(MaxSteps(1), _ => LOUD);
    LoudReplay(QUIET, steps);
    LoudStores();
    StoresFit(steps);
    NoStores([0]);
    NoStores([1]);
    hide Stored, Judged, KeptOutside;
    var used;
    r, used := Exec(o, QUIET, 1, steps);
    assert RamOk(r, ram[..], [0], [Store(0, 1, 1)], LOUD, QUIET);
  }
}
