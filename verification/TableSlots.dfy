// wasm/jit/codegen_backend_wasm.c: the function-table slots of compiled blocks, and the
// list of slots to use again.
module TableSlots {
  const BLOCK_SIZE := 0x4000
  const WJIT_FREE_MAX := BLOCK_SIZE

  // ---- counting --------------------------------------------------------------------

  // How many blocks hold a slot; 0 stands for none.
  function Held(idxs: seq<nat>): nat {
    if idxs == [] then 0 else Held(idxs[..|idxs| - 1]) + if idxs[|idxs| - 1] != 0 then 1 else 0
  }

  lemma {:induction false} HeldUpdate(idxs: seq<nat>, i: nat, v: nat)
    requires i < |idxs|
    ensures Held(idxs[i := v]) == Held(idxs) - (if idxs[i] != 0 then 1 else 0) + (if v != 0 then 1 else 0)
    decreases |idxs|
  {
    var n := |idxs| - 1;
    if i == n {
      assert idxs[i := v][..n] == idxs[..n];
    } else {
      assert idxs[i := v][..n] == idxs[..n][i := v];
      HeldUpdate(idxs[..n], i, v);
    }
  }

  lemma {:induction false} HeldAtMost(idxs: seq<nat>)
    ensures Held(idxs) <= |idxs|
    decreases |idxs|
  {
    if idxs != [] {
      HeldAtMost(idxs[..|idxs| - 1]);
    }
  }

  lemma HeldNone(n: nat)
    ensures Held(seq(n, _ => 0)) == 0
  {
    if n > 0 {
      assert seq(n, _ => 0)[..n - 1] == seq(n - 1, _ => 0);
      HeldNone(n - 1);
    }
  }

  // ---- ownership -------------------------------------------------------------------

  // No slot is held by two blocks, waits twice, or is held and waits.
  ghost predicate OwnedOnce(idxs: seq<nat>, free: seq<nat>) {
    && (forall i, j :: 0 <= i < j < |idxs| && idxs[i] != 0 ==> idxs[i] != idxs[j])
    && (forall i, j :: 0 <= i < j < |free| ==> free[i] != free[j])
    && (forall i, j :: 0 <= i < |idxs| && 0 <= j < |free| ==> free[j] != 0 && free[j] != idxs[i])
  }

  predicate Fresh(idxs: seq<nat>, free: seq<nat>, idx: nat) {
    idx != 0 && idx !in idxs && idx !in free
  }

  // What the table does with an install: fail, use the slot it was asked to, or grow.
  datatype Outcome = Failed | AsAsked | Grown(idx: nat)

  class SlotPool {
    const wasmFnIdx: array<nat>   // of each block
    const freeSlots: array<nat>
    var nFreeSlots: nat

    constructor ()
      ensures Valid() && fresh(wasmFnIdx) && fresh(freeSlots)
      ensures wasmFnIdx[..] == seq(BLOCK_SIZE, _ => 0) && Free() == []
    {
      wasmFnIdx := new nat[BLOCK_SIZE](_ => 0);
      freeSlots := new nat[WJIT_FREE_MAX](_ => 0);
      nFreeSlots := 0;
      new;
      assert wasmFnIdx[..] == seq(BLOCK_SIZE, _ => 0);
      HeldNone(BLOCK_SIZE);
    }

    predicate Shape()
      reads this
    {
      wasmFnIdx.Length == BLOCK_SIZE && freeSlots.Length == WJIT_FREE_MAX && wasmFnIdx != freeSlots && nFreeSlots <= WJIT_FREE_MAX
    }

    function Free(): seq<nat>
      requires Shape()
      reads this, freeSlots
    {
      freeSlots[..nFreeSlots]
    }

    ghost predicate Valid()
      reads this, wasmFnIdx, freeSlots
    {
      Shape() && OwnedOnce(wasmFnIdx[..], Free()) && Held(wasmFnIdx[..]) + nFreeSlots <= BLOCK_SIZE
    }

    // codegen_wasm_free_block: the block's slot, if it has one, always finds room.
    method FreeBlock(b: nat)
      requires Valid() && b < BLOCK_SIZE
      modifies this`nFreeSlots, wasmFnIdx, freeSlots
      ensures Valid() && wasmFnIdx[..] == old(wasmFnIdx[..])[b := 0]
      ensures Free() == if old(wasmFnIdx[b]) == 0 then old(Free()) else old(Free()) + [old(wasmFnIdx[b])]
    {
      var idx := wasmFnIdx[b];
      if idx == 0 {
        assert wasmFnIdx[..] == old(wasmFnIdx[..])[b := 0];
        return;
      }
      ghost var before := wasmFnIdx[..];
      HeldUpdate(before, b, 0);
      wasmFnIdx[b] := 0;
      assert wasmFnIdx[..] == before[b := 0];
      if nFreeSlots < WJIT_FREE_MAX {
        freeSlots[nFreeSlots] := idx;
        nFreeSlots := nFreeSlots + 1;
      }
    }

    // The slot an install is asked to use again, 0 for none.
    method TakeFree() returns (reuse: nat)
      requires Valid()
      modifies this`nFreeSlots
      ensures Valid()
      ensures if old(nFreeSlots) == 0 then reuse == 0 && Free() == old(Free())
              else old(Free()) == Free() + [reuse] && reuse != 0 && Fresh(wasmFnIdx[..], Free(), reuse)
    {
      reuse := 0;
      if nFreeSlots != 0 {
        nFreeSlots := nFreeSlots - 1;
        reuse := freeSlots[nFreeSlots];
        assert old(Free())[nFreeSlots] == reuse;
      }
    }

    // The end of the epilogue for a block whose module has been built, after its old slot
    // has been given back: install in the slot taken off the list, or in a new one.
    method Install(b: nat, outcome: Outcome) returns (idx: nat)
      requires Valid() && b < BLOCK_SIZE && wasmFnIdx[b] == 0
      requires outcome.Grown? ==> Fresh(wasmFnIdx[..], Free(), outcome.idx)
      modifies this`nFreeSlots, wasmFnIdx
      ensures Valid() && wasmFnIdx[..] == old(wasmFnIdx[..])[b := idx]
      ensures Free() == if old(nFreeSlots) == 0 then [] else old(Free())[..old(nFreeSlots) - 1]
      ensures idx == match outcome
        case Failed => 0
        case AsAsked => if old(nFreeSlots) == 0 then 0 else old(Free())[old(nFreeSlots) - 1]
        case Grown(i) => i
    {
      ghost var before := wasmFnIdx[..];
      var reuse := TakeFree();
      idx := match outcome case Failed => 0 case AsAsked => reuse case Grown(i) => i;
      HeldUpdate(before, b, idx);
      FullHeld(before, b);
      wasmFnIdx[b] := idx;
      assert wasmFnIdx[..] == before[b := idx];
    }
  }

  // A block without a slot leaves room in the count.
  lemma FullHeld(idxs: seq<nat>, b: nat)
    requires b < |idxs| && idxs[b] == 0
    ensures Held(idxs) < |idxs|
  {
    HeldUpdate(idxs, b, 1);
    HeldAtMost(idxs[b := 1]);
  }

  // ---- any sequence of calls ----------------------------------------------------------

  // A block freed, or installed: its old slot is given back first, and the table does with
  // the module what the outcome says.
  datatype Call = Free(b: nat) | Compile(b: nat, outcome: Outcome)

  // What the calls leave when an unbounded list serves as the free list.
  datatype Slots = Slots(held: seq<nat>, free: seq<nat>)

  function Release(s: Slots, b: nat): Slots
    requires b < |s.held|
  {
    if s.held[b] == 0 then s else Slots(s.held[b := 0], s.free + [s.held[b]])
  }

  function After(s: Slots, c: Call): (r: Slots)
    requires c.b < |s.held|
    ensures |r.held| == |s.held|
  {
    var t := Release(s, c.b);
    if c.Free? then t
    else
      var reuse := if t.free == [] then 0 else t.free[|t.free| - 1];
      var idx := match c.outcome case Failed => 0 case AsAsked => reuse case Grown(i) => i;
      Slots(t.held[c.b := idx], if t.free == [] then [] else t.free[..|t.free| - 1])
  }

  // A table that grows hands out a slot that is neither held nor waiting.
  ghost predicate CallOk(s: Slots, c: Call) {
    c.b < |s.held| && (c.Compile? && c.outcome.Grown? ==> Fresh(Release(s, c.b).held, Release(s, c.b).free, c.outcome.idx))
  }

  ghost predicate CallsOk(s: Slots, calls: seq<Call>)
    decreases |calls|
  {
    calls == [] || (CallOk(s, calls[0]) && CallsOk(After(s, calls[0]), calls[1..]))
  }

  function AfterAll(s: Slots, calls: seq<Call>): (r: Slots)
    requires CallsOk(s, calls)
    decreases |calls|
  {
    if calls == [] then s else AfterAll(After(s, calls[0]), calls[1..])
  }

  // Over any calls the pool does as the unbounded list would, so the room of the array never
  // runs out, and no slot is ever in two places.
  method Calls(calls: seq<Call>) returns (p: SlotPool)
    requires CallsOk(Slots(seq(BLOCK_SIZE, _ => 0), []), calls)
    ensures p.Valid() && Slots(p.wasmFnIdx[..], p.Free()) == AfterAll(Slots(seq(BLOCK_SIZE, _ => 0), []), calls)
  {
    p := new SlotPool();
    ghost var start := Slots(p.wasmFnIdx[..], p.Free());
    assert start == Slots(seq(BLOCK_SIZE, _ => 0), []);
    for n := 0 to |calls|
      invariant fresh(p) && fresh(p.wasmFnIdx) && fresh(p.freeSlots) && p.Valid()
      invariant CallsOk(Slots(p.wasmFnIdx[..], p.Free()), calls[n..])
      invariant AfterAll(Slots(p.wasmFnIdx[..], p.Free()), calls[n..]) == AfterAll(start, calls)
    {
      assert calls[n..][0] == calls[n] && calls[n..][1..] == calls[n + 1..];
      Do(p, calls[n]);
    }
    assert calls[|calls|..] == [];
  }

  method Do(p: SlotPool, c: Call)
    requires p.Valid() && CallOk(Slots(p.wasmFnIdx[..], p.Free()), c)
    modifies p, p.wasmFnIdx, p.freeSlots
    ensures p.Valid() && Slots(p.wasmFnIdx[..], p.Free()) == After(old(Slots(p.wasmFnIdx[..], p.Free())), c)
  {
    hide OwnedOnce, Held;
    p.FreeBlock(c.b);
    assert Slots(p.wasmFnIdx[..], p.Free()) == Release(old(Slots(p.wasmFnIdx[..], p.Free())), c.b) by {
      if old(p.wasmFnIdx[c.b]) == 0 {
        assert old(p.wasmFnIdx[..])[c.b := 0] == old(p.wasmFnIdx[..]);
      }
    }
    if c.Compile? {
      var idx := p.Install(c.b, c.outcome);
    }
  }
}
