// A whole block of integer uops, from the list of uops to the bytes of its module: what
// codegen_ir_compile (core/src/codegen/codegen_ir.c) drives the wasm backend to do, and that
// the module does what the uops mean.
module Compile {
  import opened Common
  import opened Wasm
  import opened I32
  import opened JumpRewrite
  import opened EmitLog
  import opened WasmModule
  import opened Backend
  import opened Uops
  import opened UopProofs
  import opened CondProofs
  import opened JumpLists
  import opened Handlers
  import opened Capacity

  // What the uop at c means: where to go on and with which host registers, if anywhere.
  function UopNext(prog: seq<Node>, c: nat, regs: Regs): (r: (Option<nat>, Regs))
    requires ProgOk(prog) && c < |prog|
    ensures r.0.Some? ==> c < r.0.value <= |prog|
  {
    assert NodeOk(prog, c);
    var u := prog[c].uop;
    if Writes(u) then (Some(c + 1), Written(u, regs))
    else if IsJump(u) then (Some(if Taken(u, regs) then prog[c].dest else c + 1), regs)
    else (if Exits(u, regs) then None else Some(c + 1), regs)
  }

  // What a list of uops means: the host registers when the block is left.
  function Interp(prog: seq<Node>, c: nat, regs: Regs): Regs
    requires ProgOk(prog) && c <= |prog|
    decreases |prog| - c
  {
    if c == |prog| then regs
    else
      var (next, regs') := UopNext(prog, c, regs);
      if next.Some? then Interp(prog, next.value, regs') else regs'
  }

  // The module's function runs to its end and leaves the host registers as the uops do.
  ghost predicate RunsAs(bytes: seq<Byte>, prog: seq<Node>, w: Locals)
    requires ProgOk(prog)
  {
    var code := FunctionOf(bytes);
    code.Some? &&
    var out := Exec(SEM, code.value, [], Config([], w));
    out.Finished? && Host(out.world) == Interp(prog, 0, Host(w))
  }

  // ---- how a log corresponds to a list of uops ------------------------------------------

  // starts[i] is the first token of uop i; handles[i] its patch record plus one, if it
  // jumps; owner[pi] the uop that patch record pi belongs to.
  datatype Layout = Layout(starts: seq<nat>, handles: seq<nat>, owner: seq<nat>)

  function PatchNo(lay: Layout, i: nat): nat
    requires i < |lay.handles|
  {
    if lay.handles[i] > 0 then lay.handles[i] - 1 else 0
  }

  ghost predicate UopPlaced(log: Log, prog: seq<Node>, lay: Layout, i: nat)
    requires i < |prog| == |lay.handles| && i + 1 < |lay.starts|
  {
    && lay.starts[i] <= lay.starts[i + 1] <= |log.toks|
    && log.toks[lay.starts[i]..lay.starts[i + 1]] == CodeToks(prog[i].uop, PatchNo(lay, i))
    && (IsJump(prog[i].uop) ==>
          && 0 < lay.handles[i] <= |log.sites| == |lay.owner|
          && lay.owner[PatchNo(lay, i)] == i)
  }

  // Uop i's branch leads to the first token of uop d.
  ghost predicate BoundTo(log: Log, prog: seq<Node>, lay: Layout, i: nat, d: nat)
    requires i < |prog| == |lay.handles|
  {
    var pi := PatchNo(lay, i);
    && pi < |log.dests| && 0 <= log.dests[pi] < |log.marks| && d < |lay.starts|
    && log.marks[log.dests[pi]] == lay.starts[d]
  }

  ghost predicate OwnerOk(prog: seq<Node>, c: nat, lay: Layout, pi: nat)
    requires pi < |lay.owner| && c <= |prog| == |lay.handles|
  {
    lay.owner[pi] < c && IsJump(prog[lay.owner[pi]].uop) && lay.handles[lay.owner[pi]] == pi + 1
  }

  // The uops below c are in the log.
  ghost predicate AllPlaced(log: Log, prog: seq<Node>, c: nat, lay: Layout) {
    && c <= |prog| == |lay.handles| && |lay.starts| == c + 1 && lay.starts[0] == 0 && lay.starts[c] == |log.toks|
    && (forall i :: 0 <= i <= c ==> lay.starts[i] <= |log.toks|)
    && |lay.owner| == |log.sites| == |log.dests|
    && (forall i :: 0 <= i < c ==> UopPlaced(log, prog, lay, i))
    && (forall pi :: 0 <= pi < |lay.owner| ==> OwnerOk(prog, c, lay, pi))
  }

  // Jump i is bound, if it must be: to c when it is one of those in s, which have been bound
  // here, and otherwise to the last place below c on its chain of jumps.
  ghost predicate JumpOk(log: Log, prog: seq<Node>, c: nat, s: seq<nat>, lay: Layout, i: nat)
    requires ProgOk(prog) && Jumps(prog, i) && |prog| == |lay.handles|
  {
    if i in s then BoundTo(log, prog, lay, i, c)
    else prog[i].dest < c ==> BoundTo(log, prog, lay, i, Target(prog, i, c))
  }

  ghost predicate Progress(log: Log, prog: seq<Node>, c: nat, s: seq<nat>, lay: Layout)
    requires ProgOk(prog)
  {
    && AllPlaced(log, prog, c, lay)
    && (forall i :: 0 <= i < c && Jumps(prog, i) ==> JumpOk(log, prog, c, s, lay, i))
  }

  // All of the program is in the log, and every jump bound to its destination.
  ghost predicate Complete(log: Log, prog: seq<Node>, lay: Layout) {
    && AllPlaced(log, prog, |prog|, lay)
    && (forall i :: 0 <= i < |prog| && Jumps(prog, i) ==> BoundTo(log, prog, lay, i, prog[i].dest))
  }

  lemma PlacedOther(log: Log, log': Log, prog: seq<Node>, c: nat, lay: Layout)
    requires AllPlaced(log, prog, c, lay)
    requires log'.toks == log.toks && log'.sites == log.sites && |log'.dests| == |log.dests|
    ensures AllPlaced(log', prog, c, lay)
  {
    forall i | 0 <= i < c ensures UopPlaced(log', prog, lay, i) {
      assert UopPlaced(log, prog, lay, i);
    }
  }

  lemma ProgressBind(log: Log, prog: seq<Node>, c: nat, s: seq<nat>, j: nat, lay: Layout)
    requires ProgOk(prog) && Progress(log, prog, c, s, lay) && j < c && Jumps(prog, j)
    ensures 0 < lay.handles[j] <= |log.dests| == |log.sites|
    ensures Progress(Bound(log, lay.handles[j] - 1), prog, c, s + [j], lay)
  {
    assert UopPlaced(log, prog, lay, j);
    var pi := lay.handles[j] - 1;
    var log' := Bound(log, pi);
    PlacedOther(log, log', prog, c, lay);
    forall i | 0 <= i < c && Jumps(prog, i) ensures JumpOk(log', prog, c, s + [j], lay, i) {
      assert JumpOk(log, prog, c, s, lay, i);
      assert UopPlaced(log, prog, lay, i);
      assert i != j ==> PatchNo(lay, i) != pi;
      hide Target;
    }
  }

  // One more uop.
  function Extended(lay: Layout, log': Log, c: nat, u: Uop, handle: nat): Layout
    requires c < |lay.handles|
  {
    Layout(lay.starts + [|log'.toks|], lay.handles[c := handle],
           if IsJump(u) then lay.owner + [c] else lay.owner)
  }

  lemma StillPlaced(log: Log, log': Log, prog: seq<Node>, c: nat, lay: Layout, handle: nat, i: nat)
    requires i < c < |prog| == |lay.handles| && |lay.starts| == c + 1 && UopPlaced(log, prog, lay, i)
    requires |lay.owner| == |log.sites| && Handled(log, log', prog[c].uop)
    ensures UopPlaced(log', prog, Extended(lay, log', c, prog[c].uop, handle), i)
  {
    hide CodeToks;
    assert log'.toks[lay.starts[i]..lay.starts[i + 1]] == log.toks[lay.starts[i]..lay.starts[i + 1]];
  }

  lemma JustPlaced(log: Log, log': Log, prog: seq<Node>, c: nat, lay: Layout, handle: nat)
    requires c < |prog| == |lay.handles| && |lay.starts| == c + 1 && lay.starts[c] == |log.toks|
    requires |lay.owner| == |log.sites| && Handled(log, log', prog[c].uop)
    requires IsJump(prog[c].uop) ==> handle == |log'.sites|
    ensures UopPlaced(log', prog, Extended(lay, log', c, prog[c].uop, handle), c)
  {
    hide CodeToks;
    var u := prog[c].uop;
    var lay' := Extended(lay, log', c, u, handle);
    assert log'.toks[|log.toks|..] == CodeToks(u, |log.sites|);
    assert log'.toks[lay'.starts[c]..lay'.starts[c + 1]] == log'.toks[|log.toks|..];
    PatchIrrelevant(u, |log.sites|, PatchNo(lay', c));
  }

  lemma PlacedNext(log: Log, log': Log, prog: seq<Node>, c: nat, lay: Layout, handle: nat)
    requires AllPlaced(log, prog, c, lay) && c < |prog|
    requires Handled(log, log', prog[c].uop) && (IsJump(prog[c].uop) ==> handle == |log'.sites|)
    ensures AllPlaced(log', prog, c + 1, Extended(lay, log', c, prog[c].uop, handle))
  {
    hide CodeToks;
    var u := prog[c].uop;
    var lay' := Extended(lay, log', c, u, handle);
    forall i | 0 <= i < c + 1 ensures UopPlaced(log', prog, lay', i) {
      if i < c {
        assert UopPlaced(log, prog, lay, i);
        StillPlaced(log, log', prog, c, lay, handle, i);
      } else {
        JustPlaced(log, log', prog, c, lay, handle);
      }
    }
    var n := c + 1;
    forall pi | 0 <= pi < |lay'.owner| ensures OwnerOk(prog, n, lay', pi) {
      if pi < |lay.owner| {
        assert OwnerOk(prog, c, lay, pi);
      }
    }
  }

  lemma PatchIrrelevant(u: Uop, a: nat, b: nat)
    ensures !IsJump(u) ==> CodeToks(u, a) == CodeToks(u, b)
  {
  }

  // s are the jumps whose chain has come to uop c.
  ghost predicate Waiting(prog: seq<Node>, c: nat, s: seq<nat>)
    requires ProgOk(prog) && c <= |prog|
  {
    forall x :: 0 <= x < c && Jumps(prog, x) ==> (x in s <==> Root(prog, x, c) == c)
  }

  lemma JumpOkNext(log: Log, log': Log, prog: seq<Node>, c: nat, s: seq<nat>, lay: Layout, handle: nat, i: nat)
    requires ProgOk(prog) && Progress(log, prog, c, s, lay) && c < |prog| && Waiting(prog, c, s)
    requires Handled(log, log', prog[c].uop) && (IsJump(prog[c].uop) ==> handle == |log'.sites|)
    requires i <= c && Jumps(prog, i)
    ensures JumpOk(log', prog, c + 1, [], Extended(lay, log', c, prog[c].uop, handle), i)
  {
    hide CodeToks, UopPlaced, OwnerOk;
    assert NodeOk(prog, i);
    if i < c {
      assert JumpOk(log, prog, c, s, lay, i);
      TargetStep(prog, i, c);
    }
    hide Target, Root;
  }

  lemma ProgressNext(log: Log, log': Log, prog: seq<Node>, c: nat, s: seq<nat>, lay: Layout, handle: nat)
    requires ProgOk(prog) && Progress(log, prog, c, s, lay) && c < |prog| && Waiting(prog, c, s)
    requires Handled(log, log', prog[c].uop) && (IsJump(prog[c].uop) ==> handle == |log'.sites|)
    ensures Progress(log', prog, c + 1, [], Extended(lay, log', c, prog[c].uop, handle))
  {
    hide JumpOk, Handled, Waiting, UopPlaced, OwnerOk;
    var lay', n := Extended(lay, log', c, prog[c].uop, handle), c + 1;
    PlacedNext(log, log', prog, c, lay, handle);
    forall i | 0 <= i < n && Jumps(prog, i) ensures JumpOk(log', prog, n, [], lay', i) {
      JumpOkNext(log, log', prog, c, s, lay, handle, i);
    }
  }

  lemma ProgressEnd(log: Log, prog: seq<Node>, s: seq<nat>, lay: Layout)
    requires ProgOk(prog) && Progress(log, prog, |prog|, s, lay) && Waiting(prog, |prog|, s)
    ensures Complete(log, Threaded(prog), lay)
  {
    var q, n := Threaded(prog), |prog|;
    forall i | 0 <= i < n ensures UopPlaced(log, q, lay, i) {
      assert UopPlaced(log, prog, lay, i);
    }
    forall pi | 0 <= pi < |lay.owner| ensures OwnerOk(q, n, lay, pi) {
      assert OwnerOk(prog, n, lay, pi);
    }
    forall i | 0 <= i < n && Jumps(q, i) ensures BoundTo(log, q, lay, i, q[i].dest) {
      assert NodeOk(prog, i);
      assert JumpOk(log, prog, n, s, lay, i);
      TargetStep(prog, i, n);
      TargetFinal(prog, i);
    }
  }

  // ---- the driver -----------------------------------------------------------------

  // The list of place c but for its head gives the jumps that wait for it.
  lemma WaitingFor(prog: seq<Node>, c: nat, s: seq<nat>)
    requires ProgOk(prog) && c <= |prog| && Members(prog, c, s, c)
    requires c < |prog| ==> s != [] && s[0] == c
    ensures Waiting(prog, c, if c < |prog| then s[1..] else s)
    ensures forall k :: (if c < |prog| then 1 else 0) <= k < |s| ==> s[k] < c && Jumps(prog, s[k])
  {
    forall k | (if c < |prog| then 1 else 0) <= k < |s| ensures s[k] < c && Jumps(prog, s[k]) {
      assert s[k] in s;
    }
    assert c < |prog| ==> s == [c] + s[1..];
  }

  // codegen_set_jump_dest on uop j's handle.
  method BindOne(b: BackendState, prog: seq<Node>, c: nat, j: nat, handle: nat, ghost s: seq<nat>, ghost lay: Layout)
    requires b.Valid() && Closed(b.log) && ProgOk(prog) && j < c && Jumps(prog, j)
    requires |lay.handles| == |prog| && handle == lay.handles[j]
    requires b.Ok() ==> Progress(b.log, prog, c, s, lay)
    modifies b, b.labels, b.patches
    ensures b.Valid() && Closed(b.log) && (b.Ok() ==> old(b.Ok()) && Progress(b.log, prog, c, s + [j], lay))
    ensures old(b.Ok()) && |old(b.log).marks| < WJIT_MAX_LABELS ==> b.Ok() && Labelled(old(b.log), b.log)
  {
    hide Progress, LogOk;
    if b.Ok() {
      ProgressBind(b.log, prog, c, s, j, lay);
    }
    b.SetJumpDest(handle);
  }

  // At most a label at the current position has been added.
  ghost predicate Labelled(l0: Log, l1: Log) {
    l1.toks == l0.toks && l1.sites == l0.sites && l1.marks == Marked(l0).marks
  }

  lemma LabelledTwice(l0: Log, l1: Log, l2: Log)
    requires Labelled(l0, l1) && Labelled(l1, l2)
    ensures Labelled(l0, l2)
  {
  }

  // Either no jump waited here, or one label serves them all.
  ghost predicate NoMoreThanLabelled(l0: Log, l1: Log) {
    l1 == l0 || Labelled(l0, l1)
  }

  // Bind the uops in the list s behind its first, x. Those before s[from] need no binding.
  method BindRest(b: BackendState, next: array<int>, prog: seq<Node>, c: nat, x: nat, handles: array<nat>,
                  ghost s: seq<nat>, ghost from: nat, ghost lay: Layout)
    requires b.Valid() && Closed(b.log) && ProgOk(prog) && c <= |prog| == handles.Length == next.Length
    requires handles[..] == lay.handles && handles != b.labels
    requires s != [] && s[0] == x && from <= 1 && Linked(next[..], s)
    requires forall k :: 1 <= k < |s| ==> s[k] < c && Jumps(prog, s[k])
    requires b.Ok() ==> Progress(b.log, prog, c, s[from..1], lay)
    modifies b, b.labels, b.patches
    ensures b.Valid() && Closed(b.log)
    ensures b.Ok() ==> old(b.Ok()) && Progress(b.log, prog, c, s[from..], lay)
    ensures old(b.Ok()) && |old(b.log).marks| + 1 < WJIT_MAX_LABELS ==> b.Ok() && NoMoreThanLabelled(old(b.log), b.log)
  {
    hide Progress, Closed, Linked, BackendState.Valid, BackendState.Ok, Labelled;
    var uop := x;
    ghost var k := 0;
    LinkHere(next, s, 0);
    while next[uop] != -1
      invariant b.Valid() && Closed(b.log) && k < |s| && uop == s[k] && uop < next.Length && next[uop] == LinkOf(s, k)
      invariant Linked(next[..], s) && handles[..] == lay.handles
      invariant b.Ok() ==> old(b.Ok()) && Progress(b.log, prog, c, s[from..k + 1], lay)
      invariant old(b.Ok()) && |old(b.log).marks| + 1 < WJIT_MAX_LABELS ==> b.Ok() && NoMoreThanLabelled(old(b.log), b.log)
      decreases |s| - k
    {
      k := k + 1;
      LinkHere(next, s, k);
      uop := next[uop];
      assert handles[..][uop] == handles[uop];
      ghost var l1 := b.log;
      AtMostOneMark(old(b.log), l1);
      BindOne(b, prog, c, uop, handles[uop], s[from..k], lay);
      Relabelled(old(b.log), l1, b.log);
      assert s[from..k] + [s[k]] == s[from..k + 1];
    }
    assert s[from..k + 1] == s[from..];
  }

  lemma AtMostOneMark(l0: Log, l1: Log)
    ensures NoMoreThanLabelled(l0, l1) ==> |l1.marks| <= |l0.marks| + 1 && l1.toks == l0.toks && l1.sites == l0.sites
  {
  }

  lemma Relabelled(l0: Log, l1: Log, l2: Log)
    ensures NoMoreThanLabelled(l0, l1) && Labelled(l1, l2) ==> Labelled(l0, l2)
  {
    if l1 != l0 && Labelled(l0, l1) && Labelled(l1, l2) {
      LabelledTwice(l0, l1, l2);
    }
  }

  lemma LinkHere(next: array<int>, s: seq<nat>, k: nat)
    requires Linked(next[..], s) && k < |s|
    ensures s[k] < next.Length && next[s[k]] == LinkOf(s, k)
  {
    assert LinkAt(next[..], s, k);
  }

  // Bind the jumps in the list of uop c, at the place where it is about to be emitted.
  method BindHere(b: BackendState, t: JumpThreads, c: nat, handles: array<nat>, ghost lay: Layout)
    requires b.Valid() && Closed(b.log) && t.Valid(c) && c < |t.prog|
    requires handles[..] == lay.handles && handles.Length == |t.prog| && handles != b.labels
    requires b.Ok() ==> Progress(b.log, t.prog, c, [], lay)
    modifies b, b.labels, b.patches
    ensures b.Valid() && Closed(b.log)
    ensures c < |t.lists| && t.lists[c] != [] && Waiting(t.prog, c, t.lists[c][1..])
    ensures b.Ok() ==> old(b.Ok()) && Progress(b.log, t.prog, c, t.lists[c][1..], lay)
    ensures old(b.Ok()) && |old(b.log).marks| + 1 < WJIT_MAX_LABELS ==> b.Ok() && NoMoreThanLabelled(old(b.log), b.log)
  {
    hide Progress, Closed, Members, Distinct, Waiting, Linked, BackendState.Valid, BackendState.Ok;
    ghost var s := t.lists[c];
    assert ListOk(t.prog, c, t.next[..], s, c);
    WaitingFor(t.prog, c, s);
    if t.isDest[c] {
      assert s[1..1] == [];
      BindRest(b, t.next, t.prog, c, c, handles, s, 1, lay);
    } else {
      assert s[1..] == [];
    }
  }

  // The same for the jumps to the end, where the head of the list is one of them.
  method BindEnd(b: BackendState, t: JumpThreads, handles: array<nat>, ghost lay: Layout)
    requires b.Valid() && Closed(b.log) && t.Valid(|t.prog|)
    requires handles[..] == lay.handles && handles.Length == |t.prog| && handles != b.labels
    requires b.Ok() ==> Progress(b.log, t.prog, |t.prog|, [], lay)
    modifies b, b.labels, b.patches
    ensures b.Valid() && Closed(b.log)
    ensures b.Ok() ==> old(b.Ok()) && Complete(b.log, Threaded(t.prog), lay)
    ensures old(b.Ok()) && |old(b.log).marks| + 2 < WJIT_MAX_LABELS ==> b.Ok()
  {
    hide Progress, Closed, Members, Distinct, Waiting, Complete, Linked, BackendState.Valid, BackendState.Ok, Labelled;
    ghost var n := |t.prog|;
    ghost var s := t.lists[n];
    assert ListOk(t.prog, n, t.next[..], s, n);
    WaitingFor(t.prog, n, s);
    if t.jumpTargetAtEnd != -1 {
      var uop := t.jumpTargetAtEnd;
      assert handles[..][uop] == handles[uop];
      BindOne(b, t.prog, |t.prog|, uop, handles[uop], [], lay);
      assert [] + [s[0]] == s[0..1] && s[0..] == s;
      Relabelled(old(b.log), old(b.log), b.log);
      AtMostOneMark(old(b.log), b.log);
      BindRest(b, t.next, t.prog, |t.prog|, uop, handles, s, 0, lay);
    }
    if b.Ok() {
      ProgressEnd(b.log, t.prog, s, lay);
    }
  }

  // What n uops and m places for labels can have taken of the tables and the body.
  ghost predicate Room(log: Log, n: nat, m: nat) {
    |log.marks| <= m && |log.sites| <= n && Total(log.toks) <= n * UOP_BYTES
  }

  lemma RoomLabelled(l0: Log, l1: Log, n: nat)
    requires Room(l0, n, n) && NoMoreThanLabelled(l0, l1)
    ensures Room(l1, n, n + 1)
  {
  }

  lemma RoomNext(l0: Log, l1: Log, c: nat, u: Uop)
    requires Room(l0, c, c + 1) && c < UOP_NR_MAX && LogOk(l1)
    ensures |l0.sites| < WJIT_MAX_PATCHES
    ensures Handled(l0, l1, u) ==> Room(l1, c + 1, c + 1) && |Concat(l1.spans)| <= WJIT_BODY_CAP
  {
    hide LogOk, Total;
    if Handled(l0, l1, u) {
      HandledTotal(l0, l1, u);
      BodyFits(l1, c + 1);
    }
  }

  // Emit the uops one after the other, each after binding the jumps that wait for it.
  method EmitAll(b: BackendState, prog: seq<Node>) returns (ghost lay: Layout)
    requires b.Valid() && b.Ok() && b.log == EMPTY && ProgOk(prog)
    modifies b, b.body, b.body.buf, b.labels, b.patches
    ensures b.Valid() && Closed(b.log)
    ensures b.Ok() ==> Complete(b.log, Threaded(prog), lay)
    ensures |prog| <= UOP_NR_MAX ==> b.Ok()
  {
    hide Closed, LogOk, Open, Complete, ListsOk, Waiting, Room, NoMoreThanLabelled;
    var handles := new nat[|prog|](_ => 0);
    var t := new JumpThreads(prog);
    lay := Layout([0], handles[..], []);
    StartClosed();
    assert Progress(b.log, prog, 0, [], lay);
    StartRoom();
    hide Progress, BackendState.Valid, BackendState.Ok;
    for c := 0 to |prog|
      invariant b.Valid() && Closed(b.log) && handles[..] == lay.handles && t.Valid(c)
      invariant b.Ok() ==> Progress(b.log, prog, c, [], lay)
      invariant |prog| <= UOP_NR_MAX ==> b.Ok() && Room(b.log, c, c)
    {
      lay := BindAndEmit(b, t, c, handles, lay);
    }
    RoomMarks(b.log, |prog|);
    BindEnd(b, t, handles, lay);
  }

  // One round of the loop.
  method BindAndEmit(b: BackendState, t: JumpThreads, c: nat, handles: array<nat>, ghost lay: Layout) returns (ghost lay': Layout)
    requires b.Valid() && Closed(b.log) && t.Valid(c) && c < |t.prog|
    requires handles[..] == lay.handles && handles.Length == |t.prog| && handles != b.labels
    requires b.Ok() ==> Progress(b.log, t.prog, c, [], lay)
    modifies b, b.body, b.body.buf, b.labels, b.patches, handles, t, t.next, t.isDest
    ensures b.Valid() && Closed(b.log) && handles[..] == lay'.handles && t.Valid(c + 1)
    ensures b.Ok() ==> Progress(b.log, t.prog, c + 1, [], lay')
    ensures old(b.Ok()) && c < UOP_NR_MAX && Room(old(b.log), c, c) ==> b.Ok() && Room(b.log, c + 1, c + 1)
  {
    hide Closed, LogOk, Open, ListsOk, Waiting, Room, NoMoreThanLabelled, Progress;
    ghost var before := b.log;
    RoomMarks(before, c);
    BindHere(b, t, c, handles, lay);
    RoomAfter(before, b.log, c);
    lay' := EmitOne(b, t.prog, c, t.lists[c][1..], handles, lay);
    t.Advance(c);
  }

  lemma StartRoom()
    ensures Room(EMPTY, 0, 0)
  {
  }

  lemma RoomMarks(log: Log, c: nat)
    ensures Room(log, c, c) ==> |log.marks| <= c
  {
  }

  lemma RoomAfter(l0: Log, l1: Log, c: nat)
    ensures Room(l0, c, c) && NoMoreThanLabelled(l0, l1) ==> Room(l1, c, c + 1)
  {
    if Room(l0, c, c) && NoMoreThanLabelled(l0, l1) {
      RoomLabelled(l0, l1, c);
    }
  }

  lemma StartClosed()
    ensures Closed(EMPTY)
  {
  }

  method EmitOne(b: BackendState, prog: seq<Node>, c: nat, ghost s: seq<nat>, handles: array<nat>, ghost lay: Layout) returns (ghost lay': Layout)
    requires b.Valid() && Closed(b.log) && ProgOk(prog) && c < |prog| == handles.Length
    requires handles[..] == lay.handles && handles != b.labels && Waiting(prog, c, s)
    requires b.Ok() ==> Progress(b.log, prog, c, s, lay)
    modifies b, b.body, b.body.buf, b.patches, handles
    ensures b.Valid() && Closed(b.log) && handles[..] == lay'.handles
    ensures b.Ok() ==> Progress(b.log, prog, c + 1, [], lay')
    ensures old(b.Ok()) && c < UOP_NR_MAX && Room(old(b.log), c, c + 1) ==> b.Ok() && Room(b.log, c + 1, c + 1)
  {
    assert NodeOk(prog, c);
    hide Progress, Closed, LogOk, Open, Handled, Waiting, Room;
    ghost var before := b.log;
    var handle := EmitUop(b, prog[c].uop);
    if c < UOP_NR_MAX && Room(before, c, c + 1) {
      RoomNext(before, b.log, c, prog[c].uop);
    }
    if b.Ok() {
      ProgressNext(before, b.log, prog, c, s, lay, handle);
    }
    lay' := Extended(lay, b.log, c, prog[c].uop, handle);
    handles[c] := handle;
  }

  // ---- the flat body means what the uops mean ------------------------------------------

  lemma {:induction false} FlatOps(log: Log, p: nat, ops: seq<Op>, c: Cfg, c1: Cfg)
    requires p + |ops| <= |log.toks| && log.toks[p..p + |ops|] == Toks(ops) && RunOps(ops, c) == Some(c1)
    ensures FlatRun(SEM, FlatOf(log), p, [], c) == FlatRun(SEM, FlatOf(log), p + |ops|, [], c1)
    decreases |ops|
  {
    if ops != [] {
      assert log.toks[p] == Toks(ops)[0];
      assert FlatOf(log).code[p] == Ins(Plain(ops[0]));
      var c' := Step(ops[0], c).value;
      assert EffectOf(SEM, Plain(ops[0]), [], c) == Next([], c');
      FlatStep(FlatOf(log), p, [], c, Plain(ops[0]));
      hide FlatRun, FlatOf, EffectOf, Step;
      assert log.toks[p + 1..p + |ops|] == Toks(ops)[1..] == Toks(ops[1..]);
      FlatOps(log, p + 1, ops[1..], c', c1);
    }
  }

  // Uop c's tokens and what follows them.
  lemma RunWriteAt(log: Log, p: nat, q: nat, u: Uop, w: Locals) returns (w1: Locals)
    requires UopOk(u) && Writes(u) && p <= q <= |log.toks| && log.toks[p..q] == Toks(WriteCode(u))
    ensures Host(w1) == Written(u, Host(w))
    ensures FlatRun(SEM, FlatOf(log), p, [], Config([], w)) == FlatRun(SEM, FlatOf(log), q, [], Config([], w1))
  {
    hide WriteCode, Written, Host, FlatRun, FlatOf, RunOps;
    var c1 := RunWrite(u, Config([], w));
    FlatOps(log, p, WriteCode(u), Config([], w), c1);
    w1 := c1.world;
    assert c1 == Config([], w1);
    assert q == p + |WriteCode(u)|;
  }

  lemma RunBranchAt(log: Log, p: nat, pi: nat, c: Cfg, v: bv32, target: nat)
    requires p < |log.toks| && log.toks[p] == Branch(true, pi) && c.stack == []
    requires pi < |log.dests| && 0 <= log.dests[pi] < |log.marks| && log.marks[log.dests[pi]] == target
    requires p < target <= |log.toks|
    ensures FlatRun(SEM, FlatOf(log), p, [], Push(c, v))
         == FlatRun(SEM, FlatOf(log), if v != 0 then target else p + 1, [], c)
  {
    var f := FlatOf(log);
    assert f.code[p] == Item.Jump(true, log.dests[pi], Open(log.toks, p));
    assert PopBool(Push(c, v).stack) == Some((v != 0, [])) by {
      assert ([] + [Value.I32(v)])[..0] == [];
    }
  }

  lemma RunJumpAt(log: Log, p: nat, q: nat, u: Uop, pi: nat, w: Locals, target: nat) returns (w1: Locals)
    requires UopOk(u) && IsJump(u) && p <= q <= |log.toks| && log.toks[p..q] == Toks(CondCode(u)) + [Branch(true, pi)]
    requires pi < |log.dests| && 0 <= log.dests[pi] < |log.marks| && log.marks[log.dests[pi]] == target
    requires q <= target <= |log.toks|
    ensures Host(w1) == Host(w)
    ensures FlatRun(SEM, FlatOf(log), p, [], Config([], w))
         == FlatRun(SEM, FlatOf(log), if Taken(u, Host(w)) then target else q, [], Config([], w1))
  {
    hide CondCode, Host, Taken, FlatRun, FlatOf, RunOps;
    var c := Config([], w);
    var c1, v := RunCond(u, c);
    var n := |CondCode(u)|;
    assert log.toks[p..p + n] == Toks(CondCode(u)) by {
      assert log.toks[p..q][..n] == log.toks[p..p + n];
    }
    assert log.toks[p + n] == log.toks[p..q][n];
    FlatOps(log, p, CondCode(u), c, Push(c1, v));
    RunBranchAt(log, p + n, pi, c1, v, target);
    w1 := c1.world;
    assert c1 == Config([], w1);
  }

  lemma RunReturnAt(log: Log, p: nat, w: Locals)
    requires p < |log.toks| && log.toks[p] == Did(Return)
    ensures FlatRun(SEM, FlatOf(log), p, [], Config([], w)) == Finished(w)
  {
    assert FlatOf(log).code[p] == Ins(Return);
  }

  lemma FlatStep(f: Flat, p: nat, hs: seq<nat>, c: Cfg, i: Instr)
    requires p < |f.code| && f.code[p] == Ins(i)
    ensures FlatRun(SEM, f, p, hs, c) == FlatFollow(SEM, f, p + 1, EffectOf(SEM, i, hs, c))
  {
  }

  // if; return; end
  lemma RunGuardAt(log: Log, p: nat, w: Locals, taken: bool)
    requires p + 3 <= |log.toks| && log.toks[p..p + 3] == [Did(If), Did(Return), Did(End)]
    ensures FlatRun(SEM, FlatOf(log), p, [], Push(Config([], w), OfBool(taken)))
         == if taken then Finished(w) else FlatRun(SEM, FlatOf(log), p + 3, [], Config([], w))
  {
    var f, c, c' := FlatOf(log), Push(Config([], w), OfBool(taken)), Config([], w);
    assert log.toks[p] == log.toks[p..p + 3][0] && log.toks[p + 1] == log.toks[p..p + 3][1] && log.toks[p + 2] == log.toks[p..p + 3][2];
    assert f.code[p] == Ins(If) && f.code[p + 1] == Ins(Return) && f.code[p + 2] == Ins(End);
    hide FlatRun, FlatOf;
    FlatStep(f, p, [], c, If);
    FlatStep(f, p + 1, [0], c', Return);
    assert FlatAfterIf(f.code, p + 1, 0) == Some((false, p + 3));
    assert PopBool(c.stack) == Some((taken, [])) by {
      assert ([] + [Value.I32(OfBool(taken))])[..0] == [];
    }
    assert EffectOf(SEM, If, [], c) == if taken then Next([0], c') else SkipThen([], c');
  }

  lemma RunCondExitAt(log: Log, p: nat, q: nat, u: Uop, w: Locals)
    requires UopOk(u) && (u.CmpImmExit? || u.CmpExit?) && p <= q <= |log.toks|
    requires log.toks[p..q] == Toks(ExitCode(u)) + [Did(If), Did(Return), Did(End)]
    ensures FlatRun(SEM, FlatOf(log), p, [], Config([], w))
         == if Exits(u, Host(w)) then Finished(w) else FlatRun(SEM, FlatOf(log), q, [], Config([], w))
  {
    hide ExitCode, Host, Exits, FlatRun, FlatOf, RunOps, OfBool;
    var c := Config([], w);
    var n := |ExitCode(u)|;
    RunExitCond(u, c);
    assert log.toks[p..p + n] == Toks(ExitCode(u)) by {
      assert log.toks[p..q][..n] == log.toks[p..p + n];
    }
    assert log.toks[p + n..p + n + 3] == log.toks[p..q][n..];
    FlatOps(log, p, ExitCode(u), c, Push(c, OfBool(Exits(u, Host(w)))));
    RunGuardAt(log, p + n, w, Exits(u, Host(w)));
  }

  lemma StartsAscend(log: Log, prog: seq<Node>, lay: Layout, i: nat, j: nat)
    requires AllPlaced(log, prog, |prog|, lay) && i <= j <= |prog|
    ensures lay.starts[i] <= lay.starts[j]
    decreases j
  {
    if i < j {
      StartsAscend(log, prog, lay, i, j - 1);
      assert UopPlaced(log, prog, lay, j - 1);
    }
  }

  // The code of the uop at c does just that.
  lemma UopStep(log: Log, prog: seq<Node>, lay: Layout, c: nat, w: Locals) returns (w1: Locals)
    requires ProgOk(prog) && Complete(log, prog, lay) && c < |prog|
    ensures var next := UopNext(prog, c, Host(w)).0;
      && Host(w1) == UopNext(prog, c, Host(w)).1
      && FlatRun(SEM, FlatOf(log), lay.starts[c], [], Config([], w))
         == if next.Some? then FlatRun(SEM, FlatOf(log), lay.starts[next.value], [], Config([], w1)) else Finished(w1)
  {
    hide CodeToks, WriteCode, CondCode, ExitCode, Written, Host, Taken, Exits, FlatRun, FlatOf, RunOps;
    var u, p, q := prog[c].uop, lay.starts[c], lay.starts[c + 1];
    assert UopPlaced(log, prog, lay, c) && NodeOk(prog, c);
    CodeOf(u, PatchNo(lay, c));
    if Writes(u) {
      w1 := RunWriteAt(log, p, q, u, w);
    } else if IsJump(u) {
      assert BoundTo(log, prog, lay, c, prog[c].dest);
      StartsAscend(log, prog, lay, c + 1, prog[c].dest);
      StartsAscend(log, prog, lay, prog[c].dest, |prog|);
      w1 := RunJumpAt(log, p, q, u, PatchNo(lay, c), w, lay.starts[prog[c].dest]);
    } else {
      w1 := w;
      if u.Exit? {
        assert log.toks[p] == log.toks[p..q][0];
        RunReturnAt(log, p, w);
        ExitAlways(Host(w));
      } else {
        RunCondExitAt(log, p, q, u, w);
      }
    }
  }

  // From uop c on, the flat body leaves the host registers as the uops do.
  lemma {:induction false} FlatMeaning(log: Log, prog: seq<Node>, lay: Layout, c: nat, w: Locals) returns (w': Locals)
    requires ProgOk(prog) && Complete(log, prog, lay) && c <= |prog|
    ensures FlatRun(SEM, FlatOf(log), lay.starts[c], [], Config([], w)) == Finished(w')
    ensures Host(w') == Interp(prog, c, Host(w))
    decreases |prog| - c
  {
    if c == |prog| {
      w' := w;
    } else {
      hide FlatRun, FlatOf, UopNext, Host;
      w' := UopStep(log, prog, lay, c, w);
      var next := UopNext(prog, c, Host(w)).0;
      if next.Some? {
        w' := FlatMeaning(log, prog, lay, next.value, w');
      }
    }
  }

  lemma CodeOf(u: Uop, patch: nat)
    ensures CodeToks(u, patch) ==
      if Writes(u) then Toks(WriteCode(u))
      else if IsJump(u) then Toks(CondCode(u)) + [Branch(true, patch)]
      else if u.Exit? then [Did(Return)]
      else Toks(ExitCode(u)) + [Did(If), Did(Return), Did(End)]
  {
  }

  lemma ExitAlways(regs: Regs)
    ensures Exits(Uop.Exit, regs)
  {
  }

  lemma EveryPatchBound(log: Log, prog: seq<Node>, lay: Layout)
    requires ProgOk(prog) && Complete(log, prog, lay)
    ensures AllBound(log)
  {
    forall pi | 0 <= pi < |log.dests| ensures log.dests[pi] >= 0 {
      assert OwnerOk(prog, |prog|, lay, pi);
      assert BoundTo(log, prog, lay, lay.owner[pi], prog[lay.owner[pi]].dest);
    }
  }

  // ---- the whole way ---------------------------------------------------------------

  // The bytes of the module, read and run, leave the host registers as the uops do.
  lemma ModuleMeaning(log: Log, prog: seq<Node>, lay: Layout, w: Locals)
    requires LogOk(log) && Closed(log) && ProgOk(prog) && Complete(log, prog, lay)
    requires |Concat(log.spans)| <= WJIT_BODY_CAP && |log.marks| <= WJIT_MAX_LABELS
    ensures RunsAs(ModuleBytes(ModuleOf(log)), prog, w)
  {
    EveryPatchBound(log, prog, lay);
    hide LogOk, ModuleBytes, ModuleOf, FunctionOf, FlatRun, FlatOf, Host, Interp;
    ModuleRunsAsEmitted(log, SEM, w);
    var w' := FlatMeaning(log, prog, lay, 0, w);
  }

  lemma BuiltMeaning(log: Log, prog: seq<Node>, lay: Layout, bytes: seq<Byte>)
    requires LogOk(log) && Closed(log) && ProgOk(prog) && Complete(log, prog, lay)
    requires |Concat(log.spans)| <= WJIT_BODY_CAP && |log.marks| <= WJIT_MAX_LABELS
    requires |log.toks| == |log.spans| && AllBound(log) && bytes == ModuleBytes(ModuleOf(log))
    ensures forall w: Locals :: RunsAs(bytes, prog, w)
  {
    hide RunsAs, LogOk, Closed, Complete;
    forall w: Locals ensures RunsAs(bytes, prog, w) {
      ModuleMeaning(log, prog, lay, w);
    }
  }

  lemma LogFits(b: BackendState, prog: seq<Node>, lay: Layout)
    requires b.Valid() && b.Ok() && ProgOk(prog) && Complete(b.log, prog, lay)
    ensures AllBound(b.log) && |b.log.toks| == |b.log.spans|
    ensures |FinalBytes(b.log)| <= WJIT_FINAL_CAP && |ModuleBytes(ModuleOf(b.log))| <= WJIT_MODULE_CAP
    ensures LogOk(b.log) && |Concat(b.log.spans)| <= WJIT_BODY_CAP && |b.log.marks| <= WJIT_MAX_LABELS
  {
    EveryPatchBound(b.log, prog, lay);
    AlwaysFits(b.log);
  }

  // A jump to uop 1, itself a jump, and past it to a move.
  const JUMP_TO_JUMP: seq<Node> := [
    Node(CmpImmJump(true, Reg(0, L), 0), 1),
    Node(CmpImmJump(true, Reg(1, L), 0), 3),
    Node(MovImm(Reg(2, L), 5), 0)]

  // Its first jump is bound past the second, so the move is lost when only the first is taken.
  lemma JumpToJumpGoesWrong()
    ensures ProgOk(JUMP_TO_JUMP) && ProgOk(Threaded(JUMP_TO_JUMP)) && !NoJumpToJump(JUMP_TO_JUMP)
    ensures var regs: Regs := seq(HOST_REGS, _ => 0)[1 := 1];
      Interp(JUMP_TO_JUMP, 0, regs)[2] == 5 && Interp(Threaded(JUMP_TO_JUMP), 0, regs)[2] == 0
  {
    var prog := JUMP_TO_JUMP;
    var regs: Regs := seq(HOST_REGS, _ => 0)[1 := 1];
    forall c | 0 <= c < 3 ensures NodeOk(prog, c) {
      assert c == 0 || c == 1 || c == 2;
    }
    ThreadedOk(prog);
    assert Jumps(prog, 0) && Jumps(prog, prog[0].dest);
    var q := Threaded(prog);
    assert Final(prog, 1) == 3 && Final(prog, 0) == 3;
    assert q[0] == Node(CmpImmJump(true, Reg(0, L), 0), 3);
    assert Taken(prog[0].uop, regs) && !Taken(prog[1].uop, regs);
    assert Interp(prog, 0, regs) == Interp(prog, 1, regs) == Interp(prog, 2, regs);
    var set5 := Written(prog[2].uop, regs);
    assert Interp(prog, 2, regs) == Interp(prog, 3, set5) == set5 && set5[2] == 5;
    assert Interp(q, 0, regs) == Interp(q, 3, regs) == regs;
  }

  // codegen_ir_compile over the wasm backend. A module that gets built does what the uops
  // with their jumps threaded mean, from any values of the registers, and so what the uops
  // mean if no jump goes to a jump; when none is built the block stays interpreted. One is
  // built for every block of as many uops as there can be that the cost model accepts.
  method CompileBlock(prog: seq<Node>, stats: BlockStats, moduleBuf: array<Byte>) returns (v: Verdict)
    requires ProgOk(prog) && moduleBuf.Length == WJIT_MODULE_CAP
    modifies moduleBuf
    ensures ProgOk(Threaded(prog))
    ensures v.Built? ==> Worth(stats).Built? && v.len <= moduleBuf.Length
    ensures v.Built? ==> forall w: Locals :: RunsAs(moduleBuf[..v.len], Threaded(prog), w)
    ensures v.Built? && NoJumpToJump(prog) ==> forall w: Locals :: RunsAs(moduleBuf[..v.len], prog, w)
    ensures v == NotWorth || v == TooCold ==> v == Worth(stats)
    ensures |prog| <= UOP_NR_MAX && Worth(stats).Built? ==> v.Built?
  {
    hide RunsAs, LogOk, ModuleBytes, ModuleOf, Complete, Threaded, NoJumpToJump, ProgOk, FinalBytes, AllBound;
    ThreadedOk(prog);
    ThreadedSame(prog);
    var b := new BackendState();
    ghost var lay := EmitAll(b, prog);
    if b.Ok() {
      LogFits(b, Threaded(prog), lay);
    }
    v := Epilogue(b, stats, moduleBuf);
    if v.Built? {
      BuiltMeaning(b.log, Threaded(prog), lay, moduleBuf[..v.len]);
    }
  }
}
