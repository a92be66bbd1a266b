// Forward jumps as nested blocks: what wasm/jit/codegen_backend_wasm.c does to a body of
// straight-line code and gotos, and why the result runs the same.
module JumpRewrite {
  import opened Common
  import opened Wasm

  // ---- the flat body ---------------------------------------------------------------

  // An emitted item: an instruction, or a br / br_if whose depth is still a placeholder.
  // label is the label it was bound to, extra the nesting the handler had open there.
  datatype Item = Ins(i: Instr) | Jump(cond: bool, dest: nat, extra: nat)

  // Labels are positions in the body: labels[l] is the index of the item they precede.
  datatype Flat = Flat(code: seq<Item>, labels: seq<nat>)

  // As Wasm.AfterEnd and Wasm.AfterIf, by position.
  function FlatAfterEnd(code: seq<Item>, p: nat, k: nat): (r: Option<nat>)
    requires p <= |code|
    ensures r.Some? ==> p <= r.value <= |code|
    decreases |code| - p
  {
    if k == 0 then Some(p)
    else if p == |code| then None
    else if code[p] == Ins(Block) || code[p] == Ins(If) then FlatAfterEnd(code, p + 1, k + 1)
    else if code[p] == Ins(End) then FlatAfterEnd(code, p + 1, k - 1)
    else FlatAfterEnd(code, p + 1, k)
  }

  function FlatAfterIf(code: seq<Item>, p: nat, k: nat): (r: Option<(bool, nat)>)
    requires p <= |code|
    ensures r.Some? ==> p < r.value.1 <= |code|
    decreases |code| - p
  {
    if p == |code| then None
    else if code[p] == Ins(Block) || code[p] == Ins(If) then FlatAfterIf(code, p + 1, k + 1)
    else if code[p] == Ins(Else) && k == 0 then Some((true, p + 1))
    else if code[p] == Ins(End) && k == 0 then Some((false, p + 1))
    else if code[p] == Ins(End) then FlatAfterIf(code, p + 1, k - 1)
    else FlatAfterIf(code, p + 1, k)
  }

  // The flat body as a program with gotos: a taken jump goes on at its label's position,
  // outside every block the handler had open, with an empty operand stack.
  function FlatRun<W>(sem: Semantics<W>, f: Flat, p: nat, hs: seq<nat>, c: Config<W>): Outcome<W>
    requires p <= |f.code|
    decreases |f.code| - p, 0
  {
    if p == |f.code| then
      if hs == [] then Finished(c.world) else Invalid
    else match f.code[p]
      case Ins(i) => FlatFollow(sem, f, p + 1, EffectOf(sem, i, hs, c))
      case Jump(cond, dest, _) =>
        match (if cond then PopBool(c.stack) else Some((true, c.stack)))
        case None => Invalid
        case Some((taken, stack)) =>
          if !taken then FlatRun(sem, f, p + 1, hs, c.(stack := stack))
          else if dest >= |f.labels| || !(p < f.labels[dest] <= |f.code|) then Invalid
          else FlatRun(sem, f, f.labels[dest], [], c.(stack := []))
  }

  function FlatFollow<W>(sem: Semantics<W>, f: Flat, p: nat, e: Effect<W>): Outcome<W>
    requires p <= |f.code|
    decreases |f.code| - p, 1
  {
    match e
    case Stop(o) => o
    case Next(hs, c) => FlatRun(sem, f, p, hs, c)
    case Leave(k, hs, c) =>
      (match FlatAfterEnd(f.code, p, k)
       case None => Invalid
       case Some(q) => FlatRun(sem, f, q, hs, c))
    case SkipThen(hs, c) =>
      (match FlatAfterIf(f.code, p, 0)
       case None => Invalid
       case Some((hasElse, q)) =>
         FlatRun(sem, f, q, if hasElse then hs + [|c.stack|] else hs, c))
  }

  // ---- what emission guarantees about a flat body ------------------------------------

  function NestAfter(item: Item, e: nat): nat {
    if item == Ins(Block) || item == Ins(If) then e + 1
    else if item == Ins(End) && e > 0 then e - 1
    else e
  }

  // How many blocks are open in front of the item at p.
  function Depth(code: seq<Item>, p: nat): nat
    requires p <= |code|
  {
    if p == 0 then 0 else NestAfter(code[p - 1], Depth(code, p - 1))
  }

  // An instruction that does not reach outside the e blocks its handler has open.
  predicate StaysInside(i: Instr, e: nat) {
    match i
    case Else => e > 0
    case End => e > 0
    case Br(d) => d < e
    case BrIf(d) => d < e
    case _ => true
  }

  // A jump goes forward and has recorded the nesting at its site.
  predicate ItemOk(f: Flat, p: nat)
    requires p < |f.code|
  {
    match f.code[p]
    case Jump(_, dest, extra) => extra == Depth(f.code, p) && dest < |f.labels| && f.labels[dest] > p
    case Ins(i) => StaysInside(i, Depth(f.code, p))
  }

  // Labels ascend strictly and sit between handlers, where no block is open.
  ghost predicate WellFormed(f: Flat) {
    && (forall l :: 0 <= l < |f.labels| ==> f.labels[l] <= |f.code| && Depth(f.code, f.labels[l]) == 0)
    && (forall l, m :: 0 <= l < m < |f.labels| ==> f.labels[l] < f.labels[m])
    && (forall p :: 0 <= p < |f.code| ==> ItemOk(f, p))
    && Depth(f.code, |f.code|) == 0
  }

  // k is the number of labels passed on the way to p.
  predicate At(f: Flat, p: nat, k: nat) {
    && p <= |f.code| && k <= |f.labels|
    && (k > 0 ==> f.labels[k - 1] <= p)
    && (k < |f.labels| ==> p <= f.labels[k])
  }

  // ---- the rebuilt body --------------------------------------------------------------

  // The depth that reaches label from a place with k labels passed: the handler's own
  // blocks, then the label blocks that end strictly before it.
  function Resolve(item: Item, k: nat): Instr {
    match item
    case Ins(i) => i
    case Jump(cond, dest, extra) =>
      var d: nat := if dest >= k then extra + (dest - k) else 0;
      if cond then BrIf(d) else Br(d)
  }

  // The body from p on: an end at every label, resolved jumps, and the function's own end.
  function Rebuild(f: Flat, p: nat, k: nat): (r: seq<Instr>)
    requires p <= |f.code| && k <= |f.labels|
    ensures |r| > 0
    decreases |f.code| - p, |f.labels| - k
  {
    if k < |f.labels| && f.labels[k] == p then [End] + Rebuild(f, p, k + 1)
    else if p == |f.code| then [End]
    else [Resolve(f.code[p], k)] + Rebuild(f, p + 1, k)
  }

  function Blocks(n: nat): (r: seq<Instr>)
    ensures |r| == n
  {
    if n == 0 then [] else [Block] + Blocks(n - 1)
  }

  // All label blocks opened at entry.
  function RebuildBody(f: Flat): seq<Instr> {
    Blocks(|f.labels|) + Rebuild(f, 0, 0)
  }

  // ---- skipping forward agrees --------------------------------------------------------

  // A position that is not at a label: its item comes next in the rebuilt body.
  ghost predicate AtItem(f: Flat, p: nat, k: nat) {
    At(f, p, k) && p < |f.code| && (k < |f.labels| ==> p < f.labels[k])
  }

  lemma RebuildStep(f: Flat, p: nat, k: nat)
    requires WellFormed(f) && AtItem(f, p, k)
    ensures Rebuild(f, p, k)[0] == Resolve(f.code[p], k)
    ensures Rebuild(f, p, k)[1..] == Rebuild(f, p + 1, k)
    ensures At(f, p + 1, k)
    ensures Depth(f.code, p + 1) == NestAfter(f.code[p], Depth(f.code, p))
    ensures f.code[p] == Ins(End) ==> Depth(f.code, p) > 0
  {
    assert ItemOk(f, p);
  }

  lemma {:induction false} AfterEndInside(f: Flat, p: nat, k: nat, j: nat) returns (q: nat)
    requires WellFormed(f) && At(f, p, k) && j <= Depth(f.code, p)
    ensures FlatAfterEnd(f.code, p, j) == Some(q)
    ensures At(f, q, k) && Depth(f.code, q) == Depth(f.code, p) - j
    ensures AfterEnd(Rebuild(f, p, k), j) == Some(Rebuild(f, q, k))
    decreases |f.code| - p
  {
    if j == 0 {
      q := p;
    } else {
      RebuildStep(f, p, k);
      q := AfterEndInside(f, p + 1, k, NestAfter(f.code[p], j));
    }
  }

  lemma EndAtLabel(f: Flat, k: nat, j: nat)
    requires WellFormed(f) && k < |f.labels| && j > 0
    ensures AfterEnd(Rebuild(f, f.labels[k], k), j) == AfterEnd(Rebuild(f, f.labels[k], k + 1), j - 1)
  {
    assert Rebuild(f, f.labels[k], k)[1..] == Rebuild(f, f.labels[k], k + 1);
  }

  lemma AfterEndStep(f: Flat, p: nat, k: nat, j: nat)
    requires WellFormed(f) && AtItem(f, p, k) && j > 0
    ensures AfterEnd(Rebuild(f, p, k), j) == AfterEnd(Rebuild(f, p + 1, k), NestAfter(f.code[p], j))
  {
    RebuildStep(f, p, k);
  }

  // From p, with the blocks open there, the ends up to and including that of label l.
  function EndsTo(f: Flat, p: nat, k: nat, l: nat): nat
    requires p <= |f.code| && k <= l
  {
    Depth(f.code, p) + (l - k) + 1
  }

  // At p with label l still to come, label k is either here or p is in front of an item.
  lemma BeforeLabel(f: Flat, p: nat, k: nat, l: nat)
    requires WellFormed(f) && At(f, p, k) && k <= l < |f.labels|
    ensures f.labels[k] == p ==> Depth(f.code, p) == 0 && (k < l ==> At(f, p, k + 1))
    ensures f.labels[k] != p ==> AtItem(f, p, k)
  {
    assert k < l ==> f.labels[k] < f.labels[k + 1];
  }

  lemma {:induction false} AfterEndLabel(f: Flat, p: nat, k: nat, l: nat)
    requires WellFormed(f) && At(f, p, k) && k <= l < |f.labels|
    ensures AfterEnd(Rebuild(f, p, k), EndsTo(f, p, k, l)) == Some(Rebuild(f, f.labels[l], l + 1))
    decreases |f.code| - p, |f.labels| - k
  {
    hide Rebuild, WellFormed, At, Depth;
    BeforeLabel(f, p, k, l);
    if f.labels[k] == p {
      EndAtLabel(f, k, l - k + 1);
      if l > k {
        AfterEndLabel(f, p, k + 1, l);
      }
    } else {
      AfterEndStep(f, p, k, EndsTo(f, p, k, l));
      RebuildStep(f, p, k);
      AfterEndLabel(f, p + 1, k, l);
    }
  }

  // With a block open, no label is here and the body has not ended.
  lemma InsideBlock(f: Flat, p: nat, k: nat)
    requires WellFormed(f) && At(f, p, k) && Depth(f.code, p) > 0
    ensures AtItem(f, p, k)
  {
    hide ItemOk;
  }

  lemma {:induction false} AfterIfInside(f: Flat, p: nat, k: nat, j: nat) returns (hasElse: bool, q: nat)
    requires WellFormed(f) && At(f, p, k) && j < Depth(f.code, p)
    ensures FlatAfterIf(f.code, p, j) == Some((hasElse, q))
    ensures At(f, q, k) && Depth(f.code, q) == Depth(f.code, p) - j - (if hasElse then 0 else 1)
    ensures AfterIf(Rebuild(f, p, k), j) == Some((hasElse, Rebuild(f, q, k)))
    decreases |f.code| - p
  {
    hide Rebuild, WellFormed, Depth;
    InsideBlock(f, p, k);
    RebuildStep(f, p, k);
    var item := f.code[p];
    if j == 0 && (item == Ins(End) || item == Ins(Else)) {
      hasElse, q := item == Ins(Else), p + 1;
    } else {
      hasElse, q := AfterIfInside(f, p + 1, k, NestAfter(item, j));
    }
  }

  // ---- simulation ------------------------------------------------------------------

  // The label blocks were all entered with an empty operand stack.
  function Zeros(n: nat): seq<nat> { seq(n, _ => 0) }

  // The same effect inside further open blocks.
  function Within<W>(outer: seq<nat>, e: Effect<W>): Effect<W> {
    match e
    case Next(hs, c) => Next(outer + hs, c)
    case Leave(k, hs, c) => Leave(k, outer + hs, c)
    case SkipThen(hs, c) => SkipThen(outer + hs, c)
    case Stop(o) => Stop(o)
  }

  lemma BranchWithin<W>(outer: seq<nat>, hs: seq<nat>, d: nat, c: Config<W>)
    requires d < |hs|
    ensures BranchEffect(outer + hs, d, c) == Within(outer, BranchEffect(hs, d, c))
  {
    var all := outer + hs;
    assert all[|all| - 1 - d] == hs[|hs| - 1 - d];
    assert all[..|all| - 1 - d] == outer + hs[..|hs| - 1 - d];
  }

  lemma EffectWithin<W>(sem: Semantics<W>, i: Instr, outer: seq<nat>, hs: seq<nat>, c: Config<W>)
    requires StaysInside(i, |hs|)
    ensures EffectOf(sem, i, outer + hs, c) == Within(outer, EffectOf(sem, i, hs, c))
  {
    match i
    case Plain(op) =>
    case Block => assert (outer + hs) + [|c.stack|] == outer + (hs + [|c.stack|]);
    case If =>
      if PopBool(c.stack).Some? {
        var h := |PopBool(c.stack).value.1|;
        assert (outer + hs) + [h] == outer + (hs + [h]);
      }
    case Else => assert (outer + hs)[..|outer + hs| - 1] == outer + hs[..|hs| - 1];
    case End => assert (outer + hs)[..|outer + hs| - 1] == outer + hs[..|hs| - 1];
    case Br(d) => BranchWithin(outer, hs, d, c);
    case BrIf(d) =>
      if PopBool(c.stack).Some? {
        BranchWithin(outer, hs, d, c.(stack := PopBool(c.stack).value.1));
      }
    case Return =>
  }

  // How an effect moves the nesting depth: what follows can deal with it.
  predicate Fits<W>(e: Effect<W>, depth: nat) {
    match e
    case Next(hs, _) => |hs| == depth
    case Leave(k, hs, _) => k <= depth && |hs| == depth - k
    case SkipThen(hs, _) => depth > 0 && |hs| == depth - 1
    case Stop(_) => true
  }

  lemma EffectFits<W>(sem: Semantics<W>, i: Instr, hs: seq<nat>, c: Config<W>)
    requires StaysInside(i, |hs|)
    ensures Fits(EffectOf(sem, i, hs, c), NestAfter(Ins(i), |hs|))
  {
  }

  lemma {:induction false} Simulate<W>(sem: Semantics<W>, f: Flat, p: nat, k: nat, hs: seq<nat>, c: Config<W>)
    requires WellFormed(f) && At(f, p, k) && Depth(f.code, p) == |hs|
    ensures Exec(sem, Rebuild(f, p, k), Zeros(|f.labels| - k) + hs, c) == FlatRun(sem, f, p, hs, c)
    decreases |f.code| - p, |f.labels| - k, 1
  {
    hide Rebuild, Exec, FlatRun, WellFormed, Depth;
    Here(f, p, k);
    if k < |f.labels| && f.labels[k] == p {
      SimulateLabel(sem, f, p, k, c);
    } else if p == |f.code| {
      SimulateEnd(sem, f, k, c);
    } else if f.code[p].Ins? {
      SimulateIns(sem, f, p, k, hs, c);
    } else {
      SimulateJump(sem, f, p, k, hs, c);
    }
  }

  lemma Here(f: Flat, p: nat, k: nat)
    requires WellFormed(f) && At(f, p, k)
    ensures k < |f.labels| && f.labels[k] == p ==> Depth(f.code, p) == 0
    ensures p == |f.code| ==> Depth(f.code, p) == 0 && (k < |f.labels| ==> f.labels[k] == p)
  {
  }

  lemma SimulateEnd<W>(sem: Semantics<W>, f: Flat, k: nat, c: Config<W>)
    requires k == |f.labels|
    ensures Exec(sem, Rebuild(f, |f.code|, k), Zeros(0) + [], c) == FlatRun(sem, f, |f.code|, [], c)
  {
  }

  lemma {:induction false} SimulateLabel<W>(sem: Semantics<W>, f: Flat, p: nat, k: nat, c: Config<W>)
    requires WellFormed(f) && At(f, p, k) && k < |f.labels| && f.labels[k] == p
    ensures Exec(sem, Rebuild(f, p, k), Zeros(|f.labels| - k) + [], c) == FlatRun(sem, f, p, [], c)
    decreases |f.code| - p, |f.labels| - k, 0
  {
    var n := |f.labels| - k;
    assert Rebuild(f, p, k)[1..] == Rebuild(f, p, k + 1);
    assert (Zeros(n) + [])[..n - 1] == Zeros(n - 1) + [];
    Simulate(sem, f, p, k + 1, [], c);
  }

  lemma {:induction false} SimulateIns<W>(sem: Semantics<W>, f: Flat, p: nat, k: nat, hs: seq<nat>, c: Config<W>)
    requires WellFormed(f) && AtItem(f, p, k) && Depth(f.code, p) == |hs| && f.code[p].Ins?
    ensures Exec(sem, Rebuild(f, p, k), Zeros(|f.labels| - k) + hs, c) == FlatRun(sem, f, p, hs, c)
    decreases |f.code| - p, |f.labels| - k, 0
  {
    var i := f.code[p].i;
    assert ItemOk(f, p);
    RebuildStep(f, p, k);
    EffectWithin(sem, i, Zeros(|f.labels| - k), hs, c);
    EffectFits(sem, i, hs, c);
    SimulateFollow(sem, f, p + 1, k, EffectOf(sem, i, hs, c));
  }

  lemma {:induction false} SimulateFollow<W>(sem: Semantics<W>, f: Flat, p: nat, k: nat, e: Effect<W>)
    requires WellFormed(f) && At(f, p, k) && Fits(e, Depth(f.code, p))
    ensures Follow(sem, Rebuild(f, p, k), Within(Zeros(|f.labels| - k), e)) == FlatFollow(sem, f, p, e)
    decreases |f.code| - p, |f.labels| - k, 2
  {
    match e
    case Next(hs, c) =>
      Simulate(sem, f, p, k, hs, c);
    case Leave(n, hs, c) =>
      var q := AfterEndInside(f, p, k, n);
      Simulate(sem, f, q, k, hs, c);
    case SkipThen(hs, c) =>
      var hasElse, q := AfterIfInside(f, p, k, 0);
      var outer := Zeros(|f.labels| - k);
      if hasElse {
        assert (outer + hs) + [|c.stack|] == outer + (hs + [|c.stack|]);
        Simulate(sem, f, q, k, hs + [|c.stack|], c);
      } else {
        Simulate(sem, f, q, k, hs, c);
      }
    case Stop(_) =>
  }

  // The label blocks were all entered with an empty stack, so a branch to one empties it.
  lemma BranchToLabel<W>(n: nat, hs: seq<nat>, m: nat, c: Config<W>)
    requires m < n
    ensures BranchEffect(Zeros(n) + hs, |hs| + m, c) == Leave(|hs| + m + 1, Zeros(n - m - 1), c.(stack := []))
  {
    var all := Zeros(n) + hs;
    assert all[|all| - 1 - (|hs| + m)] == 0;
    assert all[..|all| - 1 - (|hs| + m)] == Zeros(n - m - 1);
  }

  // Whether a jump is taken, and the stack without its condition.
  function Popped<W>(item: Item, c: Config<W>): Option<(bool, seq<Value>)>
    requires item.Jump?
  {
    if item.cond then PopBool(c.stack) else Some((true, c.stack))
  }

  lemma JumpEffect<W>(sem: Semantics<W>, item: Item, k: nat, hs: seq<nat>, c: Config<W>)
    requires item.Jump? && item.dest >= k
    ensures EffectOf(sem, Resolve(item, k), hs, c) ==
      match Popped(item, c)
      case None => Stop(Invalid)
      case Some((taken, stack)) =>
        if taken then BranchEffect(hs, item.extra + (item.dest - k), c.(stack := stack))
        else Next(hs, c.(stack := stack))
  {
  }

  lemma FlatJump<W>(sem: Semantics<W>, f: Flat, p: nat, hs: seq<nat>, c: Config<W>)
    requires p < |f.code| && f.code[p].Jump? && ItemOk(f, p)
    requires f.code[p].dest < |f.labels| ==> f.labels[f.code[p].dest] <= |f.code|
    ensures FlatRun(sem, f, p, hs, c) ==
      match Popped(f.code[p], c)
      case None => Invalid
      case Some((taken, stack)) =>
        if taken then FlatRun(sem, f, f.labels[f.code[p].dest], [], c.(stack := []))
        else FlatRun(sem, f, p + 1, hs, c.(stack := stack))
  {
  }

  lemma ExecStep<W>(sem: Semantics<W>, code: seq<Instr>, rest: seq<Instr>, hs: seq<nat>, c: Config<W>)
    requires code != [] && code[1..] == rest
    ensures Exec(sem, code, hs, c) == Follow(sem, rest, EffectOf(sem, code[0], hs, c))
  {
  }

  // The label a jump goes to is still to come.
  lemma JumpAhead(f: Flat, p: nat, k: nat)
    requires WellFormed(f) && AtItem(f, p, k) && f.code[p].Jump?
    ensures ItemOk(f, p) && k <= f.code[p].dest < |f.labels| && f.labels[f.code[p].dest] <= |f.code|
    ensures f.code[p].extra == Depth(f.code, p) == Depth(f.code, p + 1)
  {
    assert ItemOk(f, p);
  }

  lemma {:induction false} SimulateJump<W>(sem: Semantics<W>, f: Flat, p: nat, k: nat, hs: seq<nat>, c: Config<W>)
    requires WellFormed(f) && AtItem(f, p, k) && Depth(f.code, p) == |hs| && f.code[p].Jump?
    ensures Exec(sem, Rebuild(f, p, k), Zeros(|f.labels| - k) + hs, c) == FlatRun(sem, f, p, hs, c)
    decreases |f.code| - p, |f.labels| - k, 0
  {
    hide Rebuild, Exec, FlatRun, EffectOf, BranchEffect, WellFormed, At, Depth, ItemOk, Resolve, Popped;
    JumpAhead(f, p, k);
    var item, outer := f.code[p], Zeros(|f.labels| - k);
    RebuildStep(f, p, k);
    ExecStep(sem, Rebuild(f, p, k), Rebuild(f, p + 1, k), outer + hs, c);
    JumpEffect(sem, item, k, outer + hs, c);
    FlatJump(sem, f, p, hs, c);
    match Popped(item, c)
    case None =>
    case Some((taken, stack)) =>
      if taken {
        SimulateTaken(sem, f, p + 1, k, item.dest, hs, c.(stack := stack));
      } else {
        Simulate(sem, f, p + 1, k, hs, c.(stack := stack));
      }
  }

  lemma FollowLeave<W>(sem: Semantics<W>, rest: seq<Instr>, k: nat, next: seq<Instr>, hs: seq<nat>, c: Config<W>)
    requires AfterEnd(rest, k) == Some(next)
    ensures Follow(sem, rest, Leave(k, hs, c)) == Exec(sem, next, hs, c)
  {
  }

  // Where a jump to label l comes out.
  lemma LabelPlace(f: Flat, p: nat, k: nat, l: nat)
    requires WellFormed(f) && At(f, p, k) && k <= l < |f.labels|
    ensures p <= f.labels[l] <= |f.code| && Depth(f.code, f.labels[l]) == 0 && At(f, f.labels[l], l + 1)
  {
  }

  lemma {:induction false} SimulateTaken<W>(sem: Semantics<W>, f: Flat, p: nat, k: nat, l: nat, hs: seq<nat>, c: Config<W>)
    requires WellFormed(f) && At(f, p, k) && Depth(f.code, p) == |hs|
    requires k <= l < |f.labels|
    ensures Follow(sem, Rebuild(f, p, k), BranchEffect(Zeros(|f.labels| - k) + hs, |hs| + (l - k), c))
         == FlatRun(sem, f, f.labels[l], [], c.(stack := []))
    decreases |f.code| - p, |f.labels| - k, 2
  {
    hide Rebuild, Follow, Exec, FlatRun, BranchEffect, AfterEnd, WellFormed, At, Depth;
    LabelPlace(f, p, k, l);
    BranchToLabel(|f.labels| - k, hs, l - k, c);
    AfterEndLabel(f, p, k, l);
    assert EndsTo(f, p, k, l) == |hs| + (l - k) + 1;
    FollowLeave(sem, Rebuild(f, p, k), EndsTo(f, p, k, l), Rebuild(f, f.labels[l], l + 1),
                Zeros(|f.labels| - (l + 1)), c.(stack := []));
    assert Zeros(|f.labels| - (l + 1)) + [] == Zeros(|f.labels| - (l + 1));
    Simulate(sem, f, f.labels[l], l + 1, [], c.(stack := []));
  }

  lemma {:induction false} EnterBlocks<W>(sem: Semantics<W>, n: nat, m: nat, code: seq<Instr>, w: W)
    requires |code| > 0
    ensures Exec(sem, Blocks(n) + code, Zeros(m), Config([], w)) == Exec(sem, code, Zeros(m + n), Config([], w))
    decreases n
  {
    if n == 0 {
      assert Blocks(0) + code == code;
    } else {
      assert (Blocks(n) + code)[1..] == Blocks(n - 1) + code;
      assert Zeros(m) + [0] == Zeros(m + 1);
      EnterBlocks(sem, n - 1, m + 1, code, w);
    }
  }

  // The rebuilt body, run as WebAssembly, has the outcome of the flat body run with
  // gotos, from any world and for any meaning of the plain instructions.
  lemma {:induction false} RebuildPreservesMeaning<W>(sem: Semantics<W>, f: Flat, w: W)
    requires WellFormed(f)
    ensures Exec(sem, RebuildBody(f), [], Config([], w)) == FlatRun(sem, f, 0, [], Config([], w))
  {
    hide Rebuild, Exec, FlatRun, ItemOk;
    var n := |f.labels|;
    EnterBlocks(sem, n, 0, Rebuild(f, 0, 0), w);
    assert Zeros(0) == [];
    assert Zeros(0 + n) == Zeros(n - 0) + [];
    Simulate(sem, f, 0, 0, [], Config([], w));
  }
}
