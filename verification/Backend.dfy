// wasm/jit/codegen_backend_wasm.c: the emission state of one block, jump patches and
// labels, and the epilogue that rebuilds the body and wraps it in a module.
module Backend {
  import opened Common
  import opened Leb128
  import opened Wasm
  import opened Emitter
  import opened JumpRewrite
  import opened EmitLog
  import opened WasmModule

  const WJIT_BODY_CAP := 512 * 1024
  const WJIT_FINAL_CAP := WJIT_BODY_CAP + 64 * 1024
  const WJIT_MODULE_CAP := WJIT_FINAL_CAP + 4096
  const UOP_NR_MAX := 4096
  const WJIT_MAX_LABELS := UOP_NR_MAX + 16
  const WJIT_MAX_PATCHES := UOP_NR_MAX * 2 + 32
  const WTYPE_V_V := 0
  const WJIT_N_I64 := 10
  const WJIT_N_F64 := 12
  const WJIT_N_I32 := 25

  // dest is a label index, -1 until bound.
  datatype Patch = Patch(operandPos: nat, dest: int, extraDepth: int)

  class BackendState {
    const body: WasmEmit
    const labels: array<nat>
    const patches: array<Patch>
    var nLabels: nat
    var nPatches: nat
    var emitFailed: bool
    ghost var log: Log

    // codegen_backend_prologue, for a block without FPU instructions
    constructor ()
      ensures Valid() && Ok() && log == EMPTY
      ensures fresh(body) && fresh(body.buf) && fresh(labels) && fresh(patches)
    {
      var bodyBuf := new Byte[WJIT_BODY_CAP];
      body := new WasmEmit(bodyBuf);
      labels := new nat[WJIT_MAX_LABELS];
      patches := new Patch[WJIT_MAX_PATCHES];
      nLabels, nPatches, emitFailed := 0, 0, false;
      log := EMPTY;
    }

    ghost predicate Ok()
      reads this, body
    {
      !emitFailed && !body.failed
    }

    // Positions are byte offsets of what the log places by token.
    ghost predicate Tables()
      reads this, labels, patches
      requires LogOk(log)
    {
      && nLabels == |log.marks| <= labels.Length && nPatches == |log.sites| <= patches.Length
      && (forall l :: 0 <= l < nLabels ==> labels[l] == Offset(log.spans, log.marks[l]))
      && (forall pi :: 0 <= pi < nPatches ==> patches[pi] == PatchOf(log, pi))
    }

    ghost predicate Valid()
      reads this, body, body.buf, labels, patches
    {
      && body.Valid() && body.buf.Length == WJIT_BODY_CAP
      && labels.Length == WJIT_MAX_LABELS && patches.Length == WJIT_MAX_PATCHES
      && nLabels <= labels.Length && nPatches <= patches.Length
      && LogOk(log) && body.depth == Open(log.toks, |log.toks|)
      && Holds(Concat(log.spans)) && (Ok() ==> Tables())
    }

    // The body holds these bytes, or has failed because they do not fit.
    ghost predicate Holds(bs: seq<Byte>)
      requires body.Valid()
      reads this, body, body.buf
    {
      if body.failed then |bs| > WJIT_BODY_CAP else body.Contents() == bs
    }

    // Enter an instruction whose bytes the body has just been given.
    ghost method Note(i: Instr, bs: seq<Byte>)
      requires body.Valid() && body.buf.Length == WJIT_BODY_CAP
      requires labels.Length == WJIT_MAX_LABELS && patches.Length == WJIT_MAX_PATCHES
      requires nLabels <= labels.Length && nPatches <= patches.Length
      requires LogOk(log) && Spells(bs, i) && |bs| > 0
      requires StaysInside(i, Open(log.toks, |log.toks|))
      requires body.depth == TokNest(Did(i), Open(log.toks, |log.toks|))
      requires Holds(Concat(log.spans) + bs) && (Ok() ==> Tables())
      modifies this`log
      ensures Valid() && log == Emitted(old(log), i, bs)
    {
      EmittedOk(log, i, bs);
      AppendKeeps(log, Emitted(log, i, bs), Did(i), bs);
      log := Emitted(log, i, bs);
    }

    method Local(op: Byte, idx: nat)
      requires Valid() && WOP_LOCAL_GET <= op <= WOP_LOCAL_TEE && idx < 0x1_0000_0000
      modifies this`log, body, body.buf
      ensures Valid() && (Ok() ==> old(Ok()))
      ensures log == Emitted(old(log), Plain(LocalOp(op, idx)), [op] + ULeb(idx))
    {
      body.EmitLocal(op, idx);
      SpellsLocal(op, idx);
      Note(Plain(LocalOp(op, idx)), [op] + ULeb(idx));
    }

    method I32(v: bv32)
      requires Valid()
      modifies this`log, body, body.buf
      ensures Valid() && (Ok() ==> old(Ok()))
      ensures log == Emitted(old(log), Plain(I32Const(v)), [WOP_I32_CONST] + I32Bytes(v))
    {
      body.EmitI32Const(v);
      SpellsI32Const(v);
      Note(Plain(I32Const(v)), [WOP_I32_CONST] + I32Bytes(v));
    }

    method Op(op: Byte)
      requires Valid() && IsSimpleCode(op)
      modifies this`log, body, body.buf
      ensures Valid() && (Ok() ==> old(Ok()))
      ensures log == Emitted(old(log), Plain(Simple(op)), [op])
    {
      body.EmitOp(op);
      SpellsSimple(op);
      Note(Plain(Simple(op)), [op]);
    }

    // Inline codegen_exit_rout.
    method EmitExit()
      requires Valid()
      modifies this`log, body, body.buf
      ensures Valid() && (Ok() ==> old(Ok()))
      ensures log == Emitted(old(log), Return, [WOP_RETURN])
    {
      body.EmitOp(WOP_RETURN);
      SpellsControl();
      Note(Return, [WOP_RETURN]);
    }

    method OpenIf()
      requires Valid()
      modifies this`log, body, body.buf
      ensures Valid() && (Ok() ==> old(Ok()))
      ensures log == Emitted(old(log), If, [WOP_IF, WBT_VOID])
    {
      body.EmitOpen(WOP_IF);
      SpellsControl();
      Note(If, [WOP_IF, WBT_VOID]);
    }

    method CloseIf()
      requires Valid() && body.depth > 0
      modifies this`log, body, body.buf
      ensures Valid() && (Ok() ==> old(Ok()))
      ensures log == Emitted(old(log), End, [WOP_END])
    {
      body.EmitEnd();
      SpellsControl();
      Note(End, [WOP_END]);
    }

    // wjit_emit_br_patch: a branch with a placeholder depth; the result is the handle, the
    // number of the patch record plus one.
    method EmitBrPatch(isConditional: bool) returns (handle: nat)
      requires Valid()
      modifies this, body, body.buf, patches
      ensures Valid() && (Ok() ==> old(Ok()))
      ensures Ok() ==> handle == |log.sites|
      ensures log == if old(nPatches) < WJIT_MAX_PATCHES then Branched(old(log), isConditional) else old(log)
      ensures emitFailed == (old(emitFailed) || old(nPatches) >= WJIT_MAX_PATCHES)
    {
      if nPatches >= WJIT_MAX_PATCHES {
        emitFailed := true;
        return 1;
      }
      body.EmitByte(BranchCode(isConditional));
      patches[nPatches] := Patch(body.pos, -1, body.depth);
      body.EmitBytes(PLACEHOLDER);
      nPatches := nPatches + 1;
      Associate(Concat(log.spans), [BranchCode(isConditional)], PLACEHOLDER);
      NoteBranch(isConditional);
      return nPatches;
    }

    // Enter a branch whose bytes and patch record have just been written.
    ghost method NoteBranch(cond: bool)
      requires body.Valid() && body.buf.Length == WJIT_BODY_CAP
      requires labels.Length == WJIT_MAX_LABELS && patches.Length == WJIT_MAX_PATCHES
      requires nLabels <= labels.Length && nPatches <= patches.Length
      requires LogOk(log) && body.depth == Open(log.toks, |log.toks|)
      requires Ok() ==>
        && nLabels == |log.marks| && nPatches == |log.sites| + 1
        && (forall l :: 0 <= l < nLabels ==> labels[l] == Offset(log.spans, log.marks[l]))
        && (forall pi :: 0 <= pi < |log.sites| ==> patches[pi] == PatchOf(log, pi))
        && patches[|log.sites|] == Patch(|Concat(log.spans)| + 1, -1, body.depth)
      requires Holds(Concat(log.spans) + ([BranchCode(cond)] + PLACEHOLDER))
      modifies this`log
      ensures Valid() && log == Branched(old(log), cond)
    {
      hide LogOk, Offset, PatchOf, Open, Concat;
      BranchedOk(log, cond);
      BranchKeeps(log, cond);
      log := Branched(log, cond);
    }

    // codegen_set_jump_dest: bind a patch to a label here, between two handlers.
    method SetJumpDest(handle: nat)
      requires Valid() && Open(log.toks, |log.toks|) == 0
      modifies this, labels, patches
      ensures Valid() && (Ok() ==> old(Ok()))
      ensures Ok() ==> 1 <= handle <= |old(log).sites| && log == Bound(old(log), handle - 1)
      ensures log.toks == old(log.toks)
      ensures old(Ok()) && 1 <= handle <= |old(log).sites| && |old(log).marks| < WJIT_MAX_LABELS ==> Ok()
    {
      var patchIdx := handle - 1;
      if patchIdx < 0 || patchIdx >= nPatches {
        Fail();
        return;
      }
      hide LogOk, Marked, MarkedHere, Bound, Open, Tables;
      var placed := LabelHere();
      if !placed {
        Fail();
        return;
      }
      BindToLast(patchIdx, old(log));
    }

    method Fail()
      requires Valid()
      modifies this`emitFailed
      ensures Valid() && !Ok()
    {
      emitFailed := true;
    }

    method BindToLast(patchIdx: nat, ghost before: Log)
      requires Valid() && nLabels > 0 && patchIdx < nPatches
      requires if Ok() then log == Marked(before) && MarkedHere(log) else log.toks == before.toks
      modifies this`log, patches
      ensures Valid() && log.toks == before.toks && emitFailed == old(emitFailed)
      ensures Ok() ==> patchIdx < |before.sites| && log == Bound(before, patchIdx)
    {
      hide LogOk, Offset, PatchOf, Open, Concat, Marked;
      if Ok() {
        MarkedBetween(log);
        BoundOk(log, patchIdx);
        BoundPatches(log, patchIdx);
      }
      patches[patchIdx] := patches[patchIdx].(dest := nLabels - 1);
      if Ok() {
        log := Bound(log, patchIdx);
      }
    }

    // Put a label here unless the last one already is; false when the table is full.
    method LabelHere() returns (placed: bool)
      requires Valid() && Open(log.toks, |log.toks|) == 0
      modifies this`nLabels, this`log, labels
      ensures Valid() && nPatches == old(nPatches) && emitFailed == old(emitFailed)
      ensures placed ==> nLabels > 0
      ensures placed && Ok() ==> log == Marked(old(log)) && MarkedHere(log)
      ensures !placed || !Ok() ==> log == old(log)
      ensures Ok() && |old(log).marks| < WJIT_MAX_LABELS ==> placed
    {
      hide LogOk, Offset, Open, Concat;
      if Ok() {
        LastLabelHere(log);
      }
      if nLabels == 0 || labels[nLabels - 1] != body.pos {
        if nLabels >= WJIT_MAX_LABELS {
          return false;
        }
        AddLabel();
      }
      return true;
    }

    method AddLabel()
      requires Valid() && Open(log.toks, |log.toks|) == 0 && nLabels < WJIT_MAX_LABELS
      requires Ok() ==> !MarkedHere(log)
      modifies this`nLabels, this`log, labels
      ensures Valid() && nPatches == old(nPatches) && emitFailed == old(emitFailed) && nLabels > 0
      ensures log == if Ok() then Marked(old(log)) else old(log)
    {
      labels[nLabels] := body.pos;
      nLabels := nLabels + 1;
      if Ok() {
        MarkedOk(log);
        OffsetTotal(log.spans);
        log := Marked(log);
      }
    }

    // The first check of the epilogue: every patch is bound to a label.
    method CheckBound() returns (bound: bool)
      requires Valid() && Ok()
      ensures bound == AllBound(log)
    {
      for pi := 0 to nPatches
        invariant forall j :: 0 <= j < pi ==> log.dests[j] >= 0
      {
        assert patches[pi] == PatchOf(log, pi);
        if patches[pi].dest < 0 {
          return false;
        }
      }
      return true;
    }

    // The second check: label positions ascend.
    method CheckAscending() returns (ascending: bool)
      requires nLabels <= labels.Length
      ensures ascending == forall li :: 1 <= li < nLabels ==> labels[li - 1] < labels[li]
    {
      for li := 1 to if nLabels == 0 then 1 else nLabels
        invariant forall j :: 1 <= j < li ==> labels[j - 1] < labels[j]
      {
        if labels[li] <= labels[li - 1] {
          return false;
        }
      }
      return true;
    }

    // The nesting at the br site plus the labels that end strictly between it and its target.
    method CountDepth(pi: nat) returns (depth: int)
      requires LogOk(log) && Tables() && pi < nPatches && log.dests[pi] >= 0
      ensures log.sites[pi] < |log.toks| && log.toks[log.sites[pi]].Branch?
      ensures depth == BranchDepth(log, log.sites[pi])
    {
      var p := patches[pi];
      assert SiteOk(log, pi);
      ghost var site, dest, k := log.sites[pi], log.dests[pi], Passed(log.marks, log.sites[pi]);
      LabelsAround(log, site, dest);
      var targetPos := labels[p.dest];
      depth := p.extraDepth;
      for li := 0 to nLabels
        invariant depth == p.extraDepth + (if li <= k then 0 else if li <= dest then li - k else dest - k)
      {
        if labels[li] > p.operandPos && labels[li] < targetPos {
          depth := depth + 1;
        }
      }
    }

    // Overwrite a placeholder with a depth padded to five bytes.
    method WriteDepth(pos: nat, depth: nat)
      requires body.Valid() && pos + 5 <= body.pos && depth < 0x1_0000_0000
      modifies body.buf
      ensures body.Contents() == old(body.Contents())[..pos] + ULeb5(depth) + old(body.Contents())[pos + 5..]
    {
      ShiftsCompose(depth);
      body.buf[pos] := 0x80 + depth % 0x80;
      body.buf[pos + 1] := 0x80 + depth / 0x80 % 0x80;
      body.buf[pos + 2] := 0x80 + depth / 0x4000 % 0x80;
      body.buf[pos + 3] := 0x80 + depth / 0x20_0000 % 0x80;
      body.buf[pos + 4] := depth / 0x1000_0000 % 0x80;
    }

    // The first n bytes of the body, while they are being patched.
    ghost predicate Patched(m: nat)
      requires LogOk(log)
      reads this, body, body.buf
    {
      body.Valid() && body.Contents() == Concat(PatchedSpans(log, m))
    }

    method PatchOne(pi: nat)
      requires LogOk(log) && Tables() && pi < nPatches && log.dests[pi] >= 0
      requires |Concat(log.spans)| <= WJIT_BODY_CAP && |log.marks| <= WJIT_MAX_LABELS
      requires Patched(pi)
      modifies body.buf
      ensures Patched(pi + 1)
    {
      var depth := CountDepth(pi);
      DepthSmall(log, log.sites[pi]);
      PatchStep(log, pi);
      assert patches[pi] == PatchOf(log, pi);
      var o := patches[pi].operandPos;
      ghost var before := body.Contents();
      WriteDepth(o, depth);
      assert body.Contents() == before[..o] + ULeb5(depth) + before[o + 5..];
    }

    // Patch every br placeholder with its real depth.
    method PatchDepths()
      requires Valid() && Ok() && AllBound(log)
      modifies body.buf
      ensures body.Valid() && body.Contents() == Concat(ResolvedSpans(log))
    {
      PatchedNone(log);
      for pi := 0 to nPatches
        invariant Patched(pi)
      {
        PatchOne(pi);
      }
      PatchedAll(log);
    }
  }

  // ---- the rebuild ------------------------------------------------------------------

  method OpenBlocks(f: WasmEmit, n: nat)
    requires Wrote(f, [])
    modifies f, f.buf
    ensures Wrote(f, BlocksBytes(n))
  {
    for li := 0 to n
      invariant Wrote(f, BlocksBytes(li))
    {
      f.EmitOpen(WOP_BLOCK);
    }
  }

  method PutSegment(f: WasmEmit, segment: seq<Byte>, ghost done: seq<Byte>)
    requires Wrote(f, done)
    modifies f, f.buf
    ensures Wrote(f, done + segment + [WOP_END])
  {
    PutBytes(f, segment, done);
    f.EmitEnd();
  }

  // All label blocks opened up front, and an end inserted at each label: code is the
  // patched body and offsets are the labels' places in it.
  lemma MarkNext(log: Log, p: nat, li: nat)
    requires LogOk(log) && li < |log.marks| && p == if li > 0 then log.marks[li - 1] else 0
    ensures p <= log.marks[li] <= |log.toks|
  {
  }

  method BuildFinal(f: WasmEmit, code: seq<Byte>, offsets: seq<nat>, ghost log: Log)
    requires LogOk(log) && code == Concat(ResolvedSpans(log)) && |offsets| == |log.marks|
    requires forall l :: 0 <= l < |offsets| ==> offsets[l] == Offset(log.spans, log.marks[l])
    requires Wrote(f, [])
    modifies f, f.buf
    ensures Wrote(f, FinalBytes(log))
  {
    SegmentBytes(log, 0, |log.toks|);
    assert |log.toks| == |log.spans| && Offset(log.spans, 0) == 0;
    hide LogOk, Offset, RebuildBytes, Concat, ResolvedSpans, BlocksBytes;
    OpenBlocks(f, |offsets|);
    ghost var done, p := BlocksBytes(|offsets|), 0;
    var src := 0;
    for li := 0 to |offsets|
      invariant Wrote(f, done) && p <= |log.toks| && src == Offset(log.spans, p)
      invariant p == if li > 0 then log.marks[li - 1] else 0
      invariant done + RebuildBytes(log, p, li) == FinalBytes(log)
    {
      ghost var q := log.marks[li];
      MarkNext(log, p, li);
      SegmentBytes(log, p, q);
      SegmentStep(log, p, q, li, done);
      PutSegment(f, code[src..offsets[li]], done);
      done := done + Concat(ResolvedSpans(log)[p..q]) + [WOP_END];
      p, src := q, offsets[li];
    }
    LastSegment(log, p, done);
    PutBytes(f, code[src..], done);
  }

  lemma LastSegment(log: Log, p: nat, done: seq<Byte>)
    requires LogOk(log) && p <= |log.toks|
    ensures Offset(log.spans, p) <= |Concat(ResolvedSpans(log))|
    ensures done + RebuildBytes(log, p, |log.marks|) == done + Concat(ResolvedSpans(log))[Offset(log.spans, p)..]
  {
    var all := Concat(ResolvedSpans(log));
    assert RebuildBytes(log, |log.toks|, |log.marks|) == [];
    SegmentBytes(log, p, |log.toks|);
    CopySegment(log, p, |log.toks|, |log.marks|);
    hide LogOk, Offset, RebuildBytes, ResolvedSpans, Concat;
    assert all[Offset(log.spans, p)..] == all[Offset(log.spans, p)..|all|];
  }

  ghost function PatchOf(log: Log, pi: nat): Patch
    requires LogOk(log) && pi < |log.sites|
  {
    assert SiteOk(log, pi);
    Patch(Offset(log.spans, log.sites[pi]) + 1, log.dests[pi], Open(log.toks, log.sites[pi]))
  }

  // A log with one more token agrees with the old one on old labels and patches.
  lemma AppendKeeps(log: Log, log': Log, tok: Tok, bs: seq<Byte>)
    requires LogOk(log) && LogOk(log')
    requires log'.toks == log.toks + [tok] && log'.spans == log.spans + [bs] && log'.marks == log.marks
    requires log.sites <= log'.sites && log.dests <= log'.dests
    ensures Concat(log'.spans) == Concat(log.spans) + bs
    ensures forall l :: 0 <= l < |log.marks| ==> Offset(log'.spans, log.marks[l]) == Offset(log.spans, log.marks[l])
    ensures forall pi :: 0 <= pi < |log.sites| ==> PatchOf(log', pi) == PatchOf(log, pi)
  {
    ConcatSnoc(log.spans, bs);
    forall l | 0 <= l < |log.marks|
      ensures Offset(log'.spans, log.marks[l]) == Offset(log.spans, log.marks[l])
    {
      OffsetPrefix(log.spans, [bs], log.marks[l]);
    }
    forall pi | 0 <= pi < |log.sites| ensures PatchOf(log', pi) == PatchOf(log, pi) {
      assert SiteOk(log, pi);
      OffsetPrefix(log.spans, [bs], log.sites[pi]);
      OpenPrefix(log.toks, [tok], log.sites[pi]);
    }
  }

  lemma BranchKeeps(log: Log, cond: bool)
    requires LogOk(log) && LogOk(Branched(log, cond))
    ensures Concat(Branched(log, cond).spans) == Concat(log.spans) + ([BranchCode(cond)] + PLACEHOLDER)
    ensures forall l :: 0 <= l < |log.marks| ==> Offset(Branched(log, cond).spans, log.marks[l]) == Offset(log.spans, log.marks[l])
    ensures forall pi :: 0 <= pi < |log.sites| ==> PatchOf(Branched(log, cond), pi) == PatchOf(log, pi)
    ensures PatchOf(Branched(log, cond), |log.sites|) == Patch(|Concat(log.spans)| + 1, -1, Open(log.toks, |log.toks|))
  {
    AppendKeeps(log, Branched(log, cond), Branch(cond, |log.sites|), [BranchCode(cond)] + PLACEHOLDER);
    BranchPatch(log, cond);
  }

  lemma BranchPatch(log: Log, cond: bool)
    requires LogOk(log) && LogOk(Branched(log, cond))
    ensures PatchOf(Branched(log, cond), |log.sites|) == Patch(|Concat(log.spans)| + 1, -1, Open(log.toks, |log.toks|))
  {
    var log' := Branched(log, cond);
    OffsetPrefix(log.spans, [log'.spans[|log.spans|]], |log.spans|);
    OffsetTotal(log.spans);
    OpenPrefix(log.toks, [log'.toks[|log.toks|]], |log.toks|);
  }

  // The end of the last label's offset tells whether the label is already here.
  lemma LastLabelHere(log: Log)
    requires LogOk(log)
    ensures forall l :: 0 <= l < |log.marks| ==>
      (Offset(log.spans, log.marks[l]) == |Concat(log.spans)| <==> log.marks[l] == |log.toks|)
  {
    OffsetTotal(log.spans);
    forall l | 0 <= l < |log.marks|
      ensures Offset(log.spans, log.marks[l]) == |Concat(log.spans)| <==> log.marks[l] == |log.toks|
    {
      SpansNonempty(log);
      OffsetMonotone(log.spans, log.marks[l], |log.toks|);
    }
  }

  lemma SpansNonempty(log: Log)
    requires LogOk(log)
    ensures forall p :: 0 <= p < |log.spans| ==> |log.spans[p]| > 0
  {
    forall p | 0 <= p < |log.spans| ensures |log.spans[p]| > 0 {
      assert SpanOk(log.toks[p], log.spans[p]);
    }
  }

  lemma MarkedOk(log: Log)
    requires LogOk(log) && Open(log.toks, |log.toks|) == 0
    ensures LogOk(Marked(log))
    ensures forall j :: 0 <= j < |log.sites| ==> PatchOf(Marked(log), j) == PatchOf(log, j)
  {
    var log' := Marked(log);
    forall p | 0 <= p < |log'.toks| ensures TokOk(log', p) {
      assert TokOk(log, p);
    }
    forall j | 0 <= j < |log'.sites| ensures SiteOk(log', j) {
      assert SiteOk(log, j);
    }
  }

  // Binding a patch at a label that has just been put at the end.
  lemma BoundPatches(log: Log, pi: nat)
    requires LogOk(log) && pi < |log.sites|
    requires MarkedHere(log) && LogOk(Bound(log, pi))
    ensures Bound(log, pi) == log.(dests := log.dests[pi := |log.marks| - 1])
    ensures forall j :: 0 <= j < |log.sites| ==>
      PatchOf(Bound(log, pi), j) == if j == pi then PatchOf(log, j).(dest := |log.marks| - 1) else PatchOf(log, j)
  {
  }

  lemma OffsetOrder(log: Log, p: nat, q: nat)
    requires LogOk(log) && p <= |log.toks| && q <= |log.toks|
    ensures Offset(log.spans, p) < Offset(log.spans, q) <==> p < q
  {
    SpansNonempty(log);
    if p < q {
      OffsetMonotone(log.spans, p, q);
    } else {
      OffsetMonotone(log.spans, q, p);
    }
  }

  // A branch is six bytes: a label is past its operand's first byte just when it is past it.
  lemma OffsetPastSite(log: Log, site: nat, q: nat)
    requires LogOk(log) && site < |log.toks| && log.toks[site].Branch? && q <= |log.toks|
    ensures Offset(log.spans, q) > Offset(log.spans, site) + 1 <==> q > site
  {
    SpansNonempty(log);
    OffsetStep(log.spans, site);
    assert SpanOk(log.toks[site], log.spans[site]);
    if q <= site {
      OffsetMonotone(log.spans, q, site);
    } else {
      OffsetMonotone(log.spans, site + 1, q);
    }
  }

  lemma MarkPassed(log: Log, site: nat, l: nat)
    requires LogOk(log) && l < |log.marks|
    ensures log.marks[l] <= |log.toks| && (log.marks[l] > site <==> l >= Passed(log.marks, site))
  {
    var k := Passed(log.marks, site);
    assert k < l ==> log.marks[k] < log.marks[l];
  }

  lemma MarksAscend(log: Log, l: nat, m: nat)
    requires LogOk(log) && l < |log.marks| && m < |log.marks|
    ensures log.marks[l] < log.marks[m] <==> l < m
  {
    assert m < l ==> log.marks[m] < log.marks[l];
  }

  // In offsets as in tokens: which labels lie behind a site, and which before a label.
  lemma LabelsAround(log: Log, site: nat, dest: nat)
    requires LogOk(log) && site < |log.toks| && log.toks[site].Branch? && dest < |log.marks|
    ensures forall l :: 0 <= l < |log.marks| ==>
      (Offset(log.spans, log.marks[l]) > Offset(log.spans, site) + 1 <==> l >= Passed(log.marks, site))
    ensures forall l :: 0 <= l < |log.marks| ==>
      (Offset(log.spans, log.marks[l]) < Offset(log.spans, log.marks[dest]) <==> l < dest)
  {
    assert |log.toks| == |log.spans| && forall l :: 0 <= l < |log.marks| ==> log.marks[l] <= |log.toks|;
    hide LogOk, Offset, Passed;
    forall l | 0 <= l < |log.marks|
      ensures Offset(log.spans, log.marks[l]) > Offset(log.spans, site) + 1 <==> l >= Passed(log.marks, site)
      ensures Offset(log.spans, log.marks[l]) < Offset(log.spans, log.marks[dest]) <==> l < dest
    {
      MarkPassed(log, site, l);
      MarkPassed(log, site, dest);
      OffsetPastSite(log, site, log.marks[l]);
      MarksAscend(log, l, dest);
      OffsetOrder(log, log.marks[l], log.marks[dest]);
    }
  }

  // Depths are far below the five-byte limit.
  lemma DepthSmall(log: Log, p: nat)
    requires LogOk(log) && p < |log.toks| && log.toks[p].Branch?
    requires |Concat(log.spans)| <= WJIT_BODY_CAP && |log.marks| <= WJIT_MAX_LABELS
    ensures BranchDepth(log, p) < 0x1_0000_0000
  {
    OpenAtMost(log.toks, p);
    SpansNonempty(log);
    OffsetMonotone(log.spans, 0, |log.spans|);
    OffsetTotal(log.spans);
    assert TokOk(log, p);
    assert SiteOk(log, log.toks[p].patch);
  }

  // The bytes between two positions of the patched body.
  lemma SegmentBytes(log: Log, p: nat, q: nat)
    requires LogOk(log) && p <= q <= |log.toks|
    ensures Offset(log.spans, p) <= Offset(log.spans, q) <= |Concat(ResolvedSpans(log))|
    ensures Concat(ResolvedSpans(log))[Offset(log.spans, p)..Offset(log.spans, q)] == Concat(ResolvedSpans(log)[p..q])
    ensures q == |log.toks| ==> Offset(log.spans, q) == |Concat(ResolvedSpans(log))|
  {
    var spans := ResolvedSpans(log);
    PatchedAll(log);
    SameLengthsSameOffset(log, |log.sites|, p);
    SameLengthsSameOffset(log, |log.sites|, q);
    ConcatSplit(spans, q);
    ConcatSplit(spans[..q], p);
    assert spans[..q][..p] == spans[..p] && spans[..q][p..] == spans[p..q];
    OffsetTotal(spans);
  }

  // A segment and the end behind it are the next piece of the rebuilt body.
  lemma SegmentStep(log: Log, p: nat, q: nat, li: nat, done: seq<Byte>)
    requires LogOk(log) && li < |log.marks| && q == log.marks[li] && p <= q
    requires done + RebuildBytes(log, p, li) == FinalBytes(log)
    ensures done + Concat(ResolvedSpans(log)[p..q]) + [WOP_END] + RebuildBytes(log, q, li + 1) == FinalBytes(log)
  {
    var segment := Concat(ResolvedSpans(log)[p..q]);
    CopySegment(log, p, q, li);
    Associate(done, segment, RebuildBytes(log, q, li));
    Associate(done + segment, [WOP_END], RebuildBytes(log, q, li + 1));
  }

  // ---- the epilogue ----------------------------------------------------------------

  datatype Verdict =
    | Failed            // goto fail: the block stays interpreted
    | NotWorth          // rejected for good (CODEBLOCK_WASM_NOJIT)
    | TooCold           // a port-I/O block not hot enough yet (CODEBLOCK_WASM_IO)
    | Built(len: nat)   // the module is in the module buffer

  // What the cost model looks at.
  datatype BlockStats = BlockStats(oracle: bool, callInsns: nat, ins: nat, ioInsns: nat, hits: nat, ioThreshold: nat)

  function Worth(b: BlockStats): Verdict {
    if !b.oracle && (b.callInsns > 0 || b.ins < 6) then NotWorth
    else if !b.oracle && b.ioInsns > 0 && b.hits < b.ioThreshold then TooCold
    else Built(0)
  }

  function ModuleOf(log: Log): Module
    requires |log.toks| == |log.spans|
  {
    Wrapped(WTYPE_V_V, LocalGroups(WJIT_N_I64, WJIT_N_F64, WJIT_N_I32), FinalBytes(log))
  }

  method RebuildAndWrap(b: BackendState, moduleBuf: array<Byte>) returns (v: Verdict)
    requires b.Valid() && b.Ok() && AllBound(b.log) && moduleBuf.Length == WJIT_MODULE_CAP
    requires moduleBuf != b.body.buf
    modifies b.body.buf, moduleBuf
    ensures var log := b.log;
      && v == (if |FinalBytes(log)| <= WJIT_FINAL_CAP && |ModuleBytes(ModuleOf(log))| <= WJIT_MODULE_CAP
               then Built(|ModuleBytes(ModuleOf(log))|) else Failed)
      && (v.Built? ==> moduleBuf[..v.len] == ModuleBytes(ModuleOf(log)))
  {
    b.PatchDepths();
    var code, offsets := b.body.buf[..b.body.pos], b.labels[..b.nLabels];
    var finalBuf := new Byte[WJIT_FINAL_CAP];
    var f := new WasmEmit(finalBuf);
    BuildFinal(f, code, offsets, b.log);
    if f.failed {
      return Failed;
    }
    var len := WrapModule(finalBuf[..f.pos], WTYPE_V_V, WJIT_N_I64, WJIT_N_F64, WJIT_N_I32, moduleBuf);
    return if len < 0 then Failed else Built(len);
  }

  // codegen_backend_epilogue up to the install call.
  method Epilogue(b: BackendState, stats: BlockStats, moduleBuf: array<Byte>) returns (v: Verdict)
    requires b.Valid() && moduleBuf.Length == WJIT_MODULE_CAP && moduleBuf != b.body.buf
    modifies b.body.buf, moduleBuf
    ensures b.log == old(b.log)
    ensures v.Built? <==>
      && old(b.Ok()) && Open(b.log.toks, |b.log.toks|) == 0 && Worth(stats).Built? && AllBound(b.log)
      && |FinalBytes(b.log)| <= WJIT_FINAL_CAP && |ModuleBytes(ModuleOf(b.log))| <= WJIT_MODULE_CAP
    ensures v.Built? ==> v.len == |ModuleBytes(ModuleOf(b.log))| && moduleBuf[..v.len] == ModuleBytes(ModuleOf(b.log))
    ensures v == NotWorth || v == TooCold ==> v == Worth(stats)
  {
    if b.emitFailed || b.body.failed || b.body.depth != 0 {
      return Failed;
    }
    if !Worth(stats).Built? {
      return Worth(stats);
    }
    var bound := b.CheckBound();
    if !bound {
      return Failed;
    }
    AscendingOffsets(b.log);
    var ascending := b.CheckAscending();
    assert ascending;
    v := RebuildAndWrap(b, moduleBuf);
  }

  // Labels are created in body order, so the epilogue's own check of it cannot fail.
  lemma AscendingOffsets(log: Log)
    requires LogOk(log)
    ensures forall li :: 1 <= li < |log.marks| ==> Offset(log.spans, log.marks[li - 1]) < Offset(log.spans, log.marks[li])
  {
    forall li | 1 <= li < |log.marks|
      ensures Offset(log.spans, log.marks[li - 1]) < Offset(log.spans, log.marks[li])
    {
      OffsetOrder(log, log.marks[li - 1], log.marks[li]);
    }
  }

  // ---- the buffers are large enough ------------------------------------------------------

  lemma ResolvedLength(log: Log, p: nat)
    requires LogOk(log) && p < |log.toks|
    ensures |log.toks| == |log.spans| && |ResolvedSpan(log, p)| == |log.spans[p]|
  {
    assert SpanOk(log.toks[p], log.spans[p]);
  }

  lemma AtStep(log: Log, p: nat, k: nat)
    requires LogOk(log) && At(FlatOf(log), p, k)
    ensures |log.toks| == |log.spans| && p <= |log.toks| && k <= |log.marks|
    ensures if k < |log.marks| && log.marks[k] == p then At(FlatOf(log), p, k + 1)
      else if p < |log.toks| then At(FlatOf(log), p + 1, k) else k == |log.marks|
  {
  }

  lemma {:induction false} RebuildLength(log: Log, p: nat, k: nat)
    requires LogOk(log) && At(FlatOf(log), p, k)
    ensures |RebuildBytes(log, p, k)| == |Concat(log.spans)| - Offset(log.spans, p) + (|log.marks| - k)
    decreases |log.toks| - p, |log.marks| - k
  {
    hide LogOk, Concat, ResolvedSpan, Offset, At, FlatOf;
    AtStep(log, p, k);
    if k < |log.marks| && log.marks[k] == p {
      RebuildLength(log, p, k + 1);
    } else if p == |log.toks| {
      OffsetTotal(log.spans);
    } else {
      RebuildLength(log, p + 1, k);
      OffsetStep(log.spans, p);
      ResolvedLength(log, p);
    }
  }

  lemma {:induction false} BlocksLength(n: nat)
    ensures |BlocksBytes(n)| == 2 * n
  {
    if n > 0 {
      BlocksLength(n - 1);
    }
  }

  // A body that fits its buffer, with as many labels as fit theirs, can always be rebuilt
  // in the final buffer.
  lemma FinalFits(log: Log)
    requires LogOk(log) && |Concat(log.spans)| <= WJIT_BODY_CAP && |log.marks| <= WJIT_MAX_LABELS
    ensures |FinalBytes(log)| == |Concat(log.spans)| + 3 * |log.marks| <= WJIT_FINAL_CAP
  {
    RebuildLength(log, 0, 0);
    BlocksLength(|log.marks|);
    assert log.spans[..0] == [];
  }

  lemma SizedLength(bs: seq<Byte>)
    requires |bs| < 0x8000_0000
    ensures |VecBytes(bs)| <= 5 + |bs|
  {
    Pow2Of32();
    Pow2Monotone(32, 35);
    ULebLength(|bs|, 5);
  }

  lemma TypesLength(c: nat)
    requires c <= 21
    ensures |TypesDone(Types()[..c])| <= 1 + 11 * c
    decreases c
  {
    if c == 0 {
      ULebOne(21);
    } else {
      TypesLength(c - 1);
      TypesDoneStep(Types()[..c - 1], TypeDefs()[c - 1]);
      assert Types()[..c] == Types()[..c - 1] + [RowType(TypeDefs()[c - 1])];
    }
  }

  lemma HeadLength()
    ensures |HeadBytes(WTYPE_V_V)| <= 8 + 238 + 70 + 5 + 8
  {
    TypesLength(21);
    assert Types()[..21] == Types();
    SizedLength(Vec(TypeBytes, Types()));
    ImportsSpelled();
    SizedLength(Vec(ImportBytes, IMPORTS));
    SmallSections(WTYPE_V_V);
    ULebOne(0);
    ULebOne(1);
    ULebOne(2);
    ULebOne(5);
  }

  lemma CodeLength(gs: seq<(nat, Byte)>, body: seq<Byte>)
    requires |Vec(GroupBytes, gs)| <= 19 && |body| < 0x7000_0000
    ensures |SectionBytes(10, Vec(CodeBytes, [Code(gs, body + [WOP_END])]))| <= |body| + 40
  {
    var func := Vec(GroupBytes, gs) + (body + [WOP_END]);
    VecOfOne(CodeBytes, Code(gs, body + [WOP_END]));
    SizedLength(func);
    ULebOne(1);
    SizedLength(ULeb(1) + VecBytes(func));
  }

  // The module buffer has room for every module the final buffer has room for.
  lemma ModuleFits(log: Log)
    requires |log.toks| == |log.spans| && |FinalBytes(log)| <= WJIT_FINAL_CAP
    ensures |ModuleBytes(ModuleOf(log))| <= WJIT_MODULE_CAP
  {
    var gs := LocalGroups(WJIT_N_I64, WJIT_N_F64, WJIT_N_I32);
    GroupsLength(WJIT_N_I64, WJIT_N_F64, WJIT_N_I32);
    HeadLength();
    CodeLength(gs, FinalBytes(log));
    assert ModuleBytes(ModuleOf(log)) == HeadBytes(WTYPE_V_V) + SectionBytes(10, Vec(CodeBytes, [Code(gs, FinalBytes(log) + [WOP_END])]));
  }

  // The log of a backend that has not failed fits the buffers, so the epilogue only fails
  // on an unbound patch.
  lemma AlwaysFits(log: Log)
    requires LogOk(log) && |Concat(log.spans)| <= WJIT_BODY_CAP && |log.marks| <= WJIT_MAX_LABELS
    ensures |FinalBytes(log)| <= WJIT_FINAL_CAP && |ModuleBytes(ModuleOf(log))| <= WJIT_MODULE_CAP
  {
    FinalFits(log);
    ModuleFits(log);
  }

  // ---- what the module does ------------------------------------------------------------

  // The instructions of the only function of a module, as a reader of its bytes sees them.
  function FunctionOf(bytes: seq<Byte>): Option<seq<Instr>> {
    match ReadModule(bytes)
    case None => None
    case Some(m) => if |m.codes| == 1 then Decode(m.codes[0].expr) else None
  }

  // From the bytes in the module buffer back to what was emitted: read as a module, the
  // function's body decodes, and run from any world it has the outcome of the emitted
  // code with every br taken as a jump to its label.
  lemma {:induction false} ModuleRunsAsEmitted<W>(log: Log, sem: Semantics<W>, w: W)
    requires LogOk(log) && AllBound(log) && Open(log.toks, |log.toks|) == 0
    requires |Concat(log.spans)| <= WJIT_BODY_CAP && |log.marks| <= WJIT_MAX_LABELS
    ensures var code := FunctionOf(ModuleBytes(ModuleOf(log)));
      && code.Some?
      && Exec(sem, code.value, [], Config([], w)) == FlatRun(sem, FlatOf(log), 0, [], Config([], w))
  {
    AlwaysFits(log);
    WrapRoundTrip(WTYPE_V_V, WJIT_N_I64, WJIT_N_F64, WJIT_N_I32, FinalBytes(log));
    SpansNonempty(log);
    OffsetMonotone(log.spans, 0, |log.spans|);
    OffsetTotal(log.spans);
    DecodeFinal(log);
    FlatWellFormed(log);
    RebuildPreservesMeaning(sem, FlatOf(log), w);
  }
}
