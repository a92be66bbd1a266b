// A record of what the backend has emitted, and the byte-level rewriting of the epilogue
// stated over it: offsets instead of item positions, padded placeholders instead of depths.
module EmitLog {
  import opened Common
  import opened Leb128
  import opened Wasm
  import opened JumpRewrite

  // An emitted instruction, or a branch that waits for patch record number patch.
  datatype Tok = Did(i: Instr) | Branch(cond: bool, patch: nat)

  // toks[i] was written as the bytes spans[i]. marks are the labels, as token positions;
  // sites and dests give, for each patch record, its token and its label (-1 if unbound).
  datatype Log = Log(toks: seq<Tok>, spans: seq<seq<Byte>>, marks: seq<nat>, sites: seq<nat>, dests: seq<int>)

  const PLACEHOLDER: seq<Byte> := [0x80, 0x80, 0x80, 0x80, 0x00]

  function BranchCode(cond: bool): Byte { if cond then WOP_BR_IF else WOP_BR }

  function TokNest(tok: Tok, e: nat): nat {
    if tok == Did(Block) || tok == Did(If) then e + 1
    else if tok == Did(End) && e > 0 then e - 1
    else e
  }

  // How many blocks are open in front of token p.
  function Open(toks: seq<Tok>, p: nat): nat
    requires p <= |toks|
  {
    if p == 0 then 0 else TokNest(toks[p - 1], Open(toks, p - 1))
  }

  function Offset(spans: seq<seq<Byte>>, p: nat): nat
    requires p <= |spans|
  {
    |Concat(spans[..p])|
  }

  ghost predicate SpanOk(tok: Tok, bs: seq<Byte>) {
    |bs| > 0 &&
    match tok
    case Did(i) => Spells(bs, i)
    case Branch(cond, _) => bs == [BranchCode(cond)] + PLACEHOLDER
  }

  ghost predicate TokOk(log: Log, p: nat)
    requires p < |log.toks| && |log.sites| == |log.dests|
  {
    match log.toks[p]
    case Did(i) => StaysInside(i, Open(log.toks, p))
    case Branch(_, patch) => patch < |log.sites| && log.sites[patch] == p
  }

  // Patch record pi belongs to its branch token and leads forward once bound.
  ghost predicate SiteOk(log: Log, pi: nat)
    requires pi < |log.sites| == |log.dests|
  {
    && log.sites[pi] < |log.toks|
    && log.toks[log.sites[pi]].Branch? && log.toks[log.sites[pi]].patch == pi
    && -1 <= log.dests[pi] < |log.marks|
    && (log.dests[pi] >= 0 ==> log.marks[log.dests[pi]] > log.sites[pi])
  }

  ghost predicate MarksOk(log: Log) {
    && (forall l :: 0 <= l < |log.marks| ==> log.marks[l] <= |log.toks| && Open(log.toks, log.marks[l]) == 0)
    && (forall l, m :: 0 <= l < m < |log.marks| ==> log.marks[l] < log.marks[m])
  }

  ghost predicate LogOk(log: Log) {
    && |log.toks| == |log.spans| && |log.sites| == |log.dests|
    && (forall p :: 0 <= p < |log.toks| ==> SpanOk(log.toks[p], log.spans[p]))
    && (forall p :: 0 <= p < |log.toks| ==> TokOk(log, p))
    && (forall pi :: 0 <= pi < |log.sites| ==> SiteOk(log, pi))
    && MarksOk(log)
  }

  const EMPTY := Log([], [], [], [], [])

  // ---- growing a log ---------------------------------------------------------------

  function Emitted(log: Log, i: Instr, bs: seq<Byte>): Log {
    log.(toks := log.toks + [Did(i)], spans := log.spans + [bs])
  }

  function Branched(log: Log, cond: bool): Log {
    log.(toks := log.toks + [Branch(cond, |log.sites|)],
         spans := log.spans + [[BranchCode(cond)] + PLACEHOLDER],
         sites := log.sites + [|log.toks|], dests := log.dests + [-1])
  }

  predicate MarkedHere(log: Log) {
    |log.marks| > 0 && log.marks[|log.marks| - 1] == |log.toks|
  }

  // A label at the current position, the last one when it is already there.
  function Marked(log: Log): (r: Log)
    ensures MarkedHere(r) && r.toks == log.toks && r.spans == log.spans && r.sites == log.sites && r.dests == log.dests
  {
    if MarkedHere(log) then log else log.(marks := log.marks + [|log.toks|])
  }

  function Bound(log: Log, pi: nat): Log
    requires pi < |log.dests|
  {
    var l := Marked(log);
    l.(dests := l.dests[pi := |l.marks| - 1])
  }

  lemma {:induction false} OpenPrefix(toks: seq<Tok>, more: seq<Tok>, p: nat)
    requires p <= |toks|
    ensures Open(toks + more, p) == Open(toks, p)
    decreases p
  {
    if p > 0 {
      OpenPrefix(toks, more, p - 1);
    }
  }

  lemma EmittedOk(log: Log, i: Instr, bs: seq<Byte>)
    requires LogOk(log) && Spells(bs, i) && |bs| > 0
    requires StaysInside(i, Open(log.toks, |log.toks|))
    ensures LogOk(Emitted(log, i, bs))
    ensures Open(Emitted(log, i, bs).toks, |log.toks| + 1) == TokNest(Did(i), Open(log.toks, |log.toks|))
  {
    AppendOk(log, Emitted(log, i, bs), Did(i), bs);
  }

  lemma BranchedOk(log: Log, cond: bool)
    requires LogOk(log)
    ensures LogOk(Branched(log, cond))
    ensures Open(Branched(log, cond).toks, |log.toks| + 1) == Open(log.toks, |log.toks|)
  {
    var tok := Branch(cond, |log.sites|);
    AppendOk(log, Branched(log, cond), tok, [BranchCode(cond)] + PLACEHOLDER);
  }

  // One more token; the old tokens, marks and patch records stay as they were.
  lemma AppendOk(log: Log, log': Log, tok: Tok, bs: seq<Byte>)
    requires LogOk(log) && SpanOk(tok, bs)
    requires log'.toks == log.toks + [tok] && log'.spans == log.spans + [bs] && log'.marks == log.marks
    requires match tok
             case Did(i) => log'.sites == log.sites && log'.dests == log.dests && StaysInside(i, Open(log.toks, |log.toks|))
             case Branch(_, patch) => patch == |log.sites| && log'.sites == log.sites + [|log.toks|] && log'.dests == log.dests + [-1]
    ensures LogOk(log')
    ensures Open(log'.toks, |log'.toks|) == TokNest(tok, Open(log.toks, |log.toks|))
  {
    var n := |log.toks|;
    forall p | 0 <= p <= n ensures Open(log'.toks, p) == Open(log.toks, p) {
      OpenPrefix(log.toks, [tok], p);
    }
    forall p | 0 <= p < |log'.toks| ensures TokOk(log', p) {
      if p < n {
        assert TokOk(log, p);
      }
    }
    forall pi | 0 <= pi < |log'.sites| ensures SiteOk(log', pi) {
      if pi < |log.sites| {
        assert SiteOk(log, pi);
      }
    }
  }

  // A label is put between handlers.
  lemma MarkedBetween(log: Log)
    requires LogOk(log) && MarkedHere(log)
    ensures Open(log.toks, |log.toks|) == 0 && |log.sites| == |log.dests|
  {
  }

  lemma BoundOk(log: Log, pi: nat)
    requires LogOk(log) && pi < |log.dests| && Open(log.toks, |log.toks|) == 0
    ensures LogOk(Bound(log, pi))
  {
    var log' := Bound(log, pi);
    assert SiteOk(log, pi);
    forall p | 0 <= p < |log'.toks| ensures TokOk(log', p) {
      assert TokOk(log, p);
    }
    forall j | 0 <= j < |log'.sites| ensures SiteOk(log', j) {
      assert SiteOk(log, j);
    }
  }

  // ---- the log as a flat body --------------------------------------------------------

  ghost predicate AllBound(log: Log) {
    forall pi :: 0 <= pi < |log.dests| ==> log.dests[pi] >= 0
  }

  function ItemOf(log: Log, p: nat): Item
    requires p < |log.toks|
  {
    match log.toks[p]
    case Did(i) => Ins(i)
    case Branch(cond, pi) =>
      Jump(cond, if pi < |log.dests| && log.dests[pi] >= 0 then log.dests[pi] else 0, Open(log.toks, p))
  }

  function FlatOf(log: Log): Flat {
    Flat(seq(|log.toks|, p requires 0 <= p < |log.toks| => ItemOf(log, p)), log.marks)
  }

  lemma {:induction false} DepthIsOpen(log: Log, p: nat)
    requires p <= |log.toks|
    ensures Depth(FlatOf(log).code, p) == Open(log.toks, p)
    decreases p
  {
    if p > 0 {
      DepthIsOpen(log, p - 1);
    }
  }

  lemma FlatWellFormed(log: Log)
    requires LogOk(log) && AllBound(log) && Open(log.toks, |log.toks|) == 0
    ensures WellFormed(FlatOf(log))
  {
    var f := FlatOf(log);
    forall p | 0 <= p <= |log.toks| ensures Depth(f.code, p) == Open(log.toks, p) {
      DepthIsOpen(log, p);
    }
    forall p | 0 <= p < |f.code| ensures ItemOk(f, p) {
      assert TokOk(log, p);
      if log.toks[p].Branch? {
        assert SiteOk(log, log.toks[p].patch);
      }
    }
  }

  // ---- offsets --------------------------------------------------------------------

  lemma OffsetStep(spans: seq<seq<Byte>>, p: nat)
    requires p < |spans|
    ensures Offset(spans, p + 1) == Offset(spans, p) + |spans[p]|
  {
    assert spans[..p + 1] == spans[..p] + [spans[p]];
    ConcatSnoc(spans[..p], spans[p]);
  }

  lemma {:induction false} OffsetMonotone(spans: seq<seq<Byte>>, p: nat, q: nat)
    requires p <= q <= |spans| && forall i :: 0 <= i < |spans| ==> |spans[i]| > 0
    ensures Offset(spans, p) + (q - p) <= Offset(spans, q)
    decreases q
  {
    if p < q {
      OffsetStep(spans, q - 1);
      OffsetMonotone(spans, p, q - 1);
    }
  }

  lemma ConcatSplit(spans: seq<seq<Byte>>, p: nat)
    requires p <= |spans|
    ensures Concat(spans) == Concat(spans[..p]) + Concat(spans[p..])
    ensures Offset(spans, p) <= |Concat(spans)|
    ensures Concat(spans)[..Offset(spans, p)] == Concat(spans[..p])
    ensures Concat(spans)[Offset(spans, p)..] == Concat(spans[p..])
  {
    assert spans == spans[..p] + spans[p..];
    ConcatAppend(spans[..p], spans[p..]);
  }

  lemma OffsetTotal(spans: seq<seq<Byte>>)
    ensures Offset(spans, |spans|) == |Concat(spans)|
  {
    assert spans[..|spans|] == spans;
  }

  lemma OffsetPrefix(spans: seq<seq<Byte>>, more: seq<seq<Byte>>, p: nat)
    requires p <= |spans|
    ensures Offset(spans + more, p) == Offset(spans, p)
  {
    assert (spans + more)[..p] == spans[..p];
  }

  // Replacing one span by another of the same size replaces its bytes and no others.
  lemma ConcatUpdate(spans: seq<seq<Byte>>, p: nat, bs: seq<Byte>)
    requires p < |spans| && |bs| == |spans[p]|
    ensures var o := Offset(spans, p);
      && o + |bs| <= |Concat(spans)|
      && Concat(spans[p := bs]) == Concat(spans)[..o] + bs + Concat(spans)[o + |bs|..]
  {
    var updated := spans[p := bs];
    var o := Offset(spans, p);
    OffsetStep(spans, p);
    ConcatSplit(spans, p);
    ConcatSplit(spans, p + 1);
    ConcatSplit(updated, p);
    assert updated[..p] == spans[..p];
    assert updated[p..] == [bs] + spans[p + 1..];
    assert Concat(updated[p..]) == bs + Concat(spans[p + 1..]);
    hide Concat, Offset;
    Associate(Concat(spans[..p]), bs, Concat(spans[p + 1..]));
  }

  // ---- resolved placeholders -----------------------------------------------------------

  // The number of labels at or before position p.
  function Passed(marks: seq<nat>, p: nat): (k: nat)
    ensures k <= |marks|
    ensures forall l :: 0 <= l < k ==> marks[l] <= p
    ensures k < |marks| ==> marks[k] > p
  {
    if marks == [] || marks[0] > p then 0 else 1 + Passed(marks[1..], p)
  }

  // The branch depth at token p: its own nesting, then the labels passed over.
  function BranchDepth(log: Log, p: nat): nat
    requires p < |log.toks| && log.toks[p].Branch?
  {
    match Resolve(ItemOf(log, p), Passed(log.marks, p))
    case Br(d) => d
    case BrIf(d) => d
    case _ => 0
  }

  function ResolvedSpan(log: Log, p: nat): seq<Byte>
    requires p < |log.toks| == |log.spans|
  {
    match log.toks[p]
    case Did(_) => log.spans[p]
    case Branch(cond, _) => [BranchCode(cond)] + ULeb5(BranchDepth(log, p))
  }

  // The spans once the patch records below m have been resolved.
  function PatchedSpans(log: Log, m: nat): (r: seq<seq<Byte>>)
    requires |log.toks| == |log.spans|
    ensures |r| == |log.spans|
  {
    seq(|log.toks|, p requires 0 <= p < |log.toks| =>
      if log.toks[p].Branch? && log.toks[p].patch < m then ResolvedSpan(log, p) else log.spans[p])
  }

  lemma PatchedNone(log: Log)
    requires |log.toks| == |log.spans|
    ensures PatchedSpans(log, 0) == log.spans
  {
  }

  // Resolving one more record is one in-place update, just behind the branch opcode.
  lemma PatchStep(log: Log, m: nat)
    requires LogOk(log) && m < |log.sites|
    ensures log.sites[m] < |log.toks| && log.toks[log.sites[m]].Branch?
    ensures var p := log.sites[m];
      var o := Offset(log.spans, p) + 1;
      var before, after := Concat(PatchedSpans(log, m)), Concat(PatchedSpans(log, m + 1));
      && o + 5 <= |before| && |after| == |before|
      && after == before[..o] + ULeb5(BranchDepth(log, p)) + before[o + 5..]
  {
    var p := log.sites[m];
    PatchedNext(log, m);
    assert SpanOk(log.toks[p], log.spans[p]);
    SameLengthsSameOffset(log, m, p);
    UpdateBehindFirst(PatchedSpans(log, m), p, BranchCode(log.toks[p].cond), PLACEHOLDER, ULeb5(BranchDepth(log, p)));
  }

  lemma PatchedNext(log: Log, m: nat)
    requires LogOk(log) && m < |log.sites|
    ensures var p := log.sites[m];
      && p < |log.toks| && log.toks[p].Branch?
      && PatchedSpans(log, m)[p] == log.spans[p]
      && PatchedSpans(log, m + 1) == PatchedSpans(log, m)[p := ResolvedSpan(log, p)]
  {
    assert SiteOk(log, m);
    var p := log.sites[m];
    var a, b := PatchedSpans(log, m), PatchedSpans(log, m + 1);
    forall q | 0 <= q < |a| ensures b[q] == if q == p then ResolvedSpan(log, p) else a[q] {
      assert TokOk(log, q);
    }
  }

  // An update that keeps the first byte of a span only touches what is behind it.
  lemma UpdateBehindFirst(spans: seq<seq<Byte>>, p: nat, b: Byte, bs: seq<Byte>, bs': seq<Byte>)
    requires p < |spans| && spans[p] == [b] + bs && |bs| == |bs'|
    ensures var o := Offset(spans, p) + 1;
      && o + |bs| <= |Concat(spans)|
      && Concat(spans[p := [b] + bs']) == Concat(spans)[..o] + bs' + Concat(spans)[o + |bs|..]
  {
    var o := Offset(spans, p);
    ConcatUpdate(spans, p, [b] + bs');
    ConcatUpdate(spans, p, spans[p]);
    assert spans[p := spans[p]] == spans;
    assert Concat(spans)[..o + 1] == Concat(spans)[..o] + [b];
  }

  lemma {:induction false} SameLengthsSameOffset(log: Log, m: nat, p: nat)
    requires LogOk(log) && p <= |log.toks|
    ensures Offset(PatchedSpans(log, m), p) == Offset(log.spans, p)
    decreases p
  {
    if p > 0 {
      SameLengthsSameOffset(log, m, p - 1);
      OffsetStep(PatchedSpans(log, m), p - 1);
      OffsetStep(log.spans, p - 1);
      assert SpanOk(log.toks[p - 1], log.spans[p - 1]);
    }
  }

  // ---- the rebuilt bytes -----------------------------------------------------------

  function ResolvedSpans(log: Log): (r: seq<seq<Byte>>)
    requires |log.toks| == |log.spans|
    ensures |r| == |log.toks|
  {
    seq(|log.toks|, p requires 0 <= p < |log.toks| => ResolvedSpan(log, p))
  }

  lemma PatchedAll(log: Log)
    requires LogOk(log)
    ensures PatchedSpans(log, |log.sites|) == ResolvedSpans(log)
  {
    forall p | 0 <= p < |log.toks| ensures PatchedSpans(log, |log.sites|)[p] == ResolvedSpan(log, p) {
      assert TokOk(log, p);
    }
  }

  // As JumpRewrite.Rebuild, in bytes and without the function's own end.
  function RebuildBytes(log: Log, p: nat, k: nat): seq<Byte>
    requires |log.toks| == |log.spans| && p <= |log.toks| && k <= |log.marks|
    decreases |log.toks| - p, |log.marks| - k
  {
    if k < |log.marks| && log.marks[k] == p then [WOP_END] + RebuildBytes(log, p, k + 1)
    else if p == |log.toks| then []
    else ResolvedSpan(log, p) + RebuildBytes(log, p + 1, k)
  }

  function BlocksBytes(n: nat): seq<Byte> {
    if n == 0 then [] else BlocksBytes(n - 1) + [WOP_BLOCK, WBT_VOID]
  }

  function FinalBytes(log: Log): seq<Byte>
    requires |log.toks| == |log.spans|
  {
    BlocksBytes(|log.marks|) + RebuildBytes(log, 0, 0)
  }

  // Up to the next label the bytes are copied as they stand.
  lemma {:induction false} CopySegment(log: Log, p: nat, q: nat, k: nat)
    requires |log.toks| == |log.spans| && k <= |log.marks| && p <= q <= |log.toks|
    requires k < |log.marks| ==> q <= log.marks[k]
    ensures RebuildBytes(log, p, k) == Concat(ResolvedSpans(log)[p..q]) + RebuildBytes(log, q, k)
    decreases q - p
  {
    if p < q {
      CopySegment(log, p + 1, q, k);
      ConcatHead(ResolvedSpans(log), p, q);
      Associate(ResolvedSpan(log, p), Concat(ResolvedSpans(log)[p + 1..q]), RebuildBytes(log, q, k));
    } else {
      assert ResolvedSpans(log)[p..q] == [];
      assert Concat(ResolvedSpans(log)[p..q]) == [];
    }
  }

  lemma ConcatHead(spans: seq<seq<Byte>>, p: nat, q: nat)
    requires p < q <= |spans|
    ensures Concat(spans[p..q]) == spans[p] + Concat(spans[p + 1..q])
  {
    assert spans[p..q][1..] == spans[p + 1..q];
  }

  // ---- decoding the rebuilt bytes -------------------------------------------------------

  lemma {:induction false} OpenAtMost(toks: seq<Tok>, p: nat)
    requires p <= |toks|
    ensures Open(toks, p) <= p
    decreases p
  {
    if p > 0 {
      OpenAtMost(toks, p - 1);
    }
  }

  lemma ResolvedSpells(log: Log, p: nat)
    requires LogOk(log) && p < |log.toks| && |log.toks| + |log.marks| < 0x1_0000_0000
    ensures Spells(ResolvedSpan(log, p), Resolve(ItemOf(log, p), Passed(log.marks, p)))
  {
    assert SpanOk(log.toks[p], log.spans[p]);
    if log.toks[p].Branch? {
      OpenAtMost(log.toks, p);
      assert TokOk(log, p);
      assert SiteOk(log, log.toks[p].patch);
      SpellsBr(BranchCode(log.toks[p].cond), BranchDepth(log, p));
    }
  }

  // What DecodeRebuilt claims of position p with k labels passed.
  ghost predicate Decodes(log: Log, p: nat, k: nat)
    requires |log.toks| == |log.spans| && p <= |log.toks| && k <= |log.marks|
  {
    Decode(RebuildBytes(log, p, k) + [WOP_END]) == Some(Rebuild(FlatOf(log), p, k))
  }

  lemma DecodesLabel(log: Log, k: nat)
    requires LogOk(log) && k < |log.marks| && Decodes(log, log.marks[k], k + 1)
    ensures Decodes(log, log.marks[k], k)
  {
    var p := log.marks[k];
    SpellsControl();
    var rest := RebuildBytes(log, p, k + 1) + [WOP_END];
    DecodeAppend([WOP_END], End, rest, Rebuild(FlatOf(log), p, k + 1));
    assert RebuildBytes(log, p, k) + [WOP_END] == [WOP_END] + rest;
  }

  lemma DecodesEnd(log: Log, k: nat)
    requires LogOk(log) && k <= |log.marks| && (k < |log.marks| ==> log.marks[k] != |log.toks|)
    ensures Decodes(log, |log.toks|, k)
  {
    SpellsControl();
    DecodeAppend([WOP_END], End, [], []);
    assert [WOP_END] + [] == [WOP_END] && [End] + [] == [End];
    assert RebuildBytes(log, |log.toks|, k) + [WOP_END] == [WOP_END];
  }

  lemma DecodesItem(log: Log, p: nat, k: nat)
    requires LogOk(log) && At(FlatOf(log), p, k) && |log.toks| + |log.marks| < 0x1_0000_0000
    requires p < |log.toks| && (k < |log.marks| ==> p < log.marks[k]) && Decodes(log, p + 1, k)
    ensures Decodes(log, p, k)
  {
    PassedIsK(log, p, k);
    ResolvedSpells(log, p);
    var rest := RebuildBytes(log, p + 1, k) + [WOP_END];
    DecodeAppend(ResolvedSpan(log, p), Resolve(ItemOf(log, p), k), rest, Rebuild(FlatOf(log), p + 1, k));
    assert RebuildBytes(log, p, k) + [WOP_END] == ResolvedSpan(log, p) + rest;
  }

  lemma {:induction false} DecodeRebuilt(log: Log, p: nat, k: nat)
    requires LogOk(log) && At(FlatOf(log), p, k) && |log.toks| + |log.marks| < 0x1_0000_0000
    ensures Decodes(log, p, k)
    decreases |log.toks| - p, |log.marks| - k
  {
    if k < |log.marks| && log.marks[k] == p {
      DecodeRebuilt(log, p, k + 1);
      DecodesLabel(log, k);
    } else if p == |log.toks| {
      DecodesEnd(log, k);
    } else {
      DecodeRebuilt(log, p + 1, k);
      DecodesItem(log, p, k);
    }
  }

  lemma PassedIsK(log: Log, p: nat, k: nat)
    requires LogOk(log) && At(FlatOf(log), p, k) && (k < |log.marks| ==> p < log.marks[k])
    ensures Passed(log.marks, p) == k
  {
    var j := Passed(log.marks, p);
    assert k > 0 ==> log.marks[k - 1] <= p;
  }

  lemma {:induction false} BlocksSnoc(n: nat)
    ensures Blocks(n) + [Block] == Blocks(n + 1)
  {
    if n == 0 {
      assert Blocks(1) == [Block] + Blocks(0);
    } else {
      BlocksSnoc(n - 1);
    }
  }

  lemma {:induction false} DecodeBlocks(n: nat, rest: seq<Byte>, code: seq<Instr>)
    requires Decode(rest) == Some(code)
    ensures Decode(BlocksBytes(n) + rest) == Some(Blocks(n) + code)
    decreases n
  {
    if n == 0 {
      assert BlocksBytes(0) + rest == rest && Blocks(0) + code == code;
    } else {
      DecodeBlock(rest, code);
      DecodeBlocks(n - 1, [WOP_BLOCK, WBT_VOID] + rest, [Block] + code);
      Associate(BlocksBytes(n - 1), [WOP_BLOCK, WBT_VOID], rest);
      BlocksSnoc(n - 1);
      Associate(Blocks(n - 1), [Block], code);
    }
  }

  lemma DecodeBlock(rest: seq<Byte>, code: seq<Instr>)
    requires Decode(rest) == Some(code)
    ensures Decode([WOP_BLOCK, WBT_VOID] + rest) == Some([Block] + code)
  {
    SpellsControl();
    DecodeAppend([WOP_BLOCK, WBT_VOID], Block, rest, code);
  }

  // A reader of the rebuilt bytes, closed by the function's END, sees the rebuilt body.
  lemma {:induction false} DecodeFinal(log: Log)
    requires LogOk(log) && |log.toks| + |log.marks| < 0x1_0000_0000
    ensures Decode(FinalBytes(log) + [WOP_END]) == Some(RebuildBody(FlatOf(log)))
  {
    DecodeRebuilt(log, 0, 0);
    DecodeBlocks(|log.marks|, RebuildBytes(log, 0, 0) + [WOP_END], Rebuild(FlatOf(log), 0, 0));
    assert FinalBytes(log) + [WOP_END] == BlocksBytes(|log.marks|) + (RebuildBytes(log, 0, 0) + [WOP_END]);
  }
}
