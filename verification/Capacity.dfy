// Why the buffers of wasm/jit/codegen_backend_wasm.c are large enough: how many bytes an
// instruction, a uop and a block of uops take at most.
module Capacity {
  import opened Common
  import opened Leb128
  import opened Wasm
  import opened I32
  import opened EmitLog
  import opened Backend
  import opened Uops
  import opened Handlers

  // ---- one instruction -------------------------------------------------------------

  lemma {:induction false} ReadULength(n: nat, s: seq<Byte>)
    ensures ReadU(n, s).Some? ==> |s| - |ReadU(n, s).value.1| <= (n + 6) / 7 || n == 0
    ensures ReadU(n, s).Some? && n == 0 ==> |s| - |ReadU(n, s).value.1| <= 1
    decreases n
  {
    if s != [] && s[0] >= 0x80 && n > 7 {
      ReadULength(n - 7, s[1..]);
    }
  }

  lemma {:induction false} ReadSLength(n: nat, s: seq<Byte>)
    ensures ReadS(n, s).Some? ==> |s| - |ReadS(n, s).value.1| <= (n + 6) / 7
    decreases n
  {
    if s != [] && s[0] >= 0x80 && n > 7 {
      ReadSLength(n - 7, s[1..]);
    }
  }

  function MaxBytes(i: Instr): nat {
    match i
    case Plain(Simple(_)) => 1
    case Plain(F64Const(_)) => 9
    case Plain(I64Const(_)) => 11
    case Plain(Mem(_, _, _)) => 11
    case Plain(CallIndirect(_)) => 7
    case Plain(_) => 6
    case Block => 2
    case If => 2
    case Br(_) => 6
    case BrIf(_) => 6
    case _ => 1
  }

  lemma ReadI32Length(s: seq<Byte>)
    ensures ReadI32(s).Some? ==> |s| - |ReadI32(s).value.1| <= 5
  {
    hide ReadS;
    ReadSLength(32, s);
  }

  lemma OpLength(b: Byte, t: seq<Byte>)
    ensures ReadOp(b, t).Some? ==> var (op, rest) := ReadOp(b, t).value; |t| - |rest| <= MaxBytes(Plain(op)) - 1
  {
    hide ReadU, ReadS, ReadI32;
    ReadULength(32, t);
    ReadI32Length(t);
    ReadSLength(64, t);
    if ReadU(32, t).Some? {
      ReadULength(32, ReadU(32, t).value.1);
    }
  }

  lemma InstrLength(s: seq<Byte>)
    ensures ReadInstr(s).Some? ==> var (i, rest) := ReadInstr(s).value; |s| - |rest| <= MaxBytes(i)
  {
    hide ReadU, ReadOp;
    if s != [] {
      OpLength(s[0], s[1..]);
      ReadULength(32, s[1..]);
    }
  }

  // No instruction is spelled by more bytes than that.
  lemma SpellsLength(bs: seq<Byte>, i: Instr)
    requires Spells(bs, i)
    ensures |bs| <= MaxBytes(i)
  {
    hide ReadInstr, MaxBytes;
    assert bs + [] == bs;
    assert ReadInstr(bs + []) == Some((i, []));
    InstrLength(bs);
  }

  function TokBytes(tok: Tok): nat {
    match tok
    case Did(i) => MaxBytes(i)
    case Branch(_, _) => 6
  }

  function Total(toks: seq<Tok>): nat {
    if toks == [] then 0 else Total(toks[..|toks| - 1]) + TokBytes(toks[|toks| - 1])
  }

  lemma {:induction false} TotalAppend(a: seq<Tok>, b: seq<Tok>)
    ensures Total(a + b) == Total(a) + Total(b)
    decreases |b|
  {
    if b == [] {
      assert a + b == a;
    } else {
      assert (a + b)[..|a| + |b| - 1] == a + b[..|b| - 1];
      TotalAppend(a, b[..|b| - 1]);
    }
  }

  lemma {:induction false} SpansTotal(log: Log, p: nat)
    requires LogOk(log) && p <= |log.toks|
    ensures |Concat(log.spans[..p])| <= Total(log.toks[..p])
    decreases p
  {
    if p > 0 {
      SpansTotal(log, p - 1);
      assert log.toks[..p][..p - 1] == log.toks[..p - 1];
      assert log.spans[..p] == log.spans[..p - 1] + [log.spans[p - 1]];
      ConcatSnoc(log.spans[..p - 1], log.spans[p - 1]);
      SpanLength(log, p - 1);
    }
  }

  lemma SpanLength(log: Log, p: nat)
    requires LogOk(log) && p < |log.toks|
    ensures |log.toks| == |log.spans| && |log.spans[p]| <= TokBytes(log.toks[p])
  {
    assert SpanOk(log.toks[p], log.spans[p]);
    if log.toks[p].Did? {
      SpellsLength(log.spans[p], log.toks[p].i);
    }
  }

  lemma LogTotal(log: Log)
    requires LogOk(log)
    ensures |Concat(log.spans)| <= Total(log.toks)
  {
    SpansTotal(log, |log.toks|);
    assert log.toks[..|log.toks|] == log.toks && log.spans[..|log.toks|] == log.spans;
  }

  // ---- the code of a uop ------------------------------------------------------------

  function Cost(ops: seq<Op>): nat {
    if ops == [] then 0 else Cost(ops[..|ops| - 1]) + MaxBytes(Plain(ops[|ops| - 1]))
  }

  lemma {:induction false} CostAppend(a: seq<Op>, b: seq<Op>)
    ensures Cost(a + b) == Cost(a) + Cost(b)
    decreases |b|
  {
    if b == [] {
      assert a + b == a;
    } else {
      assert (a + b)[..|a| + |b| - 1] == a + b[..|b| - 1];
      CostAppend(a, b[..|b| - 1]);
    }
  }

  lemma CostOne(op: Op)
    ensures Cost([op]) == MaxBytes(Plain(op))
    ensures Cost([]) == 0
  {
    assert [op][..0] == [];
  }

  lemma CostThen(a: seq<Op>, op: Op)
    ensures Cost(a + [op]) == Cost(a) + MaxBytes(Plain(op))
  {
    CostAppend(a, [op]);
    CostOne(op);
  }

  lemma {:induction false} CostToks(ops: seq<Op>)
    ensures Total(Toks(ops)) == Cost(ops)
    decreases |ops|
  {
    if ops != [] {
      var n := |ops| - 1;
      assert Toks(ops)[..n] == Toks(ops[..n]);
      CostToks(ops[..n]);
    }
  }

  lemma TwoBytes(k: bv32, code: Byte)
    ensures MaxBytes(Plain(I32Const(k))) == 6 && MaxBytes(Plain(Simple(code))) == 1
  {
  }

  lemma CostConst(k: bv32, code: Byte)
    ensures Cost(WithConst(k, code)) == 7
  {
    hide Cost, MaxBytes;
    assert WithConst(k, code) == [I32Const(k)] + [Simple(code)];
    TwoBytes(k, code);
    CostThen([I32Const(k)], Simple(code));
    CostOne(I32Const(k));
  }

  lemma CostIfNonzero(k: bv32, code: Byte)
    ensures Cost(IfNonzero(k, code)) <= 7
  {
    CostConst(k, code);
    CostOne(Simple(code));
  }

  lemma CostMask(s: Size)
    ensures Cost(MaskCode(s)) <= 14 && Cost(PlaceCode(s)) <= 14
  {
    CostOne(Simple(0));
    CostConst(0xffff, WOP_I32_AND);
    CostConst(0xff, WOP_I32_AND);
    CostConst(8, WOP_I32_SHR_U);
    CostConst(8, WOP_I32_SHL);
    CostAppend(WithConst(8, WOP_I32_SHR_U), WithConst(0xff, WOP_I32_AND));
    CostAppend(WithConst(0xff, WOP_I32_AND), WithConst(8, WOP_I32_SHL));
  }

  lemma CostSrc(r: Reg)
    ensures Cost(SrcCode(r)) <= 20
  {
    CostOne(LocalGet(Loc(r.hr)));
    CostMask(r.size);
    CostAppend([LocalGet(Loc(r.hr))], MaskCode(r.size));
  }

  lemma CostDst(r: Reg)
    ensures Cost(DstCode(r)) <= 34
  {
    hide Cost, MaskCode, PlaceCode, WithConst;
    var i := Loc(r.hr);
    CostOne(LocalSet(i));
    CostMask(r.size);
    var a := PlaceCode(r.size) + [LocalGet(i)];
    var b := a + WithConst(KeepMask(r.size), WOP_I32_AND);
    CostThen(PlaceCode(r.size), LocalGet(i));
    CostConst(KeepMask(r.size), WOP_I32_AND);
    CostAppend(a, WithConst(KeepMask(r.size), WOP_I32_AND));
    CostThen(b, Simple(WOP_I32_OR));
    CostThen(b + [Simple(WOP_I32_OR)], LocalSet(i));
  }

  lemma CostCount(n: Count)
    ensures Cost(CountCode(n)) <= 6
  {
    match n
    case Imm(k) => CostOne(I32Const(k));
    case InReg(hr) => CostOne(LocalGet(Loc(hr)));
  }

  lemma CostSar(a: Reg, n: Count)
    ensures Cost(SarCode(a, n)) <= 27
  {
    hide Cost, IfNonzero, CountCode;
    var c0 := [LocalGet(Loc(a.hr))];
    var c1 := c0 + IfNonzero(SarPre(a.size), WOP_I32_SHL);
    var c2 := c1 + CountCode(n);
    var c3 := c2 + [Simple(WOP_I32_SHR_S)];
    CostOne(LocalGet(Loc(a.hr)));
    CostIfNonzero(SarPre(a.size), WOP_I32_SHL);
    CostAppend(c0, IfNonzero(SarPre(a.size), WOP_I32_SHL));
    CostCount(n);
    CostAppend(c1, CountCode(n));
    CostThen(c2, Simple(WOP_I32_SHR_S));
    CostIfNonzero(SarPost(a.size), WOP_I32_SHR_U);
    CostAppend(c3, IfNonzero(SarPost(a.size), WOP_I32_SHR_U));
  }

  lemma CostAmount(left: bool, w: bv32, n: Count)
    ensures Cost(AmountCode(left, w, n)) <= 20
  {
    hide Cost, WithConst;
    match n {
      case Imm(k) => CostOne(I32Const(ImmAmount(left, w, k)));
      case InReg(hr) =>
        var get := [LocalGet(Loc(hr))];
        CostOne(I32Const(w));
        CostOne(LocalGet(Loc(hr)));
        CostThen([I32Const(w)], LocalGet(Loc(hr)));
        CostThen([I32Const(w)] + get, Simple(WOP_I32_SUB));
        CostConst(7, WOP_I32_AND);
        CostAppend([I32Const(w)] + get + [Simple(WOP_I32_SUB)], WithConst(7, WOP_I32_AND));
        CostAppend([I32Const(w)] + get + [Simple(WOP_I32_SUB)], []);
        CostConst(w - 1, WOP_I32_AND);
        CostAppend(get, WithConst(w - 1, WOP_I32_AND));
    }
  }

  lemma CostRot(left: bool, a: Reg, n: Count)
    ensures Cost(RotCode(left, a, n)) <= 61
  {
    hide Cost, SrcCode, WithConst, AmountCode, CountCode;
    CostSrc(a);
    var w, get := Width(a.size), [LocalGet(Loc(a.hr))];
    var op := if left then WOP_I32_ROTL else WOP_I32_ROTR;
    CostOne(LocalGet(Loc(a.hr)));
    CostCount(n);
    CostAppend(get, CountCode(n));
    CostThen(get + CountCode(n), Simple(op));
    var c1 := SrcCode(a) + [LocalTee(SCRATCH_0)];
    var c2 := c1 + WithConst(w, WOP_I32_SHL);
    var c3 := c2 + [LocalGet(SCRATCH_0)];
    var c4 := c3 + [Simple(WOP_I32_OR)];
    CostThen(SrcCode(a), LocalTee(SCRATCH_0));
    CostConst(w, WOP_I32_SHL);
    CostAppend(c1, WithConst(w, WOP_I32_SHL));
    CostThen(c2, LocalGet(SCRATCH_0));
    CostThen(c3, Simple(WOP_I32_OR));
    CostAmount(left, w, n);
    CostAppend(c4, AmountCode(left, w, n));
    CostThen(c4 + AmountCode(left, w, n), Simple(WOP_I32_SHR_U));
  }

  lemma CostShift(kind: Shift, a: Reg, n: Count)
    ensures Cost(ShiftCode(kind, a, n)) <= 61
  {
    hide Cost, SrcCode, CountCode, SarCode, RotCode;
    CostSrc(a);
    CostCount(n);
    CostSar(a, n);
    CostRot(true, a, n);
    CostRot(false, a, n);
    var x := if kind == Shl && a.size != BH then [LocalGet(Loc(a.hr))] else SrcCode(a);
    CostOne(LocalGet(Loc(a.hr)));
    CostAppend(x, CountCode(n));
    CostThen(x + CountCode(n), Simple(if kind == Shl then WOP_I32_SHL else WOP_I32_SHR_U));
  }

  lemma CostMovsx(a: Reg)
    ensures Cost(MovsxCode(a)) <= 14
  {
    hide Cost, WithConst;
    var get := [LocalGet(Loc(a.hr))];
    CostOne(LocalGet(Loc(a.hr)));
    CostConst(8, WOP_I32_SHR_U);
    CostAppend(get, WithConst(8, WOP_I32_SHR_U));
    CostThen(get + WithConst(8, WOP_I32_SHR_U), Simple(WOP_I32_EXTEND8_S));
    CostThen(get, Simple(WOP_I32_EXTEND8_S));
    CostThen(get, Simple(WOP_I32_EXTEND16_S));
  }

  lemma CostAddLshift(a: nat, b: nat, shift: bv32)
    ensures Cost([LocalGet(Loc(a))] + [LocalGet(Loc(b))] + IfNonzero(shift, WOP_I32_SHL) + [Simple(WOP_I32_ADD)]) <= 20
  {
    hide Cost, IfNonzero;
    var gets := [LocalGet(Loc(a))] + [LocalGet(Loc(b))];
    CostOne(LocalGet(Loc(a)));
    CostThen([LocalGet(Loc(a))], LocalGet(Loc(b)));
    CostIfNonzero(shift, WOP_I32_SHL);
    CostAppend(gets, IfNonzero(shift, WOP_I32_SHL));
    CostThen(gets + IfNonzero(shift, WOP_I32_SHL), Simple(WOP_I32_ADD));
  }

  lemma CostValue(u: Uop)
    requires Writes(u)
    ensures Cost(ValueCode(u)) <= 61
  {
    hide Cost, SrcCode, ShiftCode, MovsxCode, IfNonzero;
    match u {
      case Alu2(op, _, a, b) =>
        CostSrc(a);
        CostSrc(b);
        CostAppend(SrcCode(a), SrcCode(b));
        CostThen(SrcCode(a) + SrcCode(b), Simple(AluOpcode(op)));
      case AluImm(op, _, a, imm) =>
        CostSrc(a);
        CostThen(SrcCode(a), I32Const(imm));
        CostThen(SrcCode(a) + [I32Const(imm)], Simple(AluOpcode(op)));
      case AddLshift(_, a, b, shift) => CostAddLshift(a, b, shift);
      case Mov(_, a) => CostSrc(a);
      case MovImm(_, imm) => CostOne(I32Const(imm));
      case Movsx(_, a) => CostMovsx(a);
      case ShiftBy(kind, _, a, n) => CostShift(kind, a, n);
    }
  }

  lemma CostAligned(r: Reg)
    ensures Cost(AlignedCode(r)) <= 13
  {
    CostOne(LocalGet(Loc(r.hr)));
    CostIfNonzero(AlignShift(r.size), WOP_I32_SHL);
    CostAppend([LocalGet(Loc(r.hr))], IfNonzero(AlignShift(r.size), WOP_I32_SHL));
  }

  lemma CostWanted(a: seq<Op>, want: bool)
    ensures Cost(a + if want then [] else [Simple(WOP_I32_EQZ)]) <= Cost(a) + 1
  {
    CostAppend(a, []);
    CostThen(a, Simple(WOP_I32_EQZ));
    CostOne(Simple(WOP_I32_EQZ));
  }

  lemma CostOverflow(a: Reg, b: Reg, want: bool)
    ensures Cost(CondCode(OverflowJump(want, a, b))) <= 68
  {
    hide Cost, AlignedCode, WithConst;
    var c0 := AlignedCode(a) + [LocalTee(SCRATCH_0)];
    var c1 := c0 + AlignedCode(b);
    var c2 := c1 + [LocalTee(SCRATCH_1)];
    var c3 := c2 + [Simple(WOP_I32_XOR)];
    var c4 := c3 + [LocalGet(SCRATCH_0)];
    var c5 := c4 + [LocalGet(SCRATCH_0)];
    var c6 := c5 + [LocalGet(SCRATCH_1)];
    var c7 := c6 + [Simple(WOP_I32_SUB)];
    var c8 := c7 + [Simple(WOP_I32_XOR)];
    var c9 := c8 + [Simple(WOP_I32_AND)];
    CostAligned(a);
    CostAligned(b);
    CostThen(AlignedCode(a), LocalTee(SCRATCH_0));
    CostAppend(c0, AlignedCode(b));
    CostThen(c1, LocalTee(SCRATCH_1));
    CostThen(c2, Simple(WOP_I32_XOR));
    CostThen(c3, LocalGet(SCRATCH_0));
    CostThen(c4, LocalGet(SCRATCH_0));
    CostThen(c5, LocalGet(SCRATCH_1));
    CostThen(c6, Simple(WOP_I32_SUB));
    CostThen(c7, Simple(WOP_I32_XOR));
    CostThen(c8, Simple(WOP_I32_AND));
    CostConst(31, WOP_I32_SHR_U);
    CostAppend(c9, WithConst(31, WOP_I32_SHR_U));
    CostWanted(c9 + WithConst(31, WOP_I32_SHR_U), want);
  }

  lemma CostCond(u: Uop)
    requires IsJump(u)
    ensures Cost(CondCode(u)) <= 68
  {
    hide Cost, AlignedCode, SrcCode, WithConst;
    match u {
      case CmpJump(cond, a, b) =>
        CostAligned(a);
        CostAligned(b);
        CostAppend(AlignedCode(a), AlignedCode(b));
        CostThen(AlignedCode(a) + AlignedCode(b), Simple(CondOpcode(cond)));
      case OverflowJump(want, a, b) => CostOverflow(a, b, want);
      case CmpImmJump(equal, a, imm) =>
        CostSrc(a);
        CostOne(LocalGet(Loc(a.hr)));
        var x := if a.size == L then [LocalGet(Loc(a.hr))] else SrcCode(a);
        CostThen(x, I32Const(imm));
        CostThen(x + [I32Const(imm)], Simple(if equal then WOP_I32_EQ else WOP_I32_NE));
      case SignJump(want, a) =>
        CostOne(LocalGet(Loc(a.hr)));
        CostConst(SignMask(a.size), WOP_I32_AND);
        CostAppend([LocalGet(Loc(a.hr))], WithConst(SignMask(a.size), WOP_I32_AND));
        CostWanted([LocalGet(Loc(a.hr))] + WithConst(SignMask(a.size), WOP_I32_AND), want);
    }
  }

  lemma CostExit(u: Uop)
    requires u.CmpImmExit? || u.CmpExit?
    ensures Cost(ExitCode(u)) <= 13
  {
    hide Cost;
    CostOne(LocalGet(Loc(u.aHr)));
    match u {
      case CmpImmExit(a, imm) =>
        CostThen([LocalGet(Loc(a))], I32Const(imm));
        CostThen([LocalGet(Loc(a))] + [I32Const(imm)], Simple(WOP_I32_EQ));
      case CmpExit(above, a, b) =>
        CostThen([LocalGet(Loc(a))], LocalGet(Loc(b)));
        CostThen([LocalGet(Loc(a))] + [LocalGet(Loc(b))], Simple(if above then WOP_I32_GT_U else WOP_I32_LT_U));
    }
  }

  const UOP_BYTES := 95

  // No uop takes more bytes than that, a rotate of a high byte by a register the most.
  lemma UopTotal(u: Uop, patch: nat)
    ensures Total(CodeToks(u, patch)) <= UOP_BYTES
  {
    hide Cost, Toks, ValueCode, DstCode, CondCode, ExitCode;
    if Writes(u) {
      CostValue(u);
      CostDst(Dest(u));
      CostAppend(ValueCode(u), DstCode(Dest(u)));
      CostToks(WriteCode(u));
    } else if IsJump(u) {
      CostCond(u);
      CostToks(CondCode(u));
      TotalAppend(Toks(CondCode(u)), [Branch(true, patch)]);
      assert [Branch(true, patch)][..0] == [];
    } else if u.Exit? {
      assert [Did(Return)][..0] == [];
    } else {
      CostExit(u);
      CostToks(ExitCode(u));
      GuardTotal();
      TotalAppend(Toks(ExitCode(u)), [Did(If), Did(Return), Did(End)]);
    }
  }

  lemma TotalOne(tok: Tok)
    ensures Total([tok]) == TokBytes(tok)
  {
    assert [tok][..0] == [];
  }

  lemma GuardTotal()
    ensures Total([Did(If), Did(Return), Did(End)]) == 4
  {
    var t: seq<Tok> := [Did(If)];
    TotalOne(Did(If));
    TotalOne(Did(Return));
    TotalOne(Did(End));
    TotalAppend(t, [Did(Return)]);
    TotalAppend(t + [Did(Return)], [Did(End)]);
    assert [Did(If), Did(Return), Did(End)] == t + [Did(Return)] + [Did(End)];
  }

  // Log l1 is l0 with a uop added.
  lemma HandledTotal(l0: Log, l1: Log, u: Uop)
    requires Handled(l0, l1, u)
    ensures Total(l1.toks) <= Total(l0.toks) + UOP_BYTES
    ensures |l1.sites| <= |l0.sites| + 1
  {
    hide Total, CodeToks;
    UopTotal(u, |l0.sites|);
    TotalAppend(l0.toks, CodeToks(u, |l0.sites|));
  }

  // A block of as many uops as there can be fits the body.
  lemma BodyFits(log: Log, n: nat)
    requires LogOk(log) && Total(log.toks) <= n * UOP_BYTES && n <= UOP_NR_MAX
    ensures |Concat(log.spans)| <= WJIT_BODY_CAP
  {
    hide LogOk;
    LogTotal(log);
  }
}
