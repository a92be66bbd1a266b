// wasm/jit/codegen_backend_wasm_uops.c: the handlers that emit the stack code of the
// integer uops into a block's body.
module Handlers {
  import opened Common
  import opened Leb128
  import opened Wasm
  import opened I32
  import opened Emitter
  import opened EmitLog
  import opened Backend
  import opened Uops

  // ---- plain instructions in a log --------------------------------------------------

  function Toks(ops: seq<Op>): seq<Tok> {
    seq(|ops|, i requires 0 <= i < |ops| => Did(Plain(ops[i])))
  }

  // l1 is l0 with the instructions ops emitted after it.
  ghost predicate Grown(l0: Log, l1: Log, ops: seq<Op>) {
    l1.toks == l0.toks + Toks(ops) && l1.marks == l0.marks && l1.sites == l0.sites && l1.dests == l0.dests
  }

  // The log and the health of a backend when a handler starts.
  datatype Origin = Origin(log: Log, ok: bool)

  ghost predicate Emits(b: BackendState, o: Origin, done: seq<Op>)
    reads b, b.body, b.body.buf, b.labels, b.patches
  {
    b.Valid() && Grown(o.log, b.log, done) && (b.Ok() ==> o.ok)
  }

  lemma GrownStep(l0: Log, l1: Log, done: seq<Op>, op: Op, bs: seq<Byte>)
    requires Grown(l0, l1, done)
    ensures Grown(l0, Emitted(l1, Plain(op), bs), done + [op])
  {
    assert Toks(done + [op]) == Toks(done) + [Did(Plain(op))];
    Associate(l0.toks, Toks(done), [Did(Plain(op))]);
  }

  lemma {:induction false} OpenAfterPlain(toks: seq<Tok>, ops: seq<Op>)
    ensures Open(toks + Toks(ops), |toks| + |ops|) == Open(toks, |toks|)
    decreases |ops|
  {
    if ops == [] {
      assert toks + Toks(ops) == toks;
    } else {
      var n := |ops| - 1;
      OpenAfterPlain(toks, ops[..n]);
      assert toks + Toks(ops) == (toks + Toks(ops[..n])) + [Did(Plain(ops[n]))];
      OpenPrefix(toks + Toks(ops[..n]), [Did(Plain(ops[n]))], |toks| + n);
    }
  }

  // ---- emit utilities -------------------------------------------------------------

  method EGet(b: BackendState, loc: nat, ghost o: Origin, ghost done: seq<Op>)
    requires Emits(b, o, done) && IsLocal(loc)
    modifies b`log, b.body, b.body.buf
    ensures Emits(b, o, done + [LocalGet(loc)])
  {
    hide Grown;
    ghost var l1 := b.log;
    b.Local(WOP_LOCAL_GET, loc);
    GrownStep(o.log, l1, done, LocalGet(loc), [WOP_LOCAL_GET] + ULeb(loc));
  }

  method ESet(b: BackendState, loc: nat, ghost o: Origin, ghost done: seq<Op>)
    requires Emits(b, o, done) && IsLocal(loc)
    modifies b`log, b.body, b.body.buf
    ensures Emits(b, o, done + [LocalSet(loc)])
  {
    hide Grown;
    ghost var l1 := b.log;
    b.Local(WOP_LOCAL_SET, loc);
    GrownStep(o.log, l1, done, LocalSet(loc), [WOP_LOCAL_SET] + ULeb(loc));
  }

  method ETee(b: BackendState, loc: nat, ghost o: Origin, ghost done: seq<Op>)
    requires Emits(b, o, done) && IsLocal(loc)
    modifies b`log, b.body, b.body.buf
    ensures Emits(b, o, done + [LocalTee(loc)])
  {
    hide Grown;
    ghost var l1 := b.log;
    b.Local(WOP_LOCAL_TEE, loc);
    GrownStep(o.log, l1, done, LocalTee(loc), [WOP_LOCAL_TEE] + ULeb(loc));
  }

  method EI32(b: BackendState, v: bv32, ghost o: Origin, ghost done: seq<Op>)
    requires Emits(b, o, done)
    modifies b`log, b.body, b.body.buf
    ensures Emits(b, o, done + [I32Const(v)])
  {
    hide Grown;
    ghost var l1 := b.log;
    b.I32(v);
    GrownStep(o.log, l1, done, I32Const(v), [WOP_I32_CONST] + I32Bytes(v));
  }

  method EOp(b: BackendState, code: Byte, ghost o: Origin, ghost done: seq<Op>)
    requires Emits(b, o, done) && (IsBinary(code) || IsUnary(code))
    modifies b`log, b.body, b.body.buf
    ensures Emits(b, o, done + [Simple(code)])
  {
    hide Grown;
    ghost var l1 := b.log;
    b.Op(code);
    GrownStep(o.log, l1, done, Simple(code), [code]);
  }

  // A constant and an operator on it, as most handlers emit them.
  method EConstOp(b: BackendState, k: bv32, code: Byte, ghost o: Origin, ghost done: seq<Op>)
    requires Emits(b, o, done) && IsBinary(code)
    modifies b`log, b.body, b.body.buf
    ensures Emits(b, o, done + WithConst(k, code))
  {
    hide Emits;
    EI32(b, k, o, done);
    EOp(b, code, o, done + [I32Const(k)]);
    Associate(done, [I32Const(k)], [Simple(code)]);
    assert WithConst(k, code) == [I32Const(k)] + [Simple(code)];
  }

  method EIfNonzero(b: BackendState, k: bv32, code: Byte, ghost o: Origin, ghost done: seq<Op>)
    requires Emits(b, o, done) && IsBinary(code)
    modifies b`log, b.body, b.body.buf
    ensures Emits(b, o, done + IfNonzero(k, code))
  {
    hide Emits, WithConst;
    if k != 0 {
      EConstOp(b, k, code, o, done);
    } else {
      assert done + [] == done;
    }
  }

  // e_src
  method ESrc(b: BackendState, r: Reg, ghost o: Origin, ghost done: seq<Op>)
    requires Emits(b, o, done) && r.hr < HOST_REGS
    modifies b`log, b.body, b.body.buf
    ensures Emits(b, o, done + SrcCode(r))
  {
    hide Emits, WithConst;
    EGet(b, Loc(r.hr), o, done);
    ghost var d := done + [LocalGet(Loc(r.hr))];
    Associate(done, [LocalGet(Loc(r.hr))], MaskCode(r.size));
    if r.size == W {
      EConstOp(b, 0xffff, WOP_I32_AND, o, d);
    } else if r.size == B {
      EConstOp(b, 0xff, WOP_I32_AND, o, d);
    } else if r.size == BH {
      EConstOp(b, 8, WOP_I32_SHR_U, o, d);
      EConstOp(b, 0xff, WOP_I32_AND, o, d + WithConst(8, WOP_I32_SHR_U));
      Associate(d, WithConst(8, WOP_I32_SHR_U), WithConst(0xff, WOP_I32_AND));
    } else {
      assert d + [] == d;
    }
  }

  method EPlace(b: BackendState, s: Size, ghost o: Origin, ghost done: seq<Op>)
    requires Emits(b, o, done) && s != L
    modifies b`log, b.body, b.body.buf
    ensures Emits(b, o, done + PlaceCode(s))
  {
    hide Emits, WithConst;
    if s == W {
      EConstOp(b, 0xffff, WOP_I32_AND, o, done);
    } else {
      EConstOp(b, 0xff, WOP_I32_AND, o, done);
      if s == BH {
        EConstOp(b, 8, WOP_I32_SHL, o, done + WithConst(0xff, WOP_I32_AND));
        Associate(done, WithConst(0xff, WOP_I32_AND), WithConst(8, WOP_I32_SHL));
      }
    }
  }

  lemma Associate5<T>(a: seq<T>, b: seq<T>, c: seq<T>, d: seq<T>, e: seq<T>, f: seq<T>)
    ensures a + (b + c + d + e + f) == a + b + c + d + e + f
  {
    Associate(a, b + c + d + e, f);
    Associate(a, b + c + d, e);
    Associate(a, b + c, d);
    Associate(a, b, c);
  }

  // e_dst
  method EDst(b: BackendState, r: Reg, ghost o: Origin, ghost done: seq<Op>)
    requires Emits(b, o, done) && r.hr < HOST_REGS
    modifies b`log, b.body, b.body.buf
    ensures Emits(b, o, done + DstCode(r))
  {
    hide Emits, WithConst, PlaceCode;
    if r.size == L {
      ESet(b, Loc(r.hr), o, done);
    } else {
      EPlace(b, r.size, o, done);
      ghost var d := done + PlaceCode(r.size);
      EGet(b, Loc(r.hr), o, d);
      d := d + [LocalGet(Loc(r.hr))];
      EConstOp(b, KeepMask(r.size), WOP_I32_AND, o, d);
      d := d + WithConst(KeepMask(r.size), WOP_I32_AND);
      EOp(b, WOP_I32_OR, o, d);
      ESet(b, Loc(r.hr), o, d + [Simple(WOP_I32_OR)]);
      Associate5(done, PlaceCode(r.size), [LocalGet(Loc(r.hr))], WithConst(KeepMask(r.size), WOP_I32_AND),
                 [Simple(WOP_I32_OR)], [LocalSet(Loc(r.hr))]);
    }
  }

  // ---- handlers that write a register -------------------------------------------------

  // gen_alu2
  method GenAlu2(b: BackendState, op: Alu, dst: Reg, x: Reg, y: Reg, ghost o: Origin)
    requires Emits(b, o, []) && UopOk(Alu2(op, dst, x, y))
    modifies b`log, b.body, b.body.buf
    ensures Emits(b, o, WriteCode(Alu2(op, dst, x, y)))
  {
    hide Emits, SrcCode, DstCode;
    ESrc(b, x, o, []);
    assert [] + SrcCode(x) == SrcCode(x);
    ESrc(b, y, o, SrcCode(x));
    EOp(b, AluOpcode(op), o, SrcCode(x) + SrcCode(y));
    EDst(b, dst, o, ValueCode(Alu2(op, dst, x, y)));
  }

  // gen_alu_imm
  method GenAluImm(b: BackendState, op: Alu, dst: Reg, x: Reg, imm: bv32, ghost o: Origin)
    requires Emits(b, o, []) && UopOk(AluImm(op, dst, x, imm))
    modifies b`log, b.body, b.body.buf
    ensures Emits(b, o, WriteCode(AluImm(op, dst, x, imm)))
  {
    hide Emits, SrcCode, DstCode;
    ESrc(b, x, o, []);
    assert [] + SrcCode(x) == SrcCode(x);
    EI32(b, imm, o, SrcCode(x));
    EOp(b, AluOpcode(op), o, SrcCode(x) + [I32Const(imm)]);
    EDst(b, dst, o, ValueCode(AluImm(op, dst, x, imm)));
  }

  method GenAddLshift(b: BackendState, u: Uop, ghost o: Origin)
    requires Emits(b, o, []) && UopOk(u) && u.AddLshift?
    modifies b`log, b.body, b.body.buf
    ensures Emits(b, o, WriteCode(u))
  {
    hide Emits, IfNonzero;
    EGet(b, Loc(u.aHr), o, []);
    assert [] + [LocalGet(Loc(u.aHr))] == [LocalGet(Loc(u.aHr))];
    EGet(b, Loc(u.bHr), o, [LocalGet(Loc(u.aHr))]);
    ghost var d := [LocalGet(Loc(u.aHr))] + [LocalGet(Loc(u.bHr))];
    EIfNonzero(b, u.shift, WOP_I32_SHL, o, d);
    EOp(b, WOP_I32_ADD, o, d + IfNonzero(u.shift, WOP_I32_SHL));
    ESet(b, Loc(u.dstHr), o, ValueCode(u));
  }

  // codegen_MOV and codegen_MOVZX
  method GenMov(b: BackendState, dst: Reg, x: Reg, ghost o: Origin)
    requires Emits(b, o, []) && UopOk(Mov(dst, x))
    modifies b`log, b.body, b.body.buf
    ensures Emits(b, o, WriteCode(Mov(dst, x)))
  {
    hide Emits, SrcCode, DstCode;
    ESrc(b, x, o, []);
    assert [] + SrcCode(x) == SrcCode(x);
    EDst(b, dst, o, SrcCode(x));
  }

  method GenMovImm(b: BackendState, dst: Reg, imm: bv32, ghost o: Origin)
    requires Emits(b, o, []) && UopOk(MovImm(dst, imm))
    modifies b`log, b.body, b.body.buf
    ensures Emits(b, o, WriteCode(MovImm(dst, imm)))
  {
    hide Emits, DstCode;
    EI32(b, imm, o, []);
    assert [] + [I32Const(imm)] == [I32Const(imm)];
    EDst(b, dst, o, [I32Const(imm)]);
  }

  method GenMovsx(b: BackendState, dst: Reg, x: Reg, ghost o: Origin)
    requires Emits(b, o, []) && UopOk(Movsx(dst, x))
    modifies b`log, b.body, b.body.buf
    ensures Emits(b, o, WriteCode(Movsx(dst, x)))
  {
    hide Emits, WithConst, DstCode;
    EGet(b, Loc(x.hr), o, []);
    ghost var d := [LocalGet(Loc(x.hr))];
    assert [] + d == d;
    if x.size == B {
      EOp(b, WOP_I32_EXTEND8_S, o, d);
    } else if x.size == BH {
      EConstOp(b, 8, WOP_I32_SHR_U, o, d);
      EOp(b, WOP_I32_EXTEND8_S, o, d + WithConst(8, WOP_I32_SHR_U));
    } else {
      EOp(b, WOP_I32_EXTEND16_S, o, d);
    }
    EDst(b, dst, o, MovsxCode(x));
  }

  // A count: an immediate or a register.
  method ECount(b: BackendState, n: Count, ghost o: Origin, ghost done: seq<Op>)
    requires Emits(b, o, done) && (n.InReg? ==> n.hr < HOST_REGS)
    modifies b`log, b.body, b.body.buf
    ensures Emits(b, o, done + CountCode(n))
  {
    hide Emits;
    match n {
      case Imm(k) => EI32(b, k, o, done);
      case InReg(hr) => EGet(b, Loc(hr), o, done);
    }
  }

  method GenShl(b: BackendState, dst: Reg, x: Reg, n: Count, ghost o: Origin)
    requires Emits(b, o, []) && UopOk(ShiftBy(Shl, dst, x, n))
    modifies b`log, b.body, b.body.buf
    ensures Emits(b, o, WriteCode(ShiftBy(Shl, dst, x, n)))
  {
    hide Emits, SrcCode, CountCode, DstCode;
    ghost var d := if x.size == BH then SrcCode(x) else [LocalGet(Loc(x.hr))];
    assert [] + d == d;
    if x.size == BH {
      ESrc(b, x, o, []);
    } else {
      EGet(b, Loc(x.hr), o, []);
    }
    ECount(b, n, o, d);
    EOp(b, WOP_I32_SHL, o, d + CountCode(n));
    EDst(b, dst, o, ShiftCode(Shl, x, n));
  }

  method GenShr(b: BackendState, dst: Reg, x: Reg, n: Count, ghost o: Origin)
    requires Emits(b, o, []) && UopOk(ShiftBy(Shr, dst, x, n))
    modifies b`log, b.body, b.body.buf
    ensures Emits(b, o, WriteCode(ShiftBy(Shr, dst, x, n)))
  {
    hide Emits, SrcCode, CountCode, DstCode;
    ESrc(b, x, o, []);
    assert [] + SrcCode(x) == SrcCode(x);
    ECount(b, n, o, SrcCode(x));
    EOp(b, WOP_I32_SHR_U, o, SrcCode(x) + CountCode(n));
    EDst(b, dst, o, ShiftCode(Shr, x, n));
  }

  // e_sar_common
  method ESarCommon(b: BackendState, dst: Reg, x: Reg, n: Count, ghost o: Origin)
    requires Emits(b, o, []) && UopOk(ShiftBy(Sar, dst, x, n))
    modifies b`log, b.body, b.body.buf
    ensures Emits(b, o, WriteCode(ShiftBy(Sar, dst, x, n)))
  {
    hide Emits, IfNonzero, CountCode, DstCode;
    var pre, post := SarPre(x.size), SarPost(x.size);
    EGet(b, Loc(x.hr), o, []);
    ghost var d := [LocalGet(Loc(x.hr))];
    assert [] + d == d;
    EIfNonzero(b, pre, WOP_I32_SHL, o, d);
    d := d + IfNonzero(pre, WOP_I32_SHL);
    ECount(b, n, o, d);
    d := d + CountCode(n);
    EOp(b, WOP_I32_SHR_S, o, d);
    EIfNonzero(b, post, WOP_I32_SHR_U, o, d + [Simple(WOP_I32_SHR_S)]);
    EDst(b, dst, o, SarCode(x, n));
  }

  // The shift amount of a narrow rotate.
  method EAmount(b: BackendState, left: bool, w: bv32, n: Count, ghost o: Origin, ghost done: seq<Op>)
    requires Emits(b, o, done) && (n.InReg? ==> n.hr < HOST_REGS)
    modifies b`log, b.body, b.body.buf
    ensures Emits(b, o, done + AmountCode(left, w, n))
  {
    hide Emits, WithConst;
    if n.Imm? {
      EI32(b, ImmAmount(left, w, n.n), o, done);
    } else if left {
      EI32(b, w, o, done);
      EGet(b, Loc(n.hr), o, done + [I32Const(w)]);
      EOp(b, WOP_I32_SUB, o, done + [I32Const(w)] + [LocalGet(Loc(n.hr))]);
      ghost var code := [I32Const(w)] + [LocalGet(Loc(n.hr))] + [Simple(WOP_I32_SUB)];
      Associate(done, [I32Const(w)] + [LocalGet(Loc(n.hr))], [Simple(WOP_I32_SUB)]);
      Associate(done, [I32Const(w)], [LocalGet(Loc(n.hr))]);
      if w == 8 {
        EConstOp(b, 7, WOP_I32_AND, o, done + code);
        Associate(done, code, WithConst(7, WOP_I32_AND));
      } else {
        assert code + [] == code;
      }
    } else {
      EGet(b, Loc(n.hr), o, done);
      EConstOp(b, w - 1, WOP_I32_AND, o, done + [LocalGet(Loc(n.hr))]);
      Associate(done, [LocalGet(Loc(n.hr))], WithConst(w - 1, WOP_I32_AND));
    }
  }

  // e_rot_common
  method ERotCommon(b: BackendState, left: bool, x: Reg, n: Count, ghost o: Origin)
    requires Emits(b, o, []) && x.hr < HOST_REGS && (n.InReg? ==> n.hr < HOST_REGS)
    requires !(n.Imm? && Part(Width(x.size), n.n) == 0)
    modifies b`log, b.body, b.body.buf
    ensures Emits(b, o, RotCode(left, x, n))
  {
    hide Emits, SrcCode, WithConst, AmountCode, CountCode;
    if x.size == L {
      EGet(b, Loc(x.hr), o, []);
      assert [] + [LocalGet(Loc(x.hr))] == [LocalGet(Loc(x.hr))];
      ECount(b, n, o, [LocalGet(Loc(x.hr))]);
      EOp(b, if left then WOP_I32_ROTL else WOP_I32_ROTR, o, [LocalGet(Loc(x.hr))] + CountCode(n));
    } else {
      var w := Width(x.size);
      ESrc(b, x, o, []);
      assert [] + SrcCode(x) == SrcCode(x);
      ETee(b, SCRATCH_0, o, SrcCode(x));
      ghost var d := SrcCode(x) + [LocalTee(SCRATCH_0)];
      EConstOp(b, w, WOP_I32_SHL, o, d);
      d := d + WithConst(w, WOP_I32_SHL);
      EGet(b, SCRATCH_0, o, d);
      d := d + [LocalGet(SCRATCH_0)];
      EOp(b, WOP_I32_OR, o, d);
      d := d + [Simple(WOP_I32_OR)];
      EAmount(b, left, w, n, o, d);
      EOp(b, WOP_I32_SHR_U, o, d + AmountCode(left, w, n));
    }
  }

  // gen_rot
  method GenRot(b: BackendState, left: bool, dst: Reg, x: Reg, n: Count, ghost o: Origin)
    requires Emits(b, o, []) && UopOk(ShiftBy(if left then Rol else Ror, dst, x, n))
    modifies b`log, b.body, b.body.buf
    ensures Emits(b, o, WriteCode(ShiftBy(if left then Rol else Ror, dst, x, n)))
  {
    hide Emits, SrcCode, DstCode;
    if n.Imm? && Part(Width(x.size), n.n) == 0 {
      ESrc(b, x, o, []);
      assert [] + SrcCode(x) == SrcCode(x);
    } else {
      ERotCommon(b, left, x, n, o);
    }
    hide RotCode;
    EDst(b, dst, o, RotCode(left, x, n));
  }

  method GenWrite(b: BackendState, u: Uop, ghost o: Origin)
    requires Emits(b, o, []) && UopOk(u) && Writes(u)
    modifies b`log, b.body, b.body.buf
    ensures Emits(b, o, WriteCode(u))
  {
    hide Emits, UopOk, WriteCode;
    match u {
      case Alu2(op, d, x, y) => GenAlu2(b, op, d, x, y, o);
      case AluImm(op, d, x, imm) => GenAluImm(b, op, d, x, imm, o);
      case AddLshift(_, _, _, _) => GenAddLshift(b, u, o);
      case Mov(d, x) => GenMov(b, d, x, o);
      case MovImm(d, imm) => GenMovImm(b, d, imm, o);
      case Movsx(d, x) => GenMovsx(b, d, x, o);
      case ShiftBy(Shl, d, x, n) => GenShl(b, d, x, n, o);
      case ShiftBy(Shr, d, x, n) => GenShr(b, d, x, n, o);
      case ShiftBy(Sar, d, x, n) => ESarCommon(b, d, x, n, o);
      case ShiftBy(Rol, d, x, n) => GenRot(b, true, d, x, n, o);
      case ShiftBy(Ror, d, x, n) => GenRot(b, false, d, x, n, o);
    }
  }

  // ---- handlers that jump --------------------------------------------------------

  method EAligned(b: BackendState, r: Reg, ghost o: Origin, ghost done: seq<Op>)
    requires Emits(b, o, done) && r.hr < HOST_REGS
    modifies b`log, b.body, b.body.buf
    ensures Emits(b, o, done + AlignedCode(r))
  {
    hide Emits, IfNonzero;
    EGet(b, Loc(r.hr), o, done);
    EIfNonzero(b, AlignShift(r.size), WOP_I32_SHL, o, done + [LocalGet(Loc(r.hr))]);
    Associate(done, [LocalGet(Loc(r.hr))], IfNonzero(AlignShift(r.size), WOP_I32_SHL));
  }

  method EWanted(b: BackendState, want: bool, ghost o: Origin, ghost done: seq<Op>)
    requires Emits(b, o, done)
    modifies b`log, b.body, b.body.buf
    ensures Emits(b, o, done + (if want then [] else [Simple(WOP_I32_EQZ)]))
  {
    hide Emits;
    if !want {
      EOp(b, WOP_I32_EQZ, o, done);
    } else {
      assert done + [] == done;
    }
  }

  // gen_cmp_jcc_dest, up to its branch
  method GenCmpJcc(b: BackendState, cond: Cond, x: Reg, y: Reg, ghost o: Origin)
    requires Emits(b, o, []) && UopOk(CmpJump(cond, x, y))
    modifies b`log, b.body, b.body.buf
    ensures Emits(b, o, CondCode(CmpJump(cond, x, y)))
  {
    hide Emits, AlignedCode;
    EAligned(b, x, o, []);
    assert [] + AlignedCode(x) == AlignedCode(x);
    EAligned(b, y, o, AlignedCode(x));
    EOp(b, CondOpcode(cond), o, AlignedCode(x) + AlignedCode(y));
  }

  // gen_cmp_jo_dest, up to its branch
  method GenCmpJo(b: BackendState, want: bool, x: Reg, y: Reg, ghost o: Origin)
    requires Emits(b, o, []) && UopOk(OverflowJump(want, x, y))
    modifies b`log, b.body, b.body.buf
    ensures Emits(b, o, CondCode(OverflowJump(want, x, y)))
  {
    hide Emits, AlignedCode, WithConst;
    EAligned(b, x, o, []);
    assert [] + AlignedCode(x) == AlignedCode(x);
    ETee(b, SCRATCH_0, o, AlignedCode(x));
    ghost var d := AlignedCode(x) + [LocalTee(SCRATCH_0)];
    EAligned(b, y, o, d);
    d := d + AlignedCode(y);
    ETee(b, SCRATCH_1, o, d);
    d := d + [LocalTee(SCRATCH_1)];
    EOp(b, WOP_I32_XOR, o, d);
    d := EFlag(b, o, d + [Simple(WOP_I32_XOR)]);
    EWanted(b, want, o, d);
  }

  // a ^ (a - b), the conjunction, and its top bit
  method EFlag(b: BackendState, ghost o: Origin, ghost done: seq<Op>) returns (ghost d: seq<Op>)
    requires Emits(b, o, done)
    modifies b`log, b.body, b.body.buf
    ensures d == done + [LocalGet(SCRATCH_0)] + [LocalGet(SCRATCH_0)] + [LocalGet(SCRATCH_1)]
              + [Simple(WOP_I32_SUB)] + [Simple(WOP_I32_XOR)] + [Simple(WOP_I32_AND)] + WithConst(31, WOP_I32_SHR_U)
    ensures Emits(b, o, d)
  {
    hide Emits, WithConst;
    EGet(b, SCRATCH_0, o, done);
    d := done + [LocalGet(SCRATCH_0)];
    EGet(b, SCRATCH_0, o, d);
    d := d + [LocalGet(SCRATCH_0)];
    EGet(b, SCRATCH_1, o, d);
    d := d + [LocalGet(SCRATCH_1)];
    EOp(b, WOP_I32_SUB, o, d);
    d := d + [Simple(WOP_I32_SUB)];
    EOp(b, WOP_I32_XOR, o, d);
    d := d + [Simple(WOP_I32_XOR)];
    EOp(b, WOP_I32_AND, o, d);
    d := d + [Simple(WOP_I32_AND)];
    EConstOp(b, 31, WOP_I32_SHR_U, o, d);
    d := d + WithConst(31, WOP_I32_SHR_U);
  }

  // gen_cmp_imm_jcc_dest, up to its branch
  method GenCmpImmJcc(b: BackendState, equal: bool, x: Reg, imm: bv32, ghost o: Origin)
    requires Emits(b, o, []) && UopOk(CmpImmJump(equal, x, imm))
    modifies b`log, b.body, b.body.buf
    ensures Emits(b, o, CondCode(CmpImmJump(equal, x, imm)))
  {
    hide Emits, SrcCode;
    ghost var d := if x.size == L then [LocalGet(Loc(x.hr))] else SrcCode(x);
    assert [] + d == d;
    if x.size == L {
      EGet(b, Loc(x.hr), o, []);
    } else {
      ESrc(b, x, o, []);
    }
    EI32(b, imm, o, d);
    EOp(b, if equal then WOP_I32_EQ else WOP_I32_NE, o, d + [I32Const(imm)]);
  }

  // gen_test_js_dest, up to its branch
  method GenTestJs(b: BackendState, want: bool, x: Reg, ghost o: Origin)
    requires Emits(b, o, []) && UopOk(SignJump(want, x))
    modifies b`log, b.body, b.body.buf
    ensures Emits(b, o, CondCode(SignJump(want, x)))
  {
    hide Emits, WithConst;
    EGet(b, Loc(x.hr), o, []);
    ghost var d := [LocalGet(Loc(x.hr))];
    assert [] + d == d;
    EConstOp(b, SignMask(x.size), WOP_I32_AND, o, d);
    EWanted(b, want, o, d + WithConst(SignMask(x.size), WOP_I32_AND));
  }

  method GenCond(b: BackendState, u: Uop, ghost o: Origin)
    requires Emits(b, o, []) && UopOk(u) && IsJump(u)
    modifies b`log, b.body, b.body.buf
    ensures Emits(b, o, CondCode(u))
  {
    hide Emits, UopOk, CondCode;
    match u {
      case CmpJump(cond, x, y) => GenCmpJcc(b, cond, x, y, o);
      case OverflowJump(want, x, y) => GenCmpJo(b, want, x, y, o);
      case CmpImmJump(equal, x, imm) => GenCmpImmJcc(b, equal, x, imm, o);
      case SignJump(want, x) => GenTestJs(b, want, x, o);
    }
  }

  method GenExitCond(b: BackendState, u: Uop, ghost o: Origin)
    requires Emits(b, o, []) && UopOk(u) && (u.CmpImmExit? || u.CmpExit?)
    modifies b`log, b.body, b.body.buf
    ensures Emits(b, o, ExitCode(u))
  {
    hide Emits;
    EGet(b, Loc(u.aHr), o, []);
    ghost var d := [LocalGet(Loc(u.aHr))];
    assert [] + d == d;
    match u {
      case CmpImmExit(_, imm) =>
        EI32(b, imm, o, d);
        EOp(b, WOP_I32_EQ, o, d + [I32Const(imm)]);
      case CmpExit(above, _, y) =>
        EGet(b, Loc(y), o, d);
        EOp(b, if above then WOP_I32_GT_U else WOP_I32_LT_U, o, d + [LocalGet(Loc(y))]);
    }
  }

  // ---- one uop --------------------------------------------------------------------

  // The tokens a uop is emitted as; patch is the number of the patch record a jump takes.
  function CodeToks(u: Uop, patch: nat): (r: seq<Tok>) {
    if Writes(u) then Toks(WriteCode(u))
    else if IsJump(u) then Toks(CondCode(u)) + [Branch(true, patch)]
    else if u.Exit? then [Did(Return)]
    else Toks(ExitCode(u)) + [Did(If), Did(Return), Did(End)]
  }

  // l1 is l0 with one uop emitted after it.
  ghost predicate Handled(l0: Log, l1: Log, u: Uop) {
    && l1.toks == l0.toks + CodeToks(u, |l0.sites|) && l1.marks == l0.marks
    && l1.sites == (if IsJump(u) then l0.sites + [|l1.toks| - 1] else l0.sites)
    && l1.dests == (if IsJump(u) then l0.dests + [-1] else l0.dests)
  }

  predicate Closed(log: Log) { Open(log.toks, |log.toks|) == 0 }

  lemma JumpHandled(l0: Log, l1: Log, u: Uop)
    requires IsJump(u) && Closed(l0) && Grown(l0, l1, CondCode(u))
    ensures Closed(l1) && Closed(Branched(l1, true)) && Handled(l0, Branched(l1, true), u)
  {
    hide CondCode;
    OpenAfterPlain(l0.toks, CondCode(u));
    OpenPrefix(l1.toks, [Branch(true, |l1.sites|)], |l1.toks|);
    Associate(l0.toks, Toks(CondCode(u)), [Branch(true, |l1.sites|)]);
  }

  lemma Nothing(log: Log)
    ensures Grown(log, log, [])
  {
    assert log.toks + Toks([]) == log.toks;
  }

  method GenJump(b: BackendState, u: Uop) returns (handle: nat)
    requires b.Valid() && UopOk(u) && IsJump(u) && Closed(b.log)
    modifies b, b.body, b.body.buf, b.patches
    ensures b.Valid() && Closed(b.log) && (b.Ok() ==> old(b.Ok()))
    ensures b.Ok() ==> Handled(old(b.log), b.log, u) && handle == |b.log.sites|
    ensures old(b.Ok()) && |old(b.log).sites| < WJIT_MAX_PATCHES ==> !b.emitFailed && Handled(old(b.log), b.log, u)
  {
    hide Grown, Handled, Closed, CondCode, LogOk, Open, UopOk, IsJump;
    ghost var o := Origin(b.log, b.Ok());
    Nothing(b.log);
    GenCond(b, u, o);
    JumpHandled(o.log, b.log, u);
    handle := b.EmitBrPatch(true);
  }

  function ExitGuarded(log: Log): Log {
    Emitted(Emitted(Emitted(log, If, [WOP_IF, WBT_VOID]), Return, [WOP_RETURN]), End, [WOP_END])
  }

  // if; return; end behind tokens with no block open
  lemma GuardCloses(toks: seq<Tok>)
    requires Open(toks, |toks|) == 0
    ensures Open(toks + [Did(If)] + [Did(Return)], |toks| + 2) == 1
    ensures Open(toks + [Did(If)] + [Did(Return)] + [Did(End)], |toks| + 3) == 0
  {
    var t := toks + [Did(If)];
    OpenPrefix(toks, [Did(If)], |toks|);
    OpenPrefix(t, [Did(Return)], |t|);
    OpenPrefix(t + [Did(Return)], [Did(End)], |t| + 1);
  }

  lemma CondExitHandled(l0: Log, l1: Log, u: Uop)
    requires (u.CmpImmExit? || u.CmpExit?) && Closed(l0) && Grown(l0, l1, ExitCode(u))
    ensures Open(l1.toks + [Did(If)] + [Did(Return)], |l1.toks| + 2) == 1
    ensures Closed(ExitGuarded(l1)) && Handled(l0, ExitGuarded(l1), u)
  {
    hide ExitCode, Open;
    OpenAfterPlain(l0.toks, ExitCode(u));
    GuardCloses(l1.toks);
    assert ExitGuarded(l1).toks == l0.toks + (Toks(ExitCode(u)) + [Did(If), Did(Return), Did(End)]);
  }

  // CMP_IMM_JZ, CMP_JB and CMP_JNBE: leave the block under a condition.
  method GenCondExit(b: BackendState, u: Uop)
    requires b.Valid() && UopOk(u) && (u.CmpImmExit? || u.CmpExit?) && Closed(b.log)
    modifies b`log, b.body, b.body.buf
    ensures b.Valid() && Closed(b.log) && (b.Ok() ==> old(b.Ok()))
    ensures Handled(old(b.log), b.log, u)
  {
    hide Grown, Handled, Closed, ExitCode, LogOk, Open, UopOk;
    ghost var o := Origin(b.log, b.Ok());
    Nothing(b.log);
    GenExitCond(b, u, o);
    CondExitHandled(o.log, b.log, u);
    b.OpenIf();
    b.EmitExit();
    b.CloseIf();
  }

  lemma WriteHandled(l0: Log, l1: Log, u: Uop)
    requires Writes(u) && Closed(l0) && Grown(l0, l1, WriteCode(u))
    ensures Closed(l1) && Handled(l0, l1, u)
  {
    hide WriteCode;
    OpenAfterPlain(l0.toks, WriteCode(u));
  }

  lemma ExitHandled(log: Log)
    requires Closed(log)
    ensures Closed(Emitted(log, Return, [WOP_RETURN])) && Handled(log, Emitted(log, Return, [WOP_RETURN]), Uop.Exit)
  {
    OpenPrefix(log.toks, [Did(Return)], |log.toks|);
  }

  // uop_handlers[type]: emit one uop, between two others.
  method EmitUop(b: BackendState, u: Uop) returns (handle: nat)
    requires b.Valid() && UopOk(u) && Closed(b.log)
    modifies b, b.body, b.body.buf, b.patches
    ensures b.Valid() && Closed(b.log) && (b.Ok() ==> old(b.Ok()))
    ensures b.Ok() ==> Handled(old(b.log), b.log, u) && (IsJump(u) ==> handle == |b.log.sites|)
    // With a patch record to spare only the body can run full.
    ensures old(b.Ok()) && |old(b.log).sites| < WJIT_MAX_PATCHES ==> !b.emitFailed && Handled(old(b.log), b.log, u)
  {
    handle := 0;
    hide Grown, Handled, Closed, WriteCode, LogOk, Open, UopOk;
    if IsJump(u) {
      handle := GenJump(b, u);
    } else if u.Exit? {
      ExitHandled(b.log);
      b.EmitExit();
    } else if IsExit(u) {
      GenCondExit(b, u);
    } else {
      ghost var o := Origin(b.log, b.Ok());
      Nothing(b.log);
      GenWrite(b, u, o);
      WriteHandled(o.log, b.log, u);
    }
  }
}
