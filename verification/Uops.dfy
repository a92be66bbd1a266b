// Integer uops of wasm/jit/codegen_backend_wasm_uops.c: what each means on sized register
// views, the stack code emitted for it, and that the code computes the meaning.
module Uops {
  import opened Common
  import opened Wasm
  import opened I32

  // ---- sized registers ----------------------------------------------------------------

  datatype Size = L | W | B | BH

  // A host register and the view of it an operand names.
  datatype Reg = Reg(hr: nat, size: Size)

  const HOST_REGS := 12
  const SCRATCH_0 := 43
  const SCRATCH_1 := 44

  function Loc(hr: nat): nat { LOCAL_BASE + hr }

  function Low16(v: bv32): bv32 { And32(v, 0xffff) }
  function Low8(v: bv32): bv32 { And32(v, 0xff) }
  function High8(v: bv32): bv32 { And32(ShrU32(v, 8), 0xff) }

  // A value cut to the width of a view.
  function Trunc(s: Size, v: bv32): bv32 {
    match s
    case L => v
    case W => Low16(v)
    case B => Low8(v)
    case BH => Low8(v)
  }

  // The bits the view selects, zero-extended and sign-extended.
  function View(s: Size, v: bv32): bv32 {
    match s
    case L => v
    case W => Low16(v)
    case B => Low8(v)
    case BH => High8(v)
  }

  function SView(s: Size, v: bv32): bv32 {
    match s
    case L => v
    case W => Sext16(v)
    case B => Sext8(v)
    case BH => Sext8(ShrU32(v, 8))
  }

  // The bits outside the view.
  function Rest(s: Size, v: bv32): bv32 {
    match s
    case L => 0
    case W => And32(v, 0xffff_0000)
    case B => And32(v, 0xffff_ff00)
    case BH => And32(v, 0xffff_00ff)
  }

  // The bits of a value, cut to size, where the view has them.
  function Place(s: Size, v: bv32): bv32 {
    if s == BH then Shl32(Low8(v), 8) else Trunc(s, v)
  }

  // The word whose view is v, cut to size, and whose other bits are those of orig.
  function Merge(s: Size, orig: bv32, v: bv32): bv32 {
    if s == L then v else Or32(Place(s, v), Rest(s, orig))
  }

  lemma MergeW(o: bv32, v: bv32)
    ensures Low16(Or32(Low16(v), And32(o, 0xffff_0000))) == Low16(v)
    ensures And32(Or32(Low16(v), And32(o, 0xffff_0000)), 0xffff_0000) == And32(o, 0xffff_0000)
  {
  }

  lemma MergeB(o: bv32, v: bv32)
    ensures Low8(Or32(Low8(v), And32(o, 0xffff_ff00))) == Low8(v)
    ensures And32(Or32(Low8(v), And32(o, 0xffff_ff00)), 0xffff_ff00) == And32(o, 0xffff_ff00)
  {
  }

  lemma MergeBH(o: bv32, v: bv32)
    ensures High8(Or32(Shl32(Low8(v), 8), And32(o, 0xffff_00ff))) == Low8(v)
    ensures And32(Or32(Shl32(Low8(v), 8), And32(o, 0xffff_00ff)), 0xffff_00ff) == And32(o, 0xffff_00ff)
  {
  }

  // Merging sets the view and keeps the rest.
  lemma MergeSpec(s: Size, orig: bv32, v: bv32)
    ensures View(s, Merge(s, orig, v)) == Trunc(s, v)
    ensures Rest(s, Merge(s, orig, v)) == Rest(s, orig)
  {
    hide And32, Or32, Shl32, ShrU32, Low16, Low8, High8;
    match s {
      case L =>
      case W => MergeW(orig, v);
      case B => MergeB(orig, v);
      case BH => MergeBH(orig, v);
    }
  }

  lemma SplitW(x: bv32)
    ensures x == Or32(Low16(x), And32(x, 0xffff_0000))
  {
  }

  lemma SplitB(x: bv32)
    ensures x == Or32(Low8(x), And32(x, 0xffff_ff00))
  {
  }

  lemma SplitBH(x: bv32)
    ensures x == Or32(Shl32(High8(x), 8), And32(x, 0xffff_00ff))
  {
  }

  // ... and gives the only word with this view and this rest.
  lemma MergeUnique(s: Size, orig: bv32, v: bv32, x: bv32)
    requires View(s, x) == Trunc(s, v) && Rest(s, x) == Rest(s, orig)
    ensures x == Merge(s, orig, v)
  {
    hide And32, Or32, Shl32, ShrU32, Low16, Low8, High8;
    match s {
      case L =>
      case W => SplitW(x);
      case B => SplitB(x);
      case BH => SplitBH(x);
    }
  }

  // Only the bits that fit the view matter.
  lemma MergeTrunc(s: Size, orig: bv32, v: bv32, v': bv32)
    requires Trunc(s, v) == Trunc(s, v')
    ensures Merge(s, orig, v) == Merge(s, orig, v')
  {
    hide And32, Or32, Shl32, ShrU32, Low16, Low8, High8, Rest;
  }

  // ---- uops ------------------------------------------------------------------------

  datatype Alu = Add | And | Or | Sub | Xor

  datatype Shift = Shl | Shr | Sar | Rol | Ror

  // A shift count: an immediate, or a whole host register.
  datatype Count = Imm(n: bv32) | InReg(hr: nat)

  // Conditions of the compare-and-jump uops, named after the x86 jumps.
  datatype Cond = JB | JNB | JBE | JNBE | JL | JNL | JLE | JNLE | JZ | JNZ

  datatype Uop =
    | Alu2(op: Alu, dst: Reg, a: Reg, b: Reg)
    | AluImm(op: Alu, dst: Reg, a: Reg, imm: bv32)
    | AddLshift(dstHr: nat, aHr: nat, bHr: nat, shift: bv32)
    | Mov(dst: Reg, a: Reg)                    // MOV and MOVZX
    | MovImm(dst: Reg, imm: bv32)
    | Movsx(dst: Reg, a: Reg)
    | ShiftBy(kind: Shift, dst: Reg, a: Reg, count: Count)
    | CmpJump(cond: Cond, a: Reg, b: Reg)      // the CMP_Jcc_DEST family
    | OverflowJump(want: bool, a: Reg, b: Reg) // CMP_JO_DEST, CMP_JNO_DEST
    | CmpImmJump(equal: bool, a: Reg, imm: bv32)
    | SignJump(want: bool, a: Reg)             // TEST_JS_DEST, TEST_JNS_DEST
    | Exit                                     // JMP to the exit routine
    | CmpImmExit(aHr: nat, imm: bv32)          // CMP_IMM_JZ
    | CmpExit(above: bool, aHr: nat, bHr: nat) // CMP_JB, CMP_JNBE

  predicate IsJump(u: Uop) {
    u.CmpJump? || u.OverflowJump? || u.CmpImmJump? || u.SignJump?
  }

  predicate IsExit(u: Uop) { u.Exit? || u.CmpImmExit? || u.CmpExit? }

  predicate Comparable(a: Reg, b: Reg) { a.size == b.size && a.size != BH }

  // Register numbers in range, and the sizes the handlers take without calling fatal.
  predicate UopOk(u: Uop) {
    match u
    case Alu2(_, d, a, b) => d.hr < HOST_REGS && a.hr < HOST_REGS && b.hr < HOST_REGS
    case AluImm(_, d, a, _) => d.hr < HOST_REGS && a.hr < HOST_REGS
    case AddLshift(d, a, b, _) => d < HOST_REGS && a < HOST_REGS && b < HOST_REGS
    case Mov(d, a) => d.hr < HOST_REGS && a.hr < HOST_REGS
    case MovImm(d, _) => d.hr < HOST_REGS
    case Movsx(d, a) => d.hr < HOST_REGS && a.hr < HOST_REGS && a.size != L && (d.size == L || d.size == W)
    case ShiftBy(_, d, a, n) => d.hr < HOST_REGS && a.hr < HOST_REGS && d.size == a.size && (n.InReg? ==> n.hr < HOST_REGS)
    case CmpJump(_, a, b) => a.hr < HOST_REGS && b.hr < HOST_REGS && Comparable(a, b)
    case OverflowJump(_, a, b) => a.hr < HOST_REGS && b.hr < HOST_REGS && Comparable(a, b)
    case CmpImmJump(_, a, _) => a.hr < HOST_REGS && (a.size == L || a.size == W)
    case SignJump(_, a) => a.hr < HOST_REGS && a.size != BH
    case Exit => true
    case CmpImmExit(a, _) => a < HOST_REGS
    case CmpExit(_, a, b) => a < HOST_REGS && b < HOST_REGS
  }

  // ---- meaning ---------------------------------------------------------------------

  type Regs = s: seq<bv32> | |s| == HOST_REGS witness seq(HOST_REGS, _ => 0)

  function Get(regs: Regs, r: Reg): bv32
    requires r.hr < HOST_REGS
  {
    View(r.size, regs[r.hr])
  }

  function AluValue(op: Alu, x: bv32, y: bv32): bv32 {
    match op
    case Add => Add32(x, y)
    case And => And32(x, y)
    case Or => Or32(x, y)
    case Sub => Sub32(x, y)
    case Xor => Xor32(x, y)
  }

  function Width(s: Size): (w: bv32)
    ensures w in {8, 16, 32}
  {
    match s
    case L => 32
    case W => 16
    case B => 8
    case BH => 8
  }

  // A count modulo a width.
  function Part(w: bv32, n: bv32): bv32 { n & (w - 1) }

  // v rotated within the width w by n modulo w; bits beyond the width are to be cut.
  function Rotated(w: bv32, left: bool, v: bv32, n: bv32): bv32
    requires w in {8, 16, 32}
  {
    if left then RotateLeft(w, v, Part(w, n)) else RotateRight(w, v, Part(w, n))
  }

  // The view doubled up, which a right shift can rotate.
  function Doubled(w: bv32, v: bv32): bv32 { Or32(Shl32(v, w), v) }

  // Rotating a 16-bit view left by a register holding more than 16 (modulo 32) is the one
  // case where the emitted recipe is not a rotation.
  predicate RolMisses(w: bv32, left: bool, count: Count, n: bv32) {
    w == 16 && left && count.InReg? && Mod32(n) > 16
  }

  // What rotating v of width w by n gives: the rotation, or in the missed case whatever
  // the recipe computes.
  function RotValue(w: bv32, left: bool, v: bv32, count: Count, n: bv32): bv32
    requires w in {8, 16, 32}
  {
    if RolMisses(w, left, count, n) then ShrU32(Doubled(16, v), Sub32(16, n)) else Rotated(w, left, v, n)
  }

  function ShiftValue(kind: Shift, s: Size, x: bv32, count: Count, n: bv32): bv32 {
    match kind
    case Shl => Shl32(View(s, x), n)
    case Shr => ShrU32(View(s, x), n)
    case Sar => ShrS32(SView(s, x), n)
    case Rol => RotValue(Width(s), true, View(s, x), count, n)
    case Ror => RotValue(Width(s), false, View(s, x), count, n)
  }

  function CountOf(regs: Regs, count: Count): bv32
    requires count.InReg? ==> count.hr < HOST_REGS
  {
    match count
    case Imm(n) => n
    case InReg(hr) => regs[hr]
  }

  predicate Writes(u: Uop) { !IsJump(u) && !IsExit(u) }

  function Dest(u: Uop): Reg
    requires Writes(u)
  {
    if u.AddLshift? then Reg(u.dstHr, L) else u.dst
  }

  // The value a register-writing uop computes, before it is cut to its destination's size.
  function UopValue(u: Uop, regs: Regs): bv32
    requires UopOk(u) && Writes(u)
  {
    match u
    case Alu2(op, _, a, b) => AluValue(op, Get(regs, a), Get(regs, b))
    case AluImm(op, _, a, imm) => AluValue(op, Get(regs, a), imm)
    case AddLshift(_, a, b, shift) => Add32(regs[a], Shl32(regs[b], shift))
    case Mov(_, a) => Get(regs, a)
    case MovImm(_, imm) => imm
    case Movsx(_, a) => SView(a.size, regs[a.hr])
    case ShiftBy(kind, _, a, n) => ShiftValue(kind, a.size, regs[a.hr], n, CountOf(regs, n))
  }

  function Written(u: Uop, regs: Regs): Regs
    requires UopOk(u) && Writes(u)
  {
    var d := Dest(u);
    regs[d.hr := Merge(d.size, regs[d.hr], UopValue(u, regs))]
  }

  predicate CondHolds(cond: Cond, s: Size, x: bv32, y: bv32) {
    match cond
    case JB => ULess(View(s, x), View(s, y))
    case JNB => !ULess(View(s, x), View(s, y))
    case JBE => !ULess(View(s, y), View(s, x))
    case JNBE => ULess(View(s, y), View(s, x))
    case JL => SLess(SView(s, x), SView(s, y))
    case JNL => !SLess(SView(s, x), SView(s, y))
    case JLE => !SLess(SView(s, y), SView(s, x))
    case JNLE => SLess(SView(s, y), SView(s, x))
    case JZ => View(s, x) == View(s, y)
    case JNZ => View(s, x) != View(s, y)
  }

  predicate Negative(s: Size, x: bv32) {
    match s
    case L => x & 0x8000_0000 != 0
    case W => x & 0x8000 != 0
    case B => x & 0x80 != 0
    case BH => x & 0x8000 != 0
  }

  // Subtraction overflows when the operands differ in sign and the difference, at this
  // size, does not have the sign of the first.
  predicate SubOverflows(s: Size, x: bv32, y: bv32) {
    Negative(s, x) != Negative(s, y) && Negative(s, Sub32(x, y)) != Negative(s, x)
  }

  predicate Taken(u: Uop, regs: Regs)
    requires UopOk(u) && IsJump(u)
  {
    match u
    case CmpJump(cond, a, b) => CondHolds(cond, a.size, regs[a.hr], regs[b.hr])
    case OverflowJump(want, a, b) => SubOverflows(a.size, regs[a.hr], regs[b.hr]) == want
    case CmpImmJump(equal, a, imm) => (Get(regs, a) == imm) == equal
    case SignJump(want, a) => Negative(a.size, regs[a.hr]) == want
  }

  predicate Exits(u: Uop, regs: Regs)
    requires UopOk(u) && IsExit(u)
  {
    match u
    case Exit => true
    case CmpImmExit(a, imm) => regs[a] == imm
    case CmpExit(above, a, b) => if above then ULess(regs[b], regs[a]) else ULess(regs[a], regs[b])
  }

  // ---- emitted code ------------------------------------------------------------------

  function MaskCode(s: Size): seq<Op> {
    match s
    case L => []
    case W => WithConst(0xffff, WOP_I32_AND)
    case B => WithConst(0xff, WOP_I32_AND)
    case BH => WithConst(8, WOP_I32_SHR_U) + WithConst(0xff, WOP_I32_AND)
  }

  // e_src: push the sized view of a register.
  function SrcCode(r: Reg): seq<Op> { [LocalGet(Loc(r.hr))] + MaskCode(r.size) }

  function PlaceCode(s: Size): seq<Op> {
    match s
    case L => []
    case W => WithConst(0xffff, WOP_I32_AND)
    case B => WithConst(0xff, WOP_I32_AND)
    case BH => WithConst(0xff, WOP_I32_AND) + WithConst(8, WOP_I32_SHL)
  }

  function KeepMask(s: Size): bv32 {
    match s
    case L => 0
    case W => 0xffff_0000
    case B => 0xffff_ff00
    case BH => 0xffff_00ff
  }

  // e_dst: merge the top of the stack into a register's view.
  function DstCode(r: Reg): seq<Op> {
    if r.size == L then [LocalSet(Loc(r.hr))]
    else
      PlaceCode(r.size) + [LocalGet(Loc(r.hr))] + WithConst(KeepMask(r.size), WOP_I32_AND)
      + [Simple(WOP_I32_OR)] + [LocalSet(Loc(r.hr))]
  }

  function AluOpcode(op: Alu): Byte {
    match op
    case Add => WOP_I32_ADD
    case And => WOP_I32_AND
    case Or => WOP_I32_OR
    case Sub => WOP_I32_SUB
    case Xor => WOP_I32_XOR
  }

  function CountCode(n: Count): seq<Op> {
    match n
    case Imm(k) => [I32Const(k)]
    case InReg(hr) => [LocalGet(Loc(hr))]
  }

  function IfNonzero(k: bv32, code: Byte): seq<Op> {
    if k == 0 then [] else WithConst(k, code)
  }

  // e_sar_common's alignment: up to bit 31 before the shift, back down after it.
  function SarPre(s: Size): bv32 { match s case L => 0 case W => 16 case B => 24 case BH => 16 }

  function SarPost(s: Size): bv32 { match s case L => 0 case W => 16 case B => 24 case BH => 24 }

  function SarCode(a: Reg, n: Count): seq<Op> {
    [LocalGet(Loc(a.hr))] + IfNonzero(SarPre(a.size), WOP_I32_SHL) + CountCode(n)
      + [Simple(WOP_I32_SHR_S)] + IfNonzero(SarPost(a.size), WOP_I32_SHR_U)
  }

  // The shift amount worked out at emit time for an immediate count.
  function ImmAmount(left: bool, w: bv32, k: bv32): bv32 {
    if left then Part(w, w - Part(w, k)) else Part(w, k)
  }

  // e_rot_common's shift amount for a narrow rotate.
  function AmountCode(left: bool, w: bv32, n: Count): seq<Op> {
    match n
    case Imm(k) => [I32Const(ImmAmount(left, w, k))]
    case InReg(hr) =>
      if left then
        [I32Const(w)] + [LocalGet(Loc(hr))] + [Simple(WOP_I32_SUB)] + (if w == 8 then WithConst(7, WOP_I32_AND) else [])
      else
        [LocalGet(Loc(hr))] + WithConst(w - 1, WOP_I32_AND)
  }

  // gen_rot: native at 32 bits, nothing to do for an immediate of 0 modulo the width,
  // and otherwise the view doubled and shifted right.
  function RotCode(left: bool, a: Reg, n: Count): seq<Op> {
    var w := Width(a.size);
    if n.Imm? && Part(w, n.n) == 0 then SrcCode(a)
    else if a.size == L then
      [LocalGet(Loc(a.hr))] + CountCode(n) + [Simple(if left then WOP_I32_ROTL else WOP_I32_ROTR)]
    else
      SrcCode(a) + [LocalTee(SCRATCH_0)] + WithConst(w, WOP_I32_SHL) + [LocalGet(SCRATCH_0)]
        + [Simple(WOP_I32_OR)] + AmountCode(left, w, n) + [Simple(WOP_I32_SHR_U)]
  }

  function ShiftCode(kind: Shift, a: Reg, n: Count): seq<Op> {
    match kind
    case Shl => (if a.size == BH then SrcCode(a) else [LocalGet(Loc(a.hr))]) + CountCode(n) + [Simple(WOP_I32_SHL)]
    case Shr => SrcCode(a) + CountCode(n) + [Simple(WOP_I32_SHR_U)]
    case Sar => SarCode(a, n)
    case Rol => RotCode(true, a, n)
    case Ror => RotCode(false, a, n)
  }

  function MovsxCode(a: Reg): seq<Op> {
    match a.size
    case BH => [LocalGet(Loc(a.hr))] + WithConst(8, WOP_I32_SHR_U) + [Simple(WOP_I32_EXTEND8_S)]
    case B => [LocalGet(Loc(a.hr))] + [Simple(WOP_I32_EXTEND8_S)]
    case _ => [LocalGet(Loc(a.hr))] + [Simple(WOP_I32_EXTEND16_S)]
  }

  // Everything up to the store of a register-writing uop.
  function ValueCode(u: Uop): seq<Op>
    requires Writes(u)
  {
    match u
    case Alu2(op, _, a, b) => SrcCode(a) + SrcCode(b) + [Simple(AluOpcode(op))]
    case AluImm(op, _, a, imm) => SrcCode(a) + [I32Const(imm)] + [Simple(AluOpcode(op))]
    case AddLshift(_, a, b, shift) =>
      [LocalGet(Loc(a))] + [LocalGet(Loc(b))] + IfNonzero(shift, WOP_I32_SHL) + [Simple(WOP_I32_ADD)]
    case Mov(_, a) => SrcCode(a)
    case MovImm(_, imm) => [I32Const(imm)]
    case Movsx(_, a) => MovsxCode(a)
    case ShiftBy(kind, _, a, n) => ShiftCode(kind, a, n)
  }

  function WriteCode(u: Uop): seq<Op>
    requires Writes(u)
  {
    ValueCode(u) + DstCode(Dest(u))
  }

  function AlignShift(s: Size): bv32 { match s case L => 0 case W => 16 case _ => 24 }

  // A register shifted so that its view's top bit is bit 31.
  function AlignedCode(r: Reg): seq<Op> {
    [LocalGet(Loc(r.hr))] + IfNonzero(AlignShift(r.size), WOP_I32_SHL)
  }

  function CondOpcode(cond: Cond): Byte {
    match cond
    case JB => WOP_I32_LT_U
    case JNB => WOP_I32_GE_U
    case JBE => WOP_I32_LE_U
    case JNBE => WOP_I32_GT_U
    case JL => WOP_I32_LT_S
    case JNL => WOP_I32_GE_S
    case JLE => WOP_I32_LE_S
    case JNLE => WOP_I32_GT_S
    case JZ => WOP_I32_EQ
    case JNZ => WOP_I32_NE
  }

  function SignMask(s: Size): bv32 { match s case L => 0x8000_0000 case W => 0x8000 case _ => 0x80 }

  // The condition of a jump uop, left on the stack for its br_if.
  function CondCode(u: Uop): seq<Op>
    requires IsJump(u)
  {
    match u
    case CmpJump(cond, a, b) => AlignedCode(a) + AlignedCode(b) + [Simple(CondOpcode(cond))]
    case OverflowJump(want, a, b) =>
      AlignedCode(a) + [LocalTee(SCRATCH_0)] + AlignedCode(b) + [LocalTee(SCRATCH_1)]
        + [Simple(WOP_I32_XOR)] + [LocalGet(SCRATCH_0)] + [LocalGet(SCRATCH_0)] + [LocalGet(SCRATCH_1)]
        + [Simple(WOP_I32_SUB)] + [Simple(WOP_I32_XOR)] + [Simple(WOP_I32_AND)]
        + WithConst(31, WOP_I32_SHR_U) + (if want then [] else [Simple(WOP_I32_EQZ)])
    case CmpImmJump(equal, a, imm) =>
      (if a.size == L then [LocalGet(Loc(a.hr))] else SrcCode(a)) + [I32Const(imm)]
        + [Simple(if equal then WOP_I32_EQ else WOP_I32_NE)]
    case SignJump(want, a) =>
      [LocalGet(Loc(a.hr))] + WithConst(SignMask(a.size), WOP_I32_AND) + (if want then [] else [Simple(WOP_I32_EQZ)])
  }

  // The condition of a conditional exit, left on the stack for its if.
  function ExitCode(u: Uop): seq<Op>
    requires u.CmpImmExit? || u.CmpExit?
  {
    match u
    case CmpImmExit(a, imm) => [LocalGet(Loc(a))] + [I32Const(imm)] + [Simple(WOP_I32_EQ)]
    case CmpExit(above, a, b) =>
      [LocalGet(Loc(a))] + [LocalGet(Loc(b))] + [Simple(if above then WOP_I32_GT_U else WOP_I32_LT_U)]
  }
}
