// The conditions of the jump and exit uops: comparing views moved up to bit 31 is
// comparing the views.
module CondProofs {
  import opened Common
  import opened Wasm
  import opened I32
  import opened Uops
  import opened UopProofs

  predicate Same(t: bv32, u: bv32) { t == u }

  predicate SignSet(t: bv32) { t & 0x8000_0000 != 0 }

  // The sign of a difference.
  predicate DiffSign(t: bv32, u: bv32) { (t - u) & 0x8000_0000 != 0 }

  // The sign of the difference of two views.
  predicate DiffNegative(s: Size, x: bv32, y: bv32) {
    match s
    case L => (x - y) & 0x8000_0000 != 0
    case W => (x - y) & 0x8000 != 0
    case B => (x - y) & 0x80 != 0
    case BH => (x - y) & 0x8000 != 0
  }

  lemma NegativeDiff(s: Size, x: bv32, y: bv32)
    ensures Negative(s, Sub32(x, y)) == DiffNegative(s, x, y)
  {
  }

  // What the four tests say of x and y shifted up by 16 or by 24 bits.
  lemma UpW(x: bv32, y: bv32)
    ensures ULess(x << 16, y << 16) == ULess(x & 0xffff, y & 0xffff)
    ensures Same(x << 16, y << 16) == Same(x & 0xffff, y & 0xffff)
    ensures DiffSign(x << 16, y << 16) == ((x - y) & 0x8000 != 0)
    ensures SignSet(x << 16) == (x & 0x8000 != 0)
  {
  }

  lemma UpB(x: bv32, y: bv32)
    ensures ULess(x << 24, y << 24) == ULess(x & 0xff, y & 0xff)
    ensures Same(x << 24, y << 24) == Same(x & 0xff, y & 0xff)
    ensures DiffSign(x << 24, y << 24) == ((x - y) & 0x80 != 0)
    ensures SignSet(x << 24) == (x & 0x80 != 0)
  {
  }

  lemma OfUpW(x: bv32, y: bv32, t: bv32, u: bv32, a: bv32, b: bv32)
    requires t == x << 16 && u == y << 16 && a == x & 0xffff && b == y & 0xffff
    ensures ULess(t, u) == ULess(a, b) && Same(t, u) == Same(a, b)
    ensures DiffSign(t, u) == ((x - y) & 0x8000 != 0) && SignSet(t) == (x & 0x8000 != 0)
  {
    hide *;
    UpW(x, y);
  }

  lemma OfUpB(x: bv32, y: bv32, t: bv32, u: bv32, a: bv32, b: bv32)
    requires t == x << 24 && u == y << 24 && a == x & 0xff && b == y & 0xff
    ensures ULess(t, u) == ULess(a, b) && Same(t, u) == Same(a, b)
    ensures DiffSign(t, u) == ((x - y) & 0x80 != 0) && SignSet(t) == (x & 0x80 != 0)
  {
    hide *;
    UpB(x, y);
  }

  // One named operator at a time: together they are much harder.
  lemma Shl16(x: bv32)
    ensures Shl32(x, 16) == x << 16
  {
  }

  lemma LowMask16(x: bv32)
    ensures Low16(x) == x & 0xffff
  {
  }

  lemma Bit15(x: bv32)
    ensures Negative(W, x) == (x & 0x8000 != 0)
  {
  }

  lemma DiffBit15(x: bv32, y: bv32)
    ensures DiffNegative(W, x, y) == ((x - y) & 0x8000 != 0)
  {
  }

  lemma WrappedB(x: bv32, y: bv32)
    ensures Shl32(x, 24) == x << 24 && Low8(x) == x & 0xff
    ensures Negative(B, x) == (x & 0x80 != 0)
    ensures DiffNegative(B, x, y) == ((x - y) & 0x80 != 0)
  {
  }

  lemma TopW(x: bv32, y: bv32)
    ensures ULess(Shl32(x, 16), Shl32(y, 16)) == ULess(Low16(x), Low16(y))
    ensures Same(Shl32(x, 16), Shl32(y, 16)) == Same(Low16(x), Low16(y))
    ensures DiffSign(Shl32(x, 16), Shl32(y, 16)) == DiffNegative(W, x, y)
    ensures SignSet(Shl32(x, 16)) == Negative(W, x)
  {
    hide *;
    Shl16(x);
    Shl16(y);
    LowMask16(x);
    LowMask16(y);
    Bit15(x);
    DiffBit15(x, y);
    OfUpW(x, y, Shl32(x, 16), Shl32(y, 16), Low16(x), Low16(y));
  }

  lemma TopB(x: bv32, y: bv32)
    ensures ULess(Shl32(x, 24), Shl32(y, 24)) == ULess(Low8(x), Low8(y))
    ensures Same(Shl32(x, 24), Shl32(y, 24)) == Same(Low8(x), Low8(y))
    ensures DiffSign(Shl32(x, 24), Shl32(y, 24)) == DiffNegative(B, x, y)
    ensures SignSet(Shl32(x, 24)) == Negative(B, x)
  {
    hide *;
    WrappedB(x, y);
    WrappedB(y, x);
    OfUpB(x, y, Shl32(x, 24), Shl32(y, 24), Low8(x), Low8(y));
  }

  lemma TopL(x: bv32, y: bv32)
    ensures DiffSign(x, y) == DiffNegative(L, x, y)
    ensures SignSet(x) == Negative(L, x)
  {
  }

  // A view moved up to bit 31.
  function Top(s: Size, x: bv32): bv32 { Aligned(WOP_I32_SHL, x, AlignShift(s)) }

  lemma TopFacts(s: Size, x: bv32, y: bv32)
    requires s != BH
    ensures ULess(Top(s, x), Top(s, y)) == ULess(View(s, x), View(s, y))
    ensures Same(Top(s, x), Top(s, y)) == Same(View(s, x), View(s, y))
    ensures DiffSign(Top(s, x), Top(s, y)) == DiffNegative(s, x, y)
    ensures SignSet(Top(s, x)) == Negative(s, x)
  {
    hide ULess, Same, SignSet, DiffSign, Negative, DiffNegative, Shl32, Low16, Low8;
    match s {
      case L => TopL(x, y);
      case W => TopW(x, y);
      case B => TopB(x, y);
    }
  }

  lemma SLessBySign(a: bv32, b: bv32)
    ensures SLess(a, b) == if SignSet(a) != SignSet(b) then SignSet(a) else ULess(a, b)
  {
  }

  lemma OnesOrder(x: bv32, y: bv32)
    ensures x & 0x8000 != 0 && y & 0x8000 != 0 ==> ULess(x | 0xffff_0000, y | 0xffff_0000) == ULess(x & 0xffff, y & 0xffff)
    ensures x & 0x80 != 0 && y & 0x80 != 0 ==> ULess(x | 0xffff_ff00, y | 0xffff_ff00) == ULess(x & 0xff, y & 0xff)
  {
  }

  lemma SignW(x: bv32)
    ensures SignSet(SView(W, x)) == (x & 0x8000 != 0)
  {
  }

  lemma SViewW(x: bv32)
    ensures SView(W, x) == if x & 0x8000 != 0 then x | 0xffff_0000 else x & 0xffff
  {
  }

  lemma SViewB(x: bv32)
    ensures Negative(B, x) == (x & 0x80 != 0) == SignSet(SView(B, x))
    ensures View(B, x) == x & 0xff
    ensures SView(B, x) == if x & 0x80 != 0 then x | 0xffff_ff00 else x & 0xff
  {
  }

  lemma ViewMaskW(x: bv32)
    ensures View(W, x) == x & 0xffff
  {
  }

  lemma OrderW(x: bv32, y: bv32)
    requires Negative(W, x) == Negative(W, y)
    ensures ULess(SView(W, x), SView(W, y)) == ULess(View(W, x), View(W, y))
  {
    hide *;
    Bit15(x);
    Bit15(y);
    SViewW(x);
    SViewW(y);
    ViewMaskW(x);
    ViewMaskW(y);
    OnesOrder(x, y);
  }

  lemma OrderB(x: bv32, y: bv32)
    requires Negative(B, x) == Negative(B, y)
    ensures ULess(SView(B, x), SView(B, y)) == ULess(View(B, x), View(B, y))
  {
    hide *;
    SViewB(x);
    SViewB(y);
    OnesOrder(x, y);
  }

  // Sign extension keeps the order of views of equal sign.
  lemma SViewFacts(s: Size, x: bv32, y: bv32)
    requires s != BH
    ensures SignSet(SView(s, x)) == Negative(s, x)
    ensures Negative(s, x) == Negative(s, y) ==> ULess(SView(s, x), SView(s, y)) == ULess(View(s, x), View(s, y))
  {
    hide SView, View, SignSet, Negative, ULess;
    match s {
      case L => SViewFactsL(x, y);
      case W => SViewFactsW(x, y);
      case B => SViewFactsB(x, y);
    }
  }

  lemma SViewFactsL(x: bv32, y: bv32)
    ensures SignSet(SView(L, x)) == Negative(L, x)
    ensures SView(L, x) == View(L, x) && SView(L, y) == View(L, y)
  {
  }

  lemma SViewFactsW(x: bv32, y: bv32)
    ensures SignSet(SView(W, x)) == Negative(W, x)
    ensures Negative(W, x) == Negative(W, y) ==> ULess(SView(W, x), SView(W, y)) == ULess(View(W, x), View(W, y))
  {
    hide *;
    Bit15(x);
    SignW(x);
    if Negative(W, x) == Negative(W, y) {
      OrderW(x, y);
    }
  }

  lemma SViewFactsB(x: bv32, y: bv32)
    ensures SignSet(SView(B, x)) == Negative(B, x)
    ensures Negative(B, x) == Negative(B, y) ==> ULess(SView(B, x), SView(B, y)) == ULess(View(B, x), View(B, y))
  {
    hide *;
    SViewB(x);
    if Negative(B, x) == Negative(B, y) {
      OrderB(x, y);
    }
  }

  lemma SignedTop(s: Size, x: bv32, y: bv32)
    requires s != BH
    ensures SLess(Top(s, x), Top(s, y)) == SLess(SView(s, x), SView(s, y))
  {
    hide *;
    TopFacts(s, x, y);
    TopFacts(s, y, x);
    SViewFacts(s, x, y);
    SViewFacts(s, y, x);
    SLessBySign(Top(s, x), Top(s, y));
    SLessBySign(SView(s, x), SView(s, y));
  }

  // Every condition can be tested on the views moved up.
  lemma CompareTop(cond: Cond, s: Size, x: bv32, y: bv32)
    requires s != BH
    ensures IsCompare(CondOpcode(cond))
    ensures Compare(CondOpcode(cond), Top(s, x), Top(s, y)) == CondHolds(cond, s, x, y)
  {
    hide Top, View, SView, SLess, ULess, Negative, SignSet, DiffSign, DiffNegative;
    TopFacts(s, x, y);
    TopFacts(s, y, x);
    SignedTop(s, x, y);
    SignedTop(s, y, x);
    assert Same(Top(s, x), Top(s, y)) == (Top(s, x) == Top(s, y));
    assert Same(View(s, x), View(s, y)) == (View(s, x) == View(s, y));
  }

  // The overflow flag as the code works it out.
  function OverflowFlag(t: bv32, u: bv32): bv32 {
    ShrU32(And32(Xor32(t, u), Xor32(t, Sub32(t, u))), 31)
  }

  lemma OverflowBits(t: bv32, u: bv32, d: bv32)
    ensures ((((t ^ u) & (t ^ d)) >> 31) != 0)
         == ((t & 0x8000_0000 != 0) != (u & 0x8000_0000 != 0) && (d & 0x8000_0000 != 0) != (t & 0x8000_0000 != 0))
  {
  }

  lemma OverflowBySign(t: bv32, u: bv32)
    ensures (OverflowFlag(t, u) != 0) == (SignSet(t) != SignSet(u) && DiffSign(t, u) != SignSet(t))
  {
    OverflowBits(t, u, t - u);
    assert OverflowFlag(t, u) == ((t ^ u) & (t ^ (t - u))) >> 31;
  }

  lemma OverflowTop(s: Size, x: bv32, y: bv32)
    requires s != BH
    ensures (OverflowFlag(Top(s, x), Top(s, y)) != 0) == SubOverflows(s, x, y)
  {
    hide Top, SignSet, DiffSign, Negative, Sub32, DiffNegative, OverflowFlag;
    TopFacts(s, x, y);
    TopFacts(s, y, x);
    NegativeDiff(s, x, y);
    OverflowBySign(Top(s, x), Top(s, y));
  }

  lemma SignBit(s: Size, x: bv32)
    requires s != BH
    ensures (And32(x, SignMask(s)) != 0) == Negative(s, x)
  {
  }

  // ---- the code of a condition -----------------------------------------------------------

  lemma RunAligned(r: Reg, c: Cfg)
    requires r.hr < HOST_REGS
    ensures RunOps(AlignedCode(r), c) == Some(Push(c, Top(r.size, c.world[r.hr])))
  {
    RunGet(Loc(r.hr), c);
    ThenIfNonzero([LocalGet(Loc(r.hr))], AlignShift(r.size), WOP_I32_SHL, c, c, c.world[r.hr]);
  }

  lemma ThenAligned(o: seq<Op>, r: Reg, c: Cfg, c1: Cfg)
    requires r.hr < HOST_REGS && RunOps(o, c) == Some(c1)
    ensures RunOps(o + AlignedCode(r), c) == Some(Push(c1, Top(r.size, c1.world[r.hr])))
  {
    RunAligned(r, c1);
    Then(o, AlignedCode(r), c, c1, Push(c1, Top(r.size, c1.world[r.hr])));
  }

  // Negated or not, as the last step of a condition.
  function Wanted(want: bool, v: bv32): bv32 { if want then v else OfBool(v == 0) }

  lemma ThenWanted(o: seq<Op>, want: bool, c: Cfg, c1: Cfg, v: bv32)
    requires RunOps(o, c) == Some(Push(c1, v))
    ensures RunOps(o + (if want then [] else [Simple(WOP_I32_EQZ)]), c) == Some(Push(c1, Wanted(want, v)))
  {
    if want {
      assert o + [] == o;
    } else {
      ThenUnary(o, WOP_I32_EQZ, c, c1, v);
    }
  }

  lemma RunCompare(cond: Cond, a: Reg, b: Reg, c: Cfg)
    requires a.hr < HOST_REGS && b.hr < HOST_REGS && Comparable(a, b)
    ensures RunOps(AlignedCode(a) + AlignedCode(b) + [Simple(CondOpcode(cond))], c)
         == Some(Push(c, OfBool(CondHolds(cond, a.size, c.world[a.hr], c.world[b.hr]))))
  {
    var t, u := Top(a.size, c.world[a.hr]), Top(b.size, c.world[b.hr]);
    RunAligned(a, c);
    ThenAligned(AlignedCode(a), b, c, Push(c, t));
    CompareTop(cond, a.size, c.world[a.hr], c.world[b.hr]);
    ThenBinary(AlignedCode(a) + AlignedCode(b), CondOpcode(cond), c, c, t, u);
  }

  // The scratch locals hold the two views moved up.
  lemma RunOverflow(want: bool, a: Reg, b: Reg, c: Cfg) returns (c1: Cfg, v: bv32)
    requires a.hr < HOST_REGS && b.hr < HOST_REGS && Comparable(a, b)
    ensures RunOps(CondCode(OverflowJump(want, a, b)), c) == Some(Push(c1, v)) && c1.stack == c.stack
    ensures OnlyScratch(c.world, c1.world)
    ensures (v != 0) == (SubOverflows(a.size, c.world[a.hr], c.world[b.hr]) == want)
  {
    hide RunOps, AlignedCode, WithConst, OverflowFlag, SubOverflows, Top;
    var t, u := Top(a.size, c.world[a.hr]), Top(b.size, c.world[b.hr]);
    var c0 := SetLocal(c, SCRATCH_0, t);
    c1 := SetLocal(c0, SCRATCH_1, u);
    var o1 := AlignedCode(a) + [LocalTee(SCRATCH_0)];
    var o2 := o1 + AlignedCode(b);
    var o3 := o2 + [LocalTee(SCRATCH_1)];
    var o4 := o3 + [Simple(WOP_I32_XOR)];
    RunAligned(a, c);
    ThenTee(AlignedCode(a), SCRATCH_0, c, c, t);
    ThenAligned(o1, b, c, Push(c0, t));
    ThenTee(o2, SCRATCH_1, c, Push(c0, t), u);
    ThenBinary(o3, WOP_I32_XOR, c, c1, t, u);
    var o5 := RunFlag(o4, c, c1, t, u);
    ThenWanted(o5, want, c, c1, OverflowFlag(t, u));
    OverflowTop(a.size, c.world[a.hr], c.world[b.hr]);
    v := Wanted(want, OverflowFlag(t, u));
  }

  // From the exclusive or of the operands to the flag.
  lemma RunFlag(o: seq<Op>, c: Cfg, c1: Cfg, t: bv32, u: bv32) returns (r: seq<Op>)
    requires RunOps(o, c) == Some(Push(c1, Xor32(t, u)))
    requires c1.world[SCRATCH_0 - LOCAL_BASE] == t && c1.world[SCRATCH_1 - LOCAL_BASE] == u
    ensures r == o + [LocalGet(SCRATCH_0)] + [LocalGet(SCRATCH_0)] + [LocalGet(SCRATCH_1)]
              + [Simple(WOP_I32_SUB)] + [Simple(WOP_I32_XOR)] + [Simple(WOP_I32_AND)] + WithConst(31, WOP_I32_SHR_U)
    ensures RunOps(r, c) == Some(Push(c1, OverflowFlag(t, u)))
  {
    r := RunDiff(o, c, Push(c1, Xor32(t, u)), t, u);
    ThenBinary(r, WOP_I32_XOR, c, Push(c1, Xor32(t, u)), t, Sub32(t, u));
    r := r + [Simple(WOP_I32_XOR)];
    ThenBinary(r, WOP_I32_AND, c, c1, Xor32(t, u), Xor32(t, Sub32(t, u)));
    r := r + [Simple(WOP_I32_AND)];
    ThenWithConst(r, 31, WOP_I32_SHR_U, c, c1, And32(Xor32(t, u), Xor32(t, Sub32(t, u))));
    r := r + WithConst(31, WOP_I32_SHR_U);
  }

  lemma RunDiff(o: seq<Op>, c: Cfg, p: Cfg, t: bv32, u: bv32) returns (r: seq<Op>)
    requires RunOps(o, c) == Some(p)
    requires p.world[SCRATCH_0 - LOCAL_BASE] == t && p.world[SCRATCH_1 - LOCAL_BASE] == u
    ensures r == o + [LocalGet(SCRATCH_0)] + [LocalGet(SCRATCH_0)] + [LocalGet(SCRATCH_1)] + [Simple(WOP_I32_SUB)]
    ensures RunOps(r, c) == Some(Push(Push(p, t), Sub32(t, u)))
  {
    ThenGet(o, SCRATCH_0, c, p);
    r := o + [LocalGet(SCRATCH_0)];
    ThenGet(r, SCRATCH_0, c, Push(p, t));
    r := r + [LocalGet(SCRATCH_0)];
    ThenGet(r, SCRATCH_1, c, Push(Push(p, t), t));
    r := r + [LocalGet(SCRATCH_1)];
    ThenBinary(r, WOP_I32_SUB, c, Push(p, t), t, u);
    r := r + [Simple(WOP_I32_SUB)];
  }

  lemma RunCmpImm(equal: bool, a: Reg, imm: bv32, c: Cfg)
    requires a.hr < HOST_REGS
    ensures RunOps(CondCode(CmpImmJump(equal, a, imm)), c)
         == Some(Push(c, OfBool((View(a.size, c.world[a.hr]) == imm) == equal)))
  {
    var o := if a.size == L then [LocalGet(Loc(a.hr))] else SrcCode(a);
    var x := View(a.size, c.world[a.hr]);
    RunGet(Loc(a.hr), c);
    RunSrc(a, c);
    ThenConst(o, imm, c, Push(c, x));
    ThenBinary(o + [I32Const(imm)], if equal then WOP_I32_EQ else WOP_I32_NE, c, c, x, imm);
  }

  lemma RunSignTest(want: bool, a: Reg, c: Cfg)
    requires a.hr < HOST_REGS && a.size != BH
    ensures RunOps(CondCode(SignJump(want, a)), c)
         == Some(Push(c, Wanted(want, And32(c.world[a.hr], SignMask(a.size)))))
    ensures (Wanted(want, And32(c.world[a.hr], SignMask(a.size))) != 0) == (Negative(a.size, c.world[a.hr]) == want)
  {
    RunGet(Loc(a.hr), c);
    ThenWithConst([LocalGet(Loc(a.hr))], SignMask(a.size), WOP_I32_AND, c, c, c.world[a.hr]);
    var v := And32(c.world[a.hr], SignMask(a.size));
    ThenWanted([LocalGet(Loc(a.hr))] + WithConst(SignMask(a.size), WOP_I32_AND), want, c, c, v);
    SignBit(a.size, c.world[a.hr]);
  }

  // A jump uop's code leaves its condition on an otherwise unchanged stack, and no host
  // register changes.
  lemma RunCond(u: Uop, c: Cfg) returns (c1: Cfg, v: bv32)
    requires UopOk(u) && IsJump(u)
    ensures RunOps(CondCode(u), c) == Some(Push(c1, v)) && c1.stack == c.stack
    ensures Host(c1.world) == Host(c.world)
    ensures (v != 0) == Taken(u, Host(c.world))
  {
    hide RunOps, SubOverflows, CondHolds, View, And32;
    c1 := c;
    match u {
      case CmpJump(cond, a, b) =>
        RunCompare(cond, a, b, c);
        v := OfBool(CondHolds(cond, a.size, c.world[a.hr], c.world[b.hr]));
      case OverflowJump(want, a, b) =>
        c1, v := RunOverflow(want, a, b, c);
      case CmpImmJump(equal, a, imm) =>
        RunCmpImm(equal, a, imm, c);
        v := OfBool((View(a.size, c.world[a.hr]) == imm) == equal);
      case SignJump(want, a) =>
        RunSignTest(want, a, c);
        v := Wanted(want, And32(c.world[a.hr], SignMask(a.size)));
    }
  }

  lemma RunExitCond(u: Uop, c: Cfg)
    requires UopOk(u) && (u.CmpImmExit? || u.CmpExit?)
    ensures RunOps(ExitCode(u), c) == Some(Push(c, OfBool(Exits(u, Host(c.world)))))
  {
    hide RunOps, ULess;
    RunGet(Loc(u.aHr), c);
    var x := c.world[u.aHr];
    var o := [LocalGet(Loc(u.aHr))];
    match u {
      case CmpImmExit(a, imm) =>
        ThenConst(o, imm, c, Push(c, x));
        ThenBinary(o + [I32Const(imm)], WOP_I32_EQ, c, c, x, imm);
      case CmpExit(above, a, b) =>
        ThenGet(o, Loc(b), c, Push(c, x));
        ThenBinary(o + [LocalGet(Loc(b))], if above then WOP_I32_GT_U else WOP_I32_LT_U, c, c, x, c.world[b]);
    }
  }
}
