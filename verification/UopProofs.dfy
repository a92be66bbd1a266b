// The code emitted for each integer uop computes the uop's meaning.
module UopProofs {
  import opened Common
  import opened Wasm
  import opened I32
  import opened Uops

  type Cfg = Config<Locals>

  function Host(w: Locals): Regs { w[..HOST_REGS] }

  lemma Then(a: seq<Op>, b: seq<Op>, c: Cfg, c1: Cfg, c2: Cfg)
    requires RunOps(a, c) == Some(c1) && RunOps(b, c1) == Some(c2)
    ensures RunOps(a + b, c) == Some(c2)
  {
    RunAppend(a, b, c);
  }

  lemma ThenGet(a: seq<Op>, i: nat, c: Cfg, c1: Cfg)
    requires RunOps(a, c) == Some(c1) && IsLocal(i)
    ensures RunOps(a + [LocalGet(i)], c) == Some(Push(c1, c1.world[i - LOCAL_BASE]))
  {
    RunGet(i, c1);
    Then(a, [LocalGet(i)], c, c1, Push(c1, c1.world[i - LOCAL_BASE]));
  }

  lemma ThenTee(a: seq<Op>, i: nat, c: Cfg, c1: Cfg, v: bv32)
    requires RunOps(a, c) == Some(Push(c1, v)) && IsLocal(i)
    ensures RunOps(a + [LocalTee(i)], c) == Some(Push(SetLocal(c1, i, v), v))
  {
    RunTee(i, c1, v);
    Then(a, [LocalTee(i)], c, Push(c1, v), Push(SetLocal(c1, i, v), v));
  }

  lemma ThenConst(a: seq<Op>, k: bv32, c: Cfg, c1: Cfg)
    requires RunOps(a, c) == Some(c1)
    ensures RunOps(a + [I32Const(k)], c) == Some(Push(c1, k))
  {
    RunConst(k, c1);
    Then(a, [I32Const(k)], c, c1, Push(c1, k));
  }

  lemma ThenBinary(a: seq<Op>, code: Byte, c: Cfg, c1: Cfg, x: bv32, y: bv32)
    requires RunOps(a, c) == Some(Push(Push(c1, x), y)) && IsBinary(code)
    ensures RunOps(a + [Simple(code)], c) == Some(Push(c1, Binary(code, x, y)))
  {
    RunBinary(code, c1, x, y);
    Then(a, [Simple(code)], c, Push(Push(c1, x), y), Push(c1, Binary(code, x, y)));
  }

  lemma ThenUnary(a: seq<Op>, code: Byte, c: Cfg, c1: Cfg, x: bv32)
    requires RunOps(a, c) == Some(Push(c1, x)) && IsUnary(code)
    ensures RunOps(a + [Simple(code)], c) == Some(Push(c1, Unary(code, x)))
  {
    RunUnary(code, c1, x);
    Then(a, [Simple(code)], c, Push(c1, x), Push(c1, Unary(code, x)));
  }

  lemma ThenWithConst(a: seq<Op>, k: bv32, code: Byte, c: Cfg, c1: Cfg, x: bv32)
    requires RunOps(a, c) == Some(Push(c1, x)) && IsBinary(code)
    ensures RunOps(a + WithConst(k, code), c) == Some(Push(c1, Binary(code, x, k)))
  {
    RunWithConst(k, code, c1, x);
    Then(a, WithConst(k, code), c, Push(c1, x), Push(c1, Binary(code, x, k)));
  }

  // ---- reading and writing views ---------------------------------------------------------

  lemma RunMask(s: Size, c: Cfg, x: bv32)
    ensures RunOps(MaskCode(s), Push(c, x)) == Some(Push(c, View(s, x)))
  {
    match s {
      case L =>
      case W => RunWithConst(0xffff, WOP_I32_AND, c, x);
      case B => RunWithConst(0xff, WOP_I32_AND, c, x);
      case BH =>
        RunWithConst(8, WOP_I32_SHR_U, c, x);
        ThenWithConst(WithConst(8, WOP_I32_SHR_U), 0xff, WOP_I32_AND, Push(c, x), c, ShrU32(x, 8));
    }
  }

  lemma RunSrc(r: Reg, c: Cfg)
    requires r.hr < HOST_REGS
    ensures RunOps(SrcCode(r), c) == Some(Push(c, View(r.size, c.world[r.hr])))
  {
    RunGet(Loc(r.hr), c);
    RunMask(r.size, c, c.world[r.hr]);
    Then([LocalGet(Loc(r.hr))], MaskCode(r.size), c, Push(c, c.world[r.hr]), Push(c, View(r.size, c.world[r.hr])));
  }

  lemma RunPlace(s: Size, c: Cfg, v: bv32)
    ensures RunOps(PlaceCode(s), Push(c, v)) == Some(Push(c, Place(s, v)))
  {
    match s {
      case L =>
      case W => RunWithConst(0xffff, WOP_I32_AND, c, v);
      case B => RunWithConst(0xff, WOP_I32_AND, c, v);
      case BH =>
        RunWithConst(0xff, WOP_I32_AND, c, v);
        ThenWithConst(WithConst(0xff, WOP_I32_AND), 8, WOP_I32_SHL, Push(c, v), c, Low8(v));
    }
  }

  lemma KeepIsRest(s: Size, x: bv32)
    requires s != L
    ensures Binary(WOP_I32_AND, x, KeepMask(s)) == Rest(s, x)
  {
  }

  lemma RunDst(r: Reg, c: Cfg, v: bv32)
    requires r.hr < HOST_REGS
    ensures RunOps(DstCode(r), Push(c, v)) == Some(SetLocal(c, Loc(r.hr), Merge(r.size, c.world[r.hr], v)))
  {
    hide RunOps, Place, Rest, PlaceCode, WithConst, And32, Or32;
    var s, i, orig := r.size, Loc(r.hr), c.world[r.hr];
    if s == L {
      RunSet(i, c, v);
    } else {
      var a1 := PlaceCode(s) + [LocalGet(i)];
      var a2 := a1 + WithConst(KeepMask(s), WOP_I32_AND);
      var a3 := a2 + [Simple(WOP_I32_OR)];
      var p := Push(c, Place(s, v));
      RunPlace(s, c, v);
      ThenGet(PlaceCode(s), i, Push(c, v), p);
      ThenWithConst(a1, KeepMask(s), WOP_I32_AND, Push(c, v), p, orig);
      KeepIsRest(s, orig);
      ThenBinary(a2, WOP_I32_OR, Push(c, v), c, Place(s, v), Rest(s, orig));
      var m := Merge(s, orig, v);
      RunSet(i, c, m);
      Then(a3, [LocalSet(i)], Push(c, v), Push(c, m), SetLocal(c, i, m));
    }
  }

  // ---- shifts and rotates, bit by bit ---------------------------------------------------

  lemma ShlLow(x: bv32, k: bv32)
    requires k < 32
    ensures (x << k) & 0xffff == ((x & 0xffff) << k) & 0xffff
    ensures (x << k) & 0xff == ((x & 0xff) << k) & 0xff
  {
  }

  lemma ShlTrunc(s: Size, x: bv32, n: bv32)
    requires s != BH
    ensures Trunc(s, Shl32(x, n)) == Trunc(s, Shl32(View(s, x), n))
  {
    hide Low16, Low8, Shl32;
    match s {
      case L =>
      case W => ShlTruncW(x, n);
      case B => ShlTruncB(x, n);
    }
  }

  lemma ShlTruncW(x: bv32, n: bv32)
    ensures Low16(Shl32(x, n)) == Low16(Shl32(Low16(x), n))
  {
    hide Mod32;
    ShlLow(x, Mod32(n));
  }

  lemma ShlTruncB(x: bv32, n: bv32)
    ensures Low8(Shl32(x, n)) == Low8(Shl32(Low8(x), n))
  {
    hide Mod32;
    ShlLow(x, Mod32(n));
  }

  // The aligned arithmetic shift, realigned; zero is no shift at all.
  function Aligned(code: Byte, x: bv32, k: bv32): bv32
    requires IsBinary(code)
  {
    if k == 0 then x else Binary(code, x, k)
  }

  function SarRecipe(s: Size, x: bv32, n: bv32): bv32 {
    Aligned(WOP_I32_SHR_U, ShrS32(Aligned(WOP_I32_SHL, x, SarPre(s)), n), SarPost(s))
  }

  lemma SarWBits(x: bv32, k: bv32)
    requires k < 32
    ensures x & 0x8000 == 0 ==> ((x << 16) >> k) >> 16 == ((x & 0xffff) >> k) & 0xffff
    ensures x & 0x8000 != 0 ==> (!((!(x << 16)) >> k)) >> 16 == (!((!(x | 0xffff_0000)) >> k)) & 0xffff
  {
  }

  lemma SarWPos(x: bv32, n: bv32)
    requires x & 0x8000 == 0
    ensures ShrU32(ShrS32(Shl32(x, 16), n), 16) == Low16(ShrS32(Sext16(x), n))
  {
    SarWBits(x, Mod32(n));
    assert (x << 16) & 0x8000_0000 == 0 && (x & 0xffff) & 0x8000_0000 == 0;
  }

  lemma SarWNeg(x: bv32, n: bv32)
    requires x & 0x8000 != 0
    ensures ShrU32(ShrS32(Shl32(x, 16), n), 16) == Low16(ShrS32(Sext16(x), n))
  {
    SarWBits(x, Mod32(n));
    assert (x << 16) & 0x8000_0000 != 0 && (x | 0xffff_0000) & 0x8000_0000 != 0;
  }

  lemma SarBPos(x: bv32, n: bv32)
    requires x & 0x80 == 0
    ensures ShrU32(ShrS32(Shl32(x, 24), n), 24) == Low8(ShrS32(Sext8(x), n))
  {
  }

  lemma SarBNeg(x: bv32, n: bv32)
    requires x & 0x80 != 0
    ensures ShrU32(ShrS32(Shl32(x, 24), n), 24) == Low8(ShrS32(Sext8(x), n))
  {
  }

  lemma SarBHPos(x: bv32, n: bv32)
    requires x & 0x8000 == 0
    ensures ShrU32(ShrS32(Shl32(x, 16), n), 24) == Low8(ShrS32(Sext8(ShrU32(x, 8)), n))
  {
  }

  lemma SarBHNeg(x: bv32, n: bv32)
    requires x & 0x8000 != 0
    ensures ShrU32(ShrS32(Shl32(x, 16), n), 24) == Low8(ShrS32(Sext8(ShrU32(x, 8)), n))
  {
  }

  // The recipe is the arithmetic shift of the sign-extended view: nothing leaks in from
  // above the view, nor from the byte below BH.
  lemma SarExact(s: Size, x: bv32, n: bv32)
    ensures SarRecipe(s, x, n) == Trunc(s, ShrS32(SView(s, x), n))
  {
    match s {
      case L =>
      case W => if x & 0x8000 == 0 { SarWPos(x, n); } else { SarWNeg(x, n); }
      case B => if x & 0x80 == 0 { SarBPos(x, n); } else { SarBNeg(x, n); }
      case BH => if x & 0x8000 == 0 { SarBHPos(x, n); } else { SarBHNeg(x, n); }
    }
  }

  lemma RorW(v: bv32, k: bv32)
    requires v & 0xffff == v && k < 16
    ensures (((v << 16) | v) >> k) & 0xffff == ((v >> k) | (v << (16 - k))) & 0xffff
  {
  }

  lemma RorB(v: bv32, k: bv32)
    requires v & 0xff == v && k < 8
    ensures (((v << 8) | v) >> k) & 0xff == ((v >> k) | (v << (8 - k))) & 0xff
  {
  }

  lemma RolW(v: bv32, k: bv32)
    requires v & 0xffff == v && k < 16
    ensures (((v << 16) | v) >> (16 - k)) & 0xffff == ((v << k) | (v >> (16 - k))) & 0xffff
  {
  }

  lemma RolB(v: bv32, k: bv32)
    requires v & 0xff == v && k < 8
    ensures (((v << 8) | v) >> (8 - k)) & 0xff == ((v << k) | (v >> (8 - k))) & 0xff
    ensures k == 0 ==> (((v << 8) | v) >> 0) & 0xff == ((v << k) | (v >> (8 - k))) & 0xff
  {
  }

  lemma LowTwice(v: bv32)
    ensures Low16(Low16(v)) == Low16(v) && Low8(Low8(v)) == Low8(v)
  {
  }

  lemma TruncTwice(s: Size, v: bv32)
    ensures Trunc(s, Trunc(s, v)) == Trunc(s, v)
  {
    LowTwice(v);
  }

  // A narrow view rotated by the recipe, for each way the amount is computed.
  lemma RightW(v: bv32, n: bv32)
    requires Low16(v) == v
    ensures Low16(ShrU32(Doubled(16, v), And32(n, 15))) == Low16(Rotated(16, false, v, n))
  {
    RorW(v, n & 15);
  }

  lemma RightB(v: bv32, n: bv32)
    requires Low8(v) == v
    ensures Low8(ShrU32(Doubled(8, v), And32(n, 7))) == Low8(Rotated(8, false, v, n))
  {
    RorB(v, n & 7);
  }

  lemma LeftW(v: bv32, n: bv32, amount: bv32)
    requires Low16(v) == v
    requires Part(16, n) != 0 && Mod32(amount) == 16 - Part(16, n)
    ensures Low16(ShrU32(Doubled(16, v), amount)) == Low16(Rotated(16, true, v, n))
  {
    RolW(v, n & 15);
  }

  lemma LeftB(v: bv32, n: bv32, amount: bv32)
    requires Low8(v) == v
    requires Part(8, n) != 0 && Mod32(amount) == 8 - Part(8, n)
    ensures Low8(ShrU32(Doubled(8, v), amount)) == Low8(Rotated(8, true, v, n))
  {
    RolB(v, n & 7);
  }

  lemma AmountW(n: bv32)
    requires Mod32(n) <= 16 && Part(16, n) != 0
    ensures Mod32(Sub32(16, n)) == 16 - Part(16, n)
  {
  }

  lemma AmountImmW(n: bv32)
    requires Part(16, n) != 0
    ensures Mod32(ImmAmount(true, 16, n)) == 16 - Part(16, n)
  {
  }

  lemma AmountB(n: bv32)
    requires Part(8, n) != 0
    ensures Mod32(And32(Sub32(8, n), 7)) == 8 - Part(8, n)
  {
  }

  lemma AmountImmB(n: bv32)
    requires Part(8, n) != 0
    ensures Mod32(ImmAmount(true, 8, n)) == 8 - Part(8, n)
  {
  }

  lemma LeftWZero(v: bv32, n: bv32)
    requires Low16(v) == v && Part(16, n) == 0 && Mod32(n) <= 16
    ensures Low16(ShrU32(Doubled(16, v), Sub32(16, n))) == Low16(Rotated(16, true, v, n))
  {
    assert Mod32(n) == 0 || Mod32(n) == 16;
    assert Mod32(Sub32(16, n)) == 16 || Mod32(Sub32(16, n)) == 0;
  }

  lemma LeftBZero(v: bv32, n: bv32)
    requires Low8(v) == v && Part(8, n) == 0
    ensures Low8(ShrU32(Doubled(8, v), And32(Sub32(8, n), 7))) == Low8(Rotated(8, true, v, n))
  {
    assert Mod32(And32(Sub32(8, n), 7)) == 0;
  }

  lemma RolByRegister(v: bv32, n: bv32)
    requires Low16(v) == v && Mod32(n) <= 16
    ensures Low16(ShrU32(Doubled(16, v), Sub32(16, n))) == Low16(Rotated(16, true, v, n))
  {
    if Part(16, n) == 0 {
      LeftWZero(v, n);
    } else {
      AmountW(n);
      LeftW(v, n, Sub32(16, n));
    }
  }

  // Past 16 the recipe drops the bits that the rotation carries round: it is exact just for
  // the views that have none.
  lemma RolBeyond(v: bv32, n: bv32)
    requires Low16(v) == v && Mod32(n) > 16
    ensures Low16(ShrU32(Doubled(16, v), Sub32(16, n))) == Low16(Rotated(16, true, v, n)) <==> Low16(Shl32(v, Part(16, n))) == 0
  {
    AmountBeyond(n);
    RolBeyondBits(v, Part(16, n));
    hide Part, Mod32, Sub32;
  }

  lemma AmountBeyond(n: bv32)
    requires Mod32(n) > 16
    ensures 0 < Part(16, n) < 16 && Mod32(Sub32(16, n)) == 32 - Part(16, n) && Mod32(Part(16, n)) == Part(16, n) && Mod32(16) == 16
  {
  }

  lemma RolBeyondBits(v: bv32, j: bv32)
    requires v & 0xffff == v && 0 < j < 16
    ensures (((v << 16) | v) >> (32 - j)) & 0xffff == ((v << j) | (v >> (16 - j))) & 0xffff <==> (v << j) & 0xffff == 0
  {
  }

  lemma RolBeyondOne(n: bv32)
    requires Mod32(n) > 16
    ensures Low16(Shl32(Low16(1), Part(16, n))) != 0
  {
  }

  // A count rotated by itself is never one of those views.
  lemma RolBeyondSelf(n: bv32)
    requires Mod32(n) > 16
    ensures Low16(Shl32(Low16(n), Part(16, n))) != 0
  {
  }

  // ---- whole uops ------------------------------------------------------------------

  // No local but the two scratch ones differs.
  predicate OnlyScratch(w: Locals, w': Locals) {
    forall i :: 0 <= i < N_LOCALS && i != SCRATCH_0 - LOCAL_BASE && i != SCRATCH_1 - LOCAL_BASE ==> w'[i] == w[i]
  }

  lemma AluOpcodeMeans(op: Alu, x: bv32, y: bv32)
    ensures IsBinary(AluOpcode(op)) && Binary(AluOpcode(op), x, y) == AluValue(op, x, y)
  {
  }

  lemma RunCount(n: Count, c: Cfg)
    requires n.InReg? ==> n.hr < HOST_REGS
    ensures RunOps(CountCode(n), c) == Some(Push(c, CountOf(Host(c.world), n)))
  {
    match n
    case Imm(k) => RunConst(k, c);
    case InReg(hr) => RunGet(Loc(hr), c);
  }

  lemma ThenCount(a: seq<Op>, n: Count, c: Cfg, c1: Cfg)
    requires RunOps(a, c) == Some(c1) && (n.InReg? ==> n.hr < HOST_REGS)
    ensures RunOps(a + CountCode(n), c) == Some(Push(c1, CountOf(Host(c1.world), n)))
  {
    RunCount(n, c1);
    Then(a, CountCode(n), c, c1, Push(c1, CountOf(Host(c1.world), n)));
  }

  lemma ThenIfNonzero(a: seq<Op>, k: bv32, code: Byte, c: Cfg, c1: Cfg, x: bv32)
    requires RunOps(a, c) == Some(Push(c1, x)) && IsBinary(code)
    ensures RunOps(a + IfNonzero(k, code), c) == Some(Push(c1, Aligned(code, x, k)))
  {
    if k == 0 {
      assert a + [] == a;
    } else {
      ThenWithConst(a, k, code, c, c1, x);
    }
  }

  lemma RunSar(a: Reg, n: Count, c: Cfg)
    requires a.hr < HOST_REGS && (n.InReg? ==> n.hr < HOST_REGS)
    ensures RunOps(SarCode(a, n), c) == Some(Push(c, SarRecipe(a.size, c.world[a.hr], CountOf(Host(c.world), n))))
  {
    var x, k := c.world[a.hr], CountOf(Host(c.world), n);
    var o0 := [LocalGet(Loc(a.hr))];
    var o1 := o0 + IfNonzero(SarPre(a.size), WOP_I32_SHL);
    var o2 := o1 + CountCode(n);
    var o3 := o2 + [Simple(WOP_I32_SHR_S)];
    var up := Aligned(WOP_I32_SHL, x, SarPre(a.size));
    RunGet(Loc(a.hr), c);
    ThenIfNonzero(o0, SarPre(a.size), WOP_I32_SHL, c, c, x);
    ThenCount(o1, n, c, Push(c, up));
    ThenBinary(o2, WOP_I32_SHR_S, c, c, up, k);
    ThenIfNonzero(o3, SarPost(a.size), WOP_I32_SHR_U, c, c, ShrS32(up, k));
  }

  // The amount a narrow rotate shifts its doubled view by.
  function Amount(left: bool, w: bv32, n: Count, k: bv32): bv32 {
    match n
    case Imm(_) => ImmAmount(left, w, k)
    case InReg(_) =>
      if left then (if w == 8 then And32(Sub32(w, k), 7) else Sub32(w, k)) else And32(k, w - 1)
  }

  lemma RunAmount(left: bool, w: bv32, n: Count, c: Cfg)
    requires n.InReg? ==> n.hr < HOST_REGS
    ensures RunOps(AmountCode(left, w, n), c) == Some(Push(c, Amount(left, w, n, CountOf(Host(c.world), n))))
  {
    hide RunOps, Sub32, And32, ImmAmount;
    var k := CountOf(Host(c.world), n);
    match n {
      case Imm(imm) =>
        RunConst(ImmAmount(left, w, imm), c);
      case InReg(hr) =>
        if left {
          RunConst(w, c);
          ThenGet([I32Const(w)], Loc(hr), c, Push(c, w));
          ThenBinary([I32Const(w)] + [LocalGet(Loc(hr))], WOP_I32_SUB, c, c, w, k);
          var o := [I32Const(w)] + [LocalGet(Loc(hr))] + [Simple(WOP_I32_SUB)];
          if w == 8 {
            ThenWithConst(o, 7, WOP_I32_AND, c, c, Sub32(w, k));
          } else {
            assert o + [] == o;
          }
        } else {
          RunGet(Loc(hr), c);
          ThenWithConst([LocalGet(Loc(hr))], w - 1, WOP_I32_AND, c, c, k);
        }
    }
  }

  // The scratch local holds the view; the top of the stack the rotated double.
  lemma RunNarrowRot(left: bool, a: Reg, n: Count, c: Cfg) returns (c1: Cfg)
    requires a.hr < HOST_REGS && a.size != L && (n.InReg? ==> n.hr < HOST_REGS)
    requires !(n.Imm? && Part(Width(a.size), n.n) == 0)
    ensures c1 == SetLocal(c, SCRATCH_0, View(a.size, c.world[a.hr]))
    ensures var w, v, k := Width(a.size), View(a.size, c.world[a.hr]), CountOf(Host(c.world), n);
      RunOps(RotCode(left, a, n), c) == Some(Push(c1, ShrU32(Doubled(w, v), Amount(left, w, n, k))))
  {
    hide RunOps, View, SrcCode, WithConst, AmountCode, Amount, ShrU32, Or32, Shl32;
    var w, v, k := Width(a.size), View(a.size, c.world[a.hr]), CountOf(Host(c.world), n);
    c1 := SetLocal(c, SCRATCH_0, v);
    assert Host(c1.world) == Host(c.world);
    var o1 := SrcCode(a) + [LocalTee(SCRATCH_0)];
    var o2 := o1 + WithConst(w, WOP_I32_SHL);
    var o3 := o2 + [LocalGet(SCRATCH_0)];
    var o4 := o3 + [Simple(WOP_I32_OR)];
    RunSrc(a, c);
    ThenTee(SrcCode(a), SCRATCH_0, c, c, v);
    ThenWithConst(o1, w, WOP_I32_SHL, c, c1, v);
    ThenGet(o2, SCRATCH_0, c, Push(c1, Shl32(v, w)));
    ThenBinary(o3, WOP_I32_OR, c, c1, Shl32(v, w), v);
    RunAmount(left, w, n, Push(c1, Doubled(w, v)));
    Then(o4, AmountCode(left, w, n), c, Push(c1, Doubled(w, v)), Push(Push(c1, Doubled(w, v)), Amount(left, w, n, k)));
    ThenBinary(o4 + AmountCode(left, w, n), WOP_I32_SHR_U, c, c1, Doubled(w, v), Amount(left, w, n, k));
  }

  lemma NarrowRotW(left: bool, n: Count, v: bv32, k: bv32)
    requires Low16(v) == v && (n.Imm? ==> Part(16, k) != 0)
    ensures Low16(ShrU32(Doubled(16, v), Amount(left, 16, n, k))) == Low16(RotValue(16, left, v, n, k))
  {
    if !left {
      RightW(v, k);
    } else if n.Imm? {
      AmountImmW(k);
      LeftW(v, k, ImmAmount(true, 16, k));
    } else if Mod32(k) <= 16 {
      RolByRegister(v, k);
    }
  }

  lemma NarrowRotB(left: bool, n: Count, v: bv32, k: bv32)
    requires Low8(v) == v && (n.Imm? ==> Part(8, k) != 0)
    ensures Low8(ShrU32(Doubled(8, v), Amount(left, 8, n, k))) == Low8(RotValue(8, left, v, n, k))
  {
    if !left {
      RightB(v, k);
    } else if n.Imm? {
      AmountImmB(k);
      LeftB(v, k, ImmAmount(true, 8, k));
    } else if Part(8, k) == 0 {
      LeftBZero(v, k);
    } else {
      AmountB(k);
      LeftB(v, k, And32(Sub32(8, k), 7));
    }
  }

  // The rotate recipe of a narrow register, in every case what ShiftValue says.
  lemma NarrowRotExact(s: Size, left: bool, n: Count, x: bv32, k: bv32)
    requires s != L && (n.Imm? ==> n.n == k && Part(Width(s), k) != 0)
    ensures Trunc(s, ShrU32(Doubled(Width(s), View(s, x)), Amount(left, Width(s), n, k)))
         == Trunc(s, ShiftValue(if left then Rol else Ror, s, x, n, k))
  {
    hide RotateLeft, RotateRight, Part, ShrU32, Shl32, Or32, And32, Sub32, Doubled, Amount, RotValue;
    match s {
      case W =>
        LowTwice(x);
        NarrowRotW(left, n, Low16(x), k);
      case B =>
        LowTwice(x);
        NarrowRotB(left, n, Low8(x), k);
      case BH =>
        LowTwice(ShrU32(x, 8));
        NarrowRotB(left, n, High8(x), k);
    }
  }

  lemma RolZero32(v: bv32, k: bv32)
    requires Part(32, k) == 0
    ensures Rotated(32, true, v, k) == v
  {
  }

  lemma RorZero32(v: bv32, k: bv32)
    requires Part(32, k) == 0
    ensures Rotated(32, false, v, k) == v
  {
  }

  lemma RolZero16(v: bv32, k: bv32)
    requires Part(16, k) == 0 && Low16(v) == v
    ensures Low16(Rotated(16, true, v, k)) == v
  {
  }

  lemma RorZero16(v: bv32, k: bv32)
    requires Part(16, k) == 0 && Low16(v) == v
    ensures Low16(Rotated(16, false, v, k)) == v
  {
  }

  lemma RotZero8(left: bool, v: bv32, k: bv32)
    requires Part(8, k) == 0 && Low8(v) == v
    ensures Low8(Rotated(8, left, v, k)) == v
  {
  }

  lemma RotZeroView(s: Size, left: bool, x: bv32, k: bv32)
    requires Part(Width(s), k) == 0
    ensures Trunc(s, Rotated(Width(s), left, View(s, x), k)) == View(s, x)
  {
    match s {
      case L => if left { RolZero32(x, k); } else { RorZero32(x, k); }
      case W => LowTwice(x); if left { RolZero16(Low16(x), k); } else { RorZero16(Low16(x), k); }
      case B => LowTwice(x); RotZero8(left, Low8(x), k);
      case BH => LowTwice(ShrU32(x, 8)); RotZero8(left, High8(x), k);
    }
  }

  lemma TruncView(s: Size, x: bv32)
    ensures Trunc(s, View(s, x)) == View(s, x)
  {
    LowTwice(x);
    LowTwice(ShrU32(x, 8));
  }

  lemma NativeRotl(x: bv32, k: bv32)
    ensures Rotl32(x, k) == Rotated(32, true, x, k)
  {
    assert Part(32, k) == Mod32(k);
    hide Part, Mod32, RotateLeft, RotateRight;
  }

  lemma NativeRotr(x: bv32, k: bv32)
    ensures Rotr32(x, k) == Rotated(32, false, x, k)
  {
    assert Part(32, k) == Mod32(k);
    hide Part, Mod32, RotateLeft, RotateRight;
  }

  lemma NativeRot(left: bool, x: bv32, n: Count, k: bv32)
    ensures Binary(if left then WOP_I32_ROTL else WOP_I32_ROTR, x, k) == RotValue(32, left, x, n, k)
  {
    hide Rotl32, Rotr32, Rotated, Mod32, ShrU32, Doubled, Sub32;
    NativeRotl(x, k);
    NativeRotr(x, k);
  }

  // What RunValue and its cases claim: the code leaves the stack as found but for one
  // value, which agrees with the meaning on the bits of the view.
  predicate Computes(s: Size, ops: seq<Op>, c: Cfg, c1: Cfg, raw: bv32, meaning: bv32) {
    && RunOps(ops, c) == Some(Push(c1, raw)) && c1.stack == c.stack
    && OnlyScratch(c.world, c1.world) && Trunc(s, raw) == Trunc(s, meaning)
  }

  lemma RunRot(left: bool, a: Reg, n: Count, c: Cfg) returns (c1: Cfg, raw: bv32)
    requires a.hr < HOST_REGS && (n.InReg? ==> n.hr < HOST_REGS)
    ensures Computes(a.size, RotCode(left, a, n), c, c1, raw,
      ShiftValue(if left then Rol else Ror, a.size, c.world[a.hr], n, CountOf(Host(c.world), n)))
  {
    hide RunOps, Rotated, Part, Trunc, SrcCode, CountCode, Doubled, Amount, Binary, ShrU32;
    var s, x, k := a.size, c.world[a.hr], CountOf(Host(c.world), n);
    if n.Imm? && Part(Width(s), k) == 0 {
      RunSrc(a, c);
      RotZeroView(s, left, x, k);
      TruncView(s, x);
      c1, raw := c, View(s, x);
    } else if s == L {
      RunGet(Loc(a.hr), c);
      ThenCount([LocalGet(Loc(a.hr))], n, c, Push(c, x));
      var code := if left then WOP_I32_ROTL else WOP_I32_ROTR;
      ThenBinary([LocalGet(Loc(a.hr))] + CountCode(n), code, c, c, x, k);
      NativeRot(left, x, n, k);
      c1, raw := c, Binary(code, x, k);
    } else {
      c1 := RunNarrowRot(left, a, n, c);
      NarrowRotExact(s, left, n, x, k);
      raw := ShrU32(Doubled(Width(s), View(s, x)), Amount(left, Width(s), n, k));
    }
  }

  lemma RunShl(a: Reg, n: Count, c: Cfg) returns (raw: bv32)
    requires a.hr < HOST_REGS && (n.InReg? ==> n.hr < HOST_REGS)
    ensures Computes(a.size, ShiftCode(Shl, a, n), c, c, raw,
      ShiftValue(Shl, a.size, c.world[a.hr], n, CountOf(Host(c.world), n)))
  {
    hide RunOps, Shl32, View, SrcCode, CountCode, Trunc;
    var s, x, k := a.size, c.world[a.hr], CountOf(Host(c.world), n);
    if s == BH {
      RunSrc(a, c);
      ThenCount(SrcCode(a), n, c, Push(c, View(s, x)));
      ThenBinary(SrcCode(a) + CountCode(n), WOP_I32_SHL, c, c, View(s, x), k);
      raw := Shl32(View(s, x), k);
    } else {
      RunGet(Loc(a.hr), c);
      ThenCount([LocalGet(Loc(a.hr))], n, c, Push(c, x));
      ThenBinary([LocalGet(Loc(a.hr))] + CountCode(n), WOP_I32_SHL, c, c, x, k);
      ShlTrunc(s, x, k);
      raw := Shl32(x, k);
    }
  }

  lemma RunShr(a: Reg, n: Count, c: Cfg) returns (raw: bv32)
    requires a.hr < HOST_REGS && (n.InReg? ==> n.hr < HOST_REGS)
    ensures Computes(a.size, ShiftCode(Shr, a, n), c, c, raw,
      ShiftValue(Shr, a.size, c.world[a.hr], n, CountOf(Host(c.world), n)))
  {
    var s, x, k := a.size, c.world[a.hr], CountOf(Host(c.world), n);
    RunSrc(a, c);
    ThenCount(SrcCode(a), n, c, Push(c, View(s, x)));
    ThenBinary(SrcCode(a) + CountCode(n), WOP_I32_SHR_U, c, c, View(s, x), k);
    raw := ShrU32(View(s, x), k);
  }

  lemma RunShift(kind: Shift, a: Reg, n: Count, c: Cfg) returns (c1: Cfg, raw: bv32)
    requires a.hr < HOST_REGS && (n.InReg? ==> n.hr < HOST_REGS)
    ensures Computes(a.size, ShiftCode(kind, a, n), c, c1, raw,
      ShiftValue(kind, a.size, c.world[a.hr], n, CountOf(Host(c.world), n)))
  {
    c1 := c;
    match kind {
      case Shl => raw := RunShl(a, n, c);
      case Shr => raw := RunShr(a, n, c);
      case Sar =>
        var x, k := c.world[a.hr], CountOf(Host(c.world), n);
        RunSar(a, n, c);
        SarExact(a.size, x, k);
        TruncTwice(a.size, ShrS32(SView(a.size, x), k));
        raw := SarRecipe(a.size, x, k);
      case Rol => c1, raw := RunRot(true, a, n, c);
      case Ror => c1, raw := RunRot(false, a, n, c);
    }
  }

  lemma RunMovsx(a: Reg, c: Cfg)
    requires a.hr < HOST_REGS && a.size != L
    ensures RunOps(MovsxCode(a), c) == Some(Push(c, SView(a.size, c.world[a.hr])))
  {
    hide RunOps, Sext8, Sext16, ShrU32, WithConst;
    var i, x := Loc(a.hr), c.world[a.hr];
    RunGet(i, c);
    match a.size {
      case BH =>
        ThenWithConst([LocalGet(i)], 8, WOP_I32_SHR_U, c, c, x);
        ThenUnary([LocalGet(i)] + WithConst(8, WOP_I32_SHR_U), WOP_I32_EXTEND8_S, c, c, ShrU32(x, 8));
      case B => ThenUnary([LocalGet(i)], WOP_I32_EXTEND8_S, c, c, x);
      case W => ThenUnary([LocalGet(i)], WOP_I32_EXTEND16_S, c, c, x);
    }
  }

  lemma RunAddLshift(a: nat, b: nat, shift: bv32, c: Cfg)
    requires a < HOST_REGS && b < HOST_REGS
    ensures RunOps([LocalGet(Loc(a))] + [LocalGet(Loc(b))] + IfNonzero(shift, WOP_I32_SHL) + [Simple(WOP_I32_ADD)], c)
         == Some(Push(c, Add32(c.world[a], Shl32(c.world[b], shift))))
  {
    hide RunOps, IfNonzero, Shl32, Add32;
    var x, y := c.world[a], c.world[b];
    var o := [LocalGet(Loc(a))] + [LocalGet(Loc(b))];
    RunGet(Loc(a), c);
    ThenGet([LocalGet(Loc(a))], Loc(b), c, Push(c, x));
    ThenIfNonzero(o, shift, WOP_I32_SHL, c, Push(c, x), y);
    ShlByZero(y);
    ThenBinary(o + IfNonzero(shift, WOP_I32_SHL), WOP_I32_ADD, c, c, x, Aligned(WOP_I32_SHL, y, shift));
  }

  lemma ShlByZero(y: bv32)
    ensures Shl32(y, 0) == y
  {
  }

  lemma RunAlu2(op: Alu, a: Reg, b: Reg, c: Cfg)
    requires a.hr < HOST_REGS && b.hr < HOST_REGS
    ensures RunOps(SrcCode(a) + SrcCode(b) + [Simple(AluOpcode(op))], c)
         == Some(Push(c, AluValue(op, View(a.size, c.world[a.hr]), View(b.size, c.world[b.hr]))))
  {
    var x, y := View(a.size, c.world[a.hr]), View(b.size, c.world[b.hr]);
    RunSrc(a, c);
    RunSrc(b, Push(c, x));
    Then(SrcCode(a), SrcCode(b), c, Push(c, x), Push(Push(c, x), y));
    AluOpcodeMeans(op, x, y);
    ThenBinary(SrcCode(a) + SrcCode(b), AluOpcode(op), c, c, x, y);
  }

  lemma RunAluImm(op: Alu, a: Reg, imm: bv32, c: Cfg)
    requires a.hr < HOST_REGS
    ensures RunOps(SrcCode(a) + [I32Const(imm)] + [Simple(AluOpcode(op))], c)
         == Some(Push(c, AluValue(op, View(a.size, c.world[a.hr]), imm)))
  {
    var x := View(a.size, c.world[a.hr]);
    RunSrc(a, c);
    ThenConst(SrcCode(a), imm, c, Push(c, x));
    AluOpcodeMeans(op, x, imm);
    ThenBinary(SrcCode(a) + [I32Const(imm)], AluOpcode(op), c, c, x, imm);
  }

  lemma RunValue(u: Uop, c: Cfg) returns (c1: Cfg, raw: bv32)
    requires UopOk(u) && Writes(u)
    ensures Computes(Dest(u).size, ValueCode(u), c, c1, raw, UopValue(u, Host(c.world)))
  {
    hide RunOps, AluValue, ShiftValue, Trunc, View, SView, Shl32, Add32, SrcCode, ShiftCode, MovsxCode, IfNonzero;
    c1, raw := c, UopValue(u, Host(c.world));
    match u {
      case Alu2(op, _, a, b) => RunAlu2(op, a, b, c);
      case AluImm(op, _, a, imm) => RunAluImm(op, a, imm, c);
      case AddLshift(_, a, b, shift) => RunAddLshift(a, b, shift, c);
      case Mov(_, a) => RunSrc(a, c);
      case MovImm(_, imm) => RunConst(imm, c);
      case Movsx(_, a) => RunMovsx(a, c);
      case ShiftBy(kind, _, a, n) => c1, raw := RunShift(kind, a, n, c);
    }
  }

  // A register-writing uop: the operand stack is as found, the destination's view holds
  // the meaning, and every other bit of every host register is what it was.
  lemma RunWrite(u: Uop, c: Cfg) returns (c1: Cfg)
    requires UopOk(u) && Writes(u)
    ensures RunOps(WriteCode(u), c) == Some(c1) && c1.stack == c.stack
    ensures Host(c1.world) == Written(u, Host(c.world))
    ensures forall i :: HOST_REGS <= i < N_LOCALS && i != SCRATCH_0 - LOCAL_BASE && i != SCRATCH_1 - LOCAL_BASE
              ==> c1.world[i] == c.world[i]
  {
    hide RunOps, ValueCode, DstCode, UopValue;
    var d := Dest(u);
    var cv, raw := RunValue(u, c);
    RunDst(d, cv, raw);
    c1 := SetLocal(cv, Loc(d.hr), Merge(d.size, cv.world[d.hr], raw));
    Then(ValueCode(u), DstCode(d), c, Push(cv, raw), c1);
    MergeTrunc(d.size, c.world[d.hr], raw, UopValue(u, Host(c.world)));
  }

  // ---- what a uop changes ----------------------------------------------------------------

  // regs' differs from regs in the destination's view alone, which holds the value.
  predicate OnlyViewChanged(u: Uop, regs: Regs, regs': Regs)
    requires UopOk(u) && Writes(u)
  {
    var d := Dest(u);
    && View(d.size, regs'[d.hr]) == Trunc(d.size, UopValue(u, regs)) && Rest(d.size, regs'[d.hr]) == Rest(d.size, regs[d.hr])
    && forall i :: 0 <= i < HOST_REGS && i != d.hr ==> regs'[i] == regs[i]
  }

  // Just one outcome has that property, and it is what the uop's code leaves (RunWrite).
  lemma WrittenIsOnly(u: Uop, regs: Regs, regs': Regs)
    requires UopOk(u) && Writes(u)
    ensures regs' == Written(u, regs) <==> OnlyViewChanged(u, regs, regs')
  {
    hide UopValue, Merge, View, Rest, Trunc;
    var d := Dest(u);
    MergeSpec(d.size, regs[d.hr], UopValue(u, regs));
    if OnlyViewChanged(u, regs, regs') {
      MergeUnique(d.size, regs[d.hr], UopValue(u, regs), regs'[d.hr]);
    }
  }

  // ---- rotates as rotations --------------------------------------------------------------

  function RotateUop(left: bool, d: Reg, a: Reg, n: Count): Uop { ShiftBy(if left then Rol else Ror, d, a, n) }

  // The uop leaves the source view, rotated, in the destination view.
  predicate RotatesTruly(left: bool, d: Reg, a: Reg, n: Count, regs: Regs)
    requires UopOk(RotateUop(left, d, a, n))
  {
    View(d.size, Written(RotateUop(left, d, a, n), regs)[d.hr])
      == Trunc(a.size, Rotated(Width(a.size), left, Get(regs, a), CountOf(regs, n)))
  }

  // It does, for given registers, unless the case is the missed one and there are bits to
  // carry round.
  lemma RotateExact(left: bool, d: Reg, a: Reg, n: Count, regs: Regs)
    requires UopOk(RotateUop(left, d, a, n))
    ensures var k := CountOf(regs, n);
      RotatesTruly(left, d, a, n, regs) <==>
        (RolMisses(Width(a.size), left, n, k) ==> Low16(Shl32(Get(regs, a), Part(16, k))) == 0)
  {
    var u, k, v := RotateUop(left, d, a, n), CountOf(regs, n), Get(regs, a);
    WrittenIsOnly(u, regs, Written(u, regs));
    hide Rotated, ShrU32, Sub32, Low16, Low8, Written, Mod32, Doubled, Part, Shl32;
    if RolMisses(Width(a.size), left, n, k) {
      LowTwice(regs[a.hr]);
      RolBeyond(v, k);
    }
  }

  // The view 1 rotated left by 17, which should be 2, comes out as 0.
  lemma RotateGoesWrong()
    ensures var d, a, n := Reg(0, W), Reg(1, W), InReg(2);
      var regs: Regs := seq(HOST_REGS, _ => 0)[1 := 1][2 := 17];
      && UopOk(RotateUop(true, d, a, n)) && !RotatesTruly(true, d, a, n, regs)
      && View(W, Written(RotateUop(true, d, a, n), regs)[0]) == 0 && Low16(Rotated(16, true, 1, 17)) == 2
  {
    var d, a, n := Reg(0, W), Reg(1, W), InReg(2);
    var regs: Regs := seq(HOST_REGS, _ => 0)[1 := 1][2 := 17];
    var u := RotateUop(true, d, a, n);
    assert CountOf(regs, n) == 17 && regs[1] == 1;
    OneBySeventeen();
    RotateExact(true, d, a, n, regs);
    WrittenIsOnly(u, regs, Written(u, regs));
    hide Low16, ShrU32, Doubled, Sub32, Rotated, Shl32, Part, Mod32, Written;
    assert UopValue(u, regs) == ShrU32(Doubled(16, Low16(1)), Sub32(16, 17));
  }

  lemma OneBySeventeen()
    ensures Low16(1) == 1 && Mod32(17) == 17
    ensures Low16(ShrU32(Doubled(16, Low16(1)), Sub32(16, 17))) == 0 && Low16(Rotated(16, true, 1, 17)) == 2
    ensures Low16(Shl32(Low16(1), Part(16, 17))) != 0
  {
  }

  // Over all registers that hold a given count: every rotate is true but the left rotate of
  // a 16-bit view by a register, which is just when the count modulo 32 is at most 16.
  lemma RotateAlways(left: bool, d: Reg, a: Reg, n: Count, k: bv32)
    requires UopOk(RotateUop(left, d, a, n)) && (n.Imm? ==> n.n == k)
    ensures (forall regs: Regs | CountOf(regs, n) == k :: RotatesTruly(left, d, a, n, regs))
      <==> !(left && a.size == W && n.InReg?) || Mod32(k) <= 16
  {
    hide RotatesTruly, Part, Shl32;
    if left && a.size == W && n.InReg? && Mod32(k) > 16 {
      var regs: Regs := seq(HOST_REGS, _ => 1)[n.hr := k];
      assert CountOf(regs, n) == k;
      RolBeyondOne(k);
      RolBeyondSelf(k);
      RotateExact(left, d, a, n, regs);
    } else {
      forall regs: Regs | CountOf(regs, n) == k ensures RotatesTruly(left, d, a, n, regs) {
        RotateExact(left, d, a, n, regs);
      }
    }
  }
}
