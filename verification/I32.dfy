// 32-bit integer instructions over the block's i32 locals (section 4.3.2 of the
// WebAssembly Core Specification 1.0), and straight-line runs of them.
module I32 {
  import opened Common
  import opened Wasm

  const WOP_I32_EQZ: Byte := 0x45
  const WOP_I32_EQ: Byte := 0x46
  const WOP_I32_NE: Byte := 0x47
  const WOP_I32_LT_S: Byte := 0x48
  const WOP_I32_LT_U: Byte := 0x49
  const WOP_I32_GT_S: Byte := 0x4a
  const WOP_I32_GT_U: Byte := 0x4b
  const WOP_I32_LE_S: Byte := 0x4c
  const WOP_I32_LE_U: Byte := 0x4d
  const WOP_I32_GE_S: Byte := 0x4e
  const WOP_I32_GE_U: Byte := 0x4f
  const WOP_I32_ADD: Byte := 0x6a
  const WOP_I32_SUB: Byte := 0x6b
  const WOP_I32_AND: Byte := 0x71
  const WOP_I32_OR: Byte := 0x72
  const WOP_I32_XOR: Byte := 0x73
  const WOP_I32_SHL: Byte := 0x74
  const WOP_I32_SHR_S: Byte := 0x75
  const WOP_I32_SHR_U: Byte := 0x76
  const WOP_I32_ROTL: Byte := 0x77
  const WOP_I32_ROTR: Byte := 0x78
  const WOP_I32_EXTEND8_S: Byte := 0xc0
  const WOP_I32_EXTEND16_S: Byte := 0xc1

  // ---- arithmetic --------------------------------------------------------------------

  function Sra(x: bv32, n: bv32): bv32
    requires n < 32
  {
    if x & 0x8000_0000 == 0 then x >> n else !((!x) >> n)
  }

  predicate SLess(a: bv32, b: bv32) {
    if a & 0x8000_0000 != b & 0x8000_0000 then a & 0x8000_0000 != 0 else a < b
  }

  predicate ULess(a: bv32, b: bv32) { a < b }

  function Sext8(x: bv32): bv32 { if x & 0x80 == 0 then x & 0xff else x | 0xffff_ff00 }

  function Sext16(x: bv32): bv32 { if x & 0x8000 == 0 then x & 0xffff else x | 0xffff_0000 }

  // Shift counts are taken modulo 32.
  function Mod32(n: bv32): (r: bv32)
    ensures r < 32
  {
    n & 31
  }

  // Each operator has a name of its own, which keeps proofs away from its bits until
  // they need them.
  function Add32(a: bv32, b: bv32): bv32 { a + b }
  function Sub32(a: bv32, b: bv32): bv32 { a - b }
  function And32(a: bv32, b: bv32): bv32 { a & b }
  function Or32(a: bv32, b: bv32): bv32 { a | b }
  function Xor32(a: bv32, b: bv32): bv32 { a ^ b }
  function Shl32(a: bv32, b: bv32): bv32 { a << Mod32(b) }
  function ShrS32(a: bv32, b: bv32): bv32 { Sra(a, Mod32(b)) }
  function ShrU32(a: bv32, b: bv32): bv32 { a >> Mod32(b) }
  function Rotl32(a: bv32, b: bv32): bv32 { RotateLeft(32, a, Mod32(b)) }
  function Rotr32(a: bv32, b: bv32): bv32 { RotateRight(32, a, Mod32(b)) }

  // v of width w rotated by k; bits beyond the width are to be cut.
  function RotateLeft(w: bv32, v: bv32, k: bv32): bv32
    requires k <= w <= 32
  {
    (v << k) | (v >> (w - k))
  }

  function RotateRight(w: bv32, v: bv32, k: bv32): bv32
    requires k <= w <= 32
  {
    (v >> k) | (v << (w - k))
  }

  function OfBool(b: bool): bv32 { if b then 1 else 0 }

  predicate IsCompare(code: Byte) { WOP_I32_EQ <= code <= WOP_I32_GE_U }

  predicate IsBinary(code: Byte) {
    IsCompare(code) || code == WOP_I32_ADD || code == WOP_I32_SUB || WOP_I32_AND <= code <= WOP_I32_ROTR
  }

  predicate Compare(code: Byte, a: bv32, b: bv32)
    requires IsCompare(code)
  {
    match code
    case 0x46 => a == b
    case 0x47 => a != b
    case 0x48 => SLess(a, b)
    case 0x49 => ULess(a, b)
    case 0x4a => SLess(b, a)
    case 0x4b => ULess(b, a)
    case 0x4c => !SLess(b, a)
    case 0x4d => !ULess(b, a)
    case 0x4e => !SLess(a, b)
    case 0x4f => !ULess(a, b)
  }

  function Binary(code: Byte, a: bv32, b: bv32): bv32
    requires IsBinary(code)
  {
    if IsCompare(code) then OfBool(Compare(code, a, b))
    else if code == WOP_I32_ADD then Add32(a, b)
    else if code == WOP_I32_SUB then Sub32(a, b)
    else if code == WOP_I32_AND then And32(a, b)
    else if code == WOP_I32_OR then Or32(a, b)
    else if code == WOP_I32_XOR then Xor32(a, b)
    else if code == WOP_I32_SHL then Shl32(a, b)
    else if code == WOP_I32_SHR_S then ShrS32(a, b)
    else if code == WOP_I32_SHR_U then ShrU32(a, b)
    else if code == WOP_I32_ROTL then Rotl32(a, b)
    else Rotr32(a, b)
  }

  predicate IsUnary(code: Byte) { code in {WOP_I32_EQZ, WOP_I32_EXTEND8_S, WOP_I32_EXTEND16_S} }

  function Unary(code: Byte, a: bv32): bv32
    requires IsUnary(code)
  {
    if code == WOP_I32_EQZ then OfBool(a == 0)
    else if code == WOP_I32_EXTEND8_S then Sext8(a)
    else Sext16(a)
  }

  // ---- the machine ----------------------------------------------------------------

  const LOCAL_BASE := 22   // the i32 group starts behind 10 i64 and 12 f64 locals
  const N_LOCALS := 25

  type Locals = s: seq<bv32> | |s| == N_LOCALS witness seq(N_LOCALS, _ => 0)

  predicate IsLocal(i: nat) { LOCAL_BASE <= i < LOCAL_BASE + N_LOCALS }

  function Push(c: Config<Locals>, v: bv32): Config<Locals> {
    c.(stack := c.stack + [Value.I32(v)])
  }

  function Pop(c: Config<Locals>): Option<(bv32, Config<Locals>)> {
    var n := |c.stack|;
    if n == 0 || !c.stack[n - 1].I32? then None
    else Some((c.stack[n - 1].v, c.(stack := c.stack[..n - 1])))
  }

  function SetLocal(c: Config<Locals>, i: nat, v: bv32): Config<Locals>
    requires IsLocal(i)
  {
    c.(world := c.world[i - LOCAL_BASE := v])
  }

  // Instructions outside this subset trap.
  function Step(op: Op, c: Config<Locals>): Option<Config<Locals>> {
    match op
    case LocalGet(i) => if IsLocal(i) then Some(Push(c, c.world[i - LOCAL_BASE])) else None
    case LocalSet(i) =>
      (match Pop(c)
       case None => None
       case Some((v, c')) => if IsLocal(i) then Some(SetLocal(c', i, v)) else None)
    case LocalTee(i) =>
      (match Pop(c)
       case None => None
       case Some((v, _)) => if IsLocal(i) then Some(SetLocal(c, i, v)) else None)
    case I32Const(v) => Some(Push(c, v))
    case Simple(code) =>
      (match Pop(c)
       case None => None
       case Some((b, c')) =>
         if IsUnary(code) then Some(Push(c', Unary(code, b)))
         else match Pop(c')
           case None => None
           case Some((a, c'')) => if IsBinary(code) then Some(Push(c'', Binary(code, a, b))) else None)
    case _ => None
  }

  const SEM: Semantics<Locals> := (op, c) => Step(op, c)

  function RunOps(ops: seq<Op>, c: Config<Locals>): Option<Config<Locals>> {
    if ops == [] then Some(c)
    else match Step(ops[0], c)
      case None => None
      case Some(c') => RunOps(ops[1..], c')
  }

  lemma {:induction false} RunAppend(a: seq<Op>, b: seq<Op>, c: Config<Locals>)
    ensures RunOps(a + b, c) == match RunOps(a, c) case None => None case Some(c') => RunOps(b, c')
  {
    if a == [] {
      assert a + b == b;
    } else {
      assert (a + b)[1..] == a[1..] + b;
      if Step(a[0], c).Some? {
        RunAppend(a[1..], b, Step(a[0], c).value);
      }
    }
  }

  // ---- building blocks ----------------------------------------------------------------

  lemma PopPush(c: Config<Locals>, v: bv32)
    ensures Pop(Push(c, v)) == Some((v, c))
  {
    assert (c.stack + [Value.I32(v)])[..|c.stack|] == c.stack;
  }

  lemma RunGet(i: nat, c: Config<Locals>)
    requires IsLocal(i)
    ensures RunOps([LocalGet(i)], c) == Some(Push(c, c.world[i - LOCAL_BASE]))
  {
  }

  lemma RunConst(k: bv32, c: Config<Locals>)
    ensures RunOps([I32Const(k)], c) == Some(Push(c, k))
  {
  }

  lemma RunSet(i: nat, c: Config<Locals>, v: bv32)
    requires IsLocal(i)
    ensures RunOps([LocalSet(i)], Push(c, v)) == Some(SetLocal(c, i, v))
  {
    PopPush(c, v);
  }

  lemma RunTee(i: nat, c: Config<Locals>, v: bv32)
    requires IsLocal(i)
    ensures RunOps([LocalTee(i)], Push(c, v)) == Some(Push(SetLocal(c, i, v), v))
  {
    PopPush(c, v);
  }

  lemma RunBinary(code: Byte, c: Config<Locals>, a: bv32, b: bv32)
    requires IsBinary(code)
    ensures RunOps([Simple(code)], Push(Push(c, a), b)) == Some(Push(c, Binary(code, a, b)))
  {
    PopPush(Push(c, a), b);
    PopPush(c, a);
  }

  lemma RunUnary(code: Byte, c: Config<Locals>, a: bv32)
    requires IsUnary(code)
    ensures RunOps([Simple(code)], Push(c, a)) == Some(Push(c, Unary(code, a)))
  {
    PopPush(c, a);
  }

  // A constant and a binary operator: one operation on the top of the stack.
  function WithConst(k: bv32, code: Byte): seq<Op> { [I32Const(k), Simple(code)] }

  lemma RunWithConst(k: bv32, code: Byte, c: Config<Locals>, a: bv32)
    requires IsBinary(code)
    ensures RunOps(WithConst(k, code), Push(c, a)) == Some(Push(c, Binary(code, a, k)))
  {
    assert WithConst(k, code) == [I32Const(k)] + [Simple(code)];
    RunAppend([I32Const(k)], [Simple(code)], Push(c, a));
    RunConst(k, Push(c, a));
    RunBinary(code, c, a, k);
  }
}
