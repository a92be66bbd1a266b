// The part of WebAssembly the recompiler relies on: instructions, their bytes
// (section 5.4 of the WebAssembly Core Specification 1.0), and what a function body
// does when it runs (section 4.4). Loops are absent: the CPU backend emits none.
module Wasm {
  import opened Common
  import opened Leb128

  // ---- instructions ------------------------------------------------------------

  // Instructions that fall through to the next one.
  datatype Op =
    | LocalGet(i: nat)
    | LocalSet(i: nat)
    | LocalTee(i: nat)
    | I32Const(v: bv32)
    | I64Const(n: int)
    | F64Const(bits: seq<Byte>)
    | Simple(code: Byte)                       // an opcode without immediates
    | Mem(code: Byte, align: nat, offset: nat) // a load or a store
    | CallIndirect(typeId: nat)

  // Structured control; every block and if has the empty result type.
  datatype Instr =
    | Plain(op: Op)
    | Block
    | If
    | Else
    | End
    | Br(depth: nat)
    | BrIf(depth: nat)
    | Return

  const WOP_BLOCK: Byte := 0x02
  const WOP_IF: Byte := 0x04
  const WOP_ELSE: Byte := 0x05
  const WOP_END: Byte := 0x0b
  const WOP_BR: Byte := 0x0c
  const WOP_BR_IF: Byte := 0x0d
  const WOP_RETURN: Byte := 0x0f
  const WOP_CALL_INDIRECT: Byte := 0x11
  const WOP_LOCAL_GET: Byte := 0x20
  const WOP_LOCAL_SET: Byte := 0x21
  const WOP_LOCAL_TEE: Byte := 0x22
  const WOP_I32_CONST: Byte := 0x41
  const WOP_I64_CONST: Byte := 0x42
  const WOP_F64_CONST: Byte := 0x44
  const WBT_VOID: Byte := 0x40

  predicate IsMemCode(b: Byte) { 0x28 <= b <= 0x3e }

  predicate IsSimpleCode(b: Byte) { b in {0x00, 0x01, 0x1a, 0x1b} || 0x45 <= b <= 0xc1 }

  // ---- 32-bit immediates ----------------------------------------------------------

  function Unsigned(v: bv32): (n: int)
    ensures 0 <= n < 0x1_0000_0000
  {
    v as int
  }

  function OfUnsigned(n: int): bv32
    requires 0 <= n < 0x1_0000_0000
  {
    n as bv32
  }

  // The int32_t of a uint32_t, and back.
  function ToInt32(n: int): (m: int)
    requires 0 <= n < 0x1_0000_0000
    ensures -0x8000_0000 <= m < 0x8000_0000
  {
    if n < 0x8000_0000 then n else n - 0x1_0000_0000
  }

  function ToUint32(m: int): (n: int)
    requires -0x8000_0000 <= m < 0x8000_0000
    ensures 0 <= n < 0x1_0000_0000
    ensures ToInt32(n) == m
  {
    if m >= 0 then m else m + 0x1_0000_0000
  }

  lemma UnsignedRoundTrip(v: bv32)
    ensures OfUnsigned(Unsigned(v)) == v
  {
  }

  // ---- reading instructions -------------------------------------------------------

  function ReadI32(s: seq<Byte>): Option<(bv32, seq<Byte>)> {
    match ReadS(32, s)
    case None => None
    case Some((n, rest)) =>
      if -0x8000_0000 <= n < 0x8000_0000 then Some((OfUnsigned(ToUint32(n)), rest)) else None
  }

  function ReadInstr(s: seq<Byte>): (r: Option<(Instr, seq<Byte>)>)
    ensures r.Some? ==> |r.value.1| < |s|
  {
    if s == [] then None
    else
      var b, t := s[0], s[1..];
      if b == WOP_BLOCK || b == WOP_IF then
        if t == [] || t[0] != WBT_VOID then None
        else Some((if b == WOP_BLOCK then Block else If, t[1..]))
      else if b == WOP_ELSE then Some((Else, t))
      else if b == WOP_END then Some((End, t))
      else if b == WOP_RETURN then Some((Return, t))
      else if b == WOP_BR || b == WOP_BR_IF then
        match ReadU(32, t)
        case None => None
        case Some((d, rest)) => Some((if b == WOP_BR then Br(d) else BrIf(d), rest))
      else match ReadOp(b, t)
        case None => None
        case Some((op, rest)) => Some((Plain(op), rest))
  }

  function ReadOp(b: Byte, t: seq<Byte>): (r: Option<(Op, seq<Byte>)>)
    ensures r.Some? ==> |r.value.1| <= |t|
  {
    if WOP_LOCAL_GET <= b <= WOP_LOCAL_TEE then
      match ReadU(32, t)
      case None => None
      case Some((i, rest)) =>
        Some((if b == WOP_LOCAL_GET then LocalGet(i)
              else if b == WOP_LOCAL_SET then LocalSet(i) else LocalTee(i), rest))
    else if b == WOP_I32_CONST then
      match ReadI32(t)
      case None => None
      case Some((v, rest)) => Some((I32Const(v), rest))
    else if b == WOP_I64_CONST then
      match ReadS(64, t)
      case None => None
      case Some((n, rest)) => Some((I64Const(n), rest))
    else if b == WOP_F64_CONST then
      if |t| < 8 then None else Some((F64Const(t[..8]), t[8..]))
    else if b == WOP_CALL_INDIRECT then
      match ReadU(32, t)
      case None => None
      case Some((i, rest)) =>
        if rest == [] || rest[0] != 0 then None else Some((CallIndirect(i), rest[1..]))
    else if IsMemCode(b) then
      match ReadU(32, t)
      case None => None
      case Some((align, u)) =>
        match ReadU(32, u)
        case None => None
        case Some((offset, rest)) => Some((Mem(b, align, offset), rest))
    else if IsSimpleCode(b) then Some((Simple(b), t))
    else None
  }

  // A whole instruction sequence, to the last byte.
  function Decode(s: seq<Byte>): Option<seq<Instr>>
    decreases |s|
  {
    if s == [] then Some([])
    else match ReadInstr(s)
      case None => None
      case Some((i, rest)) =>
        match Decode(rest)
        case None => None
        case Some(tail) => Some([i] + tail)
  }

  // ---- bytes that spell an instruction ----------------------------------------------

  // Whatever follows them, the bytes bs are read as exactly the instruction i.
  ghost predicate Spells(bs: seq<Byte>, i: Instr) {
    forall rest: seq<Byte> :: ReadInstr(bs + rest) == Some((i, rest))
  }

  lemma {:induction false} DecodeAppend(bs: seq<Byte>, i: Instr, rest: seq<Byte>, tail: seq<Instr>)
    requires Spells(bs, i) && Decode(rest) == Some(tail)
    ensures Decode(bs + rest) == Some([i] + tail)
  {
    assert ReadInstr(bs + rest) == Some((i, rest));
  }

  lemma SpellsControl()
    ensures Spells([WOP_BLOCK, WBT_VOID], Block) && Spells([WOP_IF, WBT_VOID], If)
    ensures Spells([WOP_ELSE], Else) && Spells([WOP_END], End) && Spells([WOP_RETURN], Return)
  {
    forall rest: seq<Byte>
      ensures ReadInstr([WOP_BLOCK, WBT_VOID] + rest) == Some((Block, rest))
      ensures ReadInstr([WOP_IF, WBT_VOID] + rest) == Some((If, rest))
      ensures ReadInstr([WOP_ELSE] + rest) == Some((Else, rest))
      ensures ReadInstr([WOP_END] + rest) == Some((End, rest))
      ensures ReadInstr([WOP_RETURN] + rest) == Some((Return, rest))
    {
      assert ([WOP_BLOCK, WBT_VOID] + rest)[1..][1..] == rest;
      assert ([WOP_IF, WBT_VOID] + rest)[1..][1..] == rest;
      assert ([WOP_ELSE] + rest)[1..] == rest;
      assert ([WOP_END] + rest)[1..] == rest;
      assert ([WOP_RETURN] + rest)[1..] == rest;
    }
  }

  lemma ReadBr(b: Byte, d: nat, rest: seq<Byte>)
    requires b in {WOP_BR, WOP_BR_IF} && d < 0x1_0000_0000
    ensures ReadInstr([b] + ULeb5(d) + rest) == Some((if b == WOP_BR then Br(d) else BrIf(d), rest))
  {
    var t := ULeb5(d) + rest;
    assert ReadU(32, t) == Some((d, rest)) by { ULeb5RoundTrip(d, rest); }
    assert [b] + ULeb5(d) + rest == [b] + t;
    assert ([b] + t)[1..] == t;
  }

  lemma SpellsBr(b: Byte, d: nat)
    requires b in {WOP_BR, WOP_BR_IF} && d < 0x1_0000_0000
    ensures Spells([b] + ULeb5(d), if b == WOP_BR then Br(d) else BrIf(d))
  {
    forall rest: seq<Byte>
      ensures ReadInstr([b] + ULeb5(d) + rest) == Some((if b == WOP_BR then Br(d) else BrIf(d), rest))
    {
      ReadBr(b, d, rest);
    }
  }

  predicate IsControlCode(b: Byte) {
    b in {WOP_BLOCK, WOP_IF, WOP_ELSE, WOP_END, WOP_RETURN, WOP_BR, WOP_BR_IF}
  }

  // Bytes that are read as an opcode's immediates spell the instruction behind the opcode.
  lemma SpellsOp(b: Byte, imm: seq<Byte>, op: Op)
    requires !IsControlCode(b)
    requires forall rest: seq<Byte> :: ReadOp(b, imm + rest) == Some((op, rest))
    ensures Spells([b] + imm, Plain(op))
  {
    forall rest: seq<Byte>
      ensures ReadInstr([b] + imm + rest) == Some((Plain(op), rest))
    {
      assert [b] + imm + rest == [b] + (imm + rest);
      assert ([b] + (imm + rest))[1..] == imm + rest;
    }
  }

  lemma SpellsSimple(b: Byte)
    requires IsSimpleCode(b)
    ensures Spells([b], Plain(Simple(b)))
  {
    forall rest: seq<Byte> ensures ReadOp(b, [] + rest) == Some((Simple(b), rest)) {
      assert [] + rest == rest;
    }
    SpellsOp(b, [], Simple(b));
    assert [b] + [] == [b];
  }

  function LocalOp(b: Byte, i: nat): Op {
    if b == WOP_LOCAL_GET then LocalGet(i) else if b == WOP_LOCAL_SET then LocalSet(i) else LocalTee(i)
  }

  lemma Pow2Of32()
    ensures Pow2(31) == 0x8000_0000 && Pow2(32) == 0x1_0000_0000
  {
    Pow2Plus7(0);
    Pow2Plus7(7);
    Pow2Plus7(14);
    Pow2Plus7(21);
  }

  lemma ReadU32Of(v: nat, rest: seq<Byte>)
    requires v < 0x1_0000_0000
    ensures ReadU(32, ULeb(v) + rest) == Some((v, rest))
  {
    Pow2Of32();
    ULebRoundTrip(32, v, rest);
  }

  lemma SpellsLocal(b: Byte, i: nat)
    requires WOP_LOCAL_GET <= b <= WOP_LOCAL_TEE && i < 0x1_0000_0000
    ensures Spells([b] + ULeb(i), Plain(LocalOp(b, i)))
  {
    forall rest: seq<Byte> ensures ReadOp(b, ULeb(i) + rest) == Some((LocalOp(b, i), rest)) {
      ReadU32Of(i, rest);
    }
    SpellsOp(b, ULeb(i), LocalOp(b, i));
  }

  // The bytes of an i32.const immediate: the signed LEB128 of the word's bits.
  function I32Bytes(v: bv32): seq<Byte> { SLeb(ToInt32(Unsigned(v))) }

  lemma Int32RoundTrip(n: int, rest: seq<Byte>)
    requires 0 <= n < 0x1_0000_0000
    ensures ReadS(32, SLeb(ToInt32(n)) + rest) == Some((ToInt32(n), rest))
    ensures ToUint32(ToInt32(n)) == n
  {
    Pow2Of32();
    SLebRoundTrip(32, ToInt32(n), rest);
  }

  lemma I32BytesRoundTrip(v: bv32, rest: seq<Byte>)
    ensures ReadI32(I32Bytes(v) + rest) == Some((v, rest))
  {
    Int32RoundTrip(Unsigned(v), rest);
    UnsignedRoundTrip(v);
  }

  lemma SpellsI32Const(v: bv32)
    ensures Spells([WOP_I32_CONST] + I32Bytes(v), Plain(I32Const(v)))
  {
    forall rest: seq<Byte> ensures ReadOp(WOP_I32_CONST, I32Bytes(v) + rest) == Some((I32Const(v), rest)) {
      I32BytesRoundTrip(v, rest);
    }
    SpellsOp(WOP_I32_CONST, I32Bytes(v), I32Const(v));
  }

  lemma SpellsMem(b: Byte, align: nat, offset: nat)
    requires IsMemCode(b) && align < 0x1_0000_0000 && offset < 0x1_0000_0000
    ensures Spells([b] + ULeb(align) + ULeb(offset), Plain(Mem(b, align, offset)))
  {
    var imm := ULeb(align) + ULeb(offset);
    forall rest: seq<Byte> ensures ReadOp(b, imm + rest) == Some((Mem(b, align, offset), rest)) {
      assert imm + rest == ULeb(align) + (ULeb(offset) + rest);
      ReadU32Of(align, ULeb(offset) + rest);
      ReadU32Of(offset, rest);
    }
    SpellsOp(b, imm, Mem(b, align, offset));
    assert [b] + imm == [b] + ULeb(align) + ULeb(offset);
  }

  lemma SpellsCallIndirect(typeId: nat)
    requires typeId < 0x1_0000_0000
    ensures Spells([WOP_CALL_INDIRECT] + ULeb(typeId) + [0], Plain(CallIndirect(typeId)))
  {
    var imm := ULeb(typeId) + [0];
    forall rest: seq<Byte> ensures ReadOp(WOP_CALL_INDIRECT, imm + rest) == Some((CallIndirect(typeId), rest)) {
      assert imm + rest == ULeb(typeId) + ([0] + rest);
      ReadU32Of(typeId, [0] + rest);
      assert ([0] + rest)[1..] == rest;
    }
    SpellsOp(WOP_CALL_INDIRECT, imm, CallIndirect(typeId));
    assert [WOP_CALL_INDIRECT] + imm == [WOP_CALL_INDIRECT] + ULeb(typeId) + [0];
  }

  // ---- running a body ------------------------------------------------------------

  datatype Value = I32(v: bv32) | I64(q: bv64) | F64(bits: seq<Byte>)

  // Operand stack (top last) and everything else an instruction can reach.
  datatype Config<W> = Config(stack: seq<Value>, world: W)

  datatype Outcome<W> =
    | Finished(world: W)  // returned, or ran to the end of the function
    | Trapped             // a plain instruction trapped
    | Invalid             // code a validator would have refused

  // What a plain instruction does; None is a trap.
  type Semantics<!W> = (Op, Config<W>) -> Option<Config<W>>

  // The code after the k-th end that closes a block still open at the start of code:
  // the continuation of the k-th enclosing label.
  function AfterEnd(code: seq<Instr>, k: nat): (r: Option<seq<Instr>>)
    ensures r.Some? ==> |r.value| <= |code|
    decreases |code|
  {
    if k == 0 then Some(code)
    else if code == [] then None
    else match code[0]
      case Block => AfterEnd(code[1..], k + 1)
      case If => AfterEnd(code[1..], k + 1)
      case End => AfterEnd(code[1..], k - 1)
      case _ => AfterEnd(code[1..], k)
  }

  // Where an untaken if continues: after its else (true) or after its end (false).
  // k counts the blocks opened since.
  function AfterIf(code: seq<Instr>, k: nat): (r: Option<(bool, seq<Instr>)>)
    ensures r.Some? ==> |r.value.1| < |code|
    decreases |code|
  {
    if code == [] then None
    else match code[0]
      case Block => AfterIf(code[1..], k + 1)
      case If => AfterIf(code[1..], k + 1)
      case Else => if k == 0 then Some((true, code[1..])) else AfterIf(code[1..], k)
      case End => if k == 0 then Some((false, code[1..])) else AfterIf(code[1..], k - 1)
      case _ => AfterIf(code[1..], k)
  }

  function PopBool(stack: seq<Value>): Option<(bool, seq<Value>)> {
    if stack == [] || !stack[|stack| - 1].I32? then None
    else Some((stack[|stack| - 1].v != 0, stack[..|stack| - 1]))
  }

  // What one instruction does to the open blocks and the configuration, and where
  // control goes next. hs holds, for each open block from the outermost in, the operand
  // stack height at its entry; branching to a label cuts the stack back to that height.
  datatype Effect<W> =
    | Next(hs: seq<nat>, c: Config<W>)           // on to the next instruction
    | Leave(k: nat, hs: seq<nat>, c: Config<W>)  // on after the k-th enclosing end
    | SkipThen(hs: seq<nat>, c: Config<W>)       // an untaken if
    | Stop(o: Outcome<W>)

  function EffectOf<W>(sem: Semantics<W>, i: Instr, hs: seq<nat>, c: Config<W>): Effect<W> {
    match i
    case Plain(op) =>
      (match sem(op, c)
       case None => Stop(Trapped)
       case Some(c') => Next(hs, c'))
    case Block => Next(hs + [|c.stack|], c)
    case If =>
      (match PopBool(c.stack)
       case None => Stop(Invalid)
       case Some((taken, stack)) =>
         if taken then Next(hs + [|stack|], c.(stack := stack)) else SkipThen(hs, c.(stack := stack)))
    case Else => if hs == [] then Stop(Invalid) else Leave(1, hs[..|hs| - 1], c)
    case End => if hs == [] then Stop(Finished(c.world)) else Next(hs[..|hs| - 1], c)
    case Br(d) => BranchEffect(hs, d, c)
    case BrIf(d) =>
      (match PopBool(c.stack)
       case None => Stop(Invalid)
       case Some((taken, stack)) =>
         if taken then BranchEffect(hs, d, c.(stack := stack)) else Next(hs, c.(stack := stack)))
    case Return => Stop(Finished(c.world))
  }

  // A branch to the outermost label leaves the function.
  function BranchEffect<W>(hs: seq<nat>, d: nat, c: Config<W>): Effect<W> {
    if d == |hs| then Stop(Finished(c.world))
    else if d > |hs| || |c.stack| < hs[|hs| - 1 - d] then Stop(Invalid)
    else Leave(d + 1, hs[..|hs| - 1 - d], c.(stack := c.stack[..hs[|hs| - 1 - d]]))
  }

  // Run code with the blocks hs open.
  function Exec<W>(sem: Semantics<W>, code: seq<Instr>, hs: seq<nat>, c: Config<W>): Outcome<W>
    decreases |code|, 0
  {
    if code == [] then Invalid else Follow(sem, code[1..], EffectOf(sem, code[0], hs, c))
  }

  // Go on after an instruction with effect e that rest follows.
  function Follow<W>(sem: Semantics<W>, rest: seq<Instr>, e: Effect<W>): Outcome<W>
    decreases |rest|, 1
  {
    match e
    case Stop(o) => o
    case Next(hs, c) => Exec(sem, rest, hs, c)
    case Leave(k, hs, c) =>
      (match AfterEnd(rest, k)
       case None => Invalid
       case Some(next) => Exec(sem, next, hs, c))
    case SkipThen(hs, c) =>
      (match AfterIf(rest, 0)
       case None => Invalid
       case Some((hasElse, next)) =>
         Exec(sem, next, if hasElse then hs + [|c.stack|] else hs, c))
  }
}
