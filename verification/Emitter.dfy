// The byte emitter of wasm/jit/wasm-emit.c: a cursor over a fixed buffer that turns into
// a failed state, for good, at the first write that does not fit.
module Emitter {
  import opened Common
  import opened Leb128
  import opened Wasm

  class WasmEmit {
    const buf: array<Byte>
    var pos: nat
    var failed: bool
    var depth: int

    // The cap of the original is always the size of the buffer handed in.
    constructor (buf: array<Byte>)
      ensures this.buf == buf && Valid() && !failed && depth == 0 && pos == 0
    {
      this.buf := buf;
      pos, failed, depth := 0, false, 0;
    }

    predicate Valid()
      reads this
    {
      pos <= buf.Length
    }

    function Contents(): seq<Byte>
      requires Valid()
      reads this, buf
    {
      buf[..pos]
    }

    // bs was appended; or it did not fit and the emitter has failed.
    twostate predicate Appended(bs: seq<Byte>)
      requires old(Valid())
      reads this, buf
    {
      && Valid()
      && failed == (old(failed) || old(pos) + |bs| > buf.Length)
      && (!failed ==> Contents() == old(Contents()) + bs)
    }

    method EmitByte(b: Byte)
      requires Valid()
      modifies this`pos, this`failed, buf
      ensures Appended([b])
      ensures old(pos) < buf.Length ==> Contents() == old(Contents()) + [b]
    {
      if pos >= buf.Length {
        failed := true;
        return;
      }
      buf[pos] := b;
      pos := pos + 1;
    }

    method EmitBytes(bs: seq<Byte>)
      requires Valid()
      modifies this`pos, this`failed, buf
      ensures Appended(bs)
    {
      if pos + |bs| > buf.Length {
        failed := true;
        return;
      }
      forall k | 0 <= k < |bs| {
        buf[pos + k] := bs[k];
      }
      pos := pos + |bs|;
    }

    method EmitULeb(v: nat)
      requires Valid()
      modifies this`pos, this`failed, buf
      ensures Appended(ULeb(v))
    {
      var rest, more := v, true;
      while more
        invariant Valid()
        invariant more ==> failed == (old(failed) || old(pos) + |ULeb(v)| - |ULeb(rest)| > buf.Length)
        invariant more && !failed ==> Contents() + ULeb(rest) == old(Contents()) + ULeb(v)
        invariant !more ==> Appended(ULeb(v))
        decreases more, rest
      {
        var b: Byte := rest % 0x80;
        var v' := rest;
        rest := rest / 0x80;
        if rest != 0 {
          b := b + 0x80;
        }
        assert ULeb(v') == [b] + (if rest != 0 then ULeb(rest) else []);
        label Before:
        EmitByte(b);
        more := rest != 0;
        assert !failed ==> Contents() + (if more then ULeb(rest) else []) == old@Before(Contents()) + ULeb(v');
      }
    }

    method EmitSLeb(v: int)
      requires Valid()
      modifies this`pos, this`failed, buf
      ensures Appended(SLeb(v))
    {
      var rest, more := v, true;
      while more
        invariant Valid()
        invariant more ==> failed == (old(failed) || old(pos) + |SLeb(v)| - |SLeb(rest)| > buf.Length)
        invariant more && !failed ==> Contents() + SLeb(rest) == old(Contents()) + SLeb(v)
        invariant !more ==> Appended(SLeb(v))
        decreases more, if rest < 0 then -rest - 1 else rest
      {
        var b: Byte := rest % 0x80;
        var v' := rest;
        rest := rest / 0x80;
        if (rest == 0 && b < 0x40) || (rest == -1 && b >= 0x40) {
          more := false;
        } else {
          b := b + 0x80;
        }
        assert SLeb(v') == [b] + (if more then SLeb(rest) else []);
        label Before:
        EmitByte(b);
        assert !failed ==> Contents() + (if more then SLeb(rest) else []) == old@Before(Contents()) + SLeb(v');
      }
    }

    method EmitOp(op: Byte)
      requires Valid()
      modifies this`pos, this`failed, buf
      ensures Appended([op])
    {
      EmitByte(op);
    }

    // wemit_local_get, _set and _tee
    method EmitLocal(op: Byte, idx: nat)
      requires Valid()
      modifies this`pos, this`failed, buf
      ensures Appended([op] + ULeb(idx))
    {
      EmitByte(op);
      EmitULeb(idx);
    }

    method EmitI32Const(v: bv32)
      requires Valid()
      modifies this`pos, this`failed, buf
      ensures Appended([WOP_I32_CONST] + I32Bytes(v))
    {
      EmitByte(WOP_I32_CONST);
      EmitSLeb(ToInt32(Unsigned(v)));
    }

    // wemit_block and wemit_if
    method EmitOpen(op: Byte)
      requires Valid()
      modifies this, buf
      ensures Appended([op, WBT_VOID])
      ensures depth == old(depth) + 1
    {
      EmitByte(op);
      EmitByte(WBT_VOID);
      depth := depth + 1;
    }

    method EmitEnd()
      requires Valid()
      modifies this, buf
      ensures Appended([WOP_END])
      ensures depth == old(depth) - 1
    {
      EmitByte(WOP_END);
      depth := depth - 1;
    }

    // wemit_load and wemit_store
    method EmitMem(op: Byte, offset: nat, align: nat)
      requires Valid()
      modifies this`pos, this`failed, buf
      ensures Appended([op] + ULeb(align) + ULeb(offset))
      ensures IsMemCode(op) && align < 0x1_0000_0000 && offset < 0x1_0000_0000 ==>
        Spells([op] + ULeb(align) + ULeb(offset), Plain(Mem(op, align, offset)))
    {
      hide Spells, ULeb;
      if IsMemCode(op) && align < 0x1_0000_0000 && offset < 0x1_0000_0000 {
        SpellsMem(op, align, offset);
      }
      EmitByte(op);
      EmitULeb(align);
      EmitULeb(offset);
    }

    method EmitCallIndirect(typeId: nat, tableIndex: bv32)
      requires Valid()
      modifies this`pos, this`failed, buf
      ensures Appended([WOP_I32_CONST] + I32Bytes(tableIndex) + ([WOP_CALL_INDIRECT] + ULeb(typeId) + [0]))
      ensures Spells([WOP_I32_CONST] + I32Bytes(tableIndex), Plain(I32Const(tableIndex)))
      ensures typeId < 0x1_0000_0000 ==> Spells([WOP_CALL_INDIRECT] + ULeb(typeId) + [0], Plain(CallIndirect(typeId)))
    {
      hide Spells, ULeb, I32Bytes;
      SpellsI32Const(tableIndex);
      if typeId < 0x1_0000_0000 {
        SpellsCallIndirect(typeId);
      }
      EmitI32Const(tableIndex);
      EmitByte(WOP_CALL_INDIRECT);
      EmitULeb(typeId);
      EmitByte(0x00);
    }
  }
}
