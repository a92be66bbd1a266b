// core/src/fdi2raw.c: writing bits to a track, MFM clock bits, and their late insertion.
module Mfm {
  import opened Common
  import opened Bits

  const MAX_DST_BUFFER := 40000
  const MAX_MFM_SYNC_BUFFER := 60000

  // ---- bits of a track -----------------------------------------------------------------

  function WithBit(b: bv8, m: bv8, bit: bool): bv8 { if bit then b | m else b & !m }

  function PutBit(dst: seq<bv8>, p: nat, bit: bool): (r: seq<bv8>)
    requires p < 8 * |dst|
    ensures |r| == |dst|
  {
    dst[p / 8 := WithBit(dst[p / 8], Mask(p % 8), bit)]
  }

  lemma WithBitAt(b: bv8, j: nat, bit: bool, k: nat)
    requires j < 8 && k < 8
    ensures (WithBit(b, Mask(j), bit) & Mask(k) != 0) == if k == j then bit else b & Mask(k) != 0
  {
  }

  lemma PutBitAt(dst: seq<bv8>, p: nat, bit: bool, q: nat)
    requires p < 8 * |dst| && q < 8 * |dst|
    ensures Bit(PutBit(dst, p, bit), q) == if q == p then bit else Bit(dst, q)
  {
    hide Mask, WithBit;
    SamePlace(p, q);
    PutByteAt(dst, p / 8, p % 8, bit, q / 8, q % 8);
  }

  lemma SamePlace(p: nat, q: nat)
    ensures p == q <==> p / 8 == q / 8 && p % 8 == q % 8
  {
  }

  lemma PutByteAt(dst: seq<bv8>, i: nat, j: nat, bit: bool, k: nat, l: nat)
    requires i < |dst| && k < |dst| && j < 8 && l < 8
    ensures (dst[i := WithBit(dst[i], Mask(j), bit)][k] & Mask(l) != 0) == if k == i && l == j then bit else dst[k] & Mask(l) != 0
  {
    hide Mask, WithBit;
    WithBitAt(dst[i], j, bit, l);
  }

  lemma PutBitOthers(dst: seq<bv8>, p: nat, bit: bool)
    requires p < 8 * |dst|
    ensures forall q :: 0 <= q < 8 * |dst| && q != p ==> Bit(PutBit(dst, p, bit), q) == Bit(dst, q)
    ensures Bit(PutBit(dst, p, bit), p) == bit
  {
    hide PutBit, Bit;
    forall q | 0 <= q < 8 * |dst| ensures Bit(PutBit(dst, p, bit), q) == if q == p then bit else Bit(dst, q) {
      PutBitAt(dst, p, bit, q);
    }
  }

  // ---- clock bits ------------------------------------------------------------------

  // A clock bit is 1 exactly between two 0 data bits.
  function FixOne(dst: seq<bv8>, p: nat): (r: seq<bv8>)
    requires 0 < p && p + 1 < 8 * |dst|
    ensures |r| == |dst|
  {
    PutBit(dst, p, !Bit(dst, p - 1) && !Bit(dst, p + 1))
  }

  predicate SyncOk(dst: seq<bv8>, ps: seq<nat>) {
    forall i :: 0 <= i < |ps| ==> 0 < ps[i] && ps[i] + 1 < 8 * |dst|
  }

  // fix_mfm_sync over the first n recorded positions.
  function Fixed(dst: seq<bv8>, ps: seq<nat>, n: nat): (r: seq<bv8>)
    requires SyncOk(dst, ps) && n <= |ps|
    ensures |r| == |dst|
  {
    if n == 0 then dst else FixOne(Fixed(dst, ps, n - 1), ps[n - 1])
  }

  // A position that is not recorded keeps its bit.
  lemma {:induction false} FixedElsewhere(dst: seq<bv8>, ps: seq<nat>, m: nat, n: nat, q: nat)
    requires SyncOk(dst, ps) && m <= n <= |ps| && q < 8 * |dst|
    requires forall i :: m <= i < n ==> ps[i] != q
    ensures Bit(Fixed(dst, ps, n), q) == Bit(Fixed(dst, ps, m), q)
    decreases n
  {
    hide Bit, PutBit;
    if m < n {
      var before := Fixed(dst, ps, n - 1);
      PutBitAt(before, ps[n - 1], !Bit(before, ps[n - 1] - 1) && !Bit(before, ps[n - 1] + 1), q);
      FixedElsewhere(dst, ps, m, n - 1, q);
    }
  }

  // A position that is recorded once, and whose neighbours are not recorded later, ends up
  // as a clock bit.
  lemma {:induction false} FixedAt(dst: seq<bv8>, ps: seq<nat>, k: nat)
    requires SyncOk(dst, ps) && k < |ps|
    requires forall i :: k < i < |ps| ==> ps[i] != ps[k] && ps[i] + 1 != ps[k] && ps[i] != ps[k] + 1
    ensures var r := Fixed(dst, ps, |ps|);
      Bit(r, ps[k]) == (!Bit(r, ps[k] - 1) && !Bit(r, ps[k] + 1))
  {
    hide Bit, PutBit;
    var p, before := ps[k], Fixed(dst, ps, k);
    PutBitOthers(before, p, !Bit(before, p - 1) && !Bit(before, p + 1));
    FixedElsewhere(dst, ps, k + 1, |ps|, p - 1);
    FixedElsewhere(dst, ps, k + 1, |ps|, p);
    FixedElsewhere(dst, ps, k + 1, |ps|, p + 1);
  }

  // ---- a region of MFM data --------------------------------------------------------------

  // From bit p0 on, data bit k lies at p0 + 2k + 1; the positions p0 + 2k in front of them
  // are recorded, in order, as the entries from s0 on.
  ghost predicate Region(dst: seq<bv8>, ps: seq<nat>, p0: nat, s0: nat, data: seq<bool>) {
    && 0 < p0 && p0 + 2 * |data| < 8 * |dst| && s0 + |data| <= |ps|
    && (forall k :: 0 <= k < |data| ==> DataAt(dst, p0, k, data[k]))
    && (forall k :: 0 <= k < |data| ==> ps[s0 + k] == p0 + 2 * k)
  }

  predicate DataAt(dst: seq<bv8>, p0: nat, k: nat, bit: bool) {
    p0 + 2 * k + 1 < 8 * |dst| && Bit(dst, p0 + 2 * k + 1) == bit
  }

  // The other recorded positions lie outside of it.
  ghost predicate Outside(ps: seq<nat>, p0: nat, s0: nat, n: nat) {
    && s0 + n <= |ps|
    && (forall i :: 0 <= i < s0 ==> ps[i] < p0)
    && (forall i :: s0 + n <= i < |ps| ==> ps[i] >= p0 + 2 * n)
  }

  // Fixing the clock bits leaves the data bits ...
  lemma DataKept(dst: seq<bv8>, ps: seq<nat>, p0: nat, s0: nat, data: seq<bool>)
    requires SyncOk(dst, ps) && Region(dst, ps, p0, s0, data) && Outside(ps, p0, s0, |data|)
    ensures Region(Fixed(dst, ps, |ps|), ps, p0, s0, data)
  {
    hide Bit, Fixed;
    var r := Fixed(dst, ps, |ps|);
    forall k | 0 <= k < |data| ensures DataAt(r, p0, k, data[k]) {
      assert DataAt(dst, p0, k, data[k]);
      forall i | 0 <= i < |ps| ensures ps[i] != p0 + 2 * k + 1 {
        if s0 <= i < s0 + |data| {
          assert ps[s0 + (i - s0)] == p0 + 2 * (i - s0);
        }
      }
      FixedElsewhere(dst, ps, 0, |ps|, p0 + 2 * k + 1);
      FixedNone(dst, ps);
    }
  }

  lemma FixedNone(dst: seq<bv8>, ps: seq<nat>)
    requires SyncOk(dst, ps)
    ensures Fixed(dst, ps, 0) == dst
  {
  }

  predicate ClockAt(dst: seq<bv8>, p0: nat, k: nat) {
    0 < p0 && p0 + 2 * k + 1 < 8 * |dst| &&
    Bit(dst, p0 + 2 * k) == (!Bit(dst, p0 + 2 * k - 1) && !Bit(dst, p0 + 2 * k + 1))
  }

  // ... and makes every clock bit of the region one.
  lemma ClockSet(dst: seq<bv8>, ps: seq<nat>, p0: nat, s0: nat, data: seq<bool>)
    requires SyncOk(dst, ps) && Region(dst, ps, p0, s0, data) && Outside(ps, p0, s0, |data|)
    ensures forall k :: 0 <= k < |data| ==> ClockAt(Fixed(dst, ps, |ps|), p0, k)
  {
    hide Bit, Fixed;
    forall k | 0 <= k < |data| ensures ClockAt(Fixed(dst, ps, |ps|), p0, k) {
      assert ps[s0 + k] == p0 + 2 * k;
      forall i | s0 + k < i < |ps| ensures ps[i] > p0 + 2 * k + 1 {
        if i < s0 + |data| {
          assert ps[s0 + (i - s0)] == p0 + 2 * (i - s0);
        }
      }
      FixedAt(dst, ps, s0 + k);
    }
  }

  // What MFM is for: no two 1 bits in a row ...
  lemma NoAdjacentOnes(dst: seq<bv8>, p0: nat, n: nat, q: nat)
    requires forall k :: 0 <= k < n ==> ClockAt(dst, p0, k)
    requires 0 < p0 && p0 - 1 <= q && q + 1 < p0 + 2 * n <= 8 * |dst|
    ensures !(Bit(dst, q) && Bit(dst, q + 1))
  {
    hide Bit;
    if (q - p0) % 2 == 0 {
      assert ClockAt(dst, p0, (q - p0) / 2);
    } else {
      assert ClockAt(dst, p0, (q + 1 - p0) / 2);
    }
  }

  // ... and never more than three 0 bits in a row.
  lemma NoFourZeros(dst: seq<bv8>, p0: nat, n: nat, q: nat)
    requires forall k :: 0 <= k < n ==> ClockAt(dst, p0, k)
    requires p0 <= q && q + 3 < p0 + 2 * n <= 8 * |dst|
    ensures Bit(dst, q) || Bit(dst, q + 1) || Bit(dst, q + 2) || Bit(dst, q + 3)
  {
    hide Bit;
    if (q - p0) % 2 == 0 {
      assert ClockAt(dst, p0, (q + 2 - p0) / 2);
    } else {
      assert ClockAt(dst, p0, (q + 1 - p0) / 2);
    }
  }

  // ---- bytes and words as data bits ------------------------------------------------------

  // The bits of a byte, top first.
  function ByteBits(v: bv8): (r: seq<bool>)
    ensures |r| == 8
  {
    seq(8, k requires 0 <= k < 8 => v & Mask(k) != 0)
  }

  function BytesBits(vs: seq<bv8>): (r: seq<bool>)
    ensures |r| == 8 * |vs|
  {
    if vs == [] then [] else BytesBits(vs[..|vs| - 1]) + ByteBits(vs[|vs| - 1])
  }

  // Every second bit of a word, from bit 14 down: what word_post_mfm_add writes.
  function WordMask(k: nat): bv16
    requires k < 8
  {
    if k == 0 then 0x4000 else if k == 1 then 0x1000 else if k == 2 then 0x0400 else if k == 3 then 0x0100
    else if k == 4 then 0x0040 else if k == 5 then 0x0010 else if k == 6 then 0x0004 else 0x0001
  }

  predicate HasBit(v: bv16, k: nat)
    requires k < 8
  {
    v & WordMask(k) != 0
  }

  function WordBits(v: bv16): (r: seq<bool>)
    ensures |r| == 8
  {
    seq(8, k requires 0 <= k < 8 => HasBit(v, k))
  }

  // ---- the writer ------------------------------------------------------------------

  class TrackWriter {
    const trackDst: array<bv8>
    var out: nat
    const mfmsyncBuffer: array<nat>
    var mfmsyncOffset: nat
    var nextdrop: int
    var err: bool

    constructor (out: nat)
      requires out < 8 * MAX_DST_BUFFER
      ensures Valid() && this.out == out && nextdrop == 0 && !err && mfmsyncOffset == 0
      ensures fresh(trackDst) && fresh(mfmsyncBuffer)
    {
      trackDst := new bv8[MAX_DST_BUFFER](_ => 0);
      mfmsyncBuffer := new nat[MAX_MFM_SYNC_BUFFER](_ => 0);
      this.out := out;
      mfmsyncOffset, nextdrop, err := 0, 0, false;
    }

    predicate Valid()
      reads this
    {
      trackDst.Length == MAX_DST_BUFFER && mfmsyncBuffer.Length == MAX_MFM_SYNC_BUFFER
      && mfmsyncOffset < MAX_MFM_SYNC_BUFFER && out < 8 * MAX_DST_BUFFER
    }

    // The recorded clock positions.
    function Syncs(): seq<nat>
      requires Valid()
      reads this, mfmsyncBuffer
    {
      mfmsyncBuffer[..mfmsyncOffset]
    }

    // Room for n more MFM bits, and nothing in the way.
    predicate Ready(n: nat)
      reads this
    {
      Valid() && nextdrop == 0 && 0 < out && out + 2 * n < 8 * MAX_DST_BUFFER && mfmsyncOffset + n < MAX_MFM_SYNC_BUFFER
    }

    method AddMfmSyncBit()
      requires Valid() && out + 1 < 8 * MAX_DST_BUFFER
      modifies this`out, this`mfmsyncOffset, this`nextdrop, this`err, mfmsyncBuffer
      ensures Valid() && nextdrop == 0
      ensures old(nextdrop) != 0 ==> out == old(out) && err == old(err) && Syncs() == old(Syncs())
      ensures old(nextdrop) == 0 ==> out == old(out) + 1 && (old(out) == 0 ==> err)
      ensures old(nextdrop) == 0 && old(mfmsyncOffset) + 1 < MAX_MFM_SYNC_BUFFER ==>
        Syncs() == old(Syncs()) + [old(out)] && (old(out) > 0 ==> err == old(err))
    {
      if nextdrop != 0 {
        nextdrop := 0;
        return;
      }
      mfmsyncBuffer[mfmsyncOffset] := out;
      mfmsyncOffset := mfmsyncOffset + 1;
      if out == 0 {
        err := true;
      }
      if mfmsyncOffset >= MAX_MFM_SYNC_BUFFER {
        mfmsyncOffset := 0;
        err := true;
      }
      out := out + 1;
    }

    method TestBit(p: nat) returns (bit: bool)
      requires p < 8 * trackDst.Length
      ensures bit == Bit(trackDst[..], p)
    {
      hide Mask;
      bit := trackDst[p / 8] & Mask(p % 8) != 0;
    }

    method SetBit(p: nat)
      requires p < 8 * trackDst.Length
      modifies trackDst
      ensures trackDst[..] == PutBit(old(trackDst[..]), p, true)
    {
      hide Mask;
      trackDst[p / 8] := trackDst[p / 8] | Mask(p % 8);
    }

    method ClearBit(p: nat)
      requires p < 8 * trackDst.Length
      modifies trackDst
      ensures trackDst[..] == PutBit(old(trackDst[..]), p, false)
    {
      hide Mask;
      trackDst[p / 8] := trackDst[p / 8] & !Mask(p % 8);
    }

    method BitAdd(bit: bool)
      requires Valid()
      modifies this`out, this`nextdrop, this`err, trackDst
      ensures Valid() && nextdrop == 0
      ensures old(nextdrop) != 0 ==> out == old(out) && err == old(err) && trackDst[..] == old(trackDst[..])
      ensures old(nextdrop) == 0 ==> trackDst[..] == PutBit(old(trackDst[..]), old(out), bit)
      ensures old(nextdrop) == 0 && old(out) + 1 < 8 * MAX_DST_BUFFER ==> out == old(out) + 1 && err == old(err)
      ensures old(nextdrop) == 0 && old(out) + 1 == 8 * MAX_DST_BUFFER ==> out == 1 && err
    {
      if nextdrop != 0 {
        nextdrop := 0;
        return;
      }
      ClearBit(out);
      if bit {
        SetBit(out);
      }
      PutTwice(old(trackDst[..]), out, bit);
      hide PutBit;
      out := out + 1;
      if out >= 8 * MAX_DST_BUFFER {
        err := true;
        out := 1;
      }
    }

    // A data bit behind a place for a clock bit.
    method BitMfmAdd(bit: bool)
      requires Ready(1)
      modifies this`out, this`mfmsyncOffset, this`nextdrop, this`err, trackDst, mfmsyncBuffer
      ensures Valid() && nextdrop == 0 && err == old(err) && out == old(out) + 2
      ensures Syncs() == old(Syncs()) + [old(out)] && trackDst[..] == PutBit(old(trackDst[..]), old(out) + 1, bit)
    {
      AddMfmSyncBit();
      BitAdd(bit);
    }

    // What has been written since dst0 and ps0, from bit p0 on.
    ghost predicate Grew(dst0: seq<bv8>, ps0: seq<nat>, p0: nat, data: seq<bool>)
      reads this, trackDst, mfmsyncBuffer
    {
      && Valid() && |dst0| == MAX_DST_BUFFER && out == p0 + 2 * |data| && |Syncs()| == |ps0| + |data| && ps0 <= Syncs()
      && Region(trackDst[..], Syncs(), p0, |ps0|, data)
      && (forall q :: 0 <= q < p0 ==> Bit(trackDst[..], q) == Bit(dst0, q))
    }

    lemma GrewNothing()
      requires Ready(0)
      ensures Grew(trackDst[..], Syncs(), out, [])
    {
    }

    method DataBit(bit: bool, ghost dst0: seq<bv8>, ghost ps0: seq<nat>, ghost p0: nat, ghost data: seq<bool>)
      requires Ready(1) && Grew(dst0, ps0, p0, data)
      modifies this`out, this`mfmsyncOffset, this`nextdrop, this`err, trackDst, mfmsyncBuffer
      ensures nextdrop == 0 && err == old(err) && Grew(dst0, ps0, p0, data + [bit])
    {
      hide Bit, PutBit;
      ghost var before, at := trackDst[..], out + 1;
      BitMfmAdd(bit);
      PutBitOthers(before, at, bit);
      RegionNext(before, old(Syncs()), p0, |ps0|, data, bit, trackDst[..], Syncs());
    }

    // byte_mfm_add
    method ByteMfmAdd(v: bv8, ghost dst0: seq<bv8>, ghost ps0: seq<nat>, ghost p0: nat, ghost data: seq<bool>)
      requires Ready(8) && Grew(dst0, ps0, p0, data)
      modifies this`out, this`mfmsyncOffset, this`nextdrop, this`err, trackDst, mfmsyncBuffer
      ensures nextdrop == 0 && err == old(err) && Grew(dst0, ps0, p0, data + ByteBits(v))
    {
      hide Region, Bit, Mask;
      assert data + ByteBits(v)[..0] == data;
      for k := 0 to 8
        invariant nextdrop == 0 && err == old(err) && Grew(dst0, ps0, p0, data + ByteBits(v)[..k])
      {
        assert ByteBits(v)[..k + 1] == ByteBits(v)[..k] + [ByteBits(v)[k]];
        Associate(data, ByteBits(v)[..k], [ByteBits(v)[k]]);
        DataBit(v & Mask(k) != 0, dst0, ps0, p0, data + ByteBits(v)[..k]);
      }
      assert ByteBits(v)[..8] == ByteBits(v);
    }

    // A run of bytes, as the sector writers emit them.
    method BytesMfmAdd(vs: seq<bv8>)
      requires Ready(8 * |vs|)
      modifies this`out, this`mfmsyncOffset, this`nextdrop, this`err, trackDst, mfmsyncBuffer
      ensures nextdrop == 0 && err == old(err) && Grew(old(trackDst[..]), old(Syncs()), old(out), BytesBits(vs))
    {
      hide Region, Bit, ByteBits;
      ghost var dst0, ps0, p0 := trackDst[..], Syncs(), out;
      GrewNothing();
      for i := 0 to |vs|
        invariant nextdrop == 0 && err == old(err) && Grew(dst0, ps0, p0, BytesBits(vs[..i]))
      {
        assert vs[..i + 1][..i] == vs[..i];
        ByteMfmAdd(vs[i], dst0, ps0, p0, BytesBits(vs[..i]));
      }
      assert vs[..|vs|] == vs;
    }

    // word_post_mfm_add
    method WordPostMfmAdd(v: bv16, ghost dst0: seq<bv8>, ghost ps0: seq<nat>, ghost p0: nat, ghost data: seq<bool>)
      requires Ready(8) && Grew(dst0, ps0, p0, data)
      modifies this`out, this`mfmsyncOffset, this`nextdrop, this`err, trackDst, mfmsyncBuffer
      ensures nextdrop == 0 && err == old(err) && Grew(dst0, ps0, p0, data + WordBits(v))
    {
      hide Region, Bit, WordMask;
      assert data + WordBits(v)[..0] == data;
      for k := 0 to 8
        invariant nextdrop == 0 && err == old(err) && Grew(dst0, ps0, p0, data + WordBits(v)[..k])
      {
        assert WordBits(v)[..k + 1] == WordBits(v)[..k] + [WordBits(v)[k]];
        Associate(data, WordBits(v)[..k], [WordBits(v)[k]]);
        DataBit(v & WordMask(k) != 0, dst0, ps0, p0, data + WordBits(v)[..k]);
      }
      assert WordBits(v)[..8] == WordBits(v);
    }

    // fix_mfm_sync
    method FixMfmSync()
      requires Valid() && SyncOk(trackDst[..], Syncs())
      modifies trackDst
      ensures trackDst[..] == Fixed(old(trackDst[..]), Syncs(), |Syncs()|)
    {
      hide Bit, PutBit;
      ghost var dst0 := trackDst[..];
      for i := 0 to mfmsyncOffset
        invariant trackDst[..] == Fixed(dst0, Syncs(), i)
      {
        var pos := mfmsyncBuffer[i];
        assert pos == Syncs()[i];
        FixAt(pos);
      }
    }

    method FixAt(pos: nat)
      requires Valid() && 0 < pos && pos + 1 < 8 * trackDst.Length
      modifies trackDst
      ensures trackDst[..] == FixOne(old(trackDst[..]), pos)
    {
      hide Mask, PutBit, Bit;
      var before := TestBit(pos - 1);
      var after := TestBit(pos + 1);
      if !before && !after {
        SetBit(pos);
      } else {
        ClearBit(pos);
      }
    }
  }

  lemma PutTwice(dst: seq<bv8>, p: nat, bit: bool)
    requires p < 8 * |dst|
    ensures PutBit(PutBit(dst, p, false), p, true) == PutBit(dst, p, true)
  {
    ClearThenSet(dst[p / 8], Mask(p % 8));
    hide Mask;
  }

  lemma ClearThenSet(b: bv8, m: bv8)
    ensures (b & !m) | m == b | m
  {
  }

  lemma RegionNext(dst: seq<bv8>, ps: seq<nat>, p0: nat, s0: nat, data: seq<bool>, bit: bool, dst': seq<bv8>, ps': seq<nat>)
    requires Region(dst, ps, p0, s0, data) && |ps| == s0 + |data| && |dst'| == |dst|
    requires ps' == ps + [p0 + 2 * |data|] && p0 + 2 * |data| + 2 < 8 * |dst|
    requires forall q :: 0 <= q < 8 * |dst| && q != p0 + 2 * |data| + 1 ==> Bit(dst', q) == Bit(dst, q)
    requires Bit(dst', p0 + 2 * |data| + 1) == bit
    ensures Region(dst', ps', p0, s0, data + [bit])
  {
    hide Bit;
    forall k | 0 <= k < |data| + 1 ensures DataAt(dst', p0, k, (data + [bit])[k]) {
      if k < |data| {
        assert DataAt(dst, p0, k, data[k]);
      }
    }
  }

  // What a writer has written is a region that no other clock position reaches into.
  lemma GrewRegion(w: TrackWriter, dst0: seq<bv8>, ps0: seq<nat>, p0: nat, data: seq<bool>)
    requires w.Grew(dst0, ps0, p0, data) && SyncOk(dst0, ps0) && forall i :: 0 <= i < |ps0| ==> ps0[i] < p0
    ensures var dst, ps := w.trackDst[..], w.Syncs();
      SyncOk(dst, ps) && Region(dst, ps, p0, |ps0|, data) && Outside(ps, p0, |ps0|, |data|)
  {
    hide Bit, DataAt;
    var dst, ps := w.trackDst[..], w.Syncs();
    forall i | 0 <= i < |ps| ensures 0 < ps[i] && ps[i] + 1 < 8 * |dst| && (i < |ps0| ==> ps[i] < p0) {
      if i < |ps0| {
        assert ps[i] == ps0[i];
      } else {
        assert ps[|ps0| + (i - |ps0|)] == p0 + 2 * (i - |ps0|);
      }
    }
  }

  // The bytes can be read from the odd places of the region from bit p on, no two bits of it
  // in a row are 1 (nor the one in front of it and its first), and no four in a row are 0.
  predicate MfmOk(dst: seq<bv8>, p: nat, vs: seq<bv8>) {
    && 0 < p && p + 16 * |vs| <= 8 * |dst|
    && (forall i, k :: 0 <= i < |vs| && 0 <= k < 8 ==> DataAt(dst, p, 8 * i + k, vs[i] & Mask(k) != 0))
    && (forall q :: p - 1 <= q < p + 16 * |vs| - 1 ==> !(Bit(dst, q) && Bit(dst, q + 1)))
    && (forall q :: p <= q < p + 16 * |vs| - 3 ==> Bit(dst, q) || Bit(dst, q + 1) || Bit(dst, q + 2) || Bit(dst, q + 3))
  }

  // Bytes written as MFM, and fixed.
  lemma MfmRoundTrip(dst: seq<bv8>, ps: seq<nat>, p0: nat, s0: nat, vs: seq<bv8>)
    requires SyncOk(dst, ps) && Region(dst, ps, p0, s0, BytesBits(vs)) && Outside(ps, p0, s0, 8 * |vs|)
    ensures MfmOk(Fixed(dst, ps, |ps|), p0, vs)
  {
    hide Bit, Fixed, Mask, BytesBits, ClockAt, DataAt;
    var r := Fixed(dst, ps, |ps|);
    DataKept(dst, ps, p0, s0, BytesBits(vs));
    ClockSet(dst, ps, p0, s0, BytesBits(vs));
    BytesBack(r, ps, p0, s0, vs);
    RulesKept(r, p0, 8 * |vs|);
  }

  // Bytes written behind whatever is on the track, and the clock bits fixed.
  method WriteBytes(w: TrackWriter, vs: seq<bv8>)
    requires w.Ready(8 * |vs|)
    requires SyncOk(w.trackDst[..], w.Syncs()) && forall i :: 0 <= i < |w.Syncs()| ==> w.Syncs()[i] < w.out
    modifies w`out, w`mfmsyncOffset, w`nextdrop, w`err, w.trackDst, w.mfmsyncBuffer
    ensures MfmOk(w.trackDst[..], old(w.out), vs)
  {
    ghost var dst0, ps0, p0 := w.trackDst[..], w.Syncs(), w.out;
    hide Region, Outside, SyncOk, Fixed, BytesBits, Bit, MfmOk;
    w.BytesMfmAdd(vs);
    GrewRegion(w, dst0, ps0, p0, BytesBits(vs));
    MfmRoundTrip(w.trackDst[..], w.Syncs(), p0, |ps0|, vs);
    w.FixMfmSync();
  }

  lemma BytesBack(dst: seq<bv8>, ps: seq<nat>, p0: nat, s0: nat, vs: seq<bv8>)
    requires Region(dst, ps, p0, s0, BytesBits(vs))
    ensures forall i, k :: 0 <= i < |vs| && 0 <= k < 8 ==> DataAt(dst, p0, 8 * i + k, vs[i] & Mask(k) != 0)
  {
    hide Bit, Mask, BytesBits, DataAt;
    forall i, k | 0 <= i < |vs| && 0 <= k < 8 ensures DataAt(dst, p0, 8 * i + k, vs[i] & Mask(k) != 0) {
      ByteInBits(vs, i, k);
    }
  }

  lemma RulesKept(dst: seq<bv8>, p0: nat, n: nat)
    requires forall k :: 0 <= k < n ==> ClockAt(dst, p0, k)
    requires 0 < p0 && p0 + 2 * n <= 8 * |dst|
    ensures forall q :: p0 - 1 <= q < p0 + 2 * n - 1 ==> !(Bit(dst, q) && Bit(dst, q + 1))
    ensures forall q :: p0 <= q < p0 + 2 * n - 3 ==> Bit(dst, q) || Bit(dst, q + 1) || Bit(dst, q + 2) || Bit(dst, q + 3)
  {
    hide Bit, ClockAt;
    forall q | p0 - 1 <= q < p0 + 2 * n - 1 ensures !(Bit(dst, q) && Bit(dst, q + 1)) {
      NoAdjacentOnes(dst, p0, n, q);
    }
    forall q | p0 <= q < p0 + 2 * n - 3 ensures Bit(dst, q) || Bit(dst, q + 1) || Bit(dst, q + 2) || Bit(dst, q + 3) {
      NoFourZeros(dst, p0, n, q);
    }
  }

  lemma {:induction false} ByteInBits(vs: seq<bv8>, i: nat, k: nat)
    requires i < |vs| && k < 8
    ensures BytesBits(vs)[8 * i + k] == (vs[i] & Mask(k) != 0)
    decreases |vs|
  {
    if i < |vs| - 1 {
      ByteInBits(vs[..|vs| - 1], i, k);
    }
  }
}
