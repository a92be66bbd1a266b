// core/src/fdi2raw.c: the data field of an Amiga sector. Every long is split into its odd
// and its even bits; the odd halves of all longs come first, then the even halves, and in
// front of them a checksum split the same way.
module Amiga {
  import opened Common
  import opened Bits
  import opened Mfm

  const SECTOR := 512
  const LONGS := 128
  const WORDS := 4 + 512

  // ---- splitting longs -----------------------------------------------------------------

  function Odd(x: bv32): bv32 { (x >> 1) & 0x5555_5555 }

  function Even(x: bv32): bv32 { x & 0x5555_5555 }

  function Rejoin(odd: bv32, even: bv32): bv32 { (odd << 1) | even }

  function HighHalf(x: bv32): bv16 { (x >> 16) as bv16 }

  function LowHalf(x: bv32): bv16 { (x & 0xffff) as bv16 }

  function JoinHalves(high: bv16, low: bv16): bv32 { (high as bv32 << 16) | (low as bv32) }

  function XorOf(x: bv32, y: bv32): bv32 { x ^ y }

  lemma SplitRejoin(x: bv32)
    ensures Rejoin(Odd(x), Even(x)) == x
  {
  }

  lemma HalvesJoin(x: bv32)
    ensures JoinHalves(HighHalf(x), LowHalf(x)) == x
  {
  }

  // The longs of a sector, first byte on top.
  function LongOf(a: bv8, b: bv8, c: bv8, d: bv8): bv32 {
    (a as bv32 << 24) | (b as bv32 << 16) | (c as bv32 << 8) | (d as bv32)
  }

  function Long(sec: seq<bv8>, j: nat): bv32
    requires 4 * j + 4 <= |sec|
  {
    LongOf(sec[4 * j], sec[4 * j + 1], sec[4 * j + 2], sec[4 * j + 3])
  }

  // The exclusive or of the odd and even bits of the first n longs.
  function Checksum(sec: seq<bv8>, n: nat): bv32
    requires 4 * n <= |sec|
  {
    if n == 0 then 0 else XorOf(Checksum(sec, n - 1), XorOf(Odd(Long(sec, n - 1)), Even(Long(sec, n - 1))))
  }

  // ---- the words of a sector -------------------------------------------------------------

  // A pair of words is the long x.
  predicate PairIs(words: seq<bv16>, i: nat, x: bv32) {
    i + 2 <= |words| && words[i] == HighHalf(x) && words[i + 1] == LowHalf(x)
  }

  predicate SplitOk(words: seq<bv16>, sec: seq<bv8>, n: nat) {
    |words| == WORDS && n <= LONGS && |sec| == SECTOR
    && (forall j :: 0 <= j < n ==> PairIs(words, 4 + 2 * j, Odd(Long(sec, j))))
    && (forall j :: 0 <= j < n ==> PairIs(words, 260 + 2 * j, Even(Long(sec, j))))
  }

  // What amiga_data works out for a sector.
  predicate SectorWords(words: seq<bv16>, sec: seq<bv8>) {
    && SplitOk(words, sec, LONGS)
    && PairIs(words, 0, Odd(Checksum(sec, LONGS))) && PairIs(words, 2, Even(Checksum(sec, LONGS)))
  }

  // The exclusive or of the pairs from 4 on.
  function XorPairs(words: seq<bv16>, n: nat): bv32
    requires 4 + 2 * n <= |words|
  {
    if n == 0 then 0 else XorOf(XorPairs(words, n - 1), JoinHalves(words[2 + 2 * n], words[3 + 2 * n]))
  }

  function XorSplit(sec: seq<bv8>, odd: bool, n: nat): bv32
    requires 4 * n <= |sec|
  {
    if n == 0 then 0
    else XorOf(XorSplit(sec, odd, n - 1), if odd then Odd(Long(sec, n - 1)) else Even(Long(sec, n - 1)))
  }

  lemma XorLaws(a: bv32, b: bv32, c: bv32, d: bv32)
    ensures XorOf(XorOf(a, b), XorOf(c, d)) == XorOf(XorOf(a, c), XorOf(b, d))
    ensures XorOf(XorOf(a, b), c) == XorOf(a, XorOf(b, c)) && XorOf(0, 0) == 0 && XorOf(a, 0) == a
  {
  }

  lemma {:induction false} ChecksumSplit(sec: seq<bv8>, n: nat)
    requires 4 * n <= |sec|
    ensures Checksum(sec, n) == XorOf(XorSplit(sec, true, n), XorSplit(sec, false, n))
  {
    hide XorOf, Odd, Even, Long;
    XorLaws(0, 0, 0, 0);
    if n > 0 {
      ChecksumSplit(sec, n - 1);
      XorLaws(XorSplit(sec, true, n - 1), XorSplit(sec, false, n - 1), Odd(Long(sec, n - 1)), Even(Long(sec, n - 1)));
      XorLaws(XorSplit(sec, true, n - 1), Odd(Long(sec, n - 1)), XorSplit(sec, false, n - 1), Even(Long(sec, n - 1)));
    }
  }

  lemma {:induction false} XorOdds(words: seq<bv16>, sec: seq<bv8>, n: nat)
    requires SplitOk(words, sec, LONGS) && n <= LONGS
    ensures XorPairs(words, n) == XorSplit(sec, true, n)
    decreases n
  {
    hide XorOf, Odd, Even, Long, JoinHalves, HighHalf, LowHalf;
    if n > 0 {
      XorOdds(words, sec, n - 1);
      assert PairIs(words, 4 + 2 * (n - 1), Odd(Long(sec, n - 1)));
      HalvesJoin(Odd(Long(sec, n - 1)));
    }
  }

  lemma {:induction false} XorEvens(words: seq<bv16>, sec: seq<bv8>, n: nat)
    requires SplitOk(words, sec, LONGS) && n <= LONGS
    ensures XorPairs(words, LONGS + n) == XorOf(XorSplit(sec, true, LONGS), XorSplit(sec, false, n))
    decreases n
  {
    hide XorOf, Odd, Even, Long, JoinHalves, HighHalf, LowHalf, XorSplit;
    if n == 0 {
      XorOdds(words, sec, LONGS);
      XorLaws(XorSplit(sec, true, LONGS), 0, 0, 0);
      XorNone(sec);
    } else {
      XorEvens(words, sec, n - 1);
      assert PairIs(words, 260 + 2 * (n - 1), Even(Long(sec, n - 1)));
      HalvesJoin(Even(Long(sec, n - 1)));
      XorLaws(XorSplit(sec, true, LONGS), XorSplit(sec, false, n - 1), Even(Long(sec, n - 1)), 0);
      XorNext(sec, n);
    }
  }

  lemma XorNone(sec: seq<bv8>)
    ensures XorSplit(sec, false, 0) == 0
  {
  }

  lemma XorNext(sec: seq<bv8>, n: nat)
    requires 0 < n && 4 * n <= |sec|
    ensures XorSplit(sec, false, n) == XorOf(XorSplit(sec, false, n - 1), Even(Long(sec, n - 1)))
  {
  }

  // What the checksum loop adds up is the masked exclusive or of all odd and even longs.
  lemma PairsAreChecksum(words: seq<bv16>, sec: seq<bv8>)
    requires SplitOk(words, sec, LONGS)
    ensures XorPairs(words, 2 * LONGS) == Checksum(sec, LONGS)
  {
    hide XorPairs, Checksum, XorSplit, PairIs;
    ChecksumSplit(sec, LONGS);
    XorEvens(words, sec, LONGS);
  }

  // ---- writing a sector ------------------------------------------------------------------

  function WordsBits(vs: seq<bv16>): (r: seq<bool>)
    ensures |r| == 8 * |vs|
  {
    if vs == [] then [] else WordsBits(vs[..|vs| - 1]) + WordBits(vs[|vs| - 1])
  }

  method PutPair(mfmbuf: array<bv16>, i: nat, x: bv32)
    requires i + 2 <= mfmbuf.Length
    modifies mfmbuf
    ensures PairIs(mfmbuf[..], i, x)
    ensures forall k :: 0 <= k < mfmbuf.Length && k != i && k != i + 1 ==> mfmbuf[k] == old(mfmbuf[k])
  {
    hide HighHalf, LowHalf;
    mfmbuf[i] := HighHalf(x);
    mfmbuf[i + 1] := LowHalf(x);
  }

  // The first loop of amiga_data.
  method SplitSector(sec: seq<bv8>, mfmbuf: array<bv16>)
    requires |sec| == SECTOR && mfmbuf.Length == WORDS
    modifies mfmbuf
    ensures SplitOk(mfmbuf[..], sec, LONGS)
  {
    hide Odd, Even, Long, HighHalf, LowHalf;
    for j := 0 to LONGS
      invariant SplitOk(mfmbuf[..], sec, j)
    {
      ghost var before := mfmbuf[..];
      var long := Long(sec, j);
      PutPair(mfmbuf, 2 * j + 4, Odd(long));
      PutPair(mfmbuf, 2 * j + 256 + 4, Even(long));
      SplitNext(before, mfmbuf[..], sec, j);
    }
  }

  lemma SplitNext(before: seq<bv16>, after: seq<bv16>, sec: seq<bv8>, n: nat)
    requires SplitOk(before, sec, n) && n < LONGS && |after| == |before|
    requires PairIs(after, 4 + 2 * n, Odd(Long(sec, n))) && PairIs(after, 260 + 2 * n, Even(Long(sec, n)))
    requires forall k :: 0 <= k < |after| && k != 4 + 2 * n && k != 5 + 2 * n && k != 260 + 2 * n && k != 261 + 2 * n ==> after[k] == before[k]
    ensures SplitOk(after, sec, n + 1)
  {
    hide Odd, Even, Long, HighHalf, LowHalf;
    forall j | 0 <= j < n + 1 ensures PairIs(after, 4 + 2 * j, Odd(Long(sec, j))) {
      if j < n {
        assert PairIs(before, 4 + 2 * j, Odd(Long(sec, j)));
      }
    }
    forall j | 0 <= j < n + 1 ensures PairIs(after, 260 + 2 * j, Even(Long(sec, j))) {
      if j < n {
        assert PairIs(before, 260 + 2 * j, Even(Long(sec, j)));
      }
    }
  }

  // The second loop.
  method XorWords(mfmbuf: array<bv16>) returns (dck: bv32)
    requires mfmbuf.Length == WORDS
    ensures dck == XorPairs(mfmbuf[..], 2 * LONGS)
  {
    hide XorOf, JoinHalves;
    dck := 0;
    for n := 0 to 2 * LONGS
      invariant dck == XorPairs(mfmbuf[..], n)
    {
      dck := XorOf(dck, JoinHalves(mfmbuf[4 + 2 * n], mfmbuf[5 + 2 * n]));
    }
  }

  method SectorBuffer(sec: seq<bv8>) returns (mfmbuf: array<bv16>)
    requires |sec| == SECTOR
    ensures fresh(mfmbuf) && SectorWords(mfmbuf[..], sec)
  {
    hide Odd, Even, HighHalf, LowHalf, XorPairs, Checksum, SplitOk;
    mfmbuf := new bv16[WORDS](_ => 0);
    SplitSector(sec, mfmbuf);
    var dck := XorWords(mfmbuf);
    PairsAreChecksum(mfmbuf[..], sec);
    ghost var before := mfmbuf[..];
    assert |before| == WORDS by { SplitLength(before, sec); }
    PutPair(mfmbuf, 0, Odd(dck));
    PutPair(mfmbuf, 2, Even(dck));
    SplitBehind(before, mfmbuf[..], sec);
  }

  lemma SplitLength(words: seq<bv16>, sec: seq<bv8>)
    requires SplitOk(words, sec, LONGS)
    ensures |words| == WORDS
  {
  }

  // The split longs do not reach into the checksum's place.
  lemma SplitBehind(before: seq<bv16>, after: seq<bv16>, sec: seq<bv8>)
    requires SplitOk(before, sec, LONGS) && |after| == |before| && forall k :: 4 <= k < |after| ==> after[k] == before[k]
    ensures SplitOk(after, sec, LONGS)
  {
    hide Odd, Even, Long, HighHalf, LowHalf;
    forall j | 0 <= j < LONGS
      ensures PairIs(after, 4 + 2 * j, Odd(Long(sec, j))) && PairIs(after, 260 + 2 * j, Even(Long(sec, j)))
    {
      assert PairIs(before, 4 + 2 * j, Odd(Long(sec, j))) && PairIs(before, 260 + 2 * j, Even(Long(sec, j)));
    }
  }

  // amiga_data
  method AmigaData(w: TrackWriter, sec: seq<bv8>) returns (ghost words: seq<bv16>)
    requires w.Ready(8 * WORDS) && |sec| == SECTOR
    modifies w`out, w`mfmsyncOffset, w`nextdrop, w`err, w.trackDst, w.mfmsyncBuffer
    ensures SectorWords(words, sec) && w.nextdrop == 0 && w.err == old(w.err)
    ensures w.Grew(old(w.trackDst[..]), old(w.Syncs()), old(w.out), WordsBits(words))
  {
    hide Region, Bit, WordBits, SectorWords;
    ghost var dst0, ps0, p0 := w.trackDst[..], w.Syncs(), w.out;
    var mfmbuf := SectorBuffer(sec);
    words := mfmbuf[..];
    assert |words| == WORDS by { SectorLength(words, sec); }
    w.GrewNothing();
    for i := 0 to WORDS
      invariant w.nextdrop == 0 && w.err == old(w.err) && mfmbuf[..] == words
      invariant w.Grew(dst0, ps0, p0, WordsBits(words[..i]))
    {
      assert words[..i + 1][..i] == words[..i];
      w.WordPostMfmAdd(mfmbuf[i], dst0, ps0, p0, WordsBits(words[..i]));
    }
    assert words[..WORDS] == words;
  }

  lemma SectorLength(words: seq<bv16>, sec: seq<bv8>)
    requires SectorWords(words, sec)
    ensures |words| == WORDS
  {
  }

  // ---- reading it back -----------------------------------------------------------------

  // The data bits of 16 track bits from p on, as a reader that masks with 0x5555 sees them.
  function MaskedWord(dst: seq<bv8>, p: nat): bv16
    requires p + 16 <= 8 * |dst|
  {
    FromBits(Bit(dst, p + 1), Bit(dst, p + 3), Bit(dst, p + 5), Bit(dst, p + 7),
             Bit(dst, p + 9), Bit(dst, p + 11), Bit(dst, p + 13), Bit(dst, p + 15))
  }

  function FromBits(a: bool, b: bool, c: bool, d: bool, e: bool, f: bool, g: bool, h: bool): bv16 {
    (if a then 0x4000 else 0) | (if b then 0x1000 else 0) | (if c then 0x0400 else 0) | (if d then 0x0100 else 0)
    | (if e then 0x0040 else 0) | (if f then 0x0010 else 0) | (if g then 0x0004 else 0) | (if h then 0x0001 else 0)
  }

  lemma FromBitsOf(v: bv16)
    ensures FromBits(HasBit(v, 0), HasBit(v, 1), HasBit(v, 2), HasBit(v, 3),
                     HasBit(v, 4), HasBit(v, 5), HasBit(v, 6), HasBit(v, 7)) == v & 0x5555
  {
  }

  function MaskedLong(dst: seq<bv8>, p: nat): bv32
    requires p + 32 <= 8 * |dst|
  {
    JoinHalves(MaskedWord(dst, p), MaskedWord(dst, p + 16))
  }

  lemma {:induction false} WordInBits(vs: seq<bv16>, i: nat, k: nat)
    requires i < |vs| && k < 8
    ensures WordsBits(vs)[8 * i + k] == HasBit(vs[i], k)
    decreases |vs|
  {
    if i < |vs| - 1 {
      WordInBits(vs[..|vs| - 1], i, k);
    }
  }

  // A written word is read back, but for the bits that have no place.
  lemma WordBack(dst: seq<bv8>, ps: seq<nat>, p0: nat, s0: nat, vs: seq<bv16>, i: nat)
    requires Region(dst, ps, p0, s0, WordsBits(vs)) && i < |vs|
    ensures p0 + 16 * i + 16 <= 8 * |dst|
    ensures MaskedWord(dst, p0 + 16 * i) == vs[i] & 0x5555
  {
    hide Bit, HasBit, FromBits, WordsBits, Region;
    WordBit(dst, ps, p0, s0, vs, i, 0);
    WordBit(dst, ps, p0, s0, vs, i, 1);
    WordBit(dst, ps, p0, s0, vs, i, 2);
    WordBit(dst, ps, p0, s0, vs, i, 3);
    WordBit(dst, ps, p0, s0, vs, i, 4);
    WordBit(dst, ps, p0, s0, vs, i, 5);
    WordBit(dst, ps, p0, s0, vs, i, 6);
    WordBit(dst, ps, p0, s0, vs, i, 7);
    FromBitsOf(vs[i]);
  }

  lemma WordBit(dst: seq<bv8>, ps: seq<nat>, p0: nat, s0: nat, vs: seq<bv16>, i: nat, k: nat)
    requires Region(dst, ps, p0, s0, WordsBits(vs)) && i < |vs| && k < 8
    ensures p0 + 16 * i + 2 * k + 2 <= 8 * |dst|
    ensures Bit(dst, p0 + 16 * i + (2 * k + 1)) == HasBit(vs[i], k)
  {
    hide Bit, HasBit, WordsBits;
    WordInBits(vs, i, k);
    assert DataAt(dst, p0, 8 * i + k, WordsBits(vs)[8 * i + k]);
    assert p0 + 2 * (8 * i + k) + 1 == p0 + 16 * i + (2 * k + 1);
  }

  lemma MaskedHalves(x: bv32)
    requires x & 0x5555_5555 == x
    ensures HighHalf(x) & 0x5555 == HighHalf(x) && LowHalf(x) & 0x5555 == LowHalf(x)
  {
  }

  lemma SplitMasked(x: bv32)
    ensures Odd(x) & 0x5555_5555 == Odd(x) && Even(x) & 0x5555_5555 == Even(x)
  {
  }

  lemma LongBack(dst: seq<bv8>, ps: seq<nat>, p0: nat, s0: nat, vs: seq<bv16>, i: nat, x: bv32)
    requires Region(dst, ps, p0, s0, WordsBits(vs)) && PairIs(vs, i, x) && x & 0x5555_5555 == x
    ensures p0 + 16 * i + 32 <= 8 * |dst| && MaskedLong(dst, p0 + 16 * i) == x
  {
    hide Region, HighHalf, LowHalf, JoinHalves, MaskedWord;
    WordBack(dst, ps, p0, s0, vs, i);
    WordBack(dst, ps, p0, s0, vs, i + 1);
    assert p0 + 16 * (i + 1) == p0 + 16 * i + 16;
    MaskedHalves(x);
    HalvesJoin(x);
  }

  lemma RegionLength(dst: seq<bv8>, ps: seq<nat>, p0: nat, s0: nat, words: seq<bv16>)
    requires Region(dst, ps, p0, s0, WordsBits(words))
    ensures p0 + 16 * |words| <= 8 * |dst|
  {
  }

  lemma SectorLongs(dst: seq<bv8>, ps: seq<nat>, p0: nat, s0: nat, words: seq<bv16>, sec: seq<bv8>)
    requires SplitOk(words, sec, LONGS) && Region(dst, ps, p0, s0, WordsBits(words)) && p0 + 16 * WORDS <= 8 * |dst|
    ensures forall j :: 0 <= j < LONGS ==>
      Rejoin(MaskedLong(dst, p0 + 64 + 32 * j), MaskedLong(dst, p0 + 4160 + 32 * j)) == Long(sec, j)
  {
    hide Region, Rejoin, Long, MaskedLong, WordsBits, PairIs;
    forall j | 0 <= j < LONGS
      ensures Rejoin(MaskedLong(dst, p0 + 64 + 32 * j), MaskedLong(dst, p0 + 4160 + 32 * j)) == Long(sec, j)
    {
      SectorLong(dst, ps, p0, s0, words, sec, j);
    }
  }

  // The track, from bit p on, reads as the sector: joining its odd and even longs gives the
  // sector's, and joining the two longs in front of them the exclusive or of them all.
  predicate ReadsAs(dst: seq<bv8>, p: nat, sec: seq<bv8>) {
    && |sec| == SECTOR && p + 16 * WORDS <= 8 * |dst|
    && (forall j :: 0 <= j < LONGS ==> Rejoin(MaskedLong(dst, p + 64 + 32 * j), MaskedLong(dst, p + 4160 + 32 * j)) == Long(sec, j))
    && Rejoin(MaskedLong(dst, p), MaskedLong(dst, p + 32)) == Checksum(sec, LONGS)
  }

  // Whatever sector was written, it is read back once the clock bits are fixed.
  lemma SectorRoundTrip(dst: seq<bv8>, ps: seq<nat>, p0: nat, s0: nat, words: seq<bv16>, sec: seq<bv8>)
    requires SectorWords(words, sec)
    requires SyncOk(dst, ps) && Region(dst, ps, p0, s0, WordsBits(words)) && Outside(ps, p0, s0, 8 * |words|)
    ensures ReadsAs(Fixed(dst, ps, |ps|), p0, sec)
  {
    hide Region, Outside, SyncOk, Rejoin, Long, MaskedLong, Fixed, WordsBits, PairIs, Checksum;
    DataKept(dst, ps, p0, s0, WordsBits(words));
    RegionLength(Fixed(dst, ps, |ps|), ps, p0, s0, words);
    SectorLongs(Fixed(dst, ps, |ps|), ps, p0, s0, words, sec);
    PairBack(Fixed(dst, ps, |ps|), ps, p0, s0, words, 0, 2, Checksum(sec, LONGS));
  }

  lemma SectorLong(dst: seq<bv8>, ps: seq<nat>, p0: nat, s0: nat, words: seq<bv16>, sec: seq<bv8>, j: nat)
    requires SplitOk(words, sec, LONGS) && j < LONGS && Region(dst, ps, p0, s0, WordsBits(words))
    ensures p0 + 4160 + 32 * j + 32 <= 8 * |dst|
    ensures Rejoin(MaskedLong(dst, p0 + 64 + 32 * j), MaskedLong(dst, p0 + 4160 + 32 * j)) == Long(sec, j)
  {
    hide Region, Odd, Even, Rejoin, Long, MaskedLong, WordsBits, PairIs;
    assert PairIs(words, 4 + 2 * j, Odd(Long(sec, j))) && PairIs(words, 260 + 2 * j, Even(Long(sec, j)));
    PairBack(dst, ps, p0, s0, words, 4 + 2 * j, 260 + 2 * j, Long(sec, j));
    assert p0 + 16 * (4 + 2 * j) == p0 + 64 + 32 * j && p0 + 16 * (260 + 2 * j) == p0 + 4160 + 32 * j;
  }

  lemma PairBack(dst: seq<bv8>, ps: seq<nat>, p0: nat, s0: nat, vs: seq<bv16>, i: nat, j: nat, x: bv32)
    requires Region(dst, ps, p0, s0, WordsBits(vs)) && PairIs(vs, i, Odd(x)) && PairIs(vs, j, Even(x))
    ensures p0 + 16 * i + 32 <= 8 * |dst| && p0 + 16 * j + 32 <= 8 * |dst|
    ensures Rejoin(MaskedLong(dst, p0 + 16 * i), MaskedLong(dst, p0 + 16 * j)) == x
  {
    hide *;
    SplitMasked(x);
    LongBack(dst, ps, p0, s0, vs, i, Odd(x));
    LongBack(dst, ps, p0, s0, vs, j, Even(x));
    SplitRejoin(x);
  }

  // A sector written behind whatever is on the track, and the clock bits fixed.
  method WriteSector(w: TrackWriter, sec: seq<bv8>)
    requires w.Ready(8 * WORDS) && |sec| == SECTOR
    requires SyncOk(w.trackDst[..], w.Syncs()) && forall i :: 0 <= i < |w.Syncs()| ==> w.Syncs()[i] < w.out
    modifies w`out, w`mfmsyncOffset, w`nextdrop, w`err, w.trackDst, w.mfmsyncBuffer
    ensures ReadsAs(w.trackDst[..], old(w.out), sec)
  {
    ghost var dst0, ps0, p0 := w.trackDst[..], w.Syncs(), w.out;
    hide Region, Outside, SyncOk, Fixed, WordsBits, SectorWords, Bit, ReadsAs;
    ghost var words := AmigaData(w, sec);
    SectorLength(words, sec);
    GrewRegion(w, dst0, ps0, p0, WordsBits(words));
    SectorRoundTrip(w.trackDst[..], w.Syncs(), p0, |ps0|, words, sec);
    w.FixMfmSync();
  }
}
