// core/src/pzx.c: the DATA blocks of a PZX tape, bits played as waveforms of pulses.
module PzxData {
  import opened Common

  // ---- square waves ----------------------------------------------------------------------

  datatype Segment = Segment(level: bool, length: nat)

  function Alternate(ls: seq<nat>, level: bool): (w: seq<Segment>)
    ensures |w| == |ls|
  {
    if ls == [] then [] else [Segment(level, ls[0])] + Alternate(ls[1..], !level)
  }

  function Length(w: seq<Segment>): nat {
    if w == [] then 0 else w[0].length + Length(w[1..])
  }

  // The level after n pulses.
  function LevelAfter(level: bool, n: nat): bool { if n % 2 == 0 then level else !level }

  // ---- a block -----------------------------------------------------------------------------

  // count bits, the first at the top of the first byte; a 0 is played as the pulses s0, a 1 as
  // the pulses s1, and at the end the level stays for the tail.
  datatype DataBlock = DataBlock(level: bool, count: nat, tail: nat, s0: seq<nat>, s1: seq<nat>, bytes: seq<Byte>)

  predicate DataOk(b: DataBlock) { b.count <= 8 * |b.bytes| }

  predicate BitAt(b: DataBlock, k: nat)
    requires k < 8 * |b.bytes|
  {
    b.bytes[k / 8] as int / Pow2(7 - k % 8) % 2 == 1
  }

  function Waveform(b: DataBlock, k: nat): seq<nat>
    requires k < 8 * |b.bytes|
  {
    if BitAt(b, k) then b.s1 else b.s0
  }

  // ---- playing it ----------------------------------------------------------------------------

  // done bits have been loaded; seqn are the pulses of the last of them still to be started,
  // remain is what is left of the pulse in play.
  datatype Deck = Deck(block: DataBlock, done: nat, seqn: seq<nat>, remain: nat, tail: nat)

  predicate DeckOk(d: Deck) { DataOk(d.block) && d.done <= d.block.count }

  function Start(b: DataBlock): (d: Deck)
    requires DataOk(b)
    ensures DeckOk(d)
  {
    Deck(b, 0, [], 0, b.tail)
  }

  // The next bit, if one is due, and the next pulse, if one is due, have been loaded.
  function Loaded(d: Deck): (r: Deck)
    requires DeckOk(d) && d.done < d.block.count
    ensures DeckOk(r) && d.done <= r.done <= d.done + 1 && r.block == d.block && r.tail == d.tail
  {
    var d1 := if d.seqn == [] && d.remain == 0 then d.(done := d.done + 1, seqn := Waveform(d.block, d.done)) else d;
    if d1.remain == 0 && d1.seqn != [] then d1.(remain := d1.seqn[0], seqn := d1.seqn[1..]) else d1
  }

  // One call of pzx_advance_data: the new state, or None at the end of the block, the level,
  // and the time left over. Once the last bit has been loaded a call goes on with the tail.
  function Play(d: Deck, level: bool, t: nat): (r: (Option<Deck>, bool, nat))
    requires DeckOk(d)
    ensures (r.0.Some? ==> DeckOk(r.0.value)) && r.2 <= t
  {
    if d.done == d.block.count then
      if d.tail > t then (Some(d.(tail := d.tail - t)), level, 0) else (None, level, t - d.tail)
    else
      var d1 := Loaded(d);
      if d1.remain > t then (Some(d1.(remain := d1.remain - t)), level, 0)
      else (Some(d1.(remain := 0)), !level, t - d1.remain)
  }

  // The lengths of the pulses still to come.
  function Pulses(d: Deck): seq<nat>
    requires DeckOk(d)
    decreases d.block.count - d.done, |d.seqn|, d.remain
  {
    if d.done == d.block.count then []
    else
      var d1 := Loaded(d);
      [d1.remain] + Pulses(d1.(remain := 0))
  }

  // The wave still to come, the tail last.
  function DeckWave(d: Deck, level: bool): (w: seq<Segment>)
    requires DeckOk(d)
    ensures w != []
  {
    Alternate(Pulses(d), level) + [Segment(LevelAfter(level, |Pulses(d)|), d.tail)]
  }

  // A call with this much time ends within the pulse that the last bit has just been loaded
  // for. The next call will be in the tail.
  predicate Cuts(d: Deck, t: nat)
    requires DeckOk(d)
  {
    d.done < d.block.count && Loaded(d).done == d.block.count && t < Loaded(d).remain
  }

  lemma AlternateTail(ls: seq<nat>, level: bool, tail: nat)
    requires ls != []
    ensures var w := Alternate(ls, level) + [Segment(LevelAfter(level, |ls|), tail)];
      && w[0] == Segment(level, ls[0])
      && w[1..] == Alternate(ls[1..], !level) + [Segment(LevelAfter(!level, |ls| - 1), tail)]
  {
    var rest, last := Alternate(ls[1..], !level), [Segment(LevelAfter(level, |ls|), tail)];
    assert LevelAfter(level, |ls|) == LevelAfter(!level, |ls| - 1);
    assert Alternate(ls, level) == [Segment(level, ls[0])] + rest;
    hide Alternate, LevelAfter;
    assert ([Segment(level, ls[0])] + rest + last)[1..] == rest + last;
  }

  // A call either shortens the first segment, takes it off, or cuts the last pulse.
  lemma PlayConsumes(d: Deck, level: bool, t: nat)
    requires DeckOk(d)
    ensures var w, (q, l, left) := DeckWave(d, level), Play(d, level, t);
      && w[0].level == level
      && (t < w[0].length ==> l == level && left == 0 && q.Some?)
      && (t < w[0].length && !Cuts(d, t) ==> DeckWave(q.value, l) == [Segment(level, w[0].length - t)] + w[1..])
      && (t >= w[0].length ==>
            && left == t - w[0].length && l == (if d.done < d.block.count then !level else level)
            && (if q.Some? then DeckWave(q.value, l) else []) == w[1..])
  {
    if d.done < d.block.count {
      var d1 := Loaded(d);
      AlternateTail(Pulses(d), level, d.tail);
      assert Pulses(d)[1..] == Pulses(d1.(remain := 0));
      if t < d1.remain && !Cuts(d, t) {
        var q := d1.(remain := d1.remain - t);
        assert Loaded(q) == q;
        assert Pulses(q) == [q.remain] + Pulses(d1.(remain := 0));
        AlternateTail(Pulses(q), level, d.tail);
      }
    }
  }

  // Cutting a call in two is the same as making it at once, but for a cut in the last pulse.
  lemma PlaySplits(d: Deck, level: bool, a: nat, b: nat)
    requires DeckOk(d) && 0 < a && 0 < b && !Cuts(d, a)
    ensures var (q, l, left) := Play(d, level, a);
      if a < DeckWave(d, level)[0].length
      then left == 0 && q.Some? && Play(d, level, a + b) == Play(q.value, l, b)
      else left == a - DeckWave(d, level)[0].length && Play(d, level, a + b) == (q, l, left + b)
  {
    PlayConsumes(d, level, a);
    if d.done < d.block.count {
      AlternateTail(Pulses(d), level, d.tail);
      assert Pulses(d)[0] == Loaded(d).remain;
      hide Waveform, Pulses;
    }
  }

  // The pulse that a block plays of its last bit.
  function LastLength(b: DataBlock): nat
    requires DataOk(b)
  {
    if b.count == 0 || Waveform(b, b.count - 1) == [] then 0 else Waveform(b, b.count - 1)[0]
  }

  // No more than s time of it has gone.
  predicate Recent(d: Deck, s: nat)
    requires DeckOk(d)
  {
    d.done == d.block.count ==> LastLength(d.block) <= d.remain + s
  }

  lemma PlayRecent(d: Deck, level: bool, t: nat, s: nat)
    requires DeckOk(d) && Recent(d, s)
    ensures var (q, l, left) := Play(d, level, t);
      q.Some? ==> Recent(q.value, s + (t - left))
  {
    hide BitAt;
  }

  lemma CutsLoaded(d: Deck, level: bool, t: nat)
    requires DeckOk(d) && Cuts(d, t)
    ensures var length := LastLength(d.block);
      && t < length
      && Play(d, level, t) == (Some(Loaded(d).(remain := length - t)), level, 0)
      && Play(d, level, t + 1) == (Some(Loaded(d).(remain := length - t - 1)), if t + 1 < length then level else !level, 0)
  {
    hide BitAt;
  }

  // ---- what a block plays, and what it stands for ------------------------------------------------

  // The pulses of the bits from k up to n.
  function BitPulses(b: DataBlock, k: nat, n: nat): seq<nat>
    requires DataOk(b) && k <= n <= b.count
    decreases n - k
  {
    if k == n then [] else Waveform(b, k) + BitPulses(b, k + 1, n)
  }

  lemma {:induction false} SeqPlayed(b: DataBlock, done: nat, s: seq<nat>, tail: nat)
    requires DataOk(b) && 0 < done < b.count
    ensures Pulses(Deck(b, done, s, 0, tail)) == s + Pulses(Deck(b, done, [], 0, tail))
    decreases |s|
  {
    if s != [] {
      SeqPlayed(b, done, s[1..], tail);
      assert s == [s[0]] + s[1..];
    }
  }

  // All bits but the last are played in full, and of the last one only the first pulse.
  lemma {:induction false} PlayedFrom(b: DataBlock, k: nat, tail: nat)
    requires DataOk(b) && k < b.count && b.s0 != [] && b.s1 != []
    ensures Waveform(b, b.count - 1) != []
    ensures Pulses(Deck(b, k, [], 0, tail)) == BitPulses(b, k, b.count - 1) + [Waveform(b, b.count - 1)[0]]
    decreases b.count - k
  {
    hide Waveform, Pulses, Loaded;
    BitStarts(b, k, tail);
    var s := Waveform(b, k);
    if k + 1 < b.count {
      SeqPlayed(b, k + 1, s[1..], tail);
      PlayedFrom(b, k + 1, tail);
      assert s == [s[0]] + s[1..];
    } else {
      TailOnly(Deck(b, k + 1, s[1..], 0, tail));
    }
  }

  lemma BitStarts(b: DataBlock, k: nat, tail: nat)
    requires DataOk(b) && k < b.count && b.s0 != [] && b.s1 != []
    ensures var s := Waveform(b, k);
      s != [] && Pulses(Deck(b, k, [], 0, tail)) == [s[0]] + Pulses(Deck(b, k + 1, s[1..], 0, tail))
  {
    hide BitAt;
    var d, s := Deck(b, k, [], 0, tail), Waveform(b, k);
    assert Loaded(d) == Deck(b, k + 1, s[1..], s[0], tail);
  }

  lemma TailOnly(d: Deck)
    requires DeckOk(d) && d.done == d.block.count
    ensures Pulses(d) == []
  {
  }

  lemma {:induction false} BitPulsesSplit(b: DataBlock, k: nat, n: nat)
    requires DataOk(b) && k <= n < b.count
    ensures BitPulses(b, k, n + 1) == BitPulses(b, k, n) + Waveform(b, n)
    decreases n - k
  {
    if k < n {
      BitPulsesSplit(b, k + 1, n);
    }
  }

  // So a block is played as it is meant if and only if its last bit is one pulse.
  lemma LastBitCutShort(b: DataBlock)
    requires DataOk(b) && b.count > 0 && b.s0 != [] && b.s1 != []
    ensures var last := Waveform(b, b.count - 1);
      && Pulses(Start(b)) == BitPulses(b, 0, b.count - 1) + [last[0]]
      && (Pulses(Start(b)) == BitPulses(b, 0, b.count) <==> |last| == 1)
  {
    assert Waveform(b, b.count - 1) != [];
    hide Waveform, BitPulses;
    PlayedFrom(b, 0, b.tail);
    BitPulsesSplit(b, 0, b.count - 1);
    var last := Waveform(b, b.count - 1);
    var front := BitPulses(b, 0, b.count - 1);
    if |last| == 1 {
      assert last == [last[0]];
    } else {
      assert |front + last| != |front + [last[0]]|;
    }
  }
}
