// core/src/pzx.c: playing the PULS, PAUS and DATA blocks of a PZX tape as a square wave. The tape
// is the list of blocks the file holds, and a file position is the number of the next block.
module Pzx {
  import opened Common
  import opened PzxData

  datatype Block = Puls(data: seq<Byte>) | Paus(word: nat) | Data(bits: DataBlock) | Other

  function Peek2(data: seq<Byte>, i: nat): nat
    requires i + 2 <= |data|
  {
    data[i + 1] as int * 0x100 + data[i] as int
  }

  // ---- pulse definitions ---------------------------------------------------------------

  datatype Run = Run(count: nat, duration: nat, next: nat)

  // One pulse definition; None where it runs past the end of its block.
  function Parse(data: seq<Byte>, ptr: nat): (r: Option<Run>)
    ensures r.Some? ==> ptr < r.value.next <= |data| && r.value.count > 0
  {
    if ptr + 2 > |data| then None
    else
      var w := Peek2(data, ptr);
      if w <= 0x8000 then Tail(data, ptr + 2, 1, w)
      else if ptr + 4 > |data| then None
      else Tail(data, ptr + 4, w - 0x8000, Peek2(data, ptr + 2))
  }

  // The rest of a definition, once its first duration word has been read up to ptr.
  function Tail(data: seq<Byte>, ptr: nat, count: nat, w: nat): (r: Option<Run>)
    ensures r.Some? ==> r.value.count == count && ptr <= r.value.next
    ensures r.Some? && ptr <= |data| ==> r.value.next <= |data|
  {
    if w < 0x8000 then Some(Run(count, w, ptr))
    else if ptr + 2 > |data| then None
    else Some(Run(count, (w - 0x8000) * 0x10000 + Peek2(data, ptr), ptr + 2))
  }

  predicate WellFormed(data: seq<Byte>, ptr: nat)
    decreases |data| - ptr
  {
    ptr < |data| ==> Parse(data, ptr).Some? && WellFormed(data, Parse(data, ptr).value.next)
  }

  // The pulse lengths that the definitions from ptr on stand for.
  function Lengths(data: seq<Byte>, ptr: nat): (ls: seq<nat>)
    requires WellFormed(data, ptr)
    ensures ptr < |data| ==> |ls| > 0
    decreases |data| - ptr
  {
    if ptr >= |data| then []
    else
      var r := Parse(data, ptr).value;
      seq(r.count, _ => r.duration) + Lengths(data, r.next)
  }

  function WordBytes(w: nat): seq<Byte>
    requires w < 0x10000
  {
    [w % 0x100, w / 0x100]
  }

  // A writer of definitions: the repeat count first, a long duration in two words.
  function Encode(count: nat, duration: nat): seq<Byte>
    requires 0 < count < 0x8000 && duration < 0x8000_0000
  {
    WordBytes(0x8000 + count)
    + if duration < 0x8000 then WordBytes(duration)
      else WordBytes(0x8000 + duration / 0x10000) + WordBytes(duration % 0x10000)
  }

  lemma {:induction false} ParsesWhatWasWritten(before: seq<Byte>, count: nat, duration: nat, after: seq<Byte>)
    requires 0 < count < 0x8000 && duration < 0x8000_0000
    ensures var e := Encode(count, duration);
      Parse(before + e + after, |before|) == Some(Run(count, duration, |before + e|))
  {
    var e := Encode(count, duration);
    var data := before + e + after;
    var p := |before|;
    assert forall i :: 0 <= i < |e| ==> data[p + i] == e[i];
    assert Peek2(data, p) == 0x8000 + count;
    if duration >= 0x8000 {
      assert data[p + 3] == e[3] && data[p + 4] == e[4] && data[p + 5] == e[5];
      assert Peek2(data, p + 4) == duration % 0x10000;
    }
  }

  // ---- the tape --------------------------------------------------------------------------

  predicate BlockOk(b: Block) {
    match b
    case Puls(data) => data != [] && WellFormed(data, 0)
    case Paus(word) => word < 0x1_0000_0000
    case Data(bits) => DataOk(bits)
    case Other => true
  }

  // The square wave a block is played as.
  function Segments(b: Block): seq<Segment>
    requires BlockOk(b)
  {
    match b
    case Puls(data) => Alternate(Lengths(data, 0), false)
    case Paus(word) => [Segment(word >= 0x8000_0000, word % 0x8000_0000)]
    case Data(bits) => DeckWave(Start(bits), bits.level)
    case Other => []
  }

  predicate AllOk(tape: seq<Block>) {
    forall i :: 0 <= i < |tape| ==> BlockOk(tape[i])
  }

  predicate Sounds(tape: seq<Block>, i: nat)
    requires AllOk(tape) && i < |tape|
  {
    Length(Segments(tape[i])) > 0
  }

  // The least block from i on that sounds, or the number of blocks.
  function NextSound(tape: seq<Block>, i: nat): (j: nat)
    requires AllOk(tape) && i <= |tape|
    ensures i <= j <= |tape|
    ensures j < |tape| ==> Sounds(tape, j)
    ensures forall k :: i <= k < j ==> !Sounds(tape, k)
    decreases |tape| - i
  {
    if i == |tape| || Sounds(tape, i) then i else NextSound(tape, i + 1)
  }

  // A tape with some sound on it; on any other the program does not come back.
  predicate TapeOk(tape: seq<Block>) {
    AllOk(tape) && NextSound(tape, 0) < |tape|
  }

  function NextUsable(tape: seq<Block>, i: nat): (j: nat)
    requires i <= |tape|
    ensures i <= j <= |tape|
    ensures j < |tape| ==> !tape[j].Other?
    ensures forall k :: i <= k < j ==> tape[k].Other?
    decreases |tape| - i
  {
    if i == |tape| || !tape[i].Other? then i else NextUsable(tape, i + 1)
  }

  // The wave from block i to the end of the tape.
  function Wave(tape: seq<Block>, i: nat): seq<Segment>
    requires AllOk(tape) && i <= |tape|
    decreases |tape| - i
  {
    if i == |tape| then [] else Segments(tape[i]) + Wave(tape, i + 1)
  }

  // ---- the player as a value -----------------------------------------------------------------

  // A count of 0 means that the next definition is still to be read.
  datatype Mode =
    | Closed
    | Idle
    | InPuls(data: seq<Byte>, ptr: nat, count: nat, duration: nat, remain: nat)
    | InPaus(left: nat)
    | InData(deck: Deck)

  datatype Player = Player(pos: nat, mode: Mode, level: bool)

  predicate ModeOk(m: Mode) {
    && (m.InPuls? ==> WellFormed(m.data, m.ptr) && (m.count == 0 ==> m.ptr < |m.data| && m.duration == 0 && m.remain == 0))
    && (m.InData? ==> DeckOk(m.deck))
  }

  // A block is in play.
  predicate Playing(m: Mode) { m.InPuls? || m.InPaus? || m.InData? }

  // What is in play is a pulse, at whose end the level changes.
  predicate InPulse(m: Mode) { m.InPuls? || (m.InData? && m.deck.done < m.deck.block.count) }

  predicate PlayerOk(tape: seq<Block>, p: Player) {
    p.pos <= |tape| && ModeOk(p.mode)
  }

  // pzx_next_block: the block it finds. After wrapping round it gives up when the first block
  // ends where the search began.
  function NextBlock(tape: seq<Block>, pos: nat): (r: Option<nat>)
    requires TapeOk(tape) && pos <= |tape|
    ensures r.Some? ==> r.value < |tape| && !tape[r.value].Other?
  {
    var j := NextUsable(tape, pos);
    if j < |tape| then Some(j)
    else if pos == 1 then None
    else
      SoundUsable(tape, NextSound(tape, 0));
      Some(NextUsable(tape, 0))
  }

  lemma SoundUsable(tape: seq<Block>, j: nat)
    requires AllOk(tape) && j < |tape| && Sounds(tape, j)
    ensures !tape[j].Other? && NextUsable(tape, 0) <= j
  {
    assert !tape[j].Other?;
  }

  function Begin(b: Block, j: nat): (p: Player)
    requires BlockOk(b) && !b.Other?
    ensures ModeOk(p.mode) && p.pos == j + 1
  {
    if b.Puls? then Player(j + 1, InPuls(b.data, 0, 0, 0, 0), false)
    else if b.Paus? then Player(j + 1, InPaus(b.word % 0x8000_0000), b.word >= 0x8000_0000)
    else Player(j + 1, InData(Start(b.bits)), b.bits.level)
  }

  function Load(tape: seq<Block>, p: Player): (q: Player)
    requires TapeOk(tape) && PlayerOk(tape, p)
    ensures PlayerOk(tape, q)
  {
    match NextBlock(tape, p.pos)
    case None => Player(0, Closed, false)
    case Some(j) => Begin(tape[j], j)
  }

  // The pulse in play, with its definition read.
  function Settle(m: Mode): (s: Mode)
    requires ModeOk(m) && m.InPuls?
    ensures s.InPuls? && ModeOk(s) && s.count > 0
  {
    if m.count > 0 then m
    else
      var r := Parse(m.data, m.ptr).value;
      InPuls(m.data, r.next, r.count, r.duration, r.duration)
  }

  // What a pulse that has run out leaves.
  function After(m: Mode): (s: Mode)
    requires ModeOk(m) && m.InPuls? && m.count > 0
    ensures ModeOk(s)
  {
    if m.count > 1 then m.(count := m.count - 1, remain := m.duration)
    else if m.ptr < |m.data| then InPuls(m.data, m.ptr, 0, 0, 0)
    else Idle
  }

  // One call of pzx_advance_puls, pzx_advance_paus or pzx_advance_data: the new state and the
  // time left over.
  function Step(p: Player, t: nat): (r: (Player, nat))
    requires ModeOk(p.mode) && Playing(p.mode)
    ensures ModeOk(r.0.mode) && r.0.pos == p.pos && !r.0.mode.Closed? && r.1 <= t
  {
    if p.mode.InPaus? then
      if p.mode.left > t then (p.(mode := InPaus(p.mode.left - t)), 0)
      else (p.(mode := Idle), t - p.mode.left)
    else if p.mode.InData? then
      var (q, level, left) := Play(p.mode.deck, p.level, t);
      (Player(p.pos, if q.Some? then InData(q.value) else Idle, level), left)
    else
      var m := Settle(p.mode);
      if t < m.remain then (p.(mode := m.(remain := m.remain - t)), 0)
      else (p.(mode := After(m), level := !p.level), t - m.remain)
  }

  // ---- pulses still to come, and why advancing ends ------------------------------------------

  // The wave still to come of the block in play.
  function Pending(p: Player): (w: seq<Segment>)
    requires ModeOk(p.mode)
    ensures Playing(p.mode) ==> w != []
  {
    match p.mode
    case Closed => []
    case Idle => []
    case InPaus(left) => [Segment(p.level, left)]
    case InData(deck) => DeckWave(deck, p.level)
    case InPuls(data, ptr, count, duration, remain) =>
      if count == 0 then Alternate(Lengths(data, ptr), p.level)
      else Alternate([remain] + seq(count - 1, _ => duration) + Lengths(data, ptr), p.level)
  }

  lemma SettlePending(p: Player)
    requires ModeOk(p.mode) && p.mode.InPuls?
    ensures Pending(p.(mode := Settle(p.mode))) == Pending(p)
  {
    if p.mode.count == 0 {
      var r := Parse(p.mode.data, p.mode.ptr).value;
      assert [r.duration] + seq(r.count - 1, _ => r.duration) == seq(r.count, _ => r.duration);
    }
  }

  // This much time ends within the pulse that the last bit of a DATA block has been loaded for.
  predicate CutsAt(p: Player, t: nat)
    requires ModeOk(p.mode)
  {
    p.mode.InData? && Cuts(p.mode.deck, t)
  }

  // A step either shortens the first segment or takes it off, and after a pulse the level is
  // the opposite one; but a cut in the last pulse of a DATA block drops what is left of it.
  lemma {:induction false} StepConsumes(p: Player, t: nat)
    requires ModeOk(p.mode) && Playing(p.mode)
    ensures var w, (q, left) := Pending(p), Step(p, t);
      && w[0].level == p.level
      && (if t < w[0].length
          then q.level == p.level && left == 0 && (!CutsAt(p, t) ==> Pending(q) == [Segment(p.level, w[0].length - t)] + w[1..])
          else q.level == (if InPulse(p.mode) then !p.level else p.level) && left == t - w[0].length && Pending(q) == w[1..])
  {
    if p.mode.InData? {
      hide Play, DeckWave;
      PlayConsumes(p.mode.deck, p.level, t);
    } else if p.mode.InPuls? {
      SettlePending(p);
      var m := Settle(p.mode);
      PendingHead(p.(mode := m));
      if t < m.remain {
        PendingHead(p.(mode := m.(remain := m.remain - t)));
      } else {
        AfterPending(m, p);
      }
    }
  }

  function Later(m: Mode): seq<nat>
    requires ModeOk(m) && m.InPuls? && m.count > 0
  {
    seq(m.count - 1, _ => m.duration) + Lengths(m.data, m.ptr)
  }

  lemma PendingHead(p: Player)
    requires ModeOk(p.mode) && p.mode.InPuls? && p.mode.count > 0
    ensures Pending(p) == [Segment(p.level, p.mode.remain)] + Alternate(Later(p.mode), !p.level)
    ensures Pending(p)[1..] == Alternate(Later(p.mode), !p.level)
  {
    var m := p.mode;
    assert [m.remain] + seq(m.count - 1, _ => m.duration) + Lengths(m.data, m.ptr) == [m.remain] + Later(m);
  }

  lemma AfterPending(m: Mode, p: Player)
    requires ModeOk(m) && m.InPuls? && m.count > 0
    ensures Pending(p.(mode := After(m), level := !p.level)) == Alternate(Later(m), !p.level)
  {
    if m.count > 1 {
      assert Later(m) == [m.duration] + seq(m.count - 2, _ => m.duration) + Lengths(m.data, m.ptr);
    } else {
      assert Later(m) == Lengths(m.data, m.ptr);
    }
  }

  // Blocks to pass before one that sounds.
  function Distance(tape: seq<Block>, i: nat): nat
    requires TapeOk(tape) && i <= |tape|
  {
    if NextSound(tape, i) < |tape| then NextSound(tape, i) - i else |tape| - i + NextSound(tape, 0)
  }

  function Rounds(tape: seq<Block>, p: Player): nat
    requires TapeOk(tape) && PlayerOk(tape, p)
  {
    if Length(Pending(p)) > 0 then 0 else 1 + Distance(tape, p.pos)
  }

  lemma {:induction false} NextSoundFrom(tape: seq<Block>, i: nat, k: nat)
    requires AllOk(tape) && i <= k <= |tape|
    requires forall j :: i <= j < k ==> !Sounds(tape, j)
    ensures NextSound(tape, k) == NextSound(tape, i)
    decreases k - i
  {
    if i < k {
      NextSoundFrom(tape, i + 1, k);
    }
  }

  lemma {:induction false} BeginPending(b: Block, j: nat)
    requires BlockOk(b) && !b.Other?
    ensures Pending(Begin(b, j)) == Segments(b)
  {
  }

  lemma OthersSilent(tape: seq<Block>)
    requires AllOk(tape)
    ensures forall k :: 0 <= k < |tape| && tape[k].Other? ==> !Sounds(tape, k)
  {
  }

  lemma IdleRounds(tape: seq<Block>, p: Player)
    requires TapeOk(tape) && PlayerOk(tape, p) && p.mode.Idle?
    ensures Rounds(tape, p) == 1 + Distance(tape, p.pos)
  {
  }

  lemma TapeBlock(tape: seq<Block>, j: nat)
    requires AllOk(tape) && j < |tape|
    ensures BlockOk(tape[j])
  {
  }

  lemma {:induction false} LoadCloser(tape: seq<Block>, p: Player)
    requires TapeOk(tape) && PlayerOk(tape, p) && p.mode.Idle? && NextBlock(tape, p.pos).Some?
    ensures Rounds(tape, Load(tape, p)) < Rounds(tape, p)
  {
    hide Segments, BlockOk, WellFormed, Pending, Begin;
    var j := NextBlock(tape, p.pos).value;
    var first := NextUsable(tape, p.pos);
    TapeBlock(tape, j);
    OthersSilent(tape);
    assert Rounds(tape, p) == 1 + Distance(tape, p.pos) by { IdleRounds(tape, p); }
    BeginPending(tape[j], j);
    if !Sounds(tape, j) {
      if first < |tape| {
        NextSoundFrom(tape, p.pos, j + 1);
      } else {
        NextSoundFrom(tape, p.pos, |tape|);
        NextSoundFrom(tape, 0, j + 1);
      }
    }
  }

  lemma {:induction false} StepCloser(tape: seq<Block>, p: Player, t: nat)
    requires TapeOk(tape) && PlayerOk(tape, p) && Playing(p.mode) && t > 0
    ensures var (q, left) := Step(p, t);
      left < t || (left == t && Rounds(tape, q) == Rounds(tape, p) && |Pending(q)| < |Pending(p)|)
  {
    StepConsumes(p, t);
  }

  // pzx_advance
  function Advance(tape: seq<Block>, p: Player, t: nat): (q: Player)
    requires TapeOk(tape) && PlayerOk(tape, p)
    ensures PlayerOk(tape, q)
    decreases t, Rounds(tape, p), |Pending(p)|
  {
    if t == 0 || p.mode.Closed? then p
    else if p.mode.Idle? then
      var q := Load(tape, p);
      if q.mode.Closed? then q
      else
        LoadCloser(tape, p);
        Advance(tape, q, t)
    else
      StepCloser(tape, p, t);
      var (q, left) := Step(p, t);
      Advance(tape, q, left)
  }

  // ---- what advancing does over whole runs ------------------------------------------------------

  // Cutting a step in two is the same as making it at once, but for a cut in the last pulse of
  // a DATA block.
  lemma StepSplits(p: Player, a: nat, b: nat)
    requires ModeOk(p.mode) && Playing(p.mode) && 0 < a && 0 < b && !CutsAt(p, a)
    ensures var (q, left) := Step(p, a);
      if a < Pending(p)[0].length
      then left == 0 && Playing(q.mode) && Step(p, a + b) == Step(q, b)
      else left == a - Pending(p)[0].length && Step(p, a + b) == (q, left + b)
  {
    hide Step, Pending, CutsAt;
    if p.mode.InData? {
      DataSplits(p, a, b);
    } else if p.mode.InPuls? {
      PulseSplits(p, a, b);
    } else {
      PauseSplits(p, a, b);
    }
  }

  lemma DataSplits(p: Player, a: nat, b: nat)
    requires ModeOk(p.mode) && p.mode.InData? && 0 < a && 0 < b && !CutsAt(p, a)
    ensures var (q, left) := Step(p, a);
      if a < Pending(p)[0].length
      then left == 0 && Playing(q.mode) && Step(p, a + b) == Step(q, b)
      else left == a - Pending(p)[0].length && Step(p, a + b) == (q, left + b)
  {
    hide Play, DeckWave, Cuts;
    PlaySplits(p.mode.deck, p.level, a, b);
  }

  lemma PulseSplits(p: Player, a: nat, b: nat)
    requires ModeOk(p.mode) && p.mode.InPuls? && 0 < a && 0 < b
    ensures var (q, left) := Step(p, a);
      if a < Pending(p)[0].length
      then left == 0 && Playing(q.mode) && Step(p, a + b) == Step(q, b)
      else left == a - Pending(p)[0].length && Step(p, a + b) == (q, left + b)
  {
    SettlePending(p);
    PendingHead(p.(mode := Settle(p.mode)));
    hide Pending, Alternate, Lengths, WellFormed;
  }

  lemma PauseSplits(p: Player, a: nat, b: nat)
    requires ModeOk(p.mode) && p.mode.InPaus? && 0 < a && 0 < b
    ensures var (q, left) := Step(p, a);
      if a < Pending(p)[0].length
      then left == 0 && Playing(q.mode) && Step(p, a + b) == Step(q, b)
      else left == a - Pending(p)[0].length && Step(p, a + b) == (q, left + b)
  {
  }

  // Advancing by t ends with such a cut.
  predicate CutsLast(tape: seq<Block>, p: Player, t: nat)
    requires TapeOk(tape) && PlayerOk(tape, p)
    decreases t, Rounds(tape, p), |Pending(p)|
  {
    if t == 0 || p.mode.Closed? then false
    else if p.mode.Idle? then
      var q := Load(tape, p);
      if q.mode.Closed? then false
      else
        LoadCloser(tape, p);
        CutsLast(tape, q, t)
    else
      StepCloser(tape, p, t);
      CutsAt(p, t) || CutsLast(tape, Step(p, t).0, Step(p, t).1)
  }

  // How the time is cut up makes no difference, as long as no cut is one of those.
  lemma {:induction false} AdvanceAdds(tape: seq<Block>, p: Player, a: nat, b: nat)
    requires TapeOk(tape) && PlayerOk(tape, p) && !CutsLast(tape, p, a)
    ensures Advance(tape, Advance(tape, p, a), b) == Advance(tape, p, a + b)
    decreases a, Rounds(tape, p), |Pending(p)|
  {
    hide Pending, Rounds, Load, CutsAt, Step, TapeOk;
    if a == 0 || b == 0 || p.mode.Closed? {
    } else if p.mode.Idle? {
      var q := Load(tape, p);
      if !q.mode.Closed? {
        LoadCloses(tape, p);
        AdvanceAdds(tape, q, a, b);
      }
    } else {
      StepCloser(tape, p, a);
      StepSplits(p, a, b);
      var (q, left) := Step(p, a);
      AdvanceAdds(tape, q, left, b);
    }
  }

  lemma LoadCloses(tape: seq<Block>, p: Player)
    requires TapeOk(tape) && PlayerOk(tape, p) && p.mode.Idle? && !Load(tape, p).mode.Closed?
    ensures Rounds(tape, Load(tape, p)) < Rounds(tape, p)
  {
    LoadCloser(tape, p);
  }

  predicate RecentAt(p: Player, s: nat)
    requires ModeOk(p.mode)
  {
    p.mode.InData? ==> Recent(p.mode.deck, s)
  }

  lemma {:induction false} AdvanceRecent(tape: seq<Block>, p: Player, t: nat, s: nat)
    requires TapeOk(tape) && PlayerOk(tape, p) && RecentAt(p, s)
    ensures RecentAt(Advance(tape, p, t), s + t)
    decreases t, Rounds(tape, p), |Pending(p)|
  {
    hide Pending, Rounds, Recent, TapeOk, Load;
    if t == 0 || p.mode.Closed? {
    } else if p.mode.Idle? {
      var q := Load(tape, p);
      if !q.mode.Closed? {
        LoadCloses(tape, p);
        LoadRecent(tape, p, s);
        AdvanceRecent(tape, q, t, s);
      }
    } else {
      StepCloser(tape, p, t);
      StepRecent(p, t, s);
      hide Step, RecentAt;
      var (q, left) := Step(p, t);
      AdvanceRecent(tape, q, left, s + (t - left));
    }
  }

  lemma LoadRecent(tape: seq<Block>, p: Player, s: nat)
    requires TapeOk(tape) && PlayerOk(tape, p)
    ensures RecentAt(Load(tape, p), s)
  {
    hide Waveform;
  }

  lemma StepRecent(p: Player, t: nat, s: nat)
    requires ModeOk(p.mode) && Playing(p.mode) && RecentAt(p, s)
    ensures var (q, left) := Step(p, t); RecentAt(q, s + (t - left))
  {
    if p.mode.InData? {
      hide Play, Recent;
      PlayRecent(p.mode.deck, p.level, t, s);
    }
  }

  // The tail begins at once behind such a cut, however short a time comes next.
  lemma CutNow(tape: seq<Block>, p: Player, a: nat)
    requires TapeOk(tape) && PlayerOk(tape, p) && a > 0 && CutsAt(p, a)
    ensures Advance(tape, Advance(tape, p, a), 1) != Advance(tape, p, a + 1)
  {
    hide Advance, Step, Loaded, Play, LastLength, TapeOk, CutsAt, DeckOk;
    CutStates(tape, p, a);
    var q := Advance(tape, p, a);
    TailStep(q);
    AdvanceStep(tape, q, 1);
    if q.mode.deck.tail == 0 {
      AdvanceRecent(tape, Player(p.pos, Idle, p.level), 1, 0);
    }
  }

  lemma CutStates(tape: seq<Block>, p: Player, a: nat)
    requires TapeOk(tape) && PlayerOk(tape, p) && a > 0 && CutsAt(p, a)
    ensures var q, r := Advance(tape, p, a), Advance(tape, p, a + 1);
      && q.pos == p.pos && q.level == p.level && Playing(q.mode) && q.mode.InData?
      && q.mode.deck.done == q.mode.deck.block.count && q.mode.deck.remain == LastLength(q.mode.deck.block) - a > 0
      && r.mode == InData(q.mode.deck.(remain := q.mode.deck.remain - 1))
  {
    CutsLoaded(p.mode.deck, p.level, a);
    AdvanceStep(tape, p, a);
    AdvanceStep(tape, p, a + 1);
    hide Advance, Loaded, Play, LastLength, TapeOk;
  }

  lemma TailStep(p: Player)
    requires ModeOk(p.mode) && p.mode.InData? && p.mode.deck.done == p.mode.deck.block.count
    ensures var d := p.mode.deck;
      Step(p, 1) == if d.tail > 1 then (p.(mode := InData(d.(tail := d.tail - 1))), 0) else (p.(mode := Idle), 1 - d.tail)
  {
  }

  lemma {:induction false} CutCounts(tape: seq<Block>, p: Player, a: nat)
    requires TapeOk(tape) && PlayerOk(tape, p) && CutsLast(tape, p, a)
    ensures Advance(tape, Advance(tape, p, a), 1) != Advance(tape, p, a + 1)
    decreases a, Rounds(tape, p), |Pending(p)|
  {
    hide Pending, Rounds, Load, CutsAt, Step, TapeOk;
    if p.mode.Idle? {
      LoadCloses(tape, p);
      CutCounts(tape, Load(tape, p), a);
    } else if CutsAt(p, a) {
      CutNow(tape, p, a);
    } else {
      StepCloser(tape, p, a);
      StepSplits(p, a, 1);
      var (q, left) := Step(p, a);
      CutCounts(tape, q, left);
    }
  }

  // So two calls do what one does, whatever time the second is given, if and only if the first
  // does not end within the pulse played of the last bit of a DATA block.
  lemma AdditiveExactly(tape: seq<Block>, p: Player, a: nat)
    requires TapeOk(tape) && PlayerOk(tape, p)
    ensures (forall b: nat :: Advance(tape, Advance(tape, p, a), b) == Advance(tape, p, a + b)) <==> !CutsLast(tape, p, a)
  {
    hide Advance, CutsLast;
    if CutsLast(tape, p, a) {
      CutCounts(tape, p, a);
    } else {
      forall b: nat ensures Advance(tape, Advance(tape, p, a), b) == Advance(tape, p, a + b) {
        AdvanceAdds(tape, p, a, b);
      }
    }
  }

  // A DATA block of one bit with a waveform of two pulses, and a cut in the first of them.
  lemma TwoCallsDiffer()
    ensures var tape := [Data(DataBlock(false, 1, 10, [5, 5], [5, 5], [0]))];
      TapeOk(tape) && CutsLast(tape, START, 2) && Advance(tape, Advance(tape, START, 2), 1) != Advance(tape, START, 3)
  {
    var bits := DataBlock(false, 1, 10, [5, 5], [5, 5], [0]);
    var tape := [Data(bits)];
    var d := Start(bits);
    hide BitAt;
    assert Loaded(d) == Deck(bits, 1, [5], 5, 10);
    assert Pulses(d) == [5] + Pulses(Deck(bits, 1, [5], 0, 10)) == [5];
    assert DeckWave(d, false)[0] == Segment(false, 5) && Sounds(tape, 0);
    assert NextUsable(tape, 0) == 0 && Load(tape, START) == Player(1, InData(d), false);
    assert Cuts(d, 2);
    assert CutsLast(tape, Load(tape, START), 2);
    CutCounts(tape, START, 2);
  }

  // The wave from where the player stands to the end of the tape.
  function Rest(tape: seq<Block>, p: Player): seq<Segment>
    requires TapeOk(tape) && PlayerOk(tape, p)
  {
    Pending(p) + Wave(tape, p.pos)
  }

  lemma NoWaveOfOther(tape: seq<Block>, i: nat)
    requires AllOk(tape) && i < |tape| && tape[i].Other?
    ensures Wave(tape, i) == Wave(tape, i + 1)
  {
    assert Segments(tape[i]) == [];
  }

  lemma {:induction false} UnusedSilent(tape: seq<Block>, i: nat, j: nat)
    requires AllOk(tape) && i <= j <= |tape|
    requires forall k :: i <= k < j ==> tape[k].Other?
    ensures Wave(tape, i) == Wave(tape, j)
    decreases j - i
  {
    hide Wave, AllOk;
    if i < j {
      NoWaveOfOther(tape, i);
      UnusedSilent(tape, i + 1, j);
    }
  }

  lemma LoadRest(tape: seq<Block>, p: Player)
    requires TapeOk(tape) && PlayerOk(tape, p) && p.mode.Idle?
    ensures NextUsable(tape, p.pos) == |tape| ==> Rest(tape, p) == []
    ensures NextUsable(tape, p.pos) < |tape| ==> Rest(tape, Load(tape, p)) == Rest(tape, p)
  {
    var j := NextUsable(tape, p.pos);
    UnusedSilent(tape, p.pos, j);
    NothingAfter(tape);
    if j < |tape| {
      BeginRest(tape, j);
      LoadNext(tape, p);
      hide Load, TapeOk, Wave, Segments, Pending, BlockOk;
      assert Rest(tape, p) == Wave(tape, p.pos);
    } else {
      hide TapeOk, BlockOk, Load;
      assert Rest(tape, p) == Wave(tape, p.pos);
    }
  }

  lemma NothingAfter(tape: seq<Block>)
    requires AllOk(tape)
    ensures Wave(tape, |tape|) == []
  {
  }

  lemma BeginRest(tape: seq<Block>, j: nat)
    requires TapeOk(tape) && j < |tape| && !tape[j].Other?
    ensures Rest(tape, Begin(tape[j], j)) == Wave(tape, j)
  {
    BeginPending(tape[j], j);
  }

  lemma LoadNext(tape: seq<Block>, p: Player)
    requires TapeOk(tape) && PlayerOk(tape, p) && NextUsable(tape, p.pos) < |tape|
    ensures var j := NextUsable(tape, p.pos); Load(tape, p) == Begin(tape[j], j)
  {
  }

  lemma StepRest(tape: seq<Block>, p: Player, t: nat)
    requires TapeOk(tape) && PlayerOk(tape, p) && Playing(p.mode)
    ensures var w, (q, left) := Rest(tape, p), Step(p, t);
      && w != [] && w[0].level == p.level
      && (t < w[0].length ==> q.level == p.level && left == 0)
      && (t >= w[0].length ==> left == t - w[0].length && Rest(tape, q) == w[1..])
  {
    StepConsumes(p, t);
    hide Pending, Wave, Step, Length, TapeOk, ModeOk;
    RestHead(Pending(p), Wave(tape, p.pos));
  }

  lemma RestHead(a: seq<Segment>, b: seq<Segment>)
    requires a != []
    ensures (a + b)[0] == a[0] && (a + b)[1..] == a[1..] + b
  {
  }

  lemma AdvanceStep(tape: seq<Block>, p: Player, t: nat)
    requires TapeOk(tape) && PlayerOk(tape, p) && t > 0 && Playing(p.mode)
    ensures var (q, left) := Step(p, t);
      && PlayerOk(tape, q) && !q.mode.Closed? && q.pos == p.pos
      && Advance(tape, p, t) == (if left == 0 then q else Advance(tape, q, left))
  {
  }

  lemma AdvanceLoad(tape: seq<Block>, p: Player, t: nat)
    requires TapeOk(tape) && PlayerOk(tape, p) && t > 0 && p.mode.Idle? && NextUsable(tape, p.pos) < |tape|
    ensures var q := Load(tape, p);
      PlayerOk(tape, q) && !q.mode.Closed? && LastEnd(tape, q.pos) == LastEnd(tape, p.pos)
      && Advance(tape, p, t) == Advance(tape, q, t)
  {
    LoadNext(tape, p);
  }

  // t falls inside segment k of the wave.
  predicate Inside(w: seq<Segment>, k: nat, t: nat) {
    k < |w| && Length(w[..k]) < t < Length(w[..k + 1])
  }

  // While a segment of the wave lasts, its level is the one returned.
  lemma {:induction false} PlaysTheWave(tape: seq<Block>, p: Player, t: nat, k: nat)
    requires TapeOk(tape) && PlayerOk(tape, p) && !p.mode.Closed?
    requires Inside(Rest(tape, p), k, t)
    ensures var q := Advance(tape, p, t); !q.mode.Closed? && q.level == Rest(tape, p)[k].level
    decreases t, Rounds(tape, p), |Pending(p)|
  {
    hide TapeOk, NextUsable, NextBlock, Wave, Pending, Load, Step, Advance, Rest, LastEnd, Rounds;
    var w := Rest(tape, p);
    if p.mode.Idle? {
      LoadRest(tape, p);
      LoadFound(tape, p);
      LoadCloser(tape, p);
      AdvanceLoad(tape, p, t);
      PlaysTheWave(tape, Load(tape, p), t, k);
    } else {
      StepCloser(tape, p, t);
      StepRest(tape, p, t);
      AdvanceStep(tape, p, t);
      var (q, left) := Step(p, t);
      LengthHead(w, k);
      if k > 0 {
        assert w[1..][..k - 1] == w[..k][1..] && w[1..][..k] == w[..k + 1][1..];
        PlaysTheWave(tape, q, left, k - 1);
      }
    }
  }

  lemma LengthHead(w: seq<Segment>, k: nat)
    requires k < |w|
    ensures Length(w[..k + 1]) == w[0].length + Length(w[1..][..k])
    ensures k > 0 ==> Length(w[..k]) == w[0].length + Length(w[1..][..k - 1])
  {
    assert w[..k + 1][1..] == w[1..][..k];
    assert k > 0 ==> w[..k][1..] == w[1..][..k - 1];
  }

  // Where the tape stands once the last of its usable blocks has been loaded.
  function LastEnd(tape: seq<Block>, i: nat): (e: nat)
    requires i <= |tape|
    ensures i <= e <= |tape| && NextUsable(tape, e) == |tape|
    decreases |tape| - i
  {
    var j := NextUsable(tape, i);
    if j == |tape| then i else LastEnd(tape, j + 1)
  }

  lemma EndsHere(tape: seq<Block>, i: nat)
    requires i <= |tape| && NextUsable(tape, i) == |tape|
    ensures LastEnd(tape, i) == i
  {
  }

  lemma LoadFound(tape: seq<Block>, p: Player)
    requires TapeOk(tape) && PlayerOk(tape, p) && NextUsable(tape, p.pos) < |tape|
    ensures NextBlock(tape, p.pos).Some?
  {
  }

  lemma LevelForgotten(tape: seq<Block>, p: Player, t: nat)
    requires TapeOk(tape) && PlayerOk(tape, p) && p.mode.Idle? && t > 0
    ensures Advance(tape, p, t) == Advance(tape, p.(level := false), t)
  {
    assert Load(tape, p) == Load(tape, p.(level := false));
  }

  // Playing on from the end of the wave is playing on from the end of the tape.
  lemma {:induction false} PlaysOut(tape: seq<Block>, p: Player, t: nat)
    requires TapeOk(tape) && PlayerOk(tape, p) && !p.mode.Closed? && t > 0
    ensures Advance(tape, p, Length(Rest(tape, p)) + t) == Advance(tape, Player(LastEnd(tape, p.pos), Idle, false), t)
    decreases Length(Rest(tape, p)), Rounds(tape, p), |Pending(p)|
  {
    hide TapeOk, NextUsable, NextBlock, Wave, Pending, Load, Step, Advance, Rest, LastEnd, Rounds;
    var all := Length(Rest(tape, p)) + t;
    if p.mode.Idle? {
      LoadRest(tape, p);
      if NextUsable(tape, p.pos) == |tape| {
        EndsHere(tape, p.pos);
        LevelForgotten(tape, p, t);
      } else {
        LoadFound(tape, p);
        LoadCloser(tape, p);
        AdvanceLoad(tape, p, all);
        PlaysOut(tape, Load(tape, p), t);
      }
    } else {
      StepCloser(tape, p, all);
      StepRest(tape, p, all);
      AdvanceStep(tape, p, all);
      PlaysOut(tape, Step(p, all).0, t);
    }
  }

  const START := Player(0, Idle, false)

  predicate OnlyFirstUsable(tape: seq<Block>) {
    |tape| > 0 && NextUsable(tape, 1) == |tape|
  }

  lemma LastEndOne(tape: seq<Block>)
    requires TapeOk(tape)
    ensures LastEnd(tape, 0) > 0
    ensures LastEnd(tape, 0) == 1 <==> OnlyFirstUsable(tape)
  {
    SoundUsable(tape, NextSound(tape, 0));
    var j := NextUsable(tape, 0);
    assert LastEnd(tape, 0) == LastEnd(tape, j + 1);
    if j > 0 {
      assert tape[0].Other?;
      assert NextUsable(tape, 0) == NextUsable(tape, 1);
    }
  }

  lemma AdvanceIdle(tape: seq<Block>, p: Player, t: nat)
    requires TapeOk(tape) && PlayerOk(tape, p) && t > 0 && p.mode.Idle?
    ensures Advance(tape, p, t) == var q := Load(tape, p); if q.mode.Closed? then q else Advance(tape, q, t)
  {
  }

  // What is found from the end of the last block of use on.
  lemma LoadAround(tape: seq<Block>)
    requires TapeOk(tape)
    ensures var q := Load(tape, Player(LastEnd(tape, 0), Idle, false));
      if OnlyFirstUsable(tape) then q.mode.Closed? else q == Load(tape, START)
    ensures !Load(tape, START).mode.Closed?
  {
    LastEndOne(tape);
    SoundUsable(tape, NextSound(tape, 0));
    hide LastEnd, Sounds, NextSound, TapeOk;
  }

  // Past the end the tape starts again, unless its first block is the only one of use: then
  // the file is closed after one pass.
  lemma {:induction false} StartsAgain(tape: seq<Block>, t: nat)
    requires TapeOk(tape) && t > 0
    ensures var q := Advance(tape, START, Length(Wave(tape, 0)) + t);
      if OnlyFirstUsable(tape) then q.mode.Closed? else q == Advance(tape, START, t)
  {
    assert Rest(tape, START) == Wave(tape, 0);
    hide Advance, Load, Wave, Rest, TapeOk, LastEnd, OnlyFirstUsable;
    PlaysOut(tape, START, t);
    LoadAround(tape);
    AdvanceIdle(tape, START, t);
    AdvanceIdle(tape, Player(LastEnd(tape, 0), Idle, false), t);
  }

  // Such a tape: one PAUS block of length 1 and nothing else. With a block of another kind in
  // front of it, as the header that files begin with, it starts again.
  lemma ClosesAfterOnePass()
    ensures var tape := [Paus(1)];
      TapeOk(tape) && OnlyFirstUsable(tape) && Advance(tape, START, 2).mode.Closed?
    ensures var tape := [Other, Paus(1)];
      TapeOk(tape) && !OnlyFirstUsable(tape) && !Advance(tape, START, 2).mode.Closed?
  {
    var a, b := [Paus(1)], [Other, Paus(1)];
    assert Segments(Paus(1)) == [Segment(false, 1)] && Length([Segment(false, 1)]) == 1;
    assert Sounds(a, 0) && Sounds(b, 1) && Segments(Other) == [] && !Sounds(b, 0);
    assert NextSound(b, 0) == NextSound(b, 1) == 1;
    assert Wave(a, 1) == [] && Wave(a, 0) == [Segment(false, 1)];
    assert Wave(b, 2) == [] && Wave(b, 1) == [Segment(false, 1)] + Wave(b, 2) && Wave(b, 0) == Wave(b, 1);
    StartsAgain(a, 1);
    StartsAgain(b, 1);
    PlaysHalf(b);
  }

  // At the end of a pass the tape is between blocks, and not closed.
  lemma PlaysHalf(tape: seq<Block>)
    requires tape == [Other, Paus(1)] && TapeOk(tape)
    ensures !Advance(tape, START, 1).mode.Closed?
  {
    var p := Begin(Paus(1), 1);
    assert NextUsable(tape, 0) == NextUsable(tape, 1) == 1 && Load(tape, START) == p;
    assert Step(p, 1) == (Player(2, Idle, false), 0);
    AdvanceLoad(tape, START, 1);
    AdvanceStep(tape, p, 1);
  }

  // The time of n passes over the tape.
  function Passes(tape: seq<Block>, n: nat): nat
    requires AllOk(tape)
  {
    if n == 0 then 0 else Length(Wave(tape, 0)) + Passes(tape, n - 1)
  }

  // Over any number of passes, the level at any time inside segment k is that segment's.
  lemma {:induction false} PlaysForEver(tape: seq<Block>, w: seq<Segment>, n: nat, t: nat, k: nat)
    requires TapeOk(tape) && w == Wave(tape, 0) && (OnlyFirstUsable(tape) ==> n == 0)
    requires Inside(w, k, t)
    ensures k < |w|
    ensures var q := Advance(tape, START, Passes(tape, n) + t);
      !q.mode.Closed? && q.level == w[k].level
  {
    hide Advance, Wave, Length, NextUsable, OnlyFirstUsable;
    if n == 0 {
      PlaysOnce(tape, w, t, k);
    } else {
      PlaysForEver(tape, w, n - 1, t, k);
      StartsAgain(tape, Passes(tape, n - 1) + t);
    }
  }

  lemma PlaysOnce(tape: seq<Block>, w: seq<Segment>, t: nat, k: nat)
    requires TapeOk(tape) && w == Wave(tape, 0) && Inside(w, k, t)
    ensures k < |w|
    ensures var q := Advance(tape, START, t); !q.mode.Closed? && q.level == w[k].level
  {
    assert Rest(tape, START) == w;
    PlaysTheWave(tape, START, t, k);
  }

  // ---- the player in place ---------------------------------------------------------------------

  datatype State = PzxClosed | PzxIdle | PzxInPuls | PzxInPaus | PzxInData

  // Positions within a PULS block leave out its 8-byte header.
  class PzxFile {
    const input: seq<Block>
    var next: nat
    var curblock: seq<Byte>
    var level: bool
    var state: State
    var pulsPtr: nat
    var pulsCount: nat
    var pulsDuration: nat
    var pulsRemain: nat
    var pausRemain: nat
    var curdata: DataBlock
    var dataBits: nat
    var dataPtr: nat    // among the bytes that hold bits
    var dataMask: nat
    var dataP: nat
    var dataW: nat      // among the pulses of both waveforms
    var dataTail: nat
    var dataRemain: nat

    // pzx_open on a file whose version is supported
    constructor (input: seq<Block>)
      requires TapeOk(input)
      ensures this.input == input && Valid() && View() == START
    {
      this.input := input;
      next, curblock, level, state := 0, [], false, PzxIdle;
      pulsPtr, pulsCount, pulsDuration, pulsRemain, pausRemain := 0, 0, 0, 0, 0;
      curdata := DataBlock(false, 0, 0, [], [], []);
      dataBits, dataPtr, dataMask, dataP, dataW, dataTail, dataRemain := 0, 0, 0, 0, 0, 0, 0;
    }

    // The bit cursor and the pulses of the current bit are where the count says.
    predicate DataRaw()
      reads this
    {
      && DataOk(curdata) && dataBits <= curdata.count && dataW + dataP <= |curdata.s0 + curdata.s1|
      && var done := curdata.count - dataBits; dataPtr == done / 8 && dataMask == Pow2(7 - done % 8)
    }

    function DeckNow(): Deck
      requires DataRaw()
      reads this
    {
      Deck(curdata, curdata.count - dataBits, (curdata.s0 + curdata.s1)[dataW..dataW + dataP], dataRemain, dataTail)
    }

    // The fields as they bear on what follows: a pulse that has run out leaves its length
    // and the time remaining behind, and they are set anew before they are used.
    function View(): Player
      requires state.PzxInData? ==> DataRaw()
      reads this
    {
      match state
      case PzxClosed => Player(0, Closed, false)
      case PzxIdle => Player(next, Idle, level)
      case PzxInPaus => Player(next, InPaus(pausRemain), level)
      case PzxInData => Player(next, InData(DeckNow()), level)
      case PzxInPuls =>
        if pulsCount == 0 then Player(next, InPuls(curblock, pulsPtr, 0, 0, 0), level)
        else Player(next, InPuls(curblock, pulsPtr, pulsCount, pulsDuration, pulsRemain), level)
    }

    predicate Valid()
      reads this
    {
      && TapeOk(input) && (state.PzxInData? ==> DataRaw())
      && PlayerOk(input, View()) && (state.PzxClosed? || next <= |input|)
    }

    // pzx_parse_pulse
    method ParsePulse()
      requires WellFormed(curblock, pulsPtr) && pulsPtr < |curblock| && pulsCount == 0
      modifies this`pulsPtr, this`pulsCount, this`pulsDuration
      ensures Parse(curblock, old(pulsPtr)) == Some(Run(pulsCount, pulsDuration, pulsPtr))
    {
      pulsDuration := Peek2(curblock, pulsPtr);
      pulsPtr := pulsPtr + 2;
      if pulsDuration > 0x8000 {
        pulsCount := pulsDuration - 0x8000;
        pulsDuration := Peek2(curblock, pulsPtr);
        pulsPtr := pulsPtr + 2;
      }
      if pulsDuration >= 0x8000 {
        pulsDuration := (pulsDuration - 0x8000) * 0x10000 + Peek2(curblock, pulsPtr);
        pulsPtr := pulsPtr + 2;
      }
      if pulsCount == 0 {
        pulsCount := 1;
      }
    }

    // What pzx_next_block makes of the block it has just loaded.
    method StartBlock(b: Block)
      requires BlockOk(b) && state.PzxIdle?
      modifies this
      ensures next == old(next) && (state.PzxInData? ==> DataRaw())
      ensures if b.Other? then state.PzxIdle? && level == old(level) else next > 0 ==> View() == Begin(b, next - 1)
      ensures b.Other? <==> state.PzxIdle?
      ensures !state.PzxClosed?
    {
      hide WellFormed, Pow2;
      match b {
        case Puls(data) =>
          state, curblock := PzxInPuls, data;
          pulsPtr, pulsCount, pulsRemain, pulsDuration := 0, 0, 0, 0;
          level := false;
        case Paus(word) =>
          state, curblock := PzxInPaus, [];
          level := word >= 0x8000_0000;
          pausRemain := word % 0x8000_0000;
        case Data(bits) => StartData(bits);
        case Other =>
      }
    }

    method StartData(bits: DataBlock)
      requires DataOk(bits)
      modifies this
      ensures next == old(next) && state.PzxInData? && level == bits.level && DataRaw() && DeckNow() == Start(bits)
    {
      state, curblock, curdata := PzxInData, [], bits;
      level := bits.level;
      dataBits, dataTail := bits.count, bits.tail;
      dataP, dataW, dataRemain := 0, 0, 0;
      dataPtr, dataMask := 0, 0x80;
      assert Pow2(7) == 0x80 && (bits.s0 + bits.s1)[0..0] == [];
    }

    // pzx_next_block. The file position it started from tells it when it has come round.
    method NextBlock() returns (found: bool)
      requires Valid() && state.PzxIdle?
      modifies this
      ensures Valid() && View() == Load(input, old(View())) && found == !state.PzxClosed? && !state.PzxIdle?
    {
      hide NextUsable, TapeOk, Begin, Passed;
      var pos := next;
      ghost var wrapped, p := false, View();
      StartPassed(input, pos);
      while state.PzxIdle?
        invariant !state.PzxClosed? && p == Player(pos, Idle, p.level) && pos <= |input| && next <= |input|
        invariant state.PzxIdle? ==> Passed(input, pos, wrapped, next)
        invariant state.PzxInData? ==> DataRaw()
        invariant !state.PzxIdle? ==> View() == Load(input, p)
        decreases state.PzxIdle?, !wrapped, |input| - next
      {
        if next < |input| {
          next := next + 1;
        } else {
          NotPassed(input, pos, wrapped);
          next := 1;
          if next == pos {
            Close();
            return false;
          }
          wrapped := true;
        }
        PassOne(input, p, wrapped, next - 1);
        StartBlock(input[next - 1]);
      }
      found := true;
    }

    // pzx_close
    method Close()
      modifies this`curblock, this`state
      ensures state.PzxClosed?
    {
      curblock, state := [], PzxClosed;
    }

    // pzx_endblock
    method EndBlock()
      modifies this`curblock, this`state
      ensures state.PzxIdle?
    {
      curblock, state := [], PzxIdle;
    }

    method AdvancePaus(time: nat) returns (left: nat)
      requires Valid() && state.PzxInPaus?
      modifies this`curblock, this`state, this`pausRemain
      ensures Valid() && (View(), left) == Step(old(View()), time)
    {
      if pausRemain > time {
        pausRemain := pausRemain - time;
        return 0;
      }
      left := time - pausRemain;
      EndBlock();
    }

    method ParseNext()
      requires Valid() && state.PzxInPuls?
      modifies this`pulsPtr, this`pulsCount, this`pulsDuration, this`pulsRemain
      ensures Valid() && pulsCount > 0 && View() == old(View()).(mode := Settle(old(View()).mode))
    {
      if pulsCount == 0 {
        ParsePulse();
        pulsRemain := pulsDuration;
      }
    }

    method AdvancePuls(time: nat) returns (left: nat)
      requires Valid() && state.PzxInPuls?
      modifies this`curblock, this`state, this`level, this`pulsPtr, this`pulsCount, this`pulsDuration, this`pulsRemain
      ensures Valid() && (View(), left) == Step(old(View()), time)
    {
      hide TapeOk, Play, Parse;
      ghost var m := Settle(View().mode);
      ParseNext();
      assert View().mode == m && Settle(m) == m;
      if time < pulsRemain {
        pulsRemain := pulsRemain - time;
        return 0;
      }
      left := time - pulsRemain;
      pulsCount := pulsCount - 1;
      level := !level;
      if pulsCount != 0 {
        pulsRemain := pulsDuration;
        return;
      }
      if pulsPtr < |curblock| {
        return;
      }
      EndBlock();
    }

    // Load the next bit: its waveform, and the cursor moved on.
    method LoadBit()
      requires DataRaw() && dataBits > 0 && dataP == 0 && dataRemain == 0
      modifies this`dataBits, this`dataPtr, this`dataMask, this`dataP, this`dataW
      ensures DataRaw()
      ensures var d := old(DeckNow()); DeckNow() == d.(done := d.done + 1, seqn := Waveform(d.block, d.done))
    {
      hide Pow2;
      var bit := curdata.bytes[dataPtr] as int / dataMask % 2 == 1;
      assert bit == BitAt(curdata, curdata.count - dataBits);
      MoveCursor();
      hide BitAt;
      var s0, s1 := curdata.s0, curdata.s1;
      if bit {
        dataP, dataW := |s1|, |s0|;
        assert (s0 + s1)[|s0|..|s0| + |s1|] == s1;
      } else {
        dataP, dataW := |s0|, 0;
        assert (s0 + s1)[0..|s0|] == s0;
      }
    }

    method MoveCursor()
      requires DataRaw() && dataBits > 0
      modifies this`dataBits, this`dataPtr, this`dataMask
      ensures DataRaw() && dataBits == old(dataBits) - 1
    {
      hide Pow2;
      MaskMoves(curdata.count - dataBits);
      dataMask := dataMask / 2;
      if dataMask == 0 {
        dataMask := 0x80;
        dataPtr := dataPtr + 1;
      }
      dataBits := dataBits - 1;
    }

    // The first half of pzx_advance_data on a block with bits left.
    method LoadPulse()
      requires DataRaw() && dataBits > 0
      modifies this`dataBits, this`dataPtr, this`dataMask, this`dataP, this`dataW, this`dataRemain
      ensures DataRaw() && DeckNow() == Loaded(old(DeckNow()))
    {
      hide Waveform;
      ghost var d := DeckNow();
      if dataP < 1 && dataRemain == 0 {
        LoadBit();
      }
      if dataRemain == 0 && dataP > 0 {
        SliceHead(curdata.s0 + curdata.s1, dataW, dataP);
        dataRemain := (curdata.s0 + curdata.s1)[dataW];
        dataW := dataW + 1;
        dataP := dataP - 1;
      }
    }

    method AdvanceData(time: nat) returns (left: nat)
      requires Valid() && state.PzxInData?
      modifies this`curblock, this`state, this`level, this`dataBits, this`dataPtr, this`dataMask, this`dataP, this`dataW, this`dataTail, this`dataRemain
      ensures Valid() && (View(), left) == Step(old(View()), time)
    {
      if dataBits == 0 {
        left := AdvanceTail(time);
      } else {
        left := AdvancePulse(time);
      }
    }

    method AdvanceTail(time: nat) returns (left: nat)
      requires Valid() && state.PzxInData? && dataBits == 0
      modifies this`curblock, this`state, this`dataTail
      ensures Valid() && (View(), left) == Step(old(View()), time)
    {
      hide WellFormed, Loaded;
      if dataTail > time {
        dataTail := dataTail - time;
        return 0;
      }
      left := time - dataTail;
      EndBlock();
    }

    method AdvancePulse(time: nat) returns (left: nat)
      requires Valid() && state.PzxInData? && dataBits > 0
      modifies this`level, this`dataBits, this`dataPtr, this`dataMask, this`dataP, this`dataW, this`dataRemain
      ensures Valid() && (View(), left) == Step(old(View()), time)
    {
      hide WellFormed, Loaded;
      LoadPulse();
      if dataRemain > time {
        dataRemain := dataRemain - time;
        return 0;
      }
      left := time - dataRemain;
      dataRemain := 0;
      level := !level;
    }

    // One round of pzx_advance's loop.
    method Round(time: nat) returns (left: nat)
      requires Valid() && !state.PzxClosed? && time > 0
      modifies this
      ensures Valid() && Advance(input, View(), left) == Advance(input, old(View()), time)
      ensures state.PzxClosed? || Closer(input, old(View()), time, View(), left)
      ensures state.PzxClosed? ==> View() == Advance(input, old(View()), time)
    {
      hide Advance, Closer, Load, Step;
      left := time;
      match state {
        case PzxIdle =>
          LoadAdvances(input, View(), time);
          var found := NextBlock();
        case PzxInPuls =>
          StepAdvances(input, View(), time);
          left := AdvancePuls(time);
        case PzxInPaus =>
          StepAdvances(input, View(), time);
          left := AdvancePaus(time);
        case PzxInData =>
          StepAdvances(input, View(), time);
          left := AdvanceData(time);
      }
    }

    // pzx_advance: the level after this much more time, 0 once the file is closed.
    method AdvanceBy(time: nat) returns (output: bool)
      requires Valid()
      modifies this
      ensures Valid() && View() == Advance(input, old(View()), time) && output == View().level
    {
      if state.PzxClosed? {
        return false;
      }
      var left := time;
      while left != 0
        invariant Valid() && !state.PzxClosed?
        invariant Advance(input, View(), left) == Advance(input, old(View()), time)
        decreases left, Rounds(input, View()), |Pending(View())|
      {
        hide Rounds, Pending, Advance, Valid, TapeOk, PlayerOk;
        left := Round(left);
        if state.PzxClosed? {
          return false;
        }
      }
      output := level;
    }
  }

  lemma SliceHead(s: seq<nat>, w: nat, n: nat)
    requires 0 < n && w + n <= |s|
    ensures s[w..w + n] != [] && s[w..w + n][0] == s[w] && s[w..w + n][1..] == s[w + 1..w + 1 + (n - 1)]
  {
  }

  // The mask goes down a byte, and on to the top of the next.
  lemma MaskMoves(done: nat)
    ensures var m := Pow2(7 - done % 8) / 2;
      if m == 0 then (done + 1) / 8 == done / 8 + 1 && Pow2(7 - (done + 1) % 8) == 0x80
      else (done + 1) / 8 == done / 8 && Pow2(7 - (done + 1) % 8) == m
  {
    assert Pow2(0) == 1 && Pow2(7) == 0x80;
    if done % 8 < 7 {
      assert Pow2(7 - done % 8) == 2 * Pow2(6 - done % 8);
    }
  }

  // The blocks from pos up to i, around the end once wrapped, are of no use.
  predicate Passed(tape: seq<Block>, pos: nat, wrapped: bool, i: nat)
    requires pos <= |tape| && i <= |tape|
  {
    if wrapped then NextUsable(tape, pos) == |tape| && pos != 1 && NextUsable(tape, 0) == NextUsable(tape, i)
    else NextUsable(tape, pos) == NextUsable(tape, i)
  }

  // Not all of them can be: the tape sounds somewhere.
  lemma StartPassed(tape: seq<Block>, pos: nat)
    requires pos <= |tape|
    ensures Passed(tape, pos, false, pos)
  {
  }

  lemma NotPassed(tape: seq<Block>, pos: nat, wrapped: bool)
    requires TapeOk(tape) && pos <= |tape| && Passed(tape, pos, wrapped, |tape|)
    ensures !wrapped && |tape| > 0
    ensures pos != 1 ==> Passed(tape, pos, true, 0)
    ensures pos == 1 ==> NextBlock(tape, pos) == None
  {
    SoundUsable(tape, NextSound(tape, 0));
  }

  lemma PassOne(tape: seq<Block>, p: Player, wrapped: bool, i: nat)
    requires TapeOk(tape) && PlayerOk(tape, p) && i < |tape| && Passed(tape, p.pos, wrapped, i)
    ensures BlockOk(tape[i])
    ensures if tape[i].Other? then Passed(tape, p.pos, wrapped, i + 1) else Load(tape, p) == Begin(tape[i], i)
  {
  }

  predicate Closer(tape: seq<Block>, p: Player, t: nat, q: Player, left: nat)
    requires TapeOk(tape) && PlayerOk(tape, p) && PlayerOk(tape, q)
  {
    || left < t
    || (left == t && Rounds(tape, q) < Rounds(tape, p))
    || (left == t && Rounds(tape, q) == Rounds(tape, p) && |Pending(q)| < |Pending(p)|)
  }

  lemma LoadAdvances(tape: seq<Block>, p: Player, t: nat)
    requires TapeOk(tape) && PlayerOk(tape, p) && p.mode.Idle? && t > 0
    ensures var q := Load(tape, p);
      && Advance(tape, p, t) == Advance(tape, q, t) && (q.mode.Closed? ==> Advance(tape, p, t) == q)
      && (!q.mode.Closed? ==> Closer(tape, p, t, q, t))
  {
    if NextBlock(tape, p.pos).Some? {
      LoadCloser(tape, p);
    }
  }

  lemma StepAdvances(tape: seq<Block>, p: Player, t: nat)
    requires TapeOk(tape) && PlayerOk(tape, p) && Playing(p.mode) && t > 0
    ensures var (q, left) := Step(p, t); Advance(tape, p, t) == Advance(tape, q, left) && Closer(tape, p, t, q, left)
  {
    StepCloser(tape, p, t);
  }
}
