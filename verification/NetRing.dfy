// The byte ring of wasm/platform/wasm-net.c: length-prefixed frames in a buffer whose
// indices run freely modulo 2^32 and whose bytes wrap at its edge.
module NetRing {
  import opened Common

  const RING_SIZE := 0x4_0000
  const FRAME_MAX := 1600
  const FRAME_MIN := 14
  const U32 := 0x1_0000_0000

  // A record: the length, low byte first, and the payload.
  function Record(frame: seq<Byte>): (r: seq<Byte>)
    ensures |r| == 2 + |frame|
  {
    [|frame| % 0x100, |frame| / 0x100 % 0x100] + frame
  }

  function Records(frames: seq<seq<Byte>>): seq<Byte> {
    if frames == [] then [] else Records(frames[..|frames| - 1]) + Record(frames[|frames| - 1])
  }

  // What the two checks in front of a push let through.
  predicate FrameOk(frame: seq<Byte>) { FRAME_MIN <= |frame| <= FRAME_MAX }

  // Where byte i behind index pos lies in the buffer.
  function Addr(pos: nat, i: nat): (a: nat)
    ensures a < RING_SIZE
  {
    (pos + i) % U32 % RING_SIZE
  }

  lemma AddrOf(v: nat, i: nat)
    ensures Addr(v % U32, i) == (v + i) % RING_SIZE
  {
    assert U32 == 0x4000 * RING_SIZE;
    var q, r := (v + i) / U32, (v + i) % U32;
    assert (v % U32 + i) % U32 == r;
    assert v + i == q * 0x4000 * RING_SIZE + r;
    ModShift(r, q * 0x4000);
  }

  lemma ModShift(r: nat, k: nat)
    ensures (k * RING_SIZE + r) % RING_SIZE == r % RING_SIZE
    decreases k
  {
    if k > 0 {
      ModShift(r, k - 1);
      assert k * RING_SIZE + r == ((k - 1) * RING_SIZE + r) + RING_SIZE;
    }
  }

  // Two places less than a ring apart are different bytes.
  lemma Apart(u: nat, v: nat)
    requires u < v < u + RING_SIZE
    ensures u % RING_SIZE != v % RING_SIZE
  {
  }

  // The unsigned difference of two indices is their distance.
  lemma Distance(h: nat, t: nat)
    requires t <= h < t + U32
    ensures (h % U32 - t % U32) % U32 == h - t
  {
  }

  lemma {:induction false} RecordsSplit(a: seq<seq<Byte>>, b: seq<seq<Byte>>)
    ensures Records(a + b) == Records(a) + Records(b)
    decreases |b|
  {
    if b == [] {
      assert a + b == a;
    } else {
      var n := |b| - 1;
      assert (a + b)[..|a| + n] == a + b[..n];
      RecordsSplit(a, b[..n]);
      Associate(Records(a), Records(b[..n]), Record(b[n]));
    }
  }

  // The record of frame n starts where those before it end.
  lemma RecordAt(frames: seq<seq<Byte>>, n: nat)
    requires n < |frames|
    ensures |Records(frames[..n])| + 2 + |frames[n]| <= |Records(frames)|
    ensures Records(frames)[|Records(frames[..n])|..|Records(frames[..n])| + 2 + |frames[n]|] == Record(frames[n])
    ensures Records(frames[..n + 1]) == Records(frames[..n]) + Record(frames[n])
  {
    assert frames == frames[..n + 1] + frames[n + 1..];
    RecordsSplit(frames[..n + 1], frames[n + 1..]);
    assert frames[..n + 1][..n] == frames[..n];
  }

  lemma RecordsPrefix(frames: seq<seq<Byte>>, n: nat)
    requires n <= |frames|
    ensures Records(frames[..n]) <= Records(frames)
    ensures |Records(frames)| - |Records(frames[..n])| >= 2 * (|frames| - n)
    decreases |frames| - n
  {
    if n == |frames| {
      assert frames[..n] == frames;
    } else {
      RecordsPrefix(frames, n + 1);
      RecordAt(frames, n);
    }
  }

  // ---- two threads -------------------------------------------------------------------

  // ring_push between its steps: own index loaded; room found, n bytes written.
  datatype Producer = PIdle | PLoaded(frame: seq<Byte>, head: nat) | PWriting(frame: seq<Byte>, head: nat, n: nat)

  // ring_pop between its steps: own index loaded; a record found, its first bytes read.
  datatype Consumer = CIdle | CLoaded(tail: nat) | CReading(tail: nat, head: nat, got: seq<Byte>)

  // The shared ring, the two threads, and what has come of their calls: pushed holds the
  // frames whose push returned 1, popped those returned by a pop.
  datatype State = State(buf: seq<Byte>, head: nat, tail: nat, p: Producer, c: Consumer,
                         pushed: seq<seq<Byte>>, popped: seq<seq<Byte>>, resynced: bool)

  datatype Event =
    | Push(frame: seq<Byte>)   // the producer thread calls ring_push
    | ProducerStep             // and takes its next step
    | ConsumerStep             // the consumer thread takes its next step; idle, it calls ring_pop

  function Start(buf: seq<Byte>): State { State(buf, 0, 0, PIdle, CIdle, [], [], false) }

  // Whether a record of need bytes is refused, in the unsigned arithmetic of the code.
  predicate Refused(head: nat, tail: nat, need: nat) {
    (RING_SIZE - (head - tail) % U32) % U32 < need
  }

  function Produce(s: State): State
    requires |s.buf| == RING_SIZE
  {
    match s.p
    case PIdle => s
    case PLoaded(frame, head) =>
      if Refused(head, s.tail, 2 + |frame|) then s.(p := PIdle) else s.(p := PWriting(frame, head, 0))
    case PWriting(frame, head, n) =>
      if n < 2 + |frame| then s.(buf := s.buf[Addr(head, n) := Record(frame)[n]], p := PWriting(frame, head, n + 1))
      else s.(head := (head + 2 + |frame|) % U32, pushed := s.pushed + [frame], p := PIdle)
  }

  // The length in a record's header, once it has been read.
  function HeaderLength(got: seq<Byte>): nat
    requires |got| >= 2
  {
    got[0] as int + 0x100 * (got[1] as int)
  }

  function Consume(s: State): State
    requires |s.buf| == RING_SIZE
  {
    match s.c
    case CIdle => s.(c := CLoaded(s.tail))
    case CLoaded(tail) => if s.head == tail then s.(c := CIdle) else s.(c := CReading(tail, s.head, []))
    case CReading(tail, head, got) =>
      if |got| >= 2 && HeaderLength(got) > FRAME_MAX then s.(tail := head, c := CIdle, resynced := true)
      else if |got| < 2 || |got| < 2 + HeaderLength(got) then
        s.(c := CReading(tail, head, got + [s.buf[Addr(tail, |got|)]]))
      else s.(tail := (tail + |got|) % U32, popped := s.popped + [got[2..]], c := CIdle)
  }

  function Step(s: State, e: Event): (r: State)
    requires |s.buf| == RING_SIZE
    ensures |r.buf| == RING_SIZE
  {
    match e
    case Push(frame) => if s.p == PIdle && FrameOk(frame) then s.(p := PLoaded(frame, s.head)) else s
    case ProducerStep => Produce(s)
    case ConsumerStep => Consume(s)
  }

  function Run(s: State, events: seq<Event>): (r: State)
    requires |s.buf| == RING_SIZE
    ensures |r.buf| == RING_SIZE
    decreases |events|
  {
    if events == [] then s else Step(Run(s, events[..|events| - 1]), events[|events| - 1])
  }

  // ---- the invariant ---------------------------------------------------------------

  function Written(s: State): nat { |Records(s.pushed)| }

  function Taken(s: State): nat { |Records(s.popped)| }

  // From index v on the buffer holds the bytes.
  ghost predicate Holds(buf: seq<Byte>, v: nat, bytes: seq<Byte>)
    requires |buf| == RING_SIZE
  {
    forall i :: 0 <= i < |bytes| ==> buf[(v + i) % RING_SIZE] == bytes[i]
  }

  ghost predicate Shared(s: State) {
    && |s.buf| == RING_SIZE && s.popped <= s.pushed
    && Taken(s) <= Written(s) <= Taken(s) + RING_SIZE
    && s.head == Written(s) % U32 && s.tail == Taken(s) % U32
    && (forall f :: f in s.pushed ==> FrameOk(f))
    && Records(s.popped) <= Records(s.pushed)
    && Holds(s.buf, Taken(s), Records(s.pushed)[Taken(s)..])
    && !s.resynced
  }

  ghost predicate ProducerOk(s: State)
    requires |s.buf| == RING_SIZE
  {
    match s.p
    case PIdle => true
    case PLoaded(frame, head) => FrameOk(frame) && head == s.head
    case PWriting(frame, head, n) =>
      && FrameOk(frame) && head == s.head && n <= 2 + |frame|
      && Written(s) + 2 + |frame| <= Taken(s) + RING_SIZE
      && Holds(s.buf, Written(s), Record(frame)[..n])
  }

  ghost predicate ConsumerOk(s: State) {
    match s.c
    case CIdle => true
    case CLoaded(tail) => tail == s.tail
    case CReading(tail, _, got) =>
      tail == s.tail && |s.popped| < |s.pushed| && got <= Record(s.pushed[|s.popped|])
  }

  ghost predicate Inv(s: State) { Shared(s) && ProducerOk(s) && ConsumerOk(s) }

  lemma StartInv(buf: seq<Byte>)
    requires |buf| == RING_SIZE
    ensures Inv(Start(buf))
  {
  }

  // The check for room, in wrapped indices, is the check for room.
  lemma RoomCheck(s: State, need: nat)
    requires Taken(s) <= Written(s) <= Taken(s) + RING_SIZE
    requires s.head == Written(s) % U32 && s.tail == Taken(s) % U32
    ensures Refused(s.head, s.tail, need) <==> Written(s) + need > Taken(s) + RING_SIZE
  {
    Distance(Written(s), Taken(s));
    var free := RING_SIZE - (Written(s) - Taken(s));
    assert 0 <= free < U32 && free % U32 == free;
  }

  // Writing behind the written records touches none of their bytes.
  lemma HoldsWrite(buf: seq<Byte>, v: nat, bytes: seq<Byte>, at: nat, b: Byte)
    requires |buf| == RING_SIZE && Holds(buf, v, bytes)
    requires v + |bytes| <= at < v + RING_SIZE
    ensures Holds(buf[at % RING_SIZE := b], v, bytes)
  {
    forall i | 0 <= i < |bytes| ensures buf[at % RING_SIZE := b][(v + i) % RING_SIZE] == bytes[i] {
      Apart(v + i, at);
    }
  }

  lemma HoldsJoin(buf: seq<Byte>, v: nat, a: seq<Byte>, b: seq<Byte>)
    requires |buf| == RING_SIZE && Holds(buf, v, a) && Holds(buf, v + |a|, b)
    ensures Holds(buf, v, a + b)
  {
    forall i | 0 <= i < |a + b| ensures buf[(v + i) % RING_SIZE] == (a + b)[i] {
      if i >= |a| {
        assert buf[(v + |a| + (i - |a|)) % RING_SIZE] == b[i - |a|];
      }
    }
  }

  lemma HoldsTake(buf: seq<Byte>, v: nat, bytes: seq<Byte>, n: nat)
    requires |buf| == RING_SIZE && Holds(buf, v, bytes) && n <= |bytes|
    ensures Holds(buf, v, bytes[..n])
  {
  }

  lemma HoldsDrop(buf: seq<Byte>, v: nat, bytes: seq<Byte>, n: nat)
    requires |buf| == RING_SIZE && Holds(buf, v, bytes) && n <= |bytes|
    ensures Holds(buf, v + n, bytes[n..])
  {
    forall i | 0 <= i < |bytes[n..]| ensures buf[(v + n + i) % RING_SIZE] == bytes[n..][i] {
      assert buf[(v + (n + i)) % RING_SIZE] == bytes[n + i];
    }
  }

  lemma WriteStep(s: State)
    requires Inv(s) && s.p.PWriting? && s.p.n < 2 + |s.p.frame|
    ensures Inv(Produce(s))
  {
    var frame, n, w := s.p.frame, s.p.n, Written(s);
    var b, at := Record(frame)[n], w + n;
    AddrOf(w, n);
    var buf' := s.buf[at % RING_SIZE := b];
    HoldsWrite(s.buf, Taken(s), Records(s.pushed)[Taken(s)..], at, b);
    HoldsWrite(s.buf, w, Record(frame)[..n], at, b);
    assert Record(frame)[..n + 1] == Record(frame)[..n] + [b];
    HoldsJoin(buf', w, Record(frame)[..n], [b]);
  }

  lemma TailAppend(a: seq<Byte>, b: seq<Byte>, t: nat)
    requires t <= |a|
    ensures (a + b)[t..] == a[t..] + b
  {
  }

  // The indices after one of them has moved by n.
  lemma Moved(v: nat, n: nat)
    ensures (v % U32 + n) % U32 == (v + n) % U32
  {
  }

  lemma PublishShared(s: State, frame: seq<Byte>)
    requires Shared(s) && FrameOk(frame) && Written(s) + 2 + |frame| <= Taken(s) + RING_SIZE
    requires Holds(s.buf, Written(s), Record(frame))
    ensures Shared(s.(head := (s.head + 2 + |frame|) % U32, pushed := s.pushed + [frame]))
  {
    var s' := s.(head := (s.head + 2 + |frame|) % U32, pushed := s.pushed + [frame]);
    var t := Taken(s);
    assert s'.pushed[..|s.pushed|] == s.pushed;
    assert Records(s'.pushed) == Records(s.pushed) + Record(frame);
    TailAppend(Records(s.pushed), Record(frame), t);
    HoldsJoin(s.buf, t, Records(s.pushed)[t..], Record(frame));
    Moved(Written(s), 2 + |frame|);
    hide Records, Record, Holds;
  }

  lemma PublishStep(s: State)
    requires Inv(s) && s.p.PWriting? && s.p.n == 2 + |s.p.frame|
    ensures Inv(Produce(s))
  {
    var frame := s.p.frame;
    assert Record(frame)[..2 + |frame|] == Record(frame);
    PublishShared(s, frame);
    PushedStay(s, frame);
    hide Shared, Holds, Records, Record;
  }

  lemma PushedStay(s: State, frame: seq<Byte>)
    requires ConsumerOk(s)
    ensures ConsumerOk(s.(head := (s.head + 2 + |frame|) % U32, pushed := s.pushed + [frame], p := PIdle))
  {
  }

  lemma ProduceInv(s: State)
    requires Inv(s)
    ensures Inv(Produce(s))
  {
    match s.p {
      case PIdle =>
      case PLoaded(frame, head) =>
        RoomCheck(s, 2 + |frame|);
        assert Record(frame)[..0] == [];
      case PWriting(frame, head, n) =>
        if n < 2 + |frame| {
          WriteStep(s);
        } else {
          PublishStep(s);
        }
    }
  }

  lemma HeaderOf(frame: seq<Byte>, got: seq<Byte>)
    requires FrameOk(frame) && got <= Record(frame) && |got| >= 2
    ensures HeaderLength(got) == |frame|
  {
  }

  // The next record lies, whole, in the buffer.
  lemma NextRecord(s: State)
    requires Shared(s) && |s.popped| < |s.pushed|
    ensures var frame := s.pushed[|s.popped|];
      && Taken(s) + 2 + |frame| <= Written(s) && Holds(s.buf, Taken(s), Record(frame))
      && Records(s.popped + [frame]) == Records(s.popped) + Record(frame) <= Records(s.pushed)
  {
    var n, t := |s.popped|, Taken(s);
    var frame := s.pushed[n];
    assert s.pushed[..n] == s.popped;
    RecordAt(s.pushed, n);
    RecordsPrefix(s.pushed, n + 1);
    assert s.pushed[..n + 1] == s.popped + [frame];
    hide Records, Record;
    assert Records(s.pushed)[t..][..2 + |frame|] == Records(s.pushed)[t..t + 2 + |frame|];
    HoldsTake(s.buf, t, Records(s.pushed)[t..], 2 + |frame|);
  }

  lemma ReadStep(s: State)
    requires Inv(s) && s.c.CReading?
    requires |s.c.got| < 2 + |s.pushed[|s.popped|]|
    ensures Inv(Consume(s)) && Consume(s).c.CReading? && |Consume(s).c.got| == |s.c.got| + 1
  {
    var frame, got := s.pushed[|s.popped|], s.c.got;
    assert frame in s.pushed;
    if |got| >= 2 {
      HeaderOf(frame, got);
    }
    NextRecord(s);
    AddrOf(Taken(s), |got|);
    assert s.buf[(Taken(s) + |got|) % RING_SIZE] == Record(frame)[|got|];
  }

  lemma TakeShared(s: State)
    requires Shared(s) && |s.popped| < |s.pushed|
    ensures var n := 2 + |s.pushed[|s.popped|]|;
      Shared(s.(tail := (s.tail + n) % U32, popped := s.popped + [s.pushed[|s.popped|]]))
  {
    var frame, t := s.pushed[|s.popped|], Taken(s);
    var n := 2 + |frame|;
    var s' := s.(tail := (s.tail + n) % U32, popped := s.popped + [frame]);
    NextRecord(s);
    HoldsDrop(s.buf, t, Records(s.pushed)[t..], n);
    assert Records(s.pushed)[t..][n..] == Records(s.pushed)[t + n..];
    Moved(t, n);
    assert s'.popped <= s'.pushed;
    assert Taken(s') == t + n;
    hide Records, Record, Holds;
  }

  lemma TakeStep(s: State)
    requires Inv(s) && s.c.CReading?
    requires |s.c.got| == 2 + |s.pushed[|s.popped|]|
    ensures Inv(Consume(s)) && Consume(s).popped == s.popped + [s.pushed[|s.popped|]]
  {
    var frame, got := s.pushed[|s.popped|], s.c.got;
    assert frame in s.pushed;
    assert got == Record(frame);
    HeaderOf(frame, got);
    assert got[2..] == frame;
    TakeShared(s);
    TakenWriter(s, |got|);
    hide Shared, Records, Record, Holds, HeaderLength;
  }

  // Taking a record only gives the producer more room.
  lemma TakenWriter(s: State, n: nat)
    requires Shared(s) && ProducerOk(s) && |s.popped| < |s.pushed|
    ensures ProducerOk(s.(tail := (s.tail + n) % U32, popped := s.popped + [s.pushed[|s.popped|]], c := CIdle))
  {
    var frame := s.pushed[|s.popped|];
    assert (s.popped + [frame])[..|s.popped|] == s.popped;
    assert Records(s.popped + [frame]) == Records(s.popped) + Record(frame);
  }

  lemma ConsumeInv(s: State)
    requires Inv(s)
    ensures Inv(Consume(s))
  {
    match s.c {
      case CIdle =>
      case CLoaded(tail) =>
        NonemptyRing(s);
      case CReading(tail, head, got) =>
        if |got| < 2 + |s.pushed[|s.popped|]| {
          ReadStep(s);
        } else {
          TakeStep(s);
        }
    }
  }

  // The indices are equal exactly when every pushed frame has been popped.
  lemma NonemptyRing(s: State)
    requires Shared(s)
    ensures s.head == s.tail <==> s.popped == s.pushed
  {
    RecordsPrefix(s.pushed, |s.popped|);
    assert s.pushed[..|s.popped|] == s.popped;
    Distance(Written(s), Taken(s));
  }

  lemma StepInv(s: State, e: Event)
    requires Inv(s)
    ensures Inv(Step(s, e))
  {
    match e
    case Push(_) =>
    case ProducerStep => ProduceInv(s);
    case ConsumerStep => ConsumeInv(s);
  }

  lemma {:induction false} RunInv(buf: seq<Byte>, events: seq<Event>)
    requires |buf| == RING_SIZE
    ensures Inv(Run(Start(buf), events))
    decreases |events|
  {
    if events == [] {
      StartInv(buf);
    } else {
      RunInv(buf, events[..|events| - 1]);
      StepInv(Run(Start(buf), events[..|events| - 1]), events[|events| - 1]);
    }
  }

  // ---- what the threads can rely on ------------------------------------------------------

  // Under every interleaving: the frames popped are a prefix of those pushed, the indices
  // are never further apart than the ring is large, and the resync branch is never taken.
  lemma {:induction false} RingSafe(buf: seq<Byte>, events: seq<Event>)
    requires |buf| == RING_SIZE
    ensures var s := Run(Start(buf), events);
      && s.popped <= s.pushed && !s.resynced
      && (s.head - s.tail) % U32 == |Records(s.pushed)| - |Records(s.popped)| <= RING_SIZE
      && (s.head == s.tail <==> s.popped == s.pushed)
  {
    RunInv(buf, events);
    var s := Run(Start(buf), events);
    Distance(Written(s), Taken(s));
    NonemptyRing(s);
  }

  // A push is refused only for lack of room for its record.
  lemma {:induction false} RefusedWhenFull(buf: seq<Byte>, events: seq<Event>)
    requires |buf| == RING_SIZE && Run(Start(buf), events).p.PLoaded?
    ensures var s := Run(Start(buf), events);
      Produce(s).p == PIdle <==> |Records(s.pushed)| - |Records(s.popped)| + 2 + |s.p.frame| > RING_SIZE
  {
    RunInv(buf, events);
    var s := Run(Start(buf), events);
    RoomCheck(s, 2 + |s.p.frame|);
  }

  // The byte a thread is about to touch, if any.
  function WriteAddr(s: State): Option<nat> {
    if s.p.PWriting? && s.p.n < 2 + |s.p.frame| then Some(Addr(s.p.head, s.p.n)) else None
  }

  function ReadAddr(s: State): Option<nat> {
    if s.c.CReading? && (|s.c.got| < 2 || |s.c.got| < 2 + HeaderLength(s.c.got)) then Some(Addr(s.c.tail, |s.c.got|)) else None
  }

  // The reader stays in front of the end of the written records ...
  lemma ReaderInside(s: State)
    requires Inv(s) && ReadAddr(s).Some?
    ensures var v := Taken(s) + |s.c.got|;
      Taken(s) <= v < Written(s) && ReadAddr(s) == Some(v % RING_SIZE)
  {
    var frame, got := s.pushed[|s.popped|], s.c.got;
    assert frame in s.pushed;
    if |got| >= 2 {
      HeaderOf(frame, got);
    }
    NextRecord(s);
    AddrOf(Taken(s), |got|);
  }

  // ... and the writer behind it, less than a ring away.
  lemma WriterOutside(s: State)
    requires Inv(s) && WriteAddr(s).Some?
    ensures var v := Written(s) + s.p.n;
      Written(s) <= v < Taken(s) + RING_SIZE && WriteAddr(s) == Some(v % RING_SIZE)
  {
    AddrOf(Written(s), s.p.n);
  }

  // The threads never touch the same byte of the buffer at the same time.
  lemma {:induction false} NoDataRace(buf: seq<Byte>, events: seq<Event>)
    requires |buf| == RING_SIZE
    ensures var s := Run(Start(buf), events);
      WriteAddr(s).Some? && ReadAddr(s).Some? ==> WriteAddr(s) != ReadAddr(s)
  {
    hide Run, Records, Record, Inv, Written, Taken, Addr, HeaderLength;
    RunInv(buf, events);
    var s := Run(Start(buf), events);
    if WriteAddr(s).Some? && ReadAddr(s).Some? {
      ReaderInside(s);
      WriterOutside(s);
      Apart(Taken(s) + |s.c.got|, Written(s) + s.p.n);
    }
  }

  // ---- one call by itself --------------------------------------------------------------

  // The first n of the bytes, each put in its place behind index pos.
  function Put(buf: seq<Byte>, pos: nat, bytes: seq<Byte>, n: nat): (r: seq<Byte>)
    requires |buf| == RING_SIZE && n <= |bytes|
    ensures |r| == RING_SIZE
  {
    if n == 0 then buf else Put(buf, pos, bytes, n - 1)[Addr(pos, n - 1) := bytes[n - 1]]
  }

  // The bytes behind index pos.
  function Get(buf: seq<Byte>, pos: nat, n: nat): (r: seq<Byte>)
    requires |buf| == RING_SIZE
    ensures |r| == n
  {
    if n == 0 then [] else Get(buf, pos, n - 1) + [buf[Addr(pos, n - 1)]]
  }

  lemma AddrSmall(off: nat, i: nat)
    requires off < RING_SIZE && i < RING_SIZE
    ensures Addr(off, i) == if off + i < RING_SIZE then off + i else off + i - RING_SIZE
  {
  }

  lemma {:induction false} PutAt(buf: seq<Byte>, off: nat, bytes: seq<Byte>, n: nat, a: nat)
    requires |buf| == RING_SIZE && n <= |bytes| <= RING_SIZE && off < RING_SIZE && a < RING_SIZE
    ensures Put(buf, off, bytes, n)[a] ==
      if off <= a < off + n then bytes[a - off]
      else if a + RING_SIZE < off + n then bytes[a + RING_SIZE - off]
      else buf[a]
    decreases n
  {
    if n > 0 {
      PutAt(buf, off, bytes, n - 1, a);
      AddrSmall(off, n - 1);
      hide Addr;
    }
  }

  lemma {:induction false} GetAt(buf: seq<Byte>, off: nat, n: nat, i: nat)
    requires |buf| == RING_SIZE && i < n <= RING_SIZE && off < RING_SIZE
    ensures Get(buf, off, n)[i] == if off + i < RING_SIZE then buf[off + i] else buf[off + i - RING_SIZE]
    decreases n
  {
    if i < n - 1 {
      GetAt(buf, off, n - 1, i);
    }
  }

  // Only an index's place in the ring matters.
  lemma AddrOff(pos: nat, i: nat)
    requires pos < U32
    ensures Addr(pos, i) == Addr(pos % RING_SIZE, i)
  {
    AddrOf(pos, i);
    AddrOf(pos % RING_SIZE, i);
    var k := pos / RING_SIZE;
    ModShift(pos % RING_SIZE + i, k);
    assert pos + i == k * RING_SIZE + (pos % RING_SIZE + i);
  }

  lemma {:induction false} PutOff(buf: seq<Byte>, pos: nat, bytes: seq<Byte>, n: nat)
    requires |buf| == RING_SIZE && n <= |bytes| && pos < U32
    ensures Put(buf, pos, bytes, n) == Put(buf, pos % RING_SIZE, bytes, n)
    decreases n
  {
    if n > 0 {
      PutOff(buf, pos, bytes, n - 1);
      AddrOff(pos, n - 1);
    }
  }

  lemma {:induction false} GetOff(buf: seq<Byte>, pos: nat, n: nat)
    requires |buf| == RING_SIZE && pos < U32
    ensures Get(buf, pos, n) == Get(buf, pos % RING_SIZE, n)
    decreases n
  {
    if n > 0 {
      GetOff(buf, pos, n - 1);
      AddrOff(pos, n - 1);
    }
  }

  lemma AddrTwice(pos: nat, m: nat, i: nat)
    ensures Addr((pos + m) % U32, i) == Addr(pos, m + i)
  {
    Moved(pos + m, i);
  }

  lemma {:induction false} PutTwice(buf: seq<Byte>, pos: nat, a: seq<Byte>, b: seq<Byte>, n: nat)
    requires |buf| == RING_SIZE && n <= |b| && pos < U32
    ensures Put(Put(buf, pos, a, |a|), (pos + |a|) % U32, b, n) == Put(buf, pos, a + b, |a| + n)
    decreases n
  {
    if n == 0 {
      PutFront(buf, pos, a, b, |a|);
    } else {
      PutTwice(buf, pos, a, b, n - 1);
      AddrTwice(pos, |a|, n - 1);
      hide Addr;
      assert (a + b)[|a| + n - 1] == b[n - 1];
    }
  }

  lemma {:induction false} PutFront(buf: seq<Byte>, pos: nat, a: seq<Byte>, b: seq<Byte>, n: nat)
    requires |buf| == RING_SIZE && n <= |a|
    ensures Put(buf, pos, a + b, n) == Put(buf, pos, a, n)
    decreases n
  {
    if n > 0 {
      PutFront(buf, pos, a, b, n - 1);
    }
  }

  lemma {:induction false} GetTwice(buf: seq<Byte>, pos: nat, m: nat, n: nat)
    requires |buf| == RING_SIZE && pos < U32
    ensures Get(buf, pos, m) + Get(buf, (pos + m) % U32, n) == Get(buf, pos, m + n)
    decreases n
  {
    if n > 0 {
      GetTwice(buf, pos, m, n - 1);
      AddrTwice(pos, m, n - 1);
      hide Addr;
      Associate(Get(buf, pos, m), Get(buf, (pos + m) % U32, n - 1), [buf[Addr(pos, m + n - 1)]]);
    }
  }

  class ByteRing {
    const buf: array<Byte>
    var head: nat
    var tail: nat

    constructor ()
      ensures Valid() && head == tail == 0 && fresh(buf)
    {
      buf := new Byte[RING_SIZE](_ => 0);
      head, tail := 0, 0;
    }

    predicate Valid()
      reads this
    {
      buf.Length == RING_SIZE && head < U32 && tail < U32
    }

    // ring_write_bytes: two copies when the bytes wrap.
    method WriteBytes(pos: nat, src: seq<Byte>)
      requires Valid() && pos < U32 && |src| <= RING_SIZE
      modifies buf
      ensures buf[..] == Put(old(buf[..]), pos, src, |src|)
    {
      ghost var before := buf[..];
      var off := pos % RING_SIZE;
      var first := RING_SIZE - off;
      if first > |src| {
        first := |src|;
      }
      forall k | 0 <= k < first {
        buf[off + k] := src[k];
      }
      if |src| > first {
        forall k | 0 <= k < |src| - first {
          buf[k] := src[first + k];
        }
      }
      PutOff(before, pos, src, |src|);
      forall a | 0 <= a < RING_SIZE ensures buf[a] == Put(before, off, src, |src|)[a] {
        PutAt(before, off, src, |src|, a);
      }
    }

    // ring_read_bytes
    method ReadBytes(pos: nat, len: nat) returns (dst: seq<Byte>)
      requires Valid() && pos < U32 && len <= RING_SIZE
      ensures dst == Get(buf[..], pos, len)
    {
      var off := pos % RING_SIZE;
      var first := RING_SIZE - off;
      if first > len {
        first := len;
      }
      dst := buf[off..off + first];
      if len > first {
        dst := dst + buf[..len - first];
      }
      GetOff(buf[..], pos, len);
      forall i | 0 <= i < len ensures dst[i] == Get(buf[..], off, len)[i] {
        GetAt(buf[..], off, len, i);
      }
    }

    // ring_push, for frames of any length while the indices are no further apart than the ring
    // is large, as RingSafe shows them to stay.
    method Push(frame: seq<Byte>) returns (r: nat)
      requires Valid() && (head - tail) % U32 <= RING_SIZE && 2 + |frame| < U32
      modifies this`head, buf
      ensures Valid()
      ensures r == if Refused(old(head), tail, 2 + |frame|) then 0 else 1
      ensures r == 0 ==> head == old(head) && buf[..] == old(buf[..])
      ensures r == 1 ==>
        && head == (old(head) + 2 + |frame|) % U32
        && buf[..] == Put(old(buf[..]), old(head), Record(frame), 2 + |frame|)
    {
      var need := 2 + |frame|;
      if (RING_SIZE - (head - tail) % U32) % U32 < need {
        return 0;
      }
      var hdr: seq<Byte> := [|frame| % 0x100, |frame| / 0x100 % 0x100];
      ghost var before := buf[..];
      WriteBytes(head, hdr);
      WriteBytes((head + 2) % U32, frame);
      PutTwice(before, head, hdr, frame, |frame|);
      head := (head + need) % U32;
      return 1;
    }

    // ring_pop: the frame's length, or 0
    method Pop() returns (len: nat, dst: seq<Byte>)
      requires Valid()
      modifies this`tail
      ensures Valid()
      ensures head == old(tail) ==> len == 0 && dst == [] && tail == old(tail)
      ensures head != old(tail) ==>
        var n := HeaderLength(Get(buf[..], old(tail), 2));
        if n > FRAME_MAX then len == 0 && dst == [] && tail == head
        else len == n && tail == (old(tail) + 2 + n) % U32 && Get(buf[..], old(tail), 2) + dst == Get(buf[..], old(tail), 2 + n)
    {
      if head == tail {
        return 0, [];
      }
      var hdr := ReadBytes(tail, 2);
      len := HeaderLength(hdr);
      if len > FRAME_MAX {
        tail := head;
        return 0, [];
      }
      dst := ReadBytes((tail + 2) % U32, len);
      GetTwice(buf[..], tail, 2, len);
      tail := (tail + 2 + len) % U32;
    }
  }

  function Times(e: Event, n: nat): seq<Event> { seq(n, _ => e) }

  lemma {:induction false} ProducerAlone(s: State, frame: seq<Byte>, n: nat)
    requires |s.buf| == RING_SIZE && s.p == PWriting(frame, s.head, 0) && n <= 2 + |frame|
    ensures Run(s, Times(ProducerStep, n)) == s.(buf := Put(s.buf, s.head, Record(frame), n), p := PWriting(frame, s.head, n))
    decreases n
  {
    if n > 0 {
      ProducerAlone(s, frame, n - 1);
      assert Times(ProducerStep, n)[..n - 1] == Times(ProducerStep, n - 1);
    }
  }

  lemma {:induction false} RunAppend(s: State, a: seq<Event>, b: seq<Event>)
    requires |s.buf| == RING_SIZE
    ensures Run(s, a + b) == Run(Run(s, a), b)
    decreases |b|
  {
    if b == [] {
      assert a + b == a;
    } else {
      assert (a + b)[..|a| + |b| - 1] == a + b[..|b| - 1];
      RunAppend(s, a, b[..|b| - 1]);
    }
  }

  // A push whose steps nothing interrupts does to the ring what ByteRing.Push does.
  lemma PushAlone(s: State, frame: seq<Byte>)
    requires |s.buf| == RING_SIZE && s.p == PIdle && FrameOk(frame)
    requires !Refused(s.head, s.tail, 2 + |frame|)
    ensures Run(s, [Push(frame), ProducerStep] + Times(ProducerStep, 2 + |frame|) + [ProducerStep])
         == s.(buf := Put(s.buf, s.head, Record(frame), 2 + |frame|), head := (s.head + 2 + |frame|) % U32, pushed := s.pushed + [frame])
  {
    hide *;
    var a, b, n := [Push(frame), ProducerStep], Times(ProducerStep, 2 + |frame|), 2 + |frame|;
    var s1 := s.(p := PWriting(frame, s.head, 0));
    var s2 := s1.(buf := Put(s.buf, s.head, Record(frame), n), p := PWriting(frame, s.head, n));
    PushBegun(s, frame);
    ProducerAlone(s1, frame, n);
    PublishAlone(s2, frame);
    RunAppend(s, a, b);
    RunAppend(s, a + b, [ProducerStep]);
  }

  lemma PublishAlone(s: State, frame: seq<Byte>)
    requires |s.buf| == RING_SIZE && s.p == PWriting(frame, s.head, 2 + |frame|)
    ensures Run(s, [ProducerStep]) == s.(head := (s.head + 2 + |frame|) % U32, pushed := s.pushed + [frame], p := PIdle)
  {
    RunOne(s, ProducerStep);
  }

  lemma RunOne(s: State, e: Event)
    requires |s.buf| == RING_SIZE
    ensures Run(s, [e]) == Step(s, e)
  {
    assert [e][..0] == [];
  }

  lemma PushBegun(s: State, frame: seq<Byte>)
    requires |s.buf| == RING_SIZE && s.p == PIdle && FrameOk(frame)
    requires !Refused(s.head, s.tail, 2 + |frame|)
    ensures Run(s, [Push(frame), ProducerStep]) == s.(p := PWriting(frame, s.head, 0))
  {
    assert [Push(frame), ProducerStep] == [Push(frame)] + [ProducerStep];
    RunAppend(s, [Push(frame)], [ProducerStep]);
    RunOne(s, Push(frame));
    RunOne(Step(s, Push(frame)), ProducerStep);
  }

  // ---- the same for a pop ----------------------------------------------------------------

  lemma {:induction false} GetPrefix(buf: seq<Byte>, pos: nat, m: nat, n: nat)
    requires |buf| == RING_SIZE && m <= n
    ensures Get(buf, pos, n)[..m] == Get(buf, pos, m)
    decreases n
  {
    if m < n {
      GetPrefix(buf, pos, m, n - 1);
    }
  }

  lemma HeaderKept(buf: seq<Byte>, pos: nat, n: nat)
    requires |buf| == RING_SIZE && 2 <= n
    ensures HeaderLength(Get(buf, pos, n)) == HeaderLength(Get(buf, pos, 2))
  {
    GetPrefix(buf, pos, 2, n);
    assert Get(buf, pos, n)[0] == Get(buf, pos, n)[..2][0] && Get(buf, pos, n)[1] == Get(buf, pos, n)[..2][1];
  }

  function HeaderAt(s: State): nat
    requires |s.buf| == RING_SIZE
  {
    HeaderLength(Get(s.buf, s.tail, 2))
  }

  lemma {:induction false} ConsumerAlone(s: State, n: nat)
    requires |s.buf| == RING_SIZE && s.c == CReading(s.tail, s.head, [])
    requires n <= 2 || (HeaderAt(s) <= FRAME_MAX && n <= 2 + HeaderAt(s))
    ensures Run(s, Times(ConsumerStep, n)) == s.(c := CReading(s.tail, s.head, Get(s.buf, s.tail, n)))
    decreases n
  {
    if n > 0 {
      ConsumerAlone(s, n - 1);
      assert Times(ConsumerStep, n)[..n - 1] == Times(ConsumerStep, n - 1);
      if n > 2 {
        HeaderKept(s.buf, s.tail, n - 1);
      }
    }
  }

  // The last step of a pop that has read n bytes, which are a record or a bad header.
  lemma TakeAlone(s: State, n: nat)
    requires |s.buf| == RING_SIZE && n >= 2 && s.c == CReading(s.tail, s.head, Get(s.buf, s.tail, n))
    requires n == if HeaderAt(s) > FRAME_MAX then 2 else 2 + HeaderAt(s)
    ensures Run(s, [ConsumerStep]) ==
      if HeaderAt(s) > FRAME_MAX then s.(tail := s.head, c := CIdle, resynced := true)
      else s.(tail := (s.tail + n) % U32, popped := s.popped + [Get(s.buf, s.tail, n)[2..]], c := CIdle)
  {
    HeaderKept(s.buf, s.tail, n);
    RunOne(s, ConsumerStep);
  }

  lemma PopBegun(s: State)
    requires |s.buf| == RING_SIZE && s.c == CIdle
    ensures Run(s, [ConsumerStep, ConsumerStep]) == if s.head == s.tail then s else s.(c := CReading(s.tail, s.head, []))
  {
    assert [ConsumerStep, ConsumerStep] == [ConsumerStep] + [ConsumerStep];
    RunAppend(s, [ConsumerStep], [ConsumerStep]);
    RunOne(s, ConsumerStep);
    RunOne(Step(s, ConsumerStep), ConsumerStep);
  }

  // A pop whose steps nothing interrupts does to the ring, and gives back, what ByteRing.Pop
  // does: on an empty ring nothing, over a bad header it drains, and else it takes a record.
  lemma PopAlone(s: State)
    requires |s.buf| == RING_SIZE && s.c == CIdle
    ensures s.head == s.tail ==> Run(s, [ConsumerStep, ConsumerStep]) == s
    ensures s.head != s.tail ==>
      var n := if HeaderAt(s) > FRAME_MAX then 2 else 2 + HeaderAt(s);
      Run(s, [ConsumerStep, ConsumerStep] + Times(ConsumerStep, n) + [ConsumerStep]) ==
        if HeaderAt(s) > FRAME_MAX then s.(tail := s.head, resynced := true)
        else s.(tail := (s.tail + n) % U32, popped := s.popped + [Get(s.buf, s.tail, n)[2..]])
  {
    hide Run, Get, Times, HeaderLength;
    PopBegun(s);
    if s.head != s.tail {
      var n := if HeaderAt(s) > FRAME_MAX then 2 else 2 + HeaderAt(s);
      var a, b := [ConsumerStep, ConsumerStep], Times(ConsumerStep, n);
      var s1 := s.(c := CReading(s.tail, s.head, []));
      var s2 := s1.(c := CReading(s.tail, s.head, Get(s.buf, s.tail, n)));
      ConsumerAlone(s1, n);
      TakeAlone(s2, n);
      RunAppend(s, a, b);
      RunAppend(s, a + b, [ConsumerStep]);
    }
  }
}
