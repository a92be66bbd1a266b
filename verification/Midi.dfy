// web/js/midi.js: putting MIDI messages together from the byte stream of the emulated
// interface, with running status, SysEx dumps and real-time bytes in between.
module Midi {
  import opened Common

  const SYSEX_LIMIT := 65536

  // _dataLen
  function DataLen(status: Byte): nat {
    var hi := status / 16 * 16;
    if hi == 0xc0 || hi == 0xd0 then 1
    else if 0x80 <= hi <= 0xe0 then 2
    else if status == 0xf1 || status == 0xf3 then 1
    else if status == 0xf2 then 2
    else 0
  }

  // ---- the parser as a value -----------------------------------------------------------

  // status is 0 for none; sysex is a dump under way.
  datatype Parser = Parser(status: Byte, need: nat, msg: seq<Byte>, sysex: Option<seq<Byte>>)

  const RESET := Parser(0, 0, [], None)

  // A byte that is not real-time, outside a dump: the new state and the message completed.
  function Plain(p: Parser, b: Byte): (Parser, seq<seq<Byte>>) {
    if b == 0xf0 then (p.(sysex := Some([b])), [])
    else if b >= 0x80 then
      if DataLen(b) == 0 then (Parser(if b >= 0xf0 then 0 else b, 0, [], None), [[b]])
      else (Parser(b, DataLen(b), [b], None), [])
    else if p.status == 0 then (p, [])
    else
      var msg := (if p.msg == [] then [p.status] else p.msg) + [b];
      if |msg| - 1 >= p.need then (p.(msg := []), [msg]) else (p.(msg := msg), [])
  }

  function Feed(p: Parser, b: Byte): (Parser, seq<seq<Byte>>) {
    if b >= 0xf8 then (p, [])
    else match p.sysex
      case None => Plain(p, b)
      case Some(dump) =>
        if b == 0xf7 then (p.(sysex := None), [dump + [b]])
        else if b >= 0x80 then Plain(p.(sysex := None), b)
        else if |dump| + 1 > SYSEX_LIMIT then (p.(sysex := None), [])
        else (p.(sysex := Some(dump + [b])), [])
  }

  function FeedAll(p: Parser, bs: seq<Byte>): (Parser, seq<seq<Byte>>)
    decreases |bs|
  {
    if bs == [] then (p, [])
    else
      var (p1, out1) := FeedAll(p, bs[..|bs| - 1]);
      var (p2, out2) := Feed(p1, bs[|bs| - 1]);
      (p2, out1 + out2)
  }

  lemma {:induction false} FeedAppend(p: Parser, a: seq<Byte>, b: seq<Byte>)
    ensures var (p1, out1) := FeedAll(p, a);
      var (p2, out2) := FeedAll(p1, b);
      FeedAll(p, a + b) == (p2, out1 + out2)
    decreases |b|
  {
    if b == [] {
      assert a + b == a;
      assert FeedAll(p, a).1 + [] == FeedAll(p, a).1;
    } else {
      var n := |b| - 1;
      assert (a + b)[..|a| + n] == a + b[..n];
      FeedAppend(p, a, b[..n]);
      var (p1, out1) := FeedAll(p, a);
      var (p2, out2) := FeedAll(p1, b[..n]);
      Associate(out1, out2, Feed(p2, b[n]).1);
    }
  }

  // ---- the service -----------------------------------------------------------------

  class MidiService {
    var status: Byte
    var need: nat
    var msg: seq<Byte>
    var sysex: Option<seq<Byte>>
    var sent: seq<seq<Byte>>   // the messages handed to _send
    var realtime: seq<Byte>    // the bytes passed straight through

    constructor ()
      ensures State() == RESET && sent == [] && realtime == []
    {
      status, need, msg, sysex := 0, 0, [], None;
      sent, realtime := [], [];
    }

    function State(): Parser
      reads this
    {
      Parser(status, need, msg, sysex)
    }

    // _byte
    method TakeByte(b: Byte)
      modifies this
      ensures State() == Feed(old(State()), b).0 && sent == old(sent) + Feed(old(State()), b).1
      ensures realtime == old(realtime) + if b >= 0xf8 then [b] else []
      decreases sysex.Some?
    {
      if b >= 0xf8 {
        realtime := realtime + [b];
        return;
      }
      if sysex.Some? {
        var dump := sysex.value + [b];
        sysex := Some(dump);
        if b == 0xf7 {
          sent := sent + [dump];
          sysex := None;
        } else if b >= 0x80 {
          sysex := None;
          TakeByte(b);
        } else if |dump| > SYSEX_LIMIT {
          sysex := None;
        }
        return;
      }
      if b == 0xf0 {
        sysex := Some([0xf0]);
        return;
      }
      if b >= 0x80 {
        status := b;
        need := DataLen(b);
        msg := [b];
        if need == 0 {
          sent := sent + [msg];
          msg := [];
          if b >= 0xf0 {
            status := 0;
          }
        }
        return;
      }
      if status == 0 {
        return;
      }
      if |msg| == 0 {
        msg := [status];
      }
      msg := msg + [b];
      if |msg| - 1 >= need {
        sent := sent + [msg];
        msg := [];
      }
    }

    // _drain, for the bytes of one buffer
    method Drain(bs: seq<Byte>)
      modifies this
      ensures State() == FeedAll(old(State()), bs).0 && sent == old(sent) + FeedAll(old(State()), bs).1
      ensures realtime == old(realtime) + Realtime(bs)
    {
      ghost var p, s, r := State(), sent, realtime;
      for i := 0 to |bs|
        invariant State() == FeedAll(p, bs[..i]).0 && sent == s + FeedAll(p, bs[..i]).1
        invariant realtime == r + Realtime(bs[..i])
      {
        assert bs[..i + 1][..i] == bs[..i];
        Associate(s, FeedAll(p, bs[..i]).1, Feed(FeedAll(p, bs[..i]).0, bs[i]).1);
        Associate(r, Realtime(bs[..i]), if bs[i] >= 0xf8 then [bs[i]] else []);
        TakeByte(bs[i]);
      }
      assert bs[..|bs|] == bs;
    }
  }

  // ---- real-time bytes ---------------------------------------------------------------

  function Realtime(bs: seq<Byte>): seq<Byte> {
    if bs == [] then [] else Realtime(bs[..|bs| - 1]) + if bs[|bs| - 1] >= 0xf8 then [bs[|bs| - 1]] else []
  }

  // The stream without them.
  function Without(bs: seq<Byte>): seq<Byte> {
    if bs == [] then [] else Without(bs[..|bs| - 1]) + if bs[|bs| - 1] >= 0xf8 then [] else [bs[|bs| - 1]]
  }

  // Real-time bytes may stand anywhere: the messages come out as without them.
  lemma {:induction false} RealtimeTransparent(p: Parser, bs: seq<Byte>)
    ensures FeedAll(p, bs) == FeedAll(p, Without(bs))
    decreases |bs|
  {
    if bs != [] {
      var n := |bs| - 1;
      RealtimeTransparent(p, bs[..n]);
      if bs[n] >= 0xf8 {
        assert Without(bs) == Without(bs[..n]);
        assert FeedAll(p, bs[..n]).1 + [] == FeedAll(p, bs[..n]).1;
      } else {
        assert Without(bs)[..|Without(bs)| - 1] == Without(bs[..n]);
      }
    }
  }

  // ---- any stream at all -----------------------------------------------------------------

  predicate AllData(bs: seq<Byte>) { forall i :: 0 <= i < |bs| ==> bs[i] < 0x80 }

  // What may reach _send: a status byte with its data, or a whole dump.
  predicate MessageOk(m: seq<Byte>) {
    m != [] &&
    if m[0] == 0xf0 then |m| >= 2 && m[|m| - 1] == 0xf7 && AllData(m[1..|m| - 1])
    else 0x80 <= m[0] < 0xf8 && |m| == 1 + DataLen(m[0]) && AllData(m[1..])
  }

  predicate ParserOk(p: Parser) {
    && (p.status != 0 ==> 0x80 <= p.status < 0xf8 && p.status != 0xf0 && p.need == DataLen(p.status) > 0)
    && (p.msg != [] ==> p.status != 0 && p.msg[0] == p.status && |p.msg| <= p.need && AllData(p.msg[1..]))
    && (p.sysex.Some? ==> p.sysex.value != [] && p.sysex.value[0] == 0xf0 && AllData(p.sysex.value[1..]))
  }

  lemma DataLenOf(status: Byte)
    requires 0x80 <= status < 0xf0
    ensures 1 <= DataLen(status) <= 2
  {
  }

  lemma PlainOk(p: Parser, b: Byte)
    requires ParserOk(p) && p.sysex == None && b < 0xf8
    ensures ParserOk(Plain(p, b).0) && forall m :: m in Plain(p, b).1 ==> MessageOk(m)
  {
    if b >= 0x80 {
      if b < 0xf0 {
        DataLenOf(b);
      }
    } else if p.status != 0 {
      var msg := (if p.msg == [] then [p.status] else p.msg) + [b];
      assert AllData(msg[1..]) by {
        assert msg[1..] == (if p.msg == [] then [] else p.msg[1..]) + [b];
      }
    }
  }

  lemma FeedOk(p: Parser, b: Byte)
    requires ParserOk(p)
    ensures ParserOk(Feed(p, b).0) && forall m :: m in Feed(p, b).1 ==> MessageOk(m)
  {
    if b < 0xf8 {
      match p.sysex
      case None => PlainOk(p, b);
      case Some(dump) =>
        if b == 0xf7 {
          var m := dump + [b];
          assert m[1..|m| - 1] == dump[1..];
        } else if b >= 0x80 {
          PlainOk(p.(sysex := None), b);
        } else {
          assert (dump + [b])[1..] == dump[1..] + [b];
        }
    }
  }

  // Whatever the bytes are, every message that reaches _send is a whole one.
  lemma {:induction false} OnlyWholeMessages(bs: seq<Byte>)
    ensures ParserOk(FeedAll(RESET, bs).0)
    ensures forall m :: m in FeedAll(RESET, bs).1 ==> MessageOk(m)
    decreases |bs|
  {
    if bs != [] {
      OnlyWholeMessages(bs[..|bs| - 1]);
      FeedOk(FeedAll(RESET, bs[..|bs| - 1]).0, bs[|bs| - 1]);
    }
  }

  // ---- messages and their bytes ------------------------------------------------------------

  datatype Message = Channel(status: Byte, data: seq<Byte>) | Common(status: Byte, data: seq<Byte>) | SysEx(data: seq<Byte>)

  predicate Valid(m: Message) {
    AllData(m.data) &&
    match m
    case Channel(status, data) => 0x80 <= status < 0xf0 && |data| == DataLen(status)
    case Common(status, data) => 0xf1 <= status < 0xf8 && |data| == DataLen(status)
    case SysEx(data) => |data| < SYSEX_LIMIT
  }

  function Bytes(m: Message): seq<Byte> {
    match m
    case Channel(status, data) => [status] + data
    case Common(status, data) => [status] + data
    case SysEx(data) => [0xf0] + data + [0xf7]
  }

  // A message as printed; running leaves the status byte out.
  datatype Printed = Printed(m: Message, running: bool)

  function Print(t: Printed): seq<Byte> {
    if t.running then t.m.data else Bytes(t.m)
  }

  // Running status only right behind a channel message of the same status.
  predicate PrintableAt(ts: seq<Printed>, i: nat)
    requires i < |ts|
  {
    && Valid(ts[i].m)
    && (ts[i].running ==> ts[i].m.Channel? && i > 0 && ts[i - 1].m.Channel? && ts[i - 1].m.status == ts[i].m.status)
  }

  ghost predicate Printable(ts: seq<Printed>) {
    forall i :: 0 <= i < |ts| ==> PrintableAt(ts, i)
  }

  function PrintAll(ts: seq<Printed>): seq<Byte> {
    if ts == [] then [] else PrintAll(ts[..|ts| - 1]) + Print(ts[|ts| - 1])
  }

  function Messages(ts: seq<Printed>): seq<seq<Byte>> {
    if ts == [] then [] else Messages(ts[..|ts| - 1]) + [Bytes(ts[|ts| - 1].m)]
  }

  // Between two messages.
  predicate Between(p: Parser) { p.msg == [] && p.sysex == None }

  lemma FeedNone(p: Parser)
    ensures FeedAll(p, []) == (p, [])
  {
  }

  lemma FeedOne(p: Parser, b: Byte)
    ensures FeedAll(p, [b]) == Feed(p, b)
  {
    assert [b][..0] == [];
    assert [] + Feed(p, b).1 == Feed(p, b).1;
  }

  // One or two data bytes that complete a message whose status the parser has.
  lemma FeedData(p: Parser, msg: seq<Byte>, data: seq<Byte>)
    requires p.sysex == None && p.status != 0 && 1 <= |data| <= 2 && AllData(data) && p.need == |data|
    requires msg == [p.status] && (p.msg == [] || p.msg == msg)
    ensures FeedAll(p, data) == (p.(msg := []), [msg + data])
  {
    if |data| == 1 {
      assert data == [data[0]];
      FeedOne(p, data[0]);
    } else {
      assert data == [data[0]] + [data[1]];
      FeedAppend(p, [data[0]], [data[1]]);
      FeedOne(p, data[0]);
      var p1 := Feed(p, data[0]).0;
      assert p1 == p.(msg := msg + [data[0]]);
      FeedOne(p1, data[1]);
      Associate(msg, [data[0]], [data[1]]);
    }
  }

  lemma {:induction false} FeedDump(p: Parser, data: seq<Byte>)
    requires p.sysex == Some([0xf0]) && AllData(data) && |data| < SYSEX_LIMIT
    ensures FeedAll(p, data) == (p.(sysex := Some([0xf0] + data)), [])
    decreases |data|
  {
    if data == [] {
      assert [0xf0] + data == [0xf0];
    } else {
      var n := |data| - 1;
      FeedDump(p, data[..n]);
      assert [0xf0] + data == [0xf0] + data[..n] + [data[n]];
      assert FeedAll(p, data).1 == [] + Feed(FeedAll(p, data[..n]).0, data[n]).1;
    }
  }

  lemma FeedSysEx(p: Parser, data: seq<Byte>)
    requires p.sysex == None && AllData(data) && |data| < SYSEX_LIMIT
    ensures FeedAll(p, [0xf0] + data + [0xf7]) == (p, [[0xf0] + data + [0xf7]])
  {
    var p1 := p.(sysex := Some([0xf0]));
    var p2 := p.(sysex := Some([0xf0] + data));
    FeedOne(p, 0xf0);
    FeedDump(p1, data);
    FeedOne(p2, 0xf7);
    FeedAppend(p, [0xf0], data);
    FeedAppend(p, [0xf0] + data, [0xf7]);
  }

  lemma FeedStatus(p: Parser, status: Byte, data: seq<Byte>)
    requires Between(p) && 0x80 <= status < 0xf8 && status != 0xf0 && AllData(data) && |data| == DataLen(status)
    ensures var r := FeedAll(p, [status] + data);
      Between(r.0) && r.1 == [[status] + data] && (data != [] ==> r.0.status == status && r.0.need == |data|)
  {
    FeedOne(p, status);
    FeedAppend(p, [status], data);
    if data == [] {
      FeedNone(Feed(p, status).0);
      assert [status] + data == [status];
    } else {
      FeedData(Parser(status, |data|, [status], None), [status], data);
    }
  }

  // One printed message.
  lemma FeedPrinted(p: Parser, t: Printed)
    requires Between(p) && Valid(t.m)
    requires t.running ==> t.m.Channel? && Remembers(p, t.m)
    ensures Between(FeedAll(p, Print(t)).0) && Remembers(FeedAll(p, Print(t)).0, t.m)
    ensures FeedAll(p, Print(t)).1 == [Bytes(t.m)]
  {
    hide FeedAll, Feed;
    match t.m {
      case Channel(status, data) =>
        DataLenOf(status);
        if t.running {
          FeedData(p, [status], data);
        } else {
          FeedStatus(p, status, data);
        }
      case Common(status, data) => FeedStatus(p, status, data);
      case SysEx(data) => FeedSysEx(p, data);
    }
  }

  // What the parser remembers of the last message.
  predicate Remembers(p: Parser, m: Message) {
    m.Channel? ==> p.status == m.status && p.need == DataLen(m.status)
  }

  lemma {:induction false} PrintedBack(ts: seq<Printed>)
    requires Printable(ts)
    ensures Between(FeedAll(RESET, PrintAll(ts)).0) && FeedAll(RESET, PrintAll(ts)).1 == Messages(ts)
    ensures ts != [] ==> Remembers(FeedAll(RESET, PrintAll(ts)).0, ts[|ts| - 1].m)
    decreases |ts|
  {
    if ts == [] {
      FeedNone(RESET);
    } else {
      var n := |ts| - 1;
      LastPrinted(ts);
      PrintedBack(ts[..n]);
      var p := FeedAll(RESET, PrintAll(ts[..n])).0;
      hide FeedAll, Feed, Bytes, Print, Valid, Between, Printable;
      FeedAppend(RESET, PrintAll(ts[..n]), Print(ts[n]));
      FeedPrinted(p, ts[n]);
    }
  }

  lemma LastPrinted(ts: seq<Printed>)
    requires Printable(ts) && ts != []
    ensures var n := |ts| - 1;
      && Printable(ts[..n]) && Valid(ts[n].m)
      && (ts[n].running ==>
            ts[n].m.Channel? && n > 0 && ts[..n][n - 1].m.Channel? && ts[..n][n - 1].m.status == ts[n].m.status)
  {
    hide Valid;
    var n := |ts| - 1;
    assert PrintableAt(ts, n);
    forall i | 0 <= i < n ensures PrintableAt(ts[..n], i) {
      assert PrintableAt(ts, i);
    }
  }

  // Any list of messages, printed with or without running status, with real-time bytes put
  // in anywhere: exactly those messages reach _send, in order.
  lemma StreamRoundTrip(ts: seq<Printed>, bs: seq<Byte>)
    requires Printable(ts) && Without(bs) == PrintAll(ts)
    ensures FeedAll(RESET, bs).1 == Messages(ts)
  {
    RealtimeTransparent(RESET, bs);
    PrintedBack(ts);
  }

  lemma {:induction false} DataNoDump(p: Parser, data: seq<Byte>)
    requires AllData(data) && p.sysex == None
    ensures FeedAll(p, data).0.sysex == None
    decreases |data|
  {
    if data != [] {
      DataNoDump(p, data[..|data| - 1]);
    }
  }

  // A longer dump is given up. What is left of it is taken for data of the running status, if
  // there is one, and its last byte for a message of its own.
  lemma LongDumpLost(p: Parser, data: seq<Byte>)
    requires p.sysex == None && AllData(data) && |data| >= SYSEX_LIMIT
    ensures FeedAll(p, Bytes(SysEx(data))).1 == FeedAll(p, data[SYSEX_LIMIT..]).1 + [[0xf7]]
  {
    hide FeedAll;
    var front := [0xf0] + data[..SYSEX_LIMIT];
    FrontLost(p, data[..SYSEX_LIMIT]);
    Rest(p, front, data[SYSEX_LIMIT..]);
    assert Bytes(SysEx(data)) == front + data[SYSEX_LIMIT..] + [0xf7];
  }

  // The byte that makes the dump too long drops it.
  lemma FrontLost(p: Parser, data: seq<Byte>)
    requires p.sysex == None && AllData(data) && |data| == SYSEX_LIMIT
    ensures FeedAll(p, [0xf0] + data) == (p, [])
  {
    hide FeedAll;
    var n := SYSEX_LIMIT - 1;
    var p1 := p.(sysex := Some([0xf0]));
    var p2 := p.(sysex := Some([0xf0] + data[..n]));
    FeedOne(p, 0xf0);
    FeedDump(p1, data[..n]);
    FeedOne(p2, data[n]);
    FeedAppend(p, [0xf0], data[..n]);
    FeedAppend(p, [0xf0] + data[..n], [data[n]]);
    assert [0xf0] + data == [0xf0] + data[..n] + [data[n]];
    var none: seq<seq<Byte>> := [];
    assert p2.(sysex := None) == p && none + none == none;
    assert |[0xf0] + data[..n]| + 1 > SYSEX_LIMIT;
    assert Feed(p2, data[n]) == (p, none);
  }

  // The end of it, from a state that the front has led back to.
  lemma Rest(p: Parser, front: seq<Byte>, rest: seq<Byte>)
    requires p.sysex == None && AllData(rest) && FeedAll(p, front) == (p, [])
    ensures FeedAll(p, front + rest + [0xf7]).1 == FeedAll(p, rest).1 + [[0xf7]]
  {
    hide FeedAll;
    DataNoDump(p, rest);
    var (q, out) := FeedAll(p, rest);
    FeedAppend(p, front, rest);
    assert [] + out == out;
    FeedAppend(p, front + rest, [0xf7]);
    FeedOne(q, 0xf7);
  }

  // From any state that is not in the middle of a dump, one gets through exactly when it has
  // fewer than SYSEX_LIMIT data bytes.
  lemma DumpLimit(p: Parser, data: seq<Byte>)
    requires p.sysex == None && AllData(data)
    ensures FeedAll(p, Bytes(SysEx(data))).1 == [Bytes(SysEx(data))] <==> |data| < SYSEX_LIMIT
  {
    hide FeedAll;
    if |data| < SYSEX_LIMIT {
      FeedSysEx(p, data);
    } else {
      LongDumpLost(p, data);
      var out := FeedAll(p, Bytes(SysEx(data))).1;
      assert out[|out| - 1] == [0xf7] && |Bytes(SysEx(data))| > 1;
    }
  }
}
