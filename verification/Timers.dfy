// core/src/timer.c: enabled timers in a doubly linked list, first to expire first, changed
// in place.
module Timers {
  const U32 := 0x1_0000_0000
  const HALF := 0x8000_0000

  // ---- expiry times ------------------------------------------------------------------

  // TIMER_LESS_THAN: the signed 32-bit difference is not positive.
  predicate LessThan(a: int, b: int) {
    var d := (a - b) % U32;
    d == 0 || d >= HALF
  }

  // How far an expiry time lies behind the start of a window half the range long.
  function Rank(base: int, ts: int): (r: nat)
    ensures r < U32
  {
    (ts - base) % U32
  }

  predicate InWindow(base: int, ts: int) { Rank(base, ts) < HALF }

  // Within a window the macro is the order of time.
  lemma WindowOrder(base: int, a: int, b: int)
    requires InWindow(base, a) && InWindow(base, b)
    ensures LessThan(a, b) <==> Rank(base, a) <= Rank(base, b)
  {
    assert (a - b) % U32 == (Rank(base, a) - Rank(base, b)) % U32;
  }

  // ---- the list --------------------------------------------------------------------

  class Timer {
    var ts: int
    var enabled: bool
    var prev: Timer?
    var next: Timer?

    // timer_add, without starting it
    constructor (ts: int)
      ensures this.ts == ts && !enabled && prev == null && next == null
    {
      this.ts := ts;
      enabled, prev, next := false, null, null;
    }
  }

  predicate Distinct(list: seq<Timer>) {
    forall i, j :: 0 <= i < j < |list| ==> list[i] != list[j]
  }

  function At(list: seq<Timer>, i: int): Timer? { if 0 <= i < |list| then list[i] else null }

  predicate NodeOk(list: seq<Timer>, i: nat)
    requires i < |list|
    reads list[i]
  {
    list[i].enabled && list[i].prev == At(list, i - 1) && list[i].next == At(list, i + 1)
  }

  predicate Idle(t: Timer)
    reads t
  {
    !t.enabled && t.prev == null && t.next == null
  }

  ghost predicate Sorted(base: int, list: seq<Timer>)
    reads list
  {
    && (forall i :: 0 <= i < |list| ==> InWindow(base, list[i].ts))
    && (forall i, j :: 0 <= i < j < |list| ==> Rank(base, list[i].ts) <= Rank(base, list[j].ts))
  }

  predicate NotLate(base: int, target: int, ts: int) {
    InWindow(base, target) && Rank(base, target) <= Rank(base, ts)
  }

  // Place k is the first in the list that a timer with this expiry time may stand in front of.
  predicate ComesAt(list: seq<Timer>, ts: int, k: nat)
    reads list
  {
    && k <= |list| && (forall i :: 0 <= i < k ==> !LessThan(ts, list[i].ts))
    && (k < |list| ==> LessThan(ts, list[k].ts))
  }

  // A list in order but for t, whose expiry time has just been changed.
  ghost predicate OrderBut(base: int, list: seq<Timer>, target: int, t: Timer)
    reads list
  {
    && (forall i :: 0 <= i < |list| && list[i] != t ==> InWindow(base, list[i].ts) && NotLate(base, target, list[i].ts))
    && (forall i, j :: 0 <= i < j < |list| && list[i] != t && list[j] != t ==> Rank(base, list[i].ts) <= Rank(base, list[j].ts))
  }

  ghost predicate Ordered(base: int, list: seq<Timer>, target: int)
    reads list
  {
    Sorted(base, list) && (list != [] ==> NotLate(base, target, list[0].ts))
  }

  lemma OrderedBut(base: int, list: seq<Timer>, target: int, t: Timer)
    requires Ordered(base, list, target)
    ensures OrderBut(base, list, target, t)
  {
    hide Rank;
    assert forall i :: 0 <= i < |list| ==> Rank(base, list[0].ts) <= Rank(base, list[i].ts);
  }

  lemma RestOrdered(base: int, list: seq<Timer>, target: int, k: nat)
    requires Distinct(list) && k < |list| && OrderBut(base, list, target, list[k])
    ensures Ordered(base, Without(list, k), target)
  {
    hide Rank;
    var l := Without(list, k);
    WithoutOk(list, k);
    assert forall i :: 0 <= i < |l| ==> l[i] != list[k];
  }

  lemma AllOrdered(base: int, list: seq<Timer>, target: int, t: Timer)
    requires t !in list && OrderBut(base, list, target, t)
    ensures Ordered(base, list, target)
  {
    hide Rank;
    assert forall i :: 0 <= i < |list| ==> list[i] != t;
  }

  function Without(list: seq<Timer>, k: nat): seq<Timer>
    requires k < |list|
  {
    list[..k] + list[k + 1..]
  }

  function With(list: seq<Timer>, k: nat, t: Timer): seq<Timer>
    requires k <= |list|
  {
    list[..k] + [t] + list[k..]
  }

  class TimerList {
    var head: Timer?
    var target: int
    ghost var list: seq<Timer>
    ghost var all: set<Timer>

    constructor ()
      ensures Linked() && list == [] && all == {} && target == 0
    {
      head, target := null, 0;
      list, all := [], {};
    }

    // next and prev agree with the list, which holds exactly the enabled timers.
    ghost predicate Linked()
      reads this, all, list
    {
      && (forall i :: 0 <= i < |list| ==> list[i] in all)
      && Distinct(list) && head == At(list, 0)
      && (forall i :: 0 <= i < |list| ==> NodeOk(list, i))
      && (forall t :: t in all && t !in list ==> Idle(t))
    }

    // The list is sorted by expiry, and the target is no later than any of it.
    ghost predicate InOrder(base: int)
      reads this, list
    {
      Ordered(base, list, target)
    }

    method Register(t: Timer)
      requires Linked() && t !in all && Idle(t)
      modifies this`all
      ensures Linked() && list == old(list) && all == old(all) + {t}
    {
      all := all + {t};
    }

    // Unlink the node at place k.
    method Unlink(t: Timer, ghost k: nat)
      requires Linked() && k < |list| && list[k] == t
      modifies this`head, this`list, all`enabled, all`prev, all`next
      ensures Linked() && list == Without(old(list), k) && t !in list
    {
      ghost var l := list;
      WithoutOk(l, k);
      assert NodeOk(l, k);
      AtIn(l, k - 1);
      AtIn(l, k + 1);
      Differ(l, k, k - 1);
      Differ(l, k, k + 1);
      AtWithout(l, k, 0);
      hide At, Without, Distinct;
      t.enabled := false;
      if t.prev != null {
        t.prev.next := t.next;
      } else {
        head := t.next;
      }
      if t.next != null {
        t.next.prev := t.prev;
      }
      t.prev, t.next := null, null;
      list := Without(l, k);
      forall i | 0 <= i < |l| && i != k ensures SkipOk(l, k, i) {
        assert old(NodeOk(l, i));
        Bypassed(l, k, i, old(l[i].prev), old(l[i].next));
      }
      SkippedOk(l, k);
    }

    lemma NotLinked(t: Timer)
      requires Linked() && !t.enabled
      ensures t !in list
    {
      forall i | 0 <= i < |list| ensures list[i] != t {
        assert NodeOk(list, i);
      }
    }

    // timer_disable. k is the timer's place in the list, if it had one.
    method TimerDisable(t: Timer) returns (ghost k: nat)
      requires Linked() && t in all
      modifies this`head, this`list, all`enabled, all`prev, all`next
      ensures Linked() && t !in list && !t.enabled
      ensures if old(t.enabled) then k < |old(list)| && old(list)[k] == t && list == Without(old(list), k) else list == old(list)
    {
      k := 0;
      if !t.enabled {
        NotLinked(t);
        return;
      }
      k := Find(t);
      Unlink(t, k);
    }

    ghost method Find(t: Timer) returns (k: nat)
      requires Linked() && t in all && t.enabled
      ensures k < |list| && list[k] == t
    {
      assert t in list;
      k :| k < |list| && list[k] == t;
    }

    // The links that put t in front of the node at place k.
    method SetLinks(t: Timer, node: Timer, ghost k: nat)
      requires Linked() && k < |list| && list[k] == node && t in all && t !in list
      modifies this`head, this`target, all`enabled, all`prev, all`next
      ensures t.enabled && t.prev == At(list, k - 1) && t.next == node
      ensures forall i :: 0 <= i < |list| ==> RoomOk(list, k, t, i)
      ensures forall x :: x in all && x != t && x !in list ==> Idle(x)
      ensures head == if k == 0 then t else old(head)
      ensures target == if k == 0 then t.ts else old(target)
    {
      assert NodeOk(list, k);
      AtIn(list, k - 1);
      AtSelf(list, k);
      AtFirst(list, k);
      hide At, Distinct;
      t.enabled := true;
      t.next := node;
      t.prev := node.prev;
      node.prev := t;
      if t.prev != null {
        t.prev.next := t;
      } else {
        head := t;
        target := head.ts;
      }
      forall i | 0 <= i < |list| ensures RoomOk(list, k, t, i) {
        assert old(NodeOk(list, i)) && list[i] in list;
        Differ(list, i, k);
        Differ(list, i, k - 1);
      }
    }

    method LinkBefore(t: Timer, node: Timer, ghost k: nat)
      requires Linked() && k < |list| && list[k] == node && t in all && t !in list
      modifies this`head, this`list, this`target, all`enabled, all`prev, all`next
      ensures t.enabled && Linked() && list == With(old(list), k, t)
      ensures target == if k == 0 then t.ts else old(target)
    {
      ghost var l := list;
      WithOk(l, k, t);
      AtSelf(l, k);
      AtWith(l, k, t, 0);
      SetLinks(t, node, k);
      hide At, With, Distinct;
      list := With(l, k, t);
      RoomedOk(l, k, t);
    }

    // The links that put t behind the last node.
    method AppendLinks(t: Timer, node: Timer)
      requires Linked() && list != [] && node == list[|list| - 1] && t in all && t !in list
      modifies all`enabled, all`prev, all`next
      ensures t.enabled && t.prev == At(list, |list| - 1) && t.next == null
      ensures forall i :: 0 <= i < |list| ==> RoomOk(list, |list|, t, i)
      ensures forall x :: x in all && x != t && x !in list ==> Idle(x)
    {
      AtSelf(list, |list| - 1);
      assert NodeOk(list, |list| - 1) && Idle(t);
      hide At, Distinct;
      t.enabled := true;
      node.next := t;
      t.prev := node;
      forall i | 0 <= i < |list| ensures RoomOk(list, |list|, t, i) {
        assert old(NodeOk(list, i)) && list[i] in list;
        Differ(list, i, |list| - 1);
      }
    }

    // Put t behind the last node.
    method LinkLast(t: Timer, node: Timer)
      requires Linked() && list != [] && node == list[|list| - 1] && t in all && t !in list
      modifies this`list, all`enabled, all`prev, all`next
      ensures t.enabled && Linked() && list == With(old(list), |old(list)|, t)
    {
      ghost var l := list;
      WithOk(l, |l|, t);
      AtWith(l, |l|, t, 0);
      assert At(l, |l|) == null;
      AppendLinks(t, node);
      hide At, With, Distinct;
      list := With(l, |l|, t);
      RoomedOk(l, |l|, t);
    }

    method LinkOnly(t: Timer)
      requires Linked() && list == [] && t in all
      modifies this`head, this`list, this`target, all`enabled, all`prev, all`next
      ensures t.enabled && Linked() && list == [t] && target == t.ts
    {
      assert Idle(t);
      t.enabled := true;
      head := t;
      t.next, t.prev := null, null;
      target := head.ts;
      list := [t];
    }

    // The walk of timer_enable: behind every timer that expires earlier than t, in front of
    // the others.
    method InsertSorted(t: Timer) returns (ghost k: nat)
      requires Linked() && list != [] && t in all && t !in list
      modifies this`head, this`list, this`target, all`enabled, all`prev, all`next
      ensures t.enabled && Linked() && ComesAt(old(list), t.ts, k) && list == With(old(list), k, t)
      ensures target == if k == 0 then t.ts else old(target)
    {
      hide LessThan, With, Distinct;
      var node := head;
      k := 0;
      while true
        invariant Linked() && list == old(list) && all == old(all) && k < |list| && node == list[k]
        invariant forall i :: 0 <= i < k ==> !LessThan(t.ts, list[i].ts)
        invariant target == old(target)
        decreases |list| - k
      {
        assert NodeOk(list, k);
        if LessThan(t.ts, node.ts) {
          LinkBefore(t, node, k);
          return;
        }
        if node.next == null {
          k := k + 1;
          LinkLast(t, node);
          return;
        }
        node := node.next;
        k := k + 1;
      }
    }

    // timer_enable. base is where the window of current expiry times starts.
    method TimerEnable(t: Timer, ghost base: int) returns (ghost rest: seq<Timer>, ghost k: nat)
      requires Linked() && t in all && InWindow(base, t.ts) && OrderBut(base, list, target, t)
      modifies this`head, this`list, this`target, all`enabled, all`prev, all`next
      ensures Linked() && InOrder(base) && t.enabled
      ensures if old(t.enabled) then exists j :: 0 <= j < |old(list)| && old(list)[j] == t && rest == Without(old(list), j) else rest == old(list)
      ensures k <= |rest| && list == With(rest, k, t)
      ensures ComesAt(rest, t.ts, k) && target == if k == 0 then t.ts else old(target)
    {
      hide Sorted, OrderBut, Rank, InWindow, NotLate, Ordered, Without, With;
      rest := Detach(t, base);
      k := Insert(t, base);
    }

    method Insert(t: Timer, ghost base: int) returns (ghost k: nat)
      requires Linked() && t in all && t !in list && InWindow(base, t.ts) && Ordered(base, list, target)
      modifies this`head, this`list, this`target, all`enabled, all`prev, all`next
      ensures Linked() && InOrder(base) && t.enabled
      ensures ComesAt(old(list), t.ts, k) && list == With(old(list), k, t)
      ensures target == if k == 0 then t.ts else old(target)
    {
      hide Rank, InWindow, Without, With, Distinct, LessThan;
      ghost var l := list;
      k := 0;
      if head == null {
        LinkOnly(t);
        OneOrdered(base, l, t);
      } else {
        k := InsertSorted(t);
        WithOrdered(base, l, k, t, old(target), target);
      }
    }

    // Take t off the list if it is on it.
    method Detach(t: Timer, ghost base: int) returns (ghost rest: seq<Timer>)
      requires Linked() && t in all && OrderBut(base, list, target, t)
      modifies this`head, this`list, all`enabled, all`prev, all`next
      ensures Linked() && rest == list && t !in rest && Ordered(base, rest, target)
      ensures if old(t.enabled) then exists j :: 0 <= j < |old(list)| && old(list)[j] == t && rest == Without(old(list), j) else rest == old(list)
    {
      ghost var l0, on := list, t.enabled;
      ghost var j := TimerDisable(t);
      rest := list;
      hide Without, Rank, InWindow, NotLate;
      assert OrderBut(base, l0, target, t);
      hide OrderBut, Ordered;
      if on {
        RestOrdered(base, l0, target, j);
      } else {
        AllOrdered(base, l0, target, t);
      }
    }

    // timer_remove_head
    method RemoveHead() returns (t: Timer)
      requires Linked() && list != []
      modifies this`head, this`list, all`enabled, all`prev, all`next
      ensures Linked() && t == old(list)[0] && list == Without(old(list), 0) && t !in list && !t.enabled
    {
      ghost var l := list;
      WithoutOk(l, 0);
      assert NodeOk(l, 0);
      AtIn(l, 1);
      AtWithout(l, 0, 0);
      AtSelf(l, 0);
      t := head;
      hide At, Without, Distinct;
      head := t.next;
      if head != null {
        head.prev := null;
      }
      t.next, t.prev := null, null;
      t.enabled := false;
      list := Without(l, 0);
      forall i | 0 <= i < |l| && i != 0 ensures SkipOk(l, 0, i) {
        assert old(NodeOk(l, i));
        Differ(l, i, 0);
        Differ(l, i, 1);
        AtNone(l);
      }
      SkippedOk(l, 0);
    }

    // One round of timer_process, up to the callback: the first timer if it is due at tsc,
    // taken off the list; otherwise the target is brought up to date.
    method Due(tsc: int, ghost base: int) returns (t: Timer?)
      requires Linked() && InOrder(base) && InWindow(base, tsc)
      modifies this`head, this`list, this`target, all`enabled, all`prev, all`next
      ensures Linked() && InOrder(base)
      ensures t == null ==>
        && list == old(list) && (forall i :: 0 <= i < |list| ==> Rank(base, tsc) < Rank(base, list[i].ts))
        && target == (if list != [] then list[0].ts else old(target))
      ensures t != null ==>
        && old(list) != [] && t == old(list)[0] && list == Without(old(list), 0) && !t.enabled && target == old(target)
        && Rank(base, t.ts) <= Rank(base, tsc)
        && forall i :: 0 <= i < |list| ==> Rank(base, t.ts) <= Rank(base, list[i].ts)
    {
      if head == null {
        return null;
      }
      WindowOrder(base, head.ts, tsc);
      hide LessThan, Rank, InWindow, Without, Distinct;
      if LessThan(head.ts, tsc) {
        t := TakeHead(base);
      } else {
        target := head.ts;
        t := null;
      }
    }

    // The earliest timer is taken off.
    method TakeHead(ghost base: int) returns (t: Timer)
      requires Linked() && InOrder(base) && list != []
      modifies this`head, this`list, all`enabled, all`prev, all`next
      ensures Linked() && InOrder(base) && t == old(list)[0] && list == Without(old(list), 0) && !t.enabled
      ensures forall i :: 0 <= i < |list| ==> Rank(base, t.ts) <= Rank(base, list[i].ts)
    {
      hide LessThan, Rank, InWindow, Without, Distinct;
      ghost var l := list;
      t := RemoveHead();
      TailOrdered(base, l, target);
    }
  }

  // With the first timer gone the others are still in order, and none is earlier.
  lemma TailOrdered(base: int, list: seq<Timer>, target: int)
    requires Distinct(list) && Ordered(base, list, target) && list != []
    ensures Ordered(base, Without(list, 0), target)
    ensures forall i :: 0 <= i < |Without(list, 0)| ==> Rank(base, list[0].ts) <= Rank(base, Without(list, 0)[i].ts)
  {
    hide Rank;
    OrderedBut(base, list, target, list[0]);
    RestOrdered(base, list, target, 0);
    assert forall i :: 0 <= i < |list| - 1 ==> Without(list, 0)[i] == list[i + 1];
  }

  lemma AtNone(list: seq<Timer>)
    ensures At(list, -1) == null
  {
  }

  // ---- as time passes ----------------------------------------------------------------------

  // The expiry times of the list and the target lie in the window, if there are any timers.
  ghost predicate Covers(base: int, list: seq<Timer>, target: int)
    reads list
  {
    list != [] ==> InWindow(base, target) && forall i :: 0 <= i < |list| ==> InWindow(base, list[i].ts)
  }

  // The order does not depend on the window: it is kept when the window moves on, however
  // often the clock wraps, as long as what is in the list stays inside.
  lemma WindowMoves(base: int, base': int, list: seq<Timer>, target: int)
    requires Ordered(base, list, target) && Covers(base', list, target)
    ensures Ordered(base', list, target)
  {
    forall i, j | 0 <= i < j < |list| ensures Rank(base', list[i].ts) <= Rank(base', list[j].ts) {
      SameOrder(base, base', list[i].ts, list[j].ts);
    }
    if list != [] {
      SameOrder(base, base', target, list[0].ts);
    }
  }

  lemma SameOrder(base: int, base': int, a: int, b: int)
    requires InWindow(base, a) && InWindow(base, b) && InWindow(base', a) && InWindow(base', b)
    ensures Rank(base, a) <= Rank(base, b) <==> Rank(base', a) <= Rank(base', b)
  {
    WindowOrder(base, a, b);
    WindowOrder(base', a, b);
  }

  // ---- any sequence of calls -------------------------------------------------------------

  datatype Call =
    | Arm(i: nat, ts: int)   // set timer i's expiry time, whether it is enabled or not, and enable it
    | Cancel(i: nat)
    | Process(tsc: int)      // take off the next timer that is due

  // Which timers are enabled, in the order of the list; all expiry times; and the target.
  datatype Schedule = Schedule(order: seq<nat>, ts: seq<int>, target: int)

  predicate ScheduleOk(s: Schedule) { forall k :: 0 <= k < |s.order| ==> s.order[k] < |s.ts| }

  function Remove(order: seq<nat>, i: nat): (r: seq<nat>)
    ensures forall j :: 0 <= j < |r| ==> r[j] in order
  {
    if order == [] then [] else if order[0] == i then order[1..] else [order[0]] + Remove(order[1..], i)
  }

  // The first place a timer with this expiry time may take.
  function Place(s: Schedule, x: int): (k: nat)
    requires ScheduleOk(s)
    ensures k <= |s.order|
    ensures forall j :: 0 <= j < k ==> !LessThan(x, s.ts[s.order[j]])
    ensures k < |s.order| ==> LessThan(x, s.ts[s.order[k]])
    decreases |s.order|
  {
    if s.order == [] || LessThan(x, s.ts[s.order[0]]) then 0 else 1 + Place(s.(order := s.order[1..]), x)
  }

  function After(s: Schedule, c: Call): (r: Schedule)
    requires ScheduleOk(s) && (!c.Process? ==> c.i < |s.ts|)
    ensures ScheduleOk(r) && |r.ts| == |s.ts|
  {
    match c
    case Arm(i, ts) =>
      var rest := Schedule(Remove(s.order, i), s.ts[i := ts], s.target);
      var k := Place(rest, ts);
      Schedule(rest.order[..k] + [i] + rest.order[k..], rest.ts, if k == 0 then ts else s.target)
    case Cancel(i) => s.(order := Remove(s.order, i))
    case Process(tsc) =>
      if s.order == [] then s
      else if LessThan(s.ts[s.order[0]], tsc) then s.(order := s.order[1..])
      else s.(target := s.ts[s.order[0]])
  }

  // At each call there is a window that holds the call's own time and, if a timer is
  // enabled, the target and the expiry times of the enabled ones.
  predicate Fits(s: Schedule, base: int) {
    ScheduleOk(s) && (s.order != [] ==> InWindow(base, s.target) && forall k :: 0 <= k < |s.order| ==> InWindow(base, s.ts[s.order[k]]))
  }

  predicate CallOk(s: Schedule, base: int, c: Call) {
    && Fits(s, base)
    && match c
       case Arm(i, ts) => i < |s.ts| && InWindow(base, ts)
       case Cancel(i) => i < |s.ts|
       case Process(tsc) => InWindow(base, tsc)
  }

  predicate CallsOk(s: Schedule, calls: seq<Call>, bases: seq<int>)
    requires |bases| == |calls|
    decreases |calls|
  {
    calls == [] || (CallOk(s, bases[0], calls[0]) && CallsOk(After(s, calls[0]), calls[1..], bases[1..]))
  }

  function AfterAll(s: Schedule, calls: seq<Call>, bases: seq<int>): Schedule
    requires |bases| == |calls| && CallsOk(s, calls, bases)
    decreases |calls|
  {
    if calls == [] then s else AfterAll(After(s, calls[0]), calls[1..], bases[1..])
  }

  function Listed(timers: seq<Timer>, order: seq<nat>): (r: seq<Timer>)
    requires forall k :: 0 <= k < |order| ==> order[k] < |timers|
    ensures |r| == |order|
  {
    seq(|order|, k requires 0 <= k < |order| => timers[order[k]])
  }

  function Times(timers: seq<Timer>): (r: seq<int>)
    reads timers
    ensures |r| == |timers|
  {
    seq(|timers|, i requires 0 <= i < |timers| reads timers => timers[i].ts)
  }

  // The list in memory is the one scheduled.
  ghost predicate Shows(l: TimerList, timers: seq<Timer>, s: Schedule)
    reads l, timers
  {
    ScheduleOk(s) && s.ts == Times(timers) && l.list == Listed(timers, s.order) && l.target == s.target
  }

  lemma ListedTail(timers: seq<Timer>, order: seq<nat>)
    requires order != [] && forall j :: 0 <= j < |order| ==> order[j] < |timers|
    ensures Listed(timers, order)[1..] == Listed(timers, order[1..])
    ensures Listed(timers, order) == [timers[order[0]]] + Listed(timers, order[1..])
  {
  }

  lemma WithoutTail(list: seq<Timer>, k: nat)
    requires 0 < k < |list|
    ensures Without(list, k) == [list[0]] + Without(list[1..], k - 1)
  {
  }

  lemma ShownRemoved(timers: seq<Timer>, order: seq<nat>, i: nat, k: nat)
    requires Distinct(timers) && i < |timers| && k < |order| && forall j :: 0 <= j < |order| ==> order[j] < |timers|
    requires Distinct(Listed(timers, order)) && timers[order[k]] == timers[i]
    ensures (forall j :: 0 <= j < |Remove(order, i)| ==> Remove(order, i)[j] < |timers|)
    ensures Listed(timers, Remove(order, i)) == Without(Listed(timers, order), k)
    decreases |order|
  {
    var list := Listed(timers, order);
    assert order[k] == i;
    if k > 0 {
      assert list[0] != list[k];
      ListedTail(timers, order);
      ShownRemoved(timers, order[1..], i, k - 1);
      WithoutTail(list, k);
      assert list[0] == timers[order[0]];
    } else {
      ListedTail(timers, order);
    }
  }

  lemma ShownKept(timers: seq<Timer>, order: seq<nat>, i: nat)
    requires i < |timers| && (forall j :: 0 <= j < |order| ==> order[j] < |timers|) && timers[i] !in Listed(timers, order)
    ensures Remove(order, i) == order
    decreases |order|
  {
    if order != [] {
      assert Listed(timers, order)[0] == timers[order[0]];
      assert Listed(timers, order[1..]) == Listed(timers, order)[1..];
      ShownKept(timers, order[1..], i);
    }
  }

  // Any calls on any timers, each made in a window of its own that covers what is listed
  // then, do what the schedule says; they leave a list that is linked both ways, holds
  // exactly the enabled timers, in order, and a target that is not late for the first.
  method Calls(timers: seq<Timer>, calls: seq<Call>, ghost bases: seq<int>) returns (l: TimerList)
    requires Distinct(timers) && (forall t :: t in timers ==> Idle(t))
    requires |bases| == |calls| && CallsOk(Schedule([], Times(timers), 0), calls, bases)
    modifies timers
    ensures l.Linked() && l.all == (set t | t in timers)
    ensures Shows(l, timers, AfterAll(Schedule([], old(Times(timers)), 0), calls, bases))
    ensures calls != [] ==> l.InOrder(bases[|calls| - 1])
    ensures forall t :: t in timers ==> (t.enabled <==> t in l.list)
  {
    l := Registered(timers);
    RunCalls(l, timers, calls, bases, Schedule([], Times(timers), 0));
    EnabledListed(l);
  }

  method Registered(timers: seq<Timer>) returns (l: TimerList)
    requires Distinct(timers) && (forall t :: t in timers ==> Idle(t))
    ensures fresh(l) && l.Linked() && l.list == [] && l.target == 0 && l.all == (set t | t in timers)
    ensures Shows(l, timers, Schedule([], Times(timers), 0))
  {
    hide Times;
    l := new TimerList();
    for i := 0 to |timers|
      invariant fresh(l) && l.Linked() && l.list == [] && l.target == 0 && l.all == (set t | t in timers[..i])
      invariant forall t :: t in timers ==> Idle(t)
    {
      assert timers[..i + 1] == timers[..i] + [timers[i]];
      l.Register(timers[i]);
    }
    assert timers[..|timers|] == timers && l.list == Listed(timers, []);
  }

  method RunCalls(l: TimerList, timers: seq<Timer>, calls: seq<Call>, ghost bases: seq<int>, ghost start: Schedule)
    requires l.Linked() && l.all == (set t | t in timers) && Distinct(timers) && l.list == []
    requires |bases| == |calls| && CallsOk(start, calls, bases) && Shows(l, timers, start)
    modifies l, timers
    ensures l.Linked() && l.all == old(l.all) && Shows(l, timers, AfterAll(start, calls, bases))
    ensures calls != [] ==> l.InOrder(bases[|calls| - 1])
  {
    ghost var s, base := start, 0;
    assert calls[0..] == calls && bases[0..] == bases;
    for n := 0 to |calls|
      invariant l.Linked() && l.InOrder(base) && l.all == (set t | t in timers)
      invariant Shows(l, timers, s) && CallsOk(s, calls[n..], bases[n..])
      invariant AfterAll(s, calls[n..], bases[n..]) == AfterAll(start, calls, bases)
      invariant n > 0 ==> base == bases[n - 1]
    {
      assert calls[n..][0] == calls[n] && calls[n..][1..] == calls[n + 1..];
      assert bases[n..][0] == bases[n] && bases[n..][1..] == bases[n + 1..];
      One(l, timers, calls[n], base, bases[n], s);
      s, base := After(s, calls[n]), bases[n];
    }
    assert calls[|calls|..] == [];
  }

  lemma EnabledListed(l: TimerList)
    requires l.Linked()
    ensures forall t :: t in l.all ==> (t.enabled <==> t in l.list)
  {
    forall t | t in l.all ensures t.enabled <==> t in l.list {
      if !t.enabled {
        l.NotLinked(t);
      }
    }
  }

  // One call, made in a window that may have moved on since the last one.
  method One(l: TimerList, timers: seq<Timer>, c: Call, ghost before: int, ghost base: int, ghost s: Schedule)
    requires l.Linked() && l.InOrder(before) && l.all == (set t | t in timers) && Distinct(timers)
    requires Shows(l, timers, s) && CallOk(s, base, c)
    modifies l, timers
    ensures l.Linked() && l.InOrder(base) && l.all == old(l.all) && Shows(l, timers, After(s, c))
  {
    FitsCovers(l, timers, s, base);
    WindowMoves(before, base, l.list, l.target);
    hide Covers;
    match c {
      case Arm(i, ts) => ArmOne(l, timers, i, ts, base, s);
      case Cancel(i) => CancelOne(l, timers, i, base, s);
      case Process(tsc) => ProcessOne(l, timers, tsc, base, s);
    }
  }

  lemma FitsCovers(l: TimerList, timers: seq<Timer>, s: Schedule, base: int)
    requires Shows(l, timers, s) && Fits(s, base)
    ensures Covers(base, l.list, l.target)
  {
    hide InWindow;
    forall k | 0 <= k < |l.list| ensures InWindow(base, l.list[k].ts) {
      assert l.list[k] == timers[s.order[k]];
    }
  }

  // Taking timer i off shows in the schedule as removing its number.
  lemma Detached(list: seq<Timer>, rest: seq<Timer>, on: bool, timers: seq<Timer>, order: seq<nat>, i: nat)
    requires Distinct(timers) && Distinct(list) && i < |timers| && (forall j :: 0 <= j < |order| ==> order[j] < |timers|)
    requires list == Listed(timers, order) && (on <==> timers[i] in list)
    requires if on then exists j :: 0 <= j < |list| && list[j] == timers[i] && rest == Without(list, j) else rest == list
    ensures forall j :: 0 <= j < |Remove(order, i)| ==> Remove(order, i)[j] < |timers|
    ensures rest == Listed(timers, Remove(order, i))
  {
    if on {
      var j :| 0 <= j < |list| && list[j] == timers[i] && rest == Without(list, j);
      ShownRemoved(timers, order, i, j);
    } else {
      ShownKept(timers, order, i);
    }
  }

  method CancelOne(l: TimerList, timers: seq<Timer>, i: nat, ghost base: int, ghost s: Schedule)
    requires l.Linked() && l.InOrder(base) && l.all == (set t | t in timers) && Distinct(timers)
    requires Shows(l, timers, s) && i < |timers|
    modifies l, timers
    ensures l.Linked() && l.InOrder(base) && l.all == old(l.all) && Shows(l, timers, After(s, Cancel(i)))
  {
    var t := timers[i];
    OrderedBut(base, l.list, l.target, t);
    ghost var list, on := l.list, t.enabled;
    EnabledListed(l);
    ghost var rest := l.Detach(t, base);
    Detached(list, rest, on, timers, s.order, i);
  }

  // Where a timer comes in the list is where it comes in the schedule.
  lemma SamePlace(timers: seq<Timer>, s: Schedule, x: int, k: nat)
    requires ScheduleOk(s) && s.ts == Times(timers) && ComesAt(Listed(timers, s.order), x, k)
    ensures k == Place(s, x)
  {
    var list := Listed(timers, s.order);
    assert forall j {:trigger list[j]} {:trigger s.order[j]} :: 0 <= j < |list| ==> list[j].ts == s.ts[s.order[j]];
    hide LessThan;
  }

  // What enabling timer i has left is what the schedule says.
  lemma ArmShown(timers: seq<Timer>, s: Schedule, i: nat, ts: int, rest: seq<Timer>, k: nat)
    requires ScheduleOk(s) && i < |timers| == |s.ts| && Times(timers) == s.ts[i := ts]
    requires rest == Listed(timers, Remove(s.order, i)) && ComesAt(rest, ts, k)
    ensures var r := After(s, Arm(i, ts));
      Listed(timers, r.order) == With(rest, k, timers[i]) && r.target == if k == 0 then ts else s.target
  {
    hide LessThan;
    var r := Schedule(Remove(s.order, i), s.ts[i := ts], s.target);
    SamePlace(timers, r, ts, k);
    hide ComesAt, Place, Remove, Times, Listed, With;
    ListedWith(timers, r.order, k, i);
  }

  lemma ListedWith(timers: seq<Timer>, order: seq<nat>, k: nat, i: nat)
    requires k <= |order| && i < |timers| && forall j :: 0 <= j < |order| ==> order[j] < |timers|
    ensures forall j :: 0 <= j < |order[..k] + [i] + order[k..]| ==> (order[..k] + [i] + order[k..])[j] < |timers|
    ensures Listed(timers, order[..k] + [i] + order[k..]) == With(Listed(timers, order), k, timers[i])
  {
    var longer, list := order[..k] + [i] + order[k..], Listed(timers, order);
    var a, b := Listed(timers, longer), With(list, k, timers[i]);
    forall j | 0 <= j < |longer| ensures a[j] == b[j] {
      if j < k {
        assert longer[j] == order[j] && b[j] == list[j];
      } else if j > k {
        assert longer[j] == order[j - 1] && b[j] == list[j - 1];
      }
    }
  }

  method ArmOne(l: TimerList, timers: seq<Timer>, i: nat, ts: int, ghost base: int, ghost s: Schedule)
    requires l.Linked() && l.InOrder(base) && l.all == (set t | t in timers) && Distinct(timers)
    requires Shows(l, timers, s) && i < |timers| && InWindow(base, ts)
    modifies l, timers
    ensures l.Linked() && l.InOrder(base) && l.all == old(l.all) && Shows(l, timers, After(s, Arm(i, ts)))
  {
    hide Rank, LessThan, InWindow, OrderBut, Ordered, ComesAt, With, Without, Listed, Remove, After;
    var t := timers[i];
    OrderedBut(base, l.list, l.target, t);
    Rekey(l, t, ts, base);
    Retimed(timers, s.ts, i, ts);
    EnableKeyed(l, timers, i, ts, base, s);
  }

  lemma Retimed(timers: seq<Timer>, ts: seq<int>, i: nat, x: int)
    requires Distinct(timers) && i < |timers| == |ts| && timers[i].ts == x
    requires forall j :: 0 <= j < |timers| && j != i ==> timers[j].ts == ts[j]
    ensures Times(timers) == ts[i := x]
  {
  }

  method EnableKeyed(l: TimerList, timers: seq<Timer>, i: nat, ts: int, ghost base: int, ghost s: Schedule)
    requires l.Linked() && l.all == (set t | t in timers) && Distinct(timers) && InWindow(base, ts)
    requires i < |timers| == |s.ts| && timers[i].ts == ts && OrderBut(base, l.list, l.target, timers[i])
    requires ScheduleOk(s) && l.list == Listed(timers, s.order) && l.target == s.target && Times(timers) == s.ts[i := ts]
    modifies l, timers
    ensures l.Linked() && l.InOrder(base) && l.all == old(l.all) && Shows(l, timers, After(s, Arm(i, ts)))
  {
    hide Rank, LessThan, InWindow, OrderBut, Ordered, ComesAt, With, Without, Listed, Remove, Place;
    ghost var list, on := l.list, timers[i].enabled;
    EnabledListed(l);
    ghost var rest, k := l.TimerEnable(timers[i], base);
    Detached(list, rest, on, timers, s.order, i);
    assert Times(timers) == old(Times(timers));
    ArmShown(timers, s, i, ts, rest, k);
  }

  lemma ProcessShown(timers: seq<Timer>, s: Schedule, tsc: int)
    requires ScheduleOk(s) && s.ts == Times(timers) && s.order != []
    ensures var list := Listed(timers, s.order);
      list[0].ts == s.ts[s.order[0]] && Without(list, 0) == Listed(timers, s.order[1..])
  {
    ListedTail(timers, s.order);
    assert Without(Listed(timers, s.order), 0) == Listed(timers, s.order)[1..];
  }

  method ProcessOne(l: TimerList, timers: seq<Timer>, tsc: int, ghost base: int, ghost s: Schedule)
    requires l.Linked() && l.InOrder(base) && l.all == (set t | t in timers)
    requires Shows(l, timers, s) && InWindow(base, tsc)
    modifies l, timers
    ensures l.Linked() && l.InOrder(base) && l.all == old(l.all) && Shows(l, timers, After(s, Process(tsc)))
  {
    hide LessThan, Rank, Ordered, InWindow, Listed, Without;
    if s.order != [] {
      ProcessShown(timers, s, tsc);
      OrderedHead(base, l.list, l.target);
      WindowOrder(base, l.list[0].ts, tsc);
    }
    var t := l.Due(tsc, base);
    assert Times(timers) == s.ts;
  }

  lemma OrderedHead(base: int, list: seq<Timer>, target: int)
    requires Ordered(base, list, target) && list != []
    ensures InWindow(base, list[0].ts)
  {
  }

  // A new expiry time, set directly by a timer's owner.
  method Rekey(l: TimerList, t: Timer, ts: int, ghost base: int)
    requires l.Linked() && OrderBut(base, l.list, l.target, t)
    modifies t`ts
    ensures t.ts == ts && l.Linked() && OrderBut(base, l.list, l.target, t)
  {
    hide Rank;
    t.ts := ts;
    forall i | 0 <= i < |l.list| ensures NodeOk(l.list, i) {
      assert old(NodeOk(l.list, i));
    }
    forall x | x in l.all && x !in l.list ensures Idle(x) {
      assert old(Idle(x));
    }
  }

  lemma SortedOf(base: int, list: seq<Timer>, target: int)
    requires Ordered(base, list, target)
    ensures Sorted(base, list)
  {
  }

  lemma OneOrdered(base: int, rest: seq<Timer>, t: Timer)
    requires InWindow(base, t.ts) && rest == []
    ensures Ordered(base, [t], t.ts) && With(rest, 0, t) == [t]
  {
  }

  lemma WithOrdered(base: int, list: seq<Timer>, k: nat, t: Timer, target: int, target': int)
    requires Ordered(base, list, target) && InWindow(base, t.ts) && ComesAt(list, t.ts, k)
    requires target' == if k == 0 then t.ts else target
    ensures Ordered(base, With(list, k, t), target')
  {
    forall i | 0 <= i < |list| ensures LessThan(t.ts, list[i].ts) <==> Rank(base, t.ts) <= Rank(base, list[i].ts) {
      WindowOrder(base, t.ts, list[i].ts);
    }
    hide Rank, LessThan;
    WithSorted(base, list, k, t);
  }

  // Node i once the links pass over node k.
  predicate SkipOk(list: seq<Timer>, k: nat, i: nat)
    requires i < |list|
    reads list[i]
  {
    && list[i].enabled && list[i].prev == At(list, if i == k + 1 then k - 1 else i - 1)
    && list[i].next == At(list, if i == k - 1 then k + 1 else i + 1)
  }

  // Node i, when the only links changed are those of node k and those that led to it.
  lemma Bypassed(list: seq<Timer>, k: nat, i: nat, prev: Timer?, next: Timer?)
    requires k < |list| && i < |list| && i != k && Distinct(list)
    requires list[i].enabled && prev == At(list, i - 1) && next == At(list, i + 1)
    requires list[i].next == if list[i] == At(list, k - 1) then At(list, k + 1) else next
    requires list[i].prev == if list[i] == At(list, k + 1) then At(list, k - 1) else prev
    ensures SkipOk(list, k, i)
  {
    Differ(list, i, k - 1);
    Differ(list, i, k + 1);
    AtSelf(list, i);
  }

  lemma SkippedOk(list: seq<Timer>, k: nat)
    requires k < |list| && forall i :: 0 <= i < |list| && i != k ==> SkipOk(list, k, i)
    ensures forall i :: 0 <= i < |Without(list, k)| ==> NodeOk(Without(list, k), i)
  {
    forall i | 0 <= i < |Without(list, k)| ensures NodeOk(Without(list, k), i) {
      var j := if i < k then i else i + 1;
      assert SkipOk(list, k, j);
      AtWithout(list, k, i - 1);
      AtWithout(list, k, i);
      AtWithout(list, k, i + 1);
      hide Without;
    }
  }

  // Node i once t has been linked in front of node k.
  predicate RoomOk(list: seq<Timer>, k: nat, t: Timer, i: nat)
    requires i < |list|
    reads list[i]
  {
    && list[i].enabled && list[i].prev == (if i == k then t else At(list, i - 1))
    && list[i].next == (if i == k - 1 then t else At(list, i + 1))
  }

  lemma RoomedOk(list: seq<Timer>, k: nat, t: Timer)
    requires k <= |list| && (forall i :: 0 <= i < |list| ==> RoomOk(list, k, t, i))
    requires t.enabled && t.prev == At(list, k - 1) && t.next == At(list, k)
    ensures forall i :: 0 <= i < |With(list, k, t)| ==> NodeOk(With(list, k, t), i)
  {
    forall i | 0 <= i < |With(list, k, t)| ensures NodeOk(With(list, k, t), i) {
      if i != k {
        assert RoomOk(list, k, t, if i < k then i else i - 1);
      }
      AtWith(list, k, t, i - 1);
      AtWith(list, k, t, i);
      AtWith(list, k, t, i + 1);
      hide With;
    }
  }

  lemma AtIn(list: seq<Timer>, i: int)
    ensures At(list, i) != null ==> At(list, i) in list
  {
  }

  lemma AtSelf(list: seq<Timer>, k: nat)
    requires k < |list|
    ensures At(list, k) == list[k]
  {
  }

  lemma AtFirst(list: seq<Timer>, k: nat)
    requires k < |list|
    ensures At(list, k - 1) == null <==> k == 0
  {
  }

  lemma Differ(list: seq<Timer>, i: nat, j: int)
    requires Distinct(list) && i < |list|
    ensures i != j ==> At(list, j) != list[i]
  {
  }

  lemma AtWithout(list: seq<Timer>, k: nat, i: int)
    requires k < |list|
    ensures At(Without(list, k), i) == At(list, if i < k then i else i + 1)
  {
  }

  lemma AtWith(list: seq<Timer>, k: nat, t: Timer, i: int)
    requires k <= |list|
    ensures At(With(list, k, t), i) == if i == k then t else At(list, if i < k then i else i - 1)
  {
  }

  lemma WithoutOk(list: seq<Timer>, k: nat)
    requires Distinct(list) && k < |list|
    ensures Distinct(Without(list, k)) && |Without(list, k)| == |list| - 1
    ensures forall i :: 0 <= i < |list| - 1 ==> Without(list, k)[i] == list[if i < k then i else i + 1]
    ensures forall x :: x in Without(list, k) <==> x in list && x != list[k]
  {
    var l := Without(list, k);
    forall x | x in list && x != list[k] ensures x in l {
      var i :| 0 <= i < |list| && list[i] == x;
      assert l[if i < k then i else i - 1] == x;
    }
  }

  lemma WithOk(list: seq<Timer>, k: nat, t: Timer)
    requires Distinct(list) && k <= |list| && t !in list
    ensures Distinct(With(list, k, t)) && |With(list, k, t)| == |list| + 1
    ensures forall i :: 0 <= i <= |list| ==> With(list, k, t)[i] == if i < k then list[i] else if i == k then t else list[i - 1]
    ensures forall x :: x in With(list, k, t) <==> x in list || x == t
  {
    var l := With(list, k, t);
    assert l[k] == t;
    forall x | x in list ensures x in l {
      var i :| 0 <= i < |list| && list[i] == x;
      assert l[if i < k then i else i + 1] == x;
    }
  }

  lemma WithSorted(base: int, list: seq<Timer>, k: nat, t: Timer)
    requires Sorted(base, list) && k <= |list| && InWindow(base, t.ts)
    requires forall i :: 0 <= i < k ==> Rank(base, list[i].ts) < Rank(base, t.ts)
    requires k < |list| ==> Rank(base, t.ts) <= Rank(base, list[k].ts)
    ensures Sorted(base, With(list, k, t))
  {
    hide Rank;
  }
}
