// The jump bookkeeping of codegen_ir_compile (core/src/codegen/codegen_ir.c): one link per
// uop, jump_list_next, is both the head of the list of jumps to that uop and its place in
// the list it is itself a member of.
module JumpLists {
  import opened Common
  import opened Uops

  // A uop, and for a jump the index of the uop it goes to (the end of the list included).
  datatype Node = Node(uop: Uop, dest: nat)

  predicate NodeOk(prog: seq<Node>, c: nat)
    requires c < |prog|
  {
    UopOk(prog[c].uop) && (IsJump(prog[c].uop) ==> c < prog[c].dest <= |prog|)
  }

  ghost predicate ProgOk(prog: seq<Node>) {
    forall c :: 0 <= c < |prog| ==> NodeOk(prog, c)
  }

  predicate Jumps(prog: seq<Node>, i: nat) { i < |prog| && IsJump(prog[i].uop) }

  // ---- where a jump ends up ---------------------------------------------------------

  // The first place from c on along a chain of jumps; beyond the end for none.
  function Root(prog: seq<Node>, x: nat, c: nat): (r: nat)
    requires ProgOk(prog) && x <= |prog| && c <= |prog|
    ensures r <= |prog| ==> x <= r && c <= r
    decreases |prog| - x
  {
    if x >= c then x
    else if Jumps(prog, x) then
      assert NodeOk(prog, x);
      Root(prog, prog[x].dest, c)
    else |prog| + 1
  }

  // The last place below c along the chain of jumps from i.
  function Target(prog: seq<Node>, i: nat, c: nat): (t: nat)
    requires ProgOk(prog) && Jumps(prog, i) && prog[i].dest < c
    ensures i < t <= |prog| && t < c
    decreases |prog| - i
  {
    assert NodeOk(prog, i);
    var d := prog[i].dest;
    if Jumps(prog, d) && prog[d].dest < c then Target(prog, d, c) else d
  }

  // The end of the chain of jumps from i.
  function Final(prog: seq<Node>, i: nat): (t: nat)
    requires ProgOk(prog) && Jumps(prog, i)
    ensures i < t <= |prog| && !Jumps(prog, t)
    decreases |prog| - i
  {
    assert NodeOk(prog, i);
    if Jumps(prog, prog[i].dest) then Final(prog, prog[i].dest) else prog[i].dest
  }

  lemma {:induction false} TargetFinal(prog: seq<Node>, i: nat)
    requires ProgOk(prog) && Jumps(prog, i) && prog[i].dest < |prog| + 1
    ensures Target(prog, i, |prog| + 1) == Final(prog, i)
    decreases |prog| - i
  {
    assert NodeOk(prog, i);
    var d := prog[i].dest;
    if Jumps(prog, d) {
      assert NodeOk(prog, d);
      TargetFinal(prog, d);
    }
  }

  lemma {:induction false} RootStep(prog: seq<Node>, x: nat, c: nat)
    requires ProgOk(prog) && x <= |prog| && c < |prog|
    ensures Root(prog, x, c + 1) ==
      if Root(prog, x, c) != c then Root(prog, x, c)
      else if Jumps(prog, c) then prog[c].dest else |prog| + 1
    decreases |prog| - x
  {
    if x == c {
      assert NodeOk(prog, c);
    } else if x < c && Jumps(prog, x) {
      assert NodeOk(prog, x);
      RootStep(prog, prog[x].dest, c);
    }
  }

  // Binding the jumps whose chain has come to c moves just their targets to c.
  lemma {:induction false} TargetStep(prog: seq<Node>, i: nat, c: nat)
    requires ProgOk(prog) && i < c <= |prog| && Jumps(prog, i)
    ensures prog[i].dest < c + 1 <==> prog[i].dest < c || prog[i].dest == c
    ensures Root(prog, i, c) == c ==> prog[i].dest <= c && Target(prog, i, c + 1) == c
    ensures Root(prog, i, c) != c && prog[i].dest <= c ==> prog[i].dest < c && Target(prog, i, c + 1) == Target(prog, i, c)
    decreases |prog| - i
  {
    assert NodeOk(prog, i);
    var d := prog[i].dest;
    assert Root(prog, i, c) == Root(prog, d, c);
    if d == c {
      assert Jumps(prog, c) ==> NodeOk(prog, c);
    } else if d < c && Jumps(prog, d) {
      assert NodeOk(prog, d);
      TargetStep(prog, d, c);
    }
  }

  // The program the driver compiles: every jump sent on along its chain of jumps.
  function Threaded(prog: seq<Node>): (q: seq<Node>)
    requires ProgOk(prog)
    ensures |q| == |prog|
    ensures forall i :: 0 <= i < |prog| ==> q[i].uop == prog[i].uop
  {
    seq(|prog|, i requires 0 <= i < |prog| =>
      if Jumps(prog, i) then Node(prog[i].uop, Final(prog, i)) else prog[i])
  }

  lemma ThreadedOk(prog: seq<Node>)
    requires ProgOk(prog)
    ensures ProgOk(Threaded(prog))
  {
    forall c | 0 <= c < |prog| ensures NodeOk(Threaded(prog), c) {
      assert NodeOk(prog, c);
    }
  }

  // No jump goes to a jump.
  ghost predicate NoJumpToJump(prog: seq<Node>) {
    forall i: nat :: Jumps(prog, i) ==> !Jumps(prog, prog[i].dest)
  }

  // Just then every jump is bound to its own destination.
  lemma ThreadedSame(prog: seq<Node>)
    requires ProgOk(prog)
    ensures Threaded(prog) == prog <==> NoJumpToJump(prog)
  {
    var q := Threaded(prog);
    if NoJumpToJump(prog) {
      forall i | 0 <= i < |prog| ensures q[i] == prog[i] {
        assert NodeOk(prog, i);
      }
    } else {
      var i: nat :| Jumps(prog, i) && Jumps(prog, prog[i].dest);
      assert q[i].dest == Final(prog, prog[i].dest) > prog[i].dest;
    }
  }

  // ---- the links -------------------------------------------------------------------

  predicate Distinct(s: seq<nat>) {
    forall k, l :: 0 <= k < l < |s| ==> s[k] != s[l]
  }

  function LinkOf(s: seq<nat>, k: nat): int { if k + 1 < |s| then s[k + 1] else -1 }

  predicate LinkAt(next: seq<int>, s: seq<nat>, k: nat)
    requires k < |s|
  {
    s[k] < |next| && next[s[k]] == LinkOf(s, k)
  }

  // s is a list: each of its links leads to the next, the last one to none.
  predicate Linked(next: seq<int>, s: seq<nat>) {
    forall k :: 0 <= k < |s| ==> LinkAt(next, s, k)
  }

  // The members of the list of place d, once the uops below c are out: those whose chain of
  // jumps has come to d.
  ghost predicate Members(prog: seq<Node>, c: nat, s: seq<nat>, d: nat)
    requires ProgOk(prog) && c <= |prog|
  {
    && Distinct(s)
    && (forall x :: x in s ==> x < |prog| && Root(prog, x, c) == d)
    && (forall x :: 0 <= x < |prog| && Root(prog, x, c) == d ==> x in s)
  }

  // The links once t has been put behind s.
  function Spliced(next: seq<int>, s: seq<nat>, t: nat): (r: seq<int>)
    requires Linked(next, s)
    ensures |r| == |next|
  {
    if s == [] then next else
      assert LinkAt(next, s, |s| - 1);
      next[s[|s| - 1] := t]
  }

  lemma SplicedLinked(next: seq<int>, s: seq<nat>, t: seq<nat>)
    requires Linked(next, s) && Linked(next, t) && t != []
    requires Distinct(s) && forall x :: x in s ==> x !in t
    ensures Linked(Spliced(next, s, t[0]), s + t)
  {
    var r := Spliced(next, s, t[0]);
    forall k | 0 <= k < |s + t| ensures LinkAt(r, s + t, k) {
      if k < |s| {
        assert LinkAt(next, s, k);
      } else {
        assert (s + t)[k] == t[k - |s|] && LinkAt(next, t, k - |s|);
        assert s != [] ==> s[|s| - 1] in s;
      }
    }
  }

  lemma OtherLinked(next: seq<int>, s: seq<nat>, t: nat, u: seq<nat>)
    requires Linked(next, s) && Linked(next, u) && forall x :: x in s ==> x !in u
    ensures Linked(Spliced(next, s, t), u)
  {
    forall k | 0 <= k < |u| ensures LinkAt(Spliced(next, s, t), u, k) {
      assert LinkAt(next, u, k);
      assert s != [] ==> s[|s| - 1] in s;
    }
  }

  lemma Joined(prog: seq<Node>, c: nat, s: seq<nat>, t: seq<nat>)
    requires ProgOk(prog) && Jumps(prog, c)
    requires Members(prog, c, s, prog[c].dest) && Members(prog, c, t, c)
    ensures Members(prog, c + 1, s + t, prog[c].dest)
    ensures forall x :: x in s ==> x !in t
  {
    assert NodeOk(prog, c);
    var d := prog[c].dest;
    forall x | 0 <= x < |prog| ensures Root(prog, x, c + 1) == d <==> x in s + t {
      RootStep(prog, x, c);
    }
    assert forall k :: 0 <= k < |s| ==> s[k] in s;
    assert forall k :: 0 <= k < |t| ==> t[k] in t;
  }

  lemma OtherMembers(prog: seq<Node>, c: nat, s: seq<nat>, d: nat)
    requires ProgOk(prog) && c < |prog| && c < d <= |prog| && Members(prog, c, s, d)
    requires !Jumps(prog, c) || prog[c].dest != d
    ensures Members(prog, c + 1, s, d)
  {
    forall x | 0 <= x < |prog| ensures Root(prog, x, c + 1) == d <==> Root(prog, x, c) == d {
      RootStep(prog, x, c);
    }
  }

  ghost predicate ListOk(prog: seq<Node>, c: nat, next: seq<int>, s: seq<nat>, d: nat)
    requires ProgOk(prog) && c <= |prog|
  {
    Members(prog, c, s, d) && Linked(next, s)
  }

  // lists[d] is uop d and the jumps waiting for it; lists[|prog|] the jumps to the end.
  ghost predicate ListsOk(prog: seq<Node>, c: nat, next: seq<int>, lists: seq<seq<nat>>)
    requires ProgOk(prog) && c <= |prog|
  {
    && |lists| == |prog| + 1
    && (forall d :: c <= d <= |prog| ==> ListOk(prog, c, next, lists[d], d))
    && (forall d :: c <= d < |prog| ==> lists[d] != [] && lists[d][0] == d)
  }

  // A jump just emitted, c, joins the list of its destination, with the list it heads.
  function Appended(prog: seq<Node>, c: nat, lists: seq<seq<nat>>): seq<seq<nat>>
    requires Jumps(prog, c) && c < |lists| && prog[c].dest < |lists|
  {
    lists[prog[c].dest := lists[prog[c].dest] + lists[c]]
  }

  lemma AppendedOk(prog: seq<Node>, c: nat, next: seq<int>, lists: seq<seq<nat>>)
    requires ProgOk(prog) && Jumps(prog, c) && ListsOk(prog, c, next, lists)
    ensures prog[c].dest < |lists| && Linked(next, lists[prog[c].dest])
    ensures ListsOk(prog, c + 1, Spliced(next, lists[prog[c].dest], c), Appended(prog, c, lists))
  {
    assert NodeOk(prog, c);
    var d := prog[c].dest;
    var s, t, n := lists[d], lists[c], c + 1;
    assert ListOk(prog, c, next, s, d) && ListOk(prog, c, next, t, c);
    var next', lists' := Spliced(next, s, c), Appended(prog, c, lists);
    hide Members, Linked, Spliced;
    Joined(prog, c, s, t);
    Apart(prog, c, s, d, t, c);
    SplicedLinked(next, s, t);
    forall e | n <= e <= |prog| ensures ListOk(prog, n, next', lists'[e], e) {
      if e != d {
        assert ListOk(prog, c, next, lists[e], e);
        OtherMembers(prog, c, lists[e], e);
        Apart(prog, c, s, d, lists[e], e);
        OtherLinked(next, s, c, lists[e]);
      }
    }
  }

  lemma Apart(prog: seq<Node>, c: nat, s: seq<nat>, d: nat, t: seq<nat>, e: nat)
    requires ProgOk(prog) && c <= |prog| && Members(prog, c, s, d) && Members(prog, c, t, e) && d != e
    ensures Distinct(s) && forall x :: x in s ==> x !in t
  {
  }

  // A uop that does not jump leaves the links alone.
  lemma PassedOk(prog: seq<Node>, c: nat, next: seq<int>, lists: seq<seq<nat>>)
    requires ProgOk(prog) && c < |prog| && !Jumps(prog, c) && ListsOk(prog, c, next, lists)
    ensures ListsOk(prog, c + 1, next, lists)
  {
    var n := c + 1;
    forall d | n <= d <= |prog| ensures ListOk(prog, n, next, lists[d], d) {
      assert ListOk(prog, c, next, lists[d], d);
      OtherMembers(prog, c, lists[d], d);
    }
  }

  // The links while the uops from c on are still to be emitted.
  class JumpThreads {
    const prog: seq<Node>
    const next: array<int>
    const isDest: array<bool>
    var jumpTargetAtEnd: int
    ghost var lists: seq<seq<nat>>

    constructor (prog: seq<Node>)
      requires ProgOk(prog)
      ensures this.prog == prog && Valid(0) && fresh(next) && fresh(isDest)
    {
      this.prog := prog;
      next := new int[|prog|](_ => -1);
      isDest := new bool[|prog|](_ => false);
      jumpTargetAtEnd := -1;
      lists := seq(|prog| + 1, d requires 0 <= d <= |prog| => if d < |prog| then [d] else []);
      new;
      forall d | 0 <= d <= |prog| ensures ListOk(prog, 0, next[..], lists[d], d) {
        assert Linked(next[..], lists[d]);
      }
    }

    ghost predicate Valid(c: nat)
      reads this, next, isDest
    {
      && ProgOk(prog) && c <= |prog| && next.Length == isDest.Length == |prog|
      && ListsOk(prog, c, next[..], lists)
      && (forall d :: c <= d < |prog| && |lists[d]| > 1 ==> isDest[d])
      && jumpTargetAtEnd == (if lists[|prog|] == [] then -1 else lists[|prog|][0])
    }

    // Put uop c behind the last uop of the list that starts at x.
    method LinkBehind(x: nat, c: nat, ghost s: seq<nat>)
      requires s != [] && s[0] == x && Linked(next[..], s)
      modifies next
      ensures next[..] == Spliced(old(next[..]), s, c)
    {
      var tail := x;
      ghost var k := 0;
      assert LinkAt(next[..], s, 0);
      while next[tail] != -1
        invariant k < |s| && tail == s[k] && LinkAt(next[..], s, k)
        decreases |s| - k
      {
        k := k + 1;
        assert LinkAt(next[..], s, k);
        tail := next[tail];
      }
      next[tail] := c;
    }

    method Append(c: nat)
      requires Valid(c) && Jumps(prog, c)
      modifies this, next, isDest
      ensures Valid(c + 1)
    {
      assert NodeOk(prog, c);
      AppendedOk(prog, c, next[..], lists);
      hide ListsOk, Linked, Spliced;
      var d := prog[c].dest;
      ghost var s := lists[d];
      if d == |prog| {
        if jumpTargetAtEnd == -1 {
          jumpTargetAtEnd := c;
        } else {
          LinkBehind(jumpTargetAtEnd, c, s);
        }
      } else {
        LinkBehind(d, c, s);
        isDest[d] := true;
      }
      lists := Appended(prog, c, lists);
    }

    // What is done about uop c once it has been emitted.
    method Advance(c: nat)
      requires Valid(c) && c < |prog|
      modifies this, next, isDest
      ensures Valid(c + 1)
    {
      if Jumps(prog, c) {
        Append(c);
      } else {
        PassedOk(prog, c, next[..], lists);
      }
    }
  }
}
