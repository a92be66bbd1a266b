// Bytes, optional values and the LEB128 integers of the WebAssembly binary format
// (section 5.2.2 of the WebAssembly Core Specification 1.0).
module Common {
  type Byte = x: int | 0 <= x < 0x100

  datatype Option<+T> = None | Some(value: T)

  function Pow2(n: nat): (p: int)
    ensures p > 0
  {
    if n == 0 then 1 else 2 * Pow2(n - 1)
  }

  lemma {:induction false} Pow2Monotone(m: nat, n: nat)
    requires m <= n
    ensures Pow2(m) <= Pow2(n)
    decreases n
  {
    if m < n {
      Pow2Monotone(m, n - 1);
    }
  }

  // The only instance of Pow2(n) == 128 * Pow2(n - 7) the readers need, unfolded by hand.
  lemma Pow2Plus7(n: nat)
    ensures Pow2(n + 7) == 128 * Pow2(n)
  {
    assert Pow2(n + 7) == 2 * Pow2(n + 6) == 4 * Pow2(n + 5) == 8 * Pow2(n + 4);
    assert Pow2(n + 4) == 2 * Pow2(n + 3) == 4 * Pow2(n + 2) == 8 * Pow2(n + 1) == 16 * Pow2(n);
  }

  // ---- sequences of sequences -----------------------------------------------------

  function Concat<T>(ss: seq<seq<T>>): seq<T> {
    if ss == [] then [] else ss[0] + Concat(ss[1..])
  }

  lemma Associate<T>(a: seq<T>, b: seq<T>, c: seq<T>)
    ensures a + (b + c) == (a + b) + c
  {
  }

  lemma {:induction false} ConcatAppend<T>(ss: seq<seq<T>>, tt: seq<seq<T>>)
    ensures Concat(ss + tt) == Concat(ss) + Concat(tt)
  {
    if ss == [] {
      assert ss + tt == tt;
    } else {
      assert (ss + tt)[1..] == ss[1..] + tt;
      ConcatAppend(ss[1..], tt);
    }
  }

  lemma ConcatSnoc<T>(ss: seq<seq<T>>, t: seq<T>)
    ensures Concat(ss + [t]) == Concat(ss) + t
  {
    ConcatAppend(ss, [t]);
    assert Concat([t]) == t + Concat([]) == t;
  }
}

module Leb128 {
  import opened Common

  // ---- what the emitter writes -------------------------------------------------

  // The bytes of wemit_uleb for a value with no sign.
  function ULeb(v: nat): (s: seq<Byte>)
    ensures |s| > 0
  {
    if v < 0x80 then [v] else [v % 0x80 + 0x80] + ULeb(v / 0x80)
  }

  // The bytes of wemit_sleb64. Dafny's / and % floor for a positive divisor, which is
  // what the arithmetic shift and the 7-bit mask of the original compute.
  function SLeb(v: int): (s: seq<Byte>)
    ensures |s| > 0
    decreases if v < 0 then -v - 1 else v
  {
    if SLebEnds(v) then [v % 0x80] else [v % 0x80 + 0x80] + SLeb(v / 0x80)
  }

  predicate SLebEnds(v: int) {
    || (v / 0x80 == 0 && v % 0x80 < 0x40)
    || (v / 0x80 == -1 && v % 0x80 >= 0x40)
  }

  // A value written in five bytes whatever its size: the branch-depth placeholder.
  function ULeb5(v: nat): seq<Byte> {
    var v1 := v / 0x80;
    var v2 := v1 / 0x80;
    var v3 := v2 / 0x80;
    var v4 := v3 / 0x80;
    [v % 0x80 + 0x80, v1 % 0x80 + 0x80, v2 % 0x80 + 0x80, v3 % 0x80 + 0x80, v4 % 0x80]
  }

  // ---- what a reader of the format accepts ---------------------------------------

  // uN: at most ceil(N/7) bytes, and no bit set beyond the N-th.
  function ReadU(n: nat, s: seq<Byte>): (r: Option<(nat, seq<Byte>)>)
    ensures r.Some? ==> |r.value.1| < |s|
    decreases n
  {
    if s == [] then None
    else if s[0] < 0x80 then
      if s[0] < Pow2(n) then Some((s[0] as int, s[1..])) else None
    else if n <= 7 then None
    else match ReadU(n - 7, s[1..])
      case None => None
      case Some((m, rest)) => Some((m * 0x80 + (s[0] - 0x80), rest))
  }

  // sN, two's complement; the last byte must be a proper sign extension.
  function ReadS(n: nat, s: seq<Byte>): (r: Option<(int, seq<Byte>)>)
    ensures r.Some? ==> |r.value.1| < |s|
    decreases n
  {
    if s == [] || n == 0 then None
    else if s[0] < 0x40 then
      if s[0] < Pow2(n - 1) then Some((s[0] as int, s[1..])) else None
    else if s[0] < 0x80 then
      if s[0] >= 0x80 - Pow2(n - 1) then Some((s[0] as int - 0x80, s[1..])) else None
    else if n <= 7 then None
    else match ReadS(n - 7, s[1..])
      case None => None
      case Some((m, rest)) => Some((m * 0x80 + (s[0] - 0x80), rest))
  }

  // ---- round trips -------------------------------------------------------------

  lemma {:induction false} ULebRoundTrip(n: nat, v: nat, rest: seq<Byte>)
    requires v < Pow2(n)
    ensures ReadU(n, ULeb(v) + rest) == Some((v, rest))
    decreases n
  {
    var s := ULeb(v) + rest;
    Pow2Plus7(0);
    if n <= 7 {
      Pow2Monotone(n, 7);
    }
    if v < 0x80 {
      assert s[1..] == rest;
    } else {
      Pow2Plus7(n - 7);
      assert s[1..] == ULeb(v / 0x80) + rest;
      ULebRoundTrip(n - 7, v / 0x80, rest);
    }
  }

  lemma {:induction false} SLebRoundTrip(n: nat, v: int, rest: seq<Byte>)
    requires n > 0 && -Pow2(n - 1) <= v < Pow2(n - 1)
    ensures ReadS(n, SLeb(v) + rest) == Some((v, rest))
    decreases n
  {
    var s := SLeb(v) + rest;
    Pow2Plus7(0);
    if n <= 7 {
      Pow2Monotone(n - 1, 6);
    }
    if SLebEnds(v) {
      assert s[1..] == rest;
    } else {
      Pow2Plus7(n - 8);
      assert s[1..] == SLeb(v / 0x80) + rest;
      SLebRoundTrip(n - 7, v / 0x80, rest);
    }
  }

  // One continuation byte in front of bytes that read as m / 128 makes them read as m.
  lemma ReadUStep(n: nat, m: nat, t: seq<Byte>, rest: seq<Byte>) returns (s: seq<Byte>)
    requires n > 7 && ReadU(n - 7, t) == Some((m / 0x80, rest))
    ensures s == [m % 0x80 + 0x80] + t
    ensures ReadU(n, s) == Some((m, rest))
  {
    s := [m % 0x80 + 0x80] + t;
    assert s[1..] == t;
  }

  // Shifting the depth by 7, 14, 21 and 28 bits is shifting it by 7 again and again.
  lemma ShiftsCompose(v: nat)
    ensures v / 0x4000 == v / 0x80 / 0x80
    ensures v / 0x20_0000 == v / 0x80 / 0x80 / 0x80
    ensures v / 0x1000_0000 == v / 0x80 / 0x80 / 0x80 / 0x80
  {
  }

  // The padded placeholder reads back as the same number.
  lemma ULeb5RoundTrip(v: nat, rest: seq<Byte>)
    requires v < 0x1_0000_0000
    ensures ReadU(32, ULeb5(v) + rest) == Some((v, rest))
  {
    var v1 := v / 0x80;
    var v2 := v1 / 0x80;
    var v3 := v2 / 0x80;
    var v4 := v3 / 0x80;
    var s4 := [v4 as Byte] + rest;
    assert s4[1..] == rest && ReadU(4, s4) == Some((v4, rest)) by { assert Pow2(4) == 16; }
    var s3 := ReadUStep(11, v3, s4, rest);
    var s2 := ReadUStep(18, v2, s3, rest);
    var s1 := ReadUStep(25, v1, s2, rest);
    var s0 := ReadUStep(32, v, s1, rest);
    assert ULeb5(v) + rest == s0;
  }

  // A number below 2^(7k) takes at most k bytes.
  lemma {:induction false} ULebLength(v: nat, k: nat)
    requires k > 0 && v < Pow2(7 * k)
    ensures |ULeb(v)| <= k
    decreases k
  {
    Pow2Plus7(0);
    if v >= 0x80 {
      Pow2Plus7(7 * (k - 1));
      ULebLength(v / 0x80, k - 1);
    }
  }
}
