// core/src/fdi2raw.c: the Huffman sub-streams of FDI tracks. A sub-stream is two header
// bytes, the shape of a code tree in preorder bits, the leaf values, and the code bits.
module Huffman {
  import opened Common
  import opened Bits

  datatype Tree = Leaf(v: bv16) | Node(left: Tree, right: Tree)

  // ---- reading -----------------------------------------------------------------------

  // The shape of the tree whose preorder bits start at p, and where they end.
  function ShapeAt(stream: seq<bv8>, p: nat): (r: Option<(Tree, nat)>)
    ensures r.Some? ==> p < r.value.1 <= 8 * |stream|
    decreases 8 * |stream| - p
  {
    if p >= 8 * |stream| then None
    else if Bit(stream, p) then Some((Leaf(0), p + 1))
    else match ShapeAt(stream, p + 1)
      case None => None
      case Some((left, q)) =>
        match ShapeAt(stream, q)
        case None => None
        case Some((right, e)) => Some((Node(left, right), e))
  }

  function Value16(high: bv8, low: bv8): bv16 { (high as bv16 << 8) | (low as bv16) }

  // The tree with the leaf values found from byte pos on.
  function FillAt(wide: bool, stream: seq<bv8>, t: Tree, pos: nat): (r: Option<(Tree, nat)>)
    ensures r.Some? ==> pos < r.value.1 <= |stream|
    decreases t
  {
    match t
    case Leaf(_) =>
      if wide then
        if pos + 2 > |stream| then None else Some((Leaf(Value16(stream[pos], stream[pos + 1])), pos + 2))
      else
        if pos + 1 > |stream| then None else Some((Leaf(stream[pos] as bv16), pos + 1))
    case Node(left, right) =>
      match FillAt(wide, stream, left, pos)
      case None => None
      case Some((l, q)) =>
        match FillAt(wide, stream, right, q)
        case None => None
        case Some((r, e)) => Some((Node(l, r), e))
  }

  // One symbol: down the tree, right for a 1.
  function WalkAt(stream: seq<bv8>, t: Tree, p: nat): (r: Option<(bv16, nat)>)
    ensures r.Some? ==> p <= r.value.1 && (r.value.1 <= p || r.value.1 <= 8 * |stream|)
    decreases t
  {
    match t
    case Leaf(v) => Some((v, p))
    case Node(left, right) =>
      if p >= 8 * |stream| then None
      else WalkAt(stream, if Bit(stream, p) then right else left, p + 1)
  }

  function SymbolsAt(stream: seq<bv8>, t: Tree, p: nat, n: nat): (r: Option<(seq<bv16>, nat)>)
    ensures r.Some? ==> |r.value.0| == n && p <= r.value.1 && (r.value.1 <= p || r.value.1 <= 8 * |stream|)
  {
    if n == 0 then Some(([], p))
    else match SymbolsAt(stream, t, p, n - 1)
      case None => None
      case Some((vs, q)) =>
        match WalkAt(stream, t, q)
        case None => None
        case Some((v, e)) => Some((vs + [v], e))
  }

  // The first whole byte behind bit p.
  function ByteAfter(p: nat): nat { (p + 7) / 8 }

  function Extend16(v: bv32): bv32 { if v & 0x8000 != 0 then v | 0xffff_0000 else v }

  function Extend8(v: bv32): bv32 { if v & 0x80 != 0 then v | 0xffff_ff00 else v }

  // What a symbol adds to its output word. Shifts of 32 and more are not defined by C.
  function Contribution(h0: bv8, h1: bv8, v: bv16): bv32 {
    var x := v as bv32;
    var extended := if h0 & 0x80 == 0 then x else if h1 & 0x80 != 0 then Extend16(x) else Extend8(x);
    ShiftLeft(extended, h0 & 0x7f)
  }

  function ShiftLeft(v: bv32, s: bv8): bv32 { if s < 32 then v << s else 0 }

  function Combine(out: seq<bv32>, h0: bv8, h1: bv8, vs: seq<bv16>): (r: seq<bv32>)
    requires |vs| == |out|
    ensures |r| == |out|
  {
    seq(|out|, i requires 0 <= i < |out| => out[i] | Contribution(h0, h1, vs[i]))
  }

  // One sub-stream from byte pos on: its header, its symbols, and where it ends.
  function SubAt(stream: seq<bv8>, pos: nat, size: nat): (r: Option<(bv8, bv8, seq<bv16>, nat)>)
    ensures r.Some? ==> pos < r.value.3 && |r.value.2| == size && pos + 2 <= |stream|
  {
    if pos + 2 > |stream| then None
    else match ShapeAt(stream, 8 * (pos + 2))
      case None => None
      case Some((shape, p)) =>
        match FillAt(stream[pos + 1] & 0x80 != 0, stream, shape, ByteAfter(p))
        case None => None
        case Some((tree, q)) =>
          match SymbolsAt(stream, tree, 8 * q, size)
          case None => None
          case Some((vs, e)) => Some((stream[pos], stream[pos + 1], vs, ByteAfter(e)))
  }

  function Zeros(n: nat): (r: seq<bv32>)
    ensures |r| == n
  {
    seq(n, _ => 0)
  }

  // Sub-streams up to and including the first with a shift of 0.
  function DecodeAt(stream: seq<bv8>, pos: nat, out: seq<bv32>): Option<(seq<bv32>, nat)>
    decreases |stream| - pos
  {
    match SubAt(stream, pos, |out|)
    case None => None
    case Some((h0, h1, vs, e)) =>
      var out' := Combine(out, h0, h1, vs);
      if h0 & 0x7f == 0 then Some((out', e)) else DecodeAt(stream, e, out')
  }

  // ---- writing -----------------------------------------------------------------------

  function ShapeBits(t: Tree): (r: seq<bool>)
    ensures |r| > 0
  {
    match t
    case Leaf(_) => [true]
    case Node(left, right) => [false] + ShapeBits(left) + ShapeBits(right)
  }

  function LeafBytes(wide: bool, t: Tree): (r: seq<bv8>)
    ensures |r| > 0
  {
    match t
    case Leaf(v) => if wide then [High(v), Low(v)] else [Low(v)]
    case Node(left, right) => LeafBytes(wide, left) + LeafBytes(wide, right)
  }

  function High(v: bv16): bv8 { (v >> 8) as bv8 }

  function Low(v: bv16): bv8 { (v & 0xff) as bv8 }

  // Leaf values a sub-stream of this width can carry.
  predicate Carries(wide: bool, t: Tree) {
    match t
    case Leaf(v) => wide || v <= 0xff
    case Node(left, right) => Carries(wide, left) && Carries(wide, right)
  }

  // A symbol is a path from the root to a leaf.
  predicate IsPath(t: Tree, path: seq<bool>) {
    match t
    case Leaf(_) => path == []
    case Node(left, right) => path != [] && IsPath(if path[0] then right else left, path[1..])
  }

  function Symbol(t: Tree, path: seq<bool>): bv16
    requires IsPath(t, path)
  {
    match t
    case Leaf(v) => v
    case Node(left, right) => Symbol(if path[0] then right else left, path[1..])
  }

  function PackByte(b: seq<bool>): bv8
    requires |b| == 8
  {
    (if b[0] then 0x80 else 0) | (if b[1] then 0x40 else 0) | (if b[2] then 0x20 else 0) | (if b[3] then 0x10 else 0)
    | (if b[4] then 0x08 else 0) | (if b[5] then 0x04 else 0) | (if b[6] then 0x02 else 0) | (if b[7] then 0x01 else 0)
  }

  // Bits to bytes, the last one padded with zeros.
  function Pack(bits: seq<bool>): (r: seq<bv8>)
    ensures |r| == ByteAfter(|bits|)
  {
    if bits == [] then []
    else if |bits| < 8 then [PackByte(bits + seq(8 - |bits|, _ => false))]
    else [PackByte(bits[..8])] + Pack(bits[8..])
  }

  datatype Sub = Sub(h0: bv8, h1: bv8, tree: Tree, paths: seq<seq<bool>>)

  predicate Wide(s: Sub) { s.h1 & 0x80 != 0 }

  predicate SubOk(s: Sub, size: nat) {
    Carries(Wide(s), s.tree) && |s.paths| == size && forall i :: 0 <= i < size ==> IsPath(s.tree, s.paths[i])
  }

  function Encode(s: Sub): seq<bv8> {
    [s.h0, s.h1] + Pack(ShapeBits(s.tree)) + LeafBytes(Wide(s), s.tree) + Pack(Concat(s.paths))
  }

  function Symbols(s: Sub): (r: seq<bv16>)
    requires forall i :: 0 <= i < |s.paths| ==> IsPath(s.tree, s.paths[i])
    ensures |r| == |s.paths|
  {
    seq(|s.paths|, i requires 0 <= i < |s.paths| => Symbol(s.tree, s.paths[i]))
  }

  // ---- bits in a stream ----------------------------------------------------------------

  ghost predicate BitsAt(stream: seq<bv8>, p: nat, bits: seq<bool>) {
    p + |bits| <= 8 * |stream| && forall i :: p <= i < p + |bits| ==> Bit(stream, i) == bits[i - p]
  }

  ghost predicate BytesAt(stream: seq<bv8>, pos: nat, bs: seq<bv8>) {
    pos + |bs| <= |stream| && stream[pos..pos + |bs|] == bs
  }

  lemma PackedBit(b: seq<bool>, k: nat)
    requires |b| == 8 && k < 8
    ensures (PackByte(b) & Mask(k) != 0) == b[k]
  {
  }

  lemma BitInByte(pos: nat, i: nat)
    requires 8 * pos <= i < 8 * pos + 8
    ensures i / 8 == pos && i % 8 == i - 8 * pos
  {
  }

  lemma ByteHolds(stream: seq<bv8>, pos: nat, b: seq<bool>)
    requires |b| == 8 && pos < |stream| && stream[pos] == PackByte(b)
    ensures BitsAt(stream, 8 * pos, b)
  {
    forall i | 8 * pos <= i < 8 * pos + 8 ensures Bit(stream, i) == b[i - 8 * pos] {
      BitInByte(pos, i);
      PackedBit(b, i - 8 * pos);
    }
  }

  lemma BitsJoin(stream: seq<bv8>, p: nat, a: seq<bool>, b: seq<bool>)
    requires BitsAt(stream, p, a) && BitsAt(stream, p + |a|, b)
    ensures BitsAt(stream, p, a + b)
  {
  }

  lemma PackedShort(stream: seq<bv8>, pos: nat, bits: seq<bool>)
    requires |bits| < 8 && BytesAt(stream, pos, Pack(bits))
    ensures BitsAt(stream, 8 * pos, bits)
  {
    if bits != [] {
      var pad := seq(8 - |bits|, _ => false);
      assert stream[pos] == stream[pos..pos + 1][0];
      ByteHolds(stream, pos, bits + pad);
      BitsSplit(stream, 8 * pos, bits, pad);
    }
  }

  // The first byte holds the first eight bits.
  lemma PackedFirst(stream: seq<bv8>, pos: nat, bits: seq<bool>)
    requires |bits| >= 8 && BytesAt(stream, pos, Pack(bits))
    ensures BitsAt(stream, 8 * pos, bits[..8]) && BytesAt(stream, pos + 1, Pack(bits[8..]))
  {
    hide PackByte, ByteAfter, BitsAt;
    BytesSplit(stream, pos, [PackByte(bits[..8])], Pack(bits[8..]));
    assert stream[pos] == stream[pos..pos + 1][0];
    ByteHolds(stream, pos, bits[..8]);
  }

  lemma {:induction false} PackedAt(stream: seq<bv8>, pos: nat, bits: seq<bool>)
    requires BytesAt(stream, pos, Pack(bits))
    ensures BitsAt(stream, 8 * pos, bits)
    decreases |bits|
  {
    hide *;
    if |bits| < 8 {
      PackedShort(stream, pos, bits);
    } else {
      PackedFirst(stream, pos, bits);
      PackedAt(stream, pos + 1, bits[8..]);
      assert bits == bits[..8] + bits[8..];
      BitsJoin(stream, 8 * pos, bits[..8], bits[8..]);
    }
  }

  lemma BitsSplit(stream: seq<bv8>, p: nat, a: seq<bool>, b: seq<bool>)
    requires BitsAt(stream, p, a + b)
    ensures BitsAt(stream, p, a) && BitsAt(stream, p + |a|, b)
  {
  }

  lemma BytesSplit(stream: seq<bv8>, pos: nat, a: seq<bv8>, b: seq<bv8>)
    requires BytesAt(stream, pos, a + b)
    ensures BytesAt(stream, pos, a) && BytesAt(stream, pos + |a|, b)
  {
    var whole := stream[pos..pos + |a + b|];
    assert stream[pos..pos + |a|] == whole[..|a|] == a;
    assert stream[pos + |a|..pos + |a| + |b|] == whole[|a|..] == b;
  }

  // ---- reading back what was written -----------------------------------------------------

  // A tree without its values.
  function Bare(t: Tree): Tree {
    match t
    case Leaf(_) => Leaf(0)
    case Node(left, right) => Node(Bare(left), Bare(right))
  }

  lemma FirstBit(stream: seq<bv8>, p: nat, bits: seq<bool>)
    requires bits != [] && BitsAt(stream, p, bits)
    ensures p < 8 * |stream| && Bit(stream, p) == bits[0]
  {
  }

  lemma ShapeNode(stream: seq<bv8>, p: nat, l: Tree, q: nat, r: Tree, e: nat)
    requires p < 8 * |stream| && !Bit(stream, p)
    requires ShapeAt(stream, p + 1) == Some((l, q)) && ShapeAt(stream, q) == Some((r, e))
    ensures ShapeAt(stream, p) == Some((Node(l, r), e))
  {
  }

  lemma {:induction false} ShapeRoundTrip(stream: seq<bv8>, p: nat, t: Tree)
    requires BitsAt(stream, p, ShapeBits(t))
    ensures ShapeAt(stream, p) == Some((Bare(t), p + |ShapeBits(t)|))
    decreases t
  {
    hide Bit, BitsAt;
    FirstBit(stream, p, ShapeBits(t));
    match t
    case Leaf(_) =>
    case Node(left, right) =>
      BitsSplit(stream, p, [false] + ShapeBits(left), ShapeBits(right));
      BitsSplit(stream, p, [false], ShapeBits(left));
      hide ShapeAt;
      ShapeRoundTrip(stream, p + 1, left);
      ShapeRoundTrip(stream, p + 1 + |ShapeBits(left)|, right);
      ShapeNode(stream, p, Bare(left), p + 1 + |ShapeBits(left)|, Bare(right), p + |ShapeBits(t)|);
  }

  lemma Value16RoundTrip(v: bv16)
    ensures Value16(High(v), Low(v)) == v
  {
  }

  lemma LowRoundTrip(v: bv16)
    requires v <= 0xff
    ensures Low(v) as bv16 == v
  {
  }

  lemma FillLeaf(wide: bool, stream: seq<bv8>, v: bv16, pos: nat)
    requires Carries(wide, Leaf(v)) && BytesAt(stream, pos, LeafBytes(wide, Leaf(v)))
    ensures FillAt(wide, stream, Leaf(0), pos) == Some((Leaf(v), pos + |LeafBytes(wide, Leaf(v))|))
  {
    if wide {
      Value16RoundTrip(v);
      hide High, Low, Value16;
      assert stream[pos] == stream[pos..pos + 2][0] && stream[pos + 1] == stream[pos..pos + 2][1];
    } else {
      LowRoundTrip(v);
      hide Low;
      assert stream[pos] == stream[pos..pos + 1][0];
    }
  }

  lemma FillNode(wide: bool, stream: seq<bv8>, left: Tree, right: Tree, pos: nat, q: nat, e: nat)
    requires FillAt(wide, stream, Bare(left), pos) == Some((left, q)) && FillAt(wide, stream, Bare(right), q) == Some((right, e))
    ensures FillAt(wide, stream, Bare(Node(left, right)), pos) == Some((Node(left, right), e))
  {
  }

  lemma {:induction false} FillRoundTrip(wide: bool, stream: seq<bv8>, t: Tree, pos: nat)
    requires Carries(wide, t) && BytesAt(stream, pos, LeafBytes(wide, t))
    ensures FillAt(wide, stream, Bare(t), pos) == Some((t, pos + |LeafBytes(wide, t)|))
    decreases t
  {
    hide BytesAt, FillAt, Low, High;
    match t
    case Leaf(v) => FillLeaf(wide, stream, v, pos);
    case Node(left, right) =>
      BytesSplit(stream, pos, LeafBytes(wide, left), LeafBytes(wide, right));
      FillRoundTrip(wide, stream, left, pos);
      FillRoundTrip(wide, stream, right, pos + |LeafBytes(wide, left)|);
      FillNode(wide, stream, left, right, pos, pos + |LeafBytes(wide, left)|, pos + |LeafBytes(wide, t)|);
  }

  lemma {:induction false} WalkRoundTrip(stream: seq<bv8>, t: Tree, p: nat, path: seq<bool>)
    requires IsPath(t, path) && BitsAt(stream, p, path)
    ensures WalkAt(stream, t, p) == Some((Symbol(t, path), p + |path|))
    decreases t
  {
    if t.Node? {
      assert Bit(stream, p) == path[0];
      assert path == [path[0]] + path[1..];
      BitsSplit(stream, p, [path[0]], path[1..]);
      WalkRoundTrip(stream, if path[0] then t.right else t.left, p + 1, path[1..]);
    }
  }

  lemma SymbolsNext(stream: seq<bv8>, t: Tree, p: nat, n: nat, vs: seq<bv16>, q: nat)
    requires n > 0 && SymbolsAt(stream, t, p, n - 1) == Some((vs, q))
    ensures SymbolsAt(stream, t, p, n) ==
      match WalkAt(stream, t, q) case None => None case Some((v, e)) => Some((vs + [v], e))
  {
  }

  lemma {:induction false} SymbolsRoundTrip(stream: seq<bv8>, s: Sub, p: nat, n: nat)
    requires SubOk(s, |s.paths|) && n <= |s.paths| && BitsAt(stream, p, Concat(s.paths[..n]))
    ensures SymbolsAt(stream, s.tree, p, n) == Some((Symbols(s)[..n], p + |Concat(s.paths[..n])|))
    decreases n
  {
    hide BitsAt, WalkAt, Carries, IsPath, Symbol, Symbols, SymbolsAt;
    SymbolsNone(stream, s.tree, p);
    if n > 0 {
      var front := s.paths[..n - 1];
      SymbolsFront(s, n);
      FrontPath(s.paths, n);
      hide Concat;
      BitsSplit(stream, p, Concat(front), s.paths[n - 1]);
      SymbolsRoundTrip(stream, s, p, n - 1);
      WalkRoundTrip(stream, s.tree, p + |Concat(front)|, s.paths[n - 1]);
      SymbolsNext(stream, s.tree, p, n, Symbols(s)[..n - 1], p + |Concat(front)|);
    }
  }

  lemma SymbolsNone(stream: seq<bv8>, t: Tree, p: nat)
    ensures SymbolsAt(stream, t, p, 0) == Some(([], p))
  {
  }

  lemma SymbolsFront(s: Sub, n: nat)
    requires SubOk(s, |s.paths|) && 0 < n <= |s.paths|
    ensures IsPath(s.tree, s.paths[n - 1])
    ensures Symbols(s)[..n] == Symbols(s)[..n - 1] + [Symbol(s.tree, s.paths[n - 1])]
  {
    hide IsPath, Symbol;
  }

  lemma FrontPath(paths: seq<seq<bool>>, n: nat)
    requires 0 < n <= |paths|
    ensures Concat(paths[..n]) == Concat(paths[..n - 1]) + paths[n - 1]
  {
    assert paths[..n] == paths[..n - 1] + [paths[n - 1]];
    ConcatSnoc(paths[..n - 1], paths[n - 1]);
  }

  lemma ByteAfterShift(pos: nat, n: nat)
    ensures ByteAfter(8 * pos + n) == pos + ByteAfter(n)
  {
  }

  // A sub-stream is read back as it was written, to its last byte and no further.
  lemma {:induction false} SubRoundTrip(stream: seq<bv8>, pos: nat, s: Sub)
    requires SubOk(s, |s.paths|) && BytesAt(stream, pos, Encode(s))
    ensures SubAt(stream, pos, |s.paths|) == Some((s.h0, s.h1, Symbols(s), pos + |Encode(s)|))
  {
    var head, shape, leaves, code := [s.h0, s.h1], ShapeBits(s.tree), LeafBytes(Wide(s), s.tree), Concat(s.paths);
    hide ShapeAt, FillAt, SymbolsAt, Pack, ShapeBits, LeafBytes, Concat, BitsAt, Symbols, Carries, ByteAfter;
    BytesSplit(stream, pos, head + Pack(shape) + leaves, Pack(code));
    BytesSplit(stream, pos, head + Pack(shape), leaves);
    BytesSplit(stream, pos, head, Pack(shape));
    assert stream[pos] == stream[pos..pos + 2][0] && stream[pos + 1] == stream[pos..pos + 2][1];
    hide BytesAt;
    PackedAt(stream, pos + 2, shape);
    ShapeRoundTrip(stream, 8 * (pos + 2), s.tree);
    ByteAfterShift(pos + 2, |shape|);
    var q := pos + 2 + ByteAfter(|shape|);
    FillRoundTrip(Wide(s), stream, s.tree, q);
    var r := q + |leaves|;
    PackedAt(stream, r, code);
    assert s.paths[..|s.paths|] == s.paths && Symbols(s)[..|s.paths|] == Symbols(s);
    SymbolsRoundTrip(stream, s, 8 * r, |s.paths|);
    ByteAfterShift(r, |code|);
  }

  // ---- whole tracks --------------------------------------------------------------------

  // The last sub-stream is the one with a shift of 0.
  predicate TrackOk(subs: seq<Sub>, size: nat) {
    && |subs| > 0
    && (forall k :: 0 <= k < |subs| ==> SubOk(subs[k], size))
    && (forall k :: 0 <= k < |subs| ==> (subs[k].h0 & 0x7f == 0 <==> k == |subs| - 1))
  }

  function EncodeTrack(subs: seq<Sub>): seq<bv8> {
    if subs == [] then [] else Encode(subs[0]) + EncodeTrack(subs[1..])
  }

  // Every sub-stream's symbols, shifted to their place in the output words.
  function Merged(subs: seq<Sub>, out: seq<bv32>): (r: seq<bv32>)
    requires forall k :: 0 <= k < |subs| ==> SubOk(subs[k], |out|)
    ensures |r| == |out|
  {
    if subs == [] then out
    else
      assert SubOk(subs[0], |out|);
      Merged(subs[1..], Combine(out, subs[0].h0, subs[0].h1, Symbols(subs[0])))
  }

  // fdi_decode undoes the encoder: for every list of trees, values and symbols.
  lemma {:induction false} TrackRoundTrip(stream: seq<bv8>, pos: nat, subs: seq<Sub>, out: seq<bv32>)
    requires TrackOk(subs, |out|) && BytesAt(stream, pos, EncodeTrack(subs))
    ensures DecodeAt(stream, pos, out) == Some((Merged(subs, out), pos + |EncodeTrack(subs)|))
    decreases |subs|
  {
    hide SubAt, Encode, Combine, Symbols, BytesAt;
    var s := subs[0];
    BytesSplit(stream, pos, Encode(s), EncodeTrack(subs[1..]));
    SubRoundTrip(stream, pos, s);
    if |subs| > 1 {
      TrackRoundTrip(stream, pos + |Encode(s)|, subs[1..], Combine(out, s.h0, s.h1, Symbols(s)));
    }
  }

  // ---- the reader ------------------------------------------------------------------

  lemma MaskNext(k: nat)
    requires k < 8
    ensures Mask(k) != 0 && Mask(k) >> 1 == if k == 7 then 0 else Mask(k + 1)
  {
  }

  lemma BitAfter(p: nat)
    ensures ByteAfter(p) == (if p % 8 == 0 then p / 8 else p / 8 + 1) && ByteAfter(p + 1) == p / 8 + 1
    ensures if p % 8 == 7 then (p + 1) % 8 == 0 else (p + 1) % 8 == p % 8 + 1 && (p + 1) / 8 == p / 8
  {
  }

  lemma {:induction false} SymbolsPrefix(stream: seq<bv8>, t: Tree, p: nat, i: nat, n: nat)
    requires i <= n && SymbolsAt(stream, t, p, n).Some?
    ensures SymbolsAt(stream, t, p, i).Some?
    ensures SymbolsAt(stream, t, p, i).value.0 == SymbolsAt(stream, t, p, n).value.0[..i]
    decreases n
  {
    if i < n {
      SymbolsPrefix(stream, t, p, i, n - 1);
    }
  }

  lemma NextSymbol(stream: seq<bv8>, t: Tree, p: nat, i: nat, n: nat)
    requires i < n && SymbolsAt(stream, t, p, n).Some?
    ensures SymbolsAt(stream, t, p, i).Some? && SymbolsAt(stream, t, p, i + 1).Some?
    ensures var q := SymbolsAt(stream, t, p, i).value.1;
      && WalkAt(stream, t, q).Some? && WalkAt(stream, t, q).value.0 == SymbolsAt(stream, t, p, n).value.0[i]
      && WalkAt(stream, t, q).value.1 == SymbolsAt(stream, t, p, i + 1).value.1
  {
    SymbolsPrefix(stream, t, p, i + 1, n);
    SymbolsPrefix(stream, t, p, i, n);
    hide WalkAt;
    assert SymbolsAt(stream, t, p, i + 1).value.0[i] == SymbolsAt(stream, t, p, n).value.0[i];
  }

  // The first n words of after have had their values or-ed in, the others not yet.
  predicate CombinedUpTo(before: seq<bv32>, h0: bv8, h1: bv8, vs: seq<bv16>, n: nat, after: seq<bv32>) {
    && n <= |vs| == |before| == |after|
    && (forall j :: 0 <= j < n ==> after[j] == before[j] | Contribution(h0, h1, vs[j]))
    && (forall j :: n <= j < |after| ==> after[j] == before[j])
  }

  lemma CombinedNone(before: seq<bv32>, h0: bv8, h1: bv8, vs: seq<bv16>)
    requires |vs| == |before|
    ensures CombinedUpTo(before, h0, h1, vs, 0, before)
  {
  }

  lemma CombinedOne(before: seq<bv32>, h0: bv8, h1: bv8, vs: seq<bv16>, n: nat, after: seq<bv32>)
    requires CombinedUpTo(before, h0, h1, vs, n, after) && n < |after|
    ensures CombinedUpTo(before, h0, h1, vs, n + 1, after[n := after[n] | Contribution(h0, h1, vs[n])])
  {
    hide Contribution;
  }

  lemma CombinedAll(before: seq<bv32>, h0: bv8, h1: bv8, vs: seq<bv16>, after: seq<bv32>)
    requires |vs| == |before| && CombinedUpTo(before, h0, h1, vs, |before|, after)
    ensures after == Combine(before, h0, h1, vs)
  {
    hide Contribution;
  }

  // The bytes of a track and the bit cursor: temp is the byte in hand, temp2 the mask of a
  // bit in it.
  class FdiReader {
    const stream: seq<bv8>
    var pos: nat
    var temp: bv8
    var temp2: bv8

    constructor (stream: seq<bv8>, pos: nat)
      ensures this.stream == stream && this.pos == pos
    {
      this.stream := stream;
      this.pos := pos;
      temp, temp2 := 0, 0;
    }

    // The byte of bit p, the next one to read, is in hand.
    ghost predicate Ahead(p: nat)
      reads this
    {
      p < 8 * |stream| && pos == p / 8 + 1 && temp == stream[p / 8] && temp2 == Mask(p % 8)
    }

    // Bit p is the next one to read; its byte is fetched once it is needed.
    ghost predicate Behind(p: nat)
      reads this
    {
      p <= 8 * |stream| && pos == ByteAfter(p) &&
      if p % 8 == 0 then temp2 >> 1 == 0 else temp == stream[p / 8] && temp2 == Mask(p % 8 - 1)
    }

    lemma BehindEnd(p: nat)
      requires Behind(p)
      ensures pos == ByteAfter(p)
    {
    }

    method Fetch()
      requires pos < |stream|
      modifies this
      ensures pos == old(pos) + 1 && temp == stream[old(pos)] && temp2 == 0x80
    {
      temp := stream[pos];
      pos := pos + 1;
      temp2 := 0x80;
    }

    // On to the next bit, fetching its byte.
    method Advance(ghost p: nat)
      requires Ahead(p) && p + 1 < 8 * |stream|
      modifies this
      ensures Ahead(p + 1)
    {
      MaskNext(p % 8);
      hide Mask;
      temp2 := temp2 >> 1;
      if temp2 == 0 {
        Fetch();
        assert Mask(0) == 0x80 by { MaskTop(); }
      }
    }

    // expand_tree
    method ExpandTree(ghost p: nat) returns (t: Tree)
      requires Ahead(p) && ShapeAt(stream, p).Some? && ShapeAt(stream, p).value.1 < 8 * |stream|
      modifies this
      ensures t == ShapeAt(stream, p).value.0 && Ahead(ShapeAt(stream, p).value.1)
      decreases 8 * |stream| - p
    {
      hide Mask;
      if temp & temp2 != 0 {
        Advance(p);
        t := Leaf(0);
      } else {
        Advance(p);
        var left := ExpandTree(p + 1);
        var right := ExpandTree(ShapeAt(stream, p + 1).value.1);
        t := Node(left, right);
      }
    }

    // values_tree8 and values_tree16
    method ValuesTree(wide: bool, shape: Tree) returns (t: Tree)
      requires FillAt(wide, stream, shape, pos).Some?
      modifies this`pos
      ensures Some((t, pos)) == FillAt(wide, stream, shape, old(pos))
      decreases shape
    {
      match shape {
        case Leaf(_) =>
          if wide {
            t := Leaf((stream[pos] as bv16 << 8) | (stream[pos + 1] as bv16));
            pos := pos + 2;
          } else {
            t := Leaf(stream[pos] as bv16);
            pos := pos + 1;
          }
        case Node(left, right) =>
          var l := ValuesTree(wide, left);
          var r := ValuesTree(wide, right);
          t := Node(l, r);
      }
    }

    method NextBit(ghost p: nat) returns (bit: bool)
      requires Behind(p) && p < 8 * |stream|
      modifies this
      ensures Behind(p + 1) && bit == Bit(stream, p)
    {
      Turn(p);
      MaskNext(p % 8);
      BitAfter(p);
      hide Mask;
      bit := temp & temp2 != 0;
    }

    // Move the mask on, fetching a byte when it has run out.
    method Turn(ghost p: nat)
      requires Behind(p) && p < 8 * |stream|
      modifies this
      ensures Ahead(p)
    {
      hide Mask, ByteAfter;
      BitAfter(p);
      MaskTop();
      MaskNext(p % 8);
      if p % 8 != 0 {
        MaskNext(p % 8 - 1);
      }
      temp2 := temp2 >> 1;
      if temp2 == 0 {
        Fetch();
      }
    }

    // Follow code bits down to a leaf.
    method DecodeSymbol(t: Tree, ghost p: nat) returns (v: bv16)
      requires Behind(p) && WalkAt(stream, t, p).Some?
      modifies this
      ensures v == WalkAt(stream, t, p).value.0 && Behind(WalkAt(stream, t, p).value.1)
    {
      hide Bit;
      var node := t;
      ghost var q := p;
      while node.Node?
        invariant Behind(q) && WalkAt(stream, node, q) == WalkAt(stream, t, p)
        decreases node
      {
        var bit := NextBit(q);
        node := if bit then node.right else node.left;
        q := q + 1;
      }
      v := node.v;
    }

    // The data of one sub-stream, or-ed into the output words.
    method DecodeData(h0: bv8, h1: bv8, tree: Tree, out: array<bv32>)
      requires pos <= |stream| && SymbolsAt(stream, tree, 8 * pos, out.Length).Some?
      modifies this, out
      ensures out[..] == Combine(old(out[..]), h0, h1, SymbolsAt(stream, tree, 8 * old(pos), out.Length).value.0)
      ensures pos == ByteAfter(SymbolsAt(stream, tree, 8 * old(pos), out.Length).value.1)
    {
      hide Contribution, WalkAt, Combine, CombinedUpTo;
      ghost var before, start, vs := out[..], 8 * pos, SymbolsAt(stream, tree, 8 * pos, out.Length).value.0;
      temp2 := 0;
      assert Behind(start);
      SymbolsNone(stream, tree, start);
      hide Behind, ByteAfter, SymbolsAt;
      CombinedNone(before, h0, h1, vs);
      for i := 0 to out.Length
        invariant SymbolsAt(stream, tree, start, i).Some? && Behind(SymbolsAt(stream, tree, start, i).value.1)
        invariant CombinedUpTo(before, h0, h1, vs, i, out[..])
      {
        NextSymbol(stream, tree, start, i, out.Length);
        CombinedOne(before, h0, h1, vs, i, out[..]);
        DecodeWord(h0, h1, tree, out, i, SymbolsAt(stream, tree, start, i).value.1);
      }
      CombinedAll(before, h0, h1, vs, out[..]);
      BehindEnd(SymbolsAt(stream, tree, start, out.Length).value.1);
    }

    method DecodeWord(h0: bv8, h1: bv8, tree: Tree, out: array<bv32>, i: nat, ghost p: nat)
      requires i < out.Length && Behind(p) && WalkAt(stream, tree, p).Some?
      modifies this, out
      ensures Behind(WalkAt(stream, tree, p).value.1)
      ensures out[..] == old(out[..])[i := old(out[i]) | Contribution(h0, h1, WalkAt(stream, tree, p).value.0)]
    {
      hide Contribution, WalkAt;
      var v := DecodeSymbol(tree, p);
      hide Behind;
      var x := Shifted(h0, h1, v);
      out[i] := out[i] | x;
    }

    method Shifted(h0: bv8, h1: bv8, v: bv16) returns (x: bv32)
      ensures x == Contribution(h0, h1, v)
    {
      x := v as bv32;
      if h0 & 0x80 != 0 {
        if h1 & 0x80 != 0 {
          x := Extend16(x);
        } else {
          x := Extend8(x);
        }
      }
      x := ShiftLeft(x, h0 & 0x7f);
    }

    // The code tree of a sub-stream: shape, padding, values.
    method ReadTree(wide: bool) returns (tree: Tree)
      requires ShapeAt(stream, 8 * pos).Some? && pos < |stream|
      requires var (shape, p) := ShapeAt(stream, 8 * pos).value; FillAt(wide, stream, shape, ByteAfter(p)).Some?
      modifies this
      ensures var (shape, p) := ShapeAt(stream, 8 * old(pos)).value;
        Some((tree, pos)) == FillAt(wide, stream, shape, ByteAfter(p))
    {
      hide ShapeAt, FillAt, Mask, Bit;
      ghost var p0 := 8 * pos;
      Fetch();
      MaskTop();
      var shape := ExpandTree(p0);
      BackToByte(ShapeAt(stream, p0).value.1);
      if temp2 == 0x80 {
        pos := pos - 1;
      }
      tree := ValuesTree(wide, shape);
    }

    // One round of fdi_decode's loop.
    method DecodeSub(out: array<bv32>) returns (shift: bv8)
      requires SubAt(stream, pos, out.Length).Some?
      modifies this, out
      ensures var (h0, h1, vs, e) := SubAt(stream, old(pos), out.Length).value;
        out[..] == Combine(old(out[..]), h0, h1, vs) && pos == e && shift == h0 & 0x7f
    {
      hide ShapeAt, FillAt, SymbolsAt, Combine, ByteAfter;
      var h0 := stream[pos];
      var h1 := stream[pos + 1];
      pos := pos + 2;
      var tree := ReadTree(h1 & 0x80 != 0);
      DecodeData(h0, h1, tree, out);
      shift := h0 & 0x7f;
    }

    // fdi_decode
    method FdiDecode(out: array<bv32>)
      requires DecodeAt(stream, pos, Zeros(out.Length)).Some?
      modifies this, out
      ensures Some((out[..], pos)) == DecodeAt(stream, old(pos), Zeros(out.Length))
    {
      hide SubAt, Combine;
      for k := 0 to out.Length
        invariant pos == old(pos) && forall j :: 0 <= j < k ==> out[j] == 0
      {
        out[k] := 0;
      }
      ghost var want := DecodeAt(stream, pos, Zeros(out.Length));
      assert out[..] == Zeros(out.Length);
      var shift: bv8 := 1;
      while shift != 0
        invariant if shift != 0 then DecodeAt(stream, pos, out[..]) == want else Some((out[..], pos)) == want
        decreases shift != 0, |stream| - pos
      {
        shift := DecodeSub(out);
      }
    }
  }

  lemma MaskTop()
    ensures Mask(0) == 0x80 && forall k: nat :: k < 8 && Mask(k) == 0x80 ==> k == 0
  {
  }

  // A byte fetched ahead of time is given back just when none of it was used.
  lemma BackToByte(p: nat)
    ensures ByteAfter(p) == if p % 8 == 0 then p / 8 else p / 8 + 1
    ensures Mask(p % 8) == 0x80 <==> p % 8 == 0
  {
    MaskTop();
  }
}
