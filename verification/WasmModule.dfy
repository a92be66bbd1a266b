// wasm_emit_wrap_module of wasm/jit/wasm-emit.c: a body wrapped in a complete module, and
// a reader of the module grammar (section 5.5 of the WebAssembly Core Specification 1.0)
// that gets the parts back.
module WasmModule {
  import opened Common
  import opened Leb128
  import opened Wasm
  import opened Emitter

  // ---- the module as data ------------------------------------------------------------

  datatype FuncType = FuncType(params: seq<Byte>, results: seq<Byte>)

  datatype ImportDesc =
    | ImportMemory(shared: bool, min: nat, max: nat)
    | ImportTable(elem: Byte, min: nat)

  datatype Import = Import(mod: seq<Byte>, name: seq<Byte>, desc: ImportDesc)

  datatype Export = Export(name: seq<Byte>, kind: Byte, index: nat)

  // Local groups are (count, value type); the expression still ends with its END.
  datatype Code = Code(locals: seq<(nat, Byte)>, expr: seq<Byte>)

  datatype Module = Module(types: seq<FuncType>, imports: seq<Import>, funcs: seq<nat>,
                           exports: seq<Export>, codes: seq<Code>)

  const WVT_I32: Byte := 0x7f
  const WVT_I64: Byte := 0x7e
  const WVT_F64: Byte := 0x7c

  const HEADER: seq<Byte> := [0x00, 0x61, 0x73, 0x6d, 0x01, 0x00, 0x00, 0x00]

  // "env", "memory", "table" and "f"
  const NAME_ENV: seq<Byte> := [0x65, 0x6e, 0x76]
  const NAME_MEMORY: seq<Byte> := [0x6d, 0x65, 0x6d, 0x6f, 0x72, 0x79]
  const NAME_TABLE: seq<Byte> := [0x74, 0x61, 0x62, 0x6c, 0x65]
  const NAME_F: seq<Byte> := [0x66]

  // The rows of type_defs: parameter count, parameters, result count, result.
  function TypeDefs(): (rows: seq<seq<Byte>>)
    ensures |rows| == 21
    ensures forall c :: 0 <= c < |rows| ==> RowOk(rows[c])
  {
    [ [0, 0],
      [1, WVT_I32, 0],
      [2, WVT_I32, WVT_I32, 0],
      [3, WVT_I32, WVT_I32, WVT_I32, 0],
      [4, WVT_I32, WVT_I32, WVT_I32, WVT_I32, 0],
      [0, 1, WVT_I32],
      [1, WVT_I32, 1, WVT_I32],
      [2, WVT_I32, WVT_I32, 1, WVT_I32],
      [3, WVT_I32, WVT_I32, WVT_I32, 1, WVT_I32],
      [4, WVT_I32, WVT_I32, WVT_I32, WVT_I32, 1, WVT_I32],
      [2, WVT_I32, WVT_I32, 1, WVT_I64],
      [2, WVT_I32, WVT_I32, 1, WVT_F64],
      [3, WVT_I32, WVT_I32, WVT_I64, 0],
      [3, WVT_I32, WVT_I32, WVT_F64, 0],
      [1, WVT_F64, 1, WVT_I32],
      [1, WVT_F64, 1, WVT_I64],
      [7, WVT_I32, WVT_I32, WVT_I32, WVT_I32, WVT_I32, WVT_I32, WVT_I32, 0],
      [1, WVT_I32, 1, WVT_I64],
      [2, WVT_I32, WVT_I64, 0],
      [2, WVT_I64, WVT_I64, 1, WVT_I64],
      [2, WVT_I64, WVT_I32, 1, WVT_I64] ]
  }

  predicate RowOk(d: seq<Byte>) {
    && |d| > 0 && d[0] <= 7 && |d| > 1 + d[0]
    && d[1 + d[0]] <= 1 && |d| == 2 + d[0] + d[1 + d[0]]
  }

  function RowType(d: seq<Byte>): FuncType
    requires RowOk(d)
  {
    FuncType(d[1..1 + d[0]], d[2 + d[0]..])
  }

  // ---- spelling --------------------------------------------------------------------

  function VecBytes(bs: seq<Byte>): seq<Byte> { ULeb(|bs|) + bs }

  function SectionBytes(id: Byte, content: seq<Byte>): seq<Byte> {
    [id] + VecBytes(content)
  }

  function TypeBytes(t: FuncType): seq<Byte> {
    [0x60] + VecBytes(t.params) + VecBytes(t.results)
  }

  // The heap, then this thread's table.
  const IMPORTS: seq<Import> :=
    [ Import(NAME_ENV, NAME_MEMORY, ImportMemory(true, 0, 32768)),
      Import(NAME_ENV, NAME_TABLE, ImportTable(0x70, 0)) ]

  function DescBytes(d: ImportDesc): seq<Byte> {
    match d
    case ImportMemory(shared, min, max) => [0x02, if shared then 0x03 else 0x01] + ULeb(min) + ULeb(max)
    case ImportTable(elem, min) => [0x01, elem, 0x00] + ULeb(min)
  }

  function ImportBytes(i: Import): seq<Byte> {
    VecBytes(i.mod) + VecBytes(i.name) + DescBytes(i.desc)
  }

  function ExportBytes(x: Export): seq<Byte> {
    VecBytes(x.name) + [x.kind] + ULeb(x.index)
  }

  function GroupBytes(g: (nat, Byte)): seq<Byte> { ULeb(g.0) + [g.1] }

  // The count of a vector, then its elements one after the other.
  function Vec<T>(spell: T -> seq<Byte>, xs: seq<T>): seq<Byte> {
    ULeb(|xs|) + Concat(Spans(spell, xs))
  }

  function Spans<T>(spell: T -> seq<Byte>, xs: seq<T>): (r: seq<seq<Byte>>)
    ensures |r| == |xs|
  {
    seq(|xs|, i requires 0 <= i < |xs| => spell(xs[i]))
  }

  function LocalGroups(nI64: nat, nF64: nat, nI32: nat): seq<(nat, Byte)> {
    (if nI64 > 0 then [(nI64, WVT_I64)] else [])
    + (if nF64 > 0 then [(nF64, WVT_F64)] else [])
    + (if nI32 > 0 then [(nI32, WVT_I32)] else [])
  }

  function CodeBytes(c: Code): seq<Byte> {
    VecBytes(Vec(GroupBytes, c.locals) + c.expr)
  }

  function ModuleBytes(m: Module): seq<Byte> {
    HEADER
    + SectionBytes(1, Vec(TypeBytes, m.types))
    + SectionBytes(2, Vec(ImportBytes, m.imports))
    + SectionBytes(3, Vec(ULeb, m.funcs))
    + SectionBytes(7, Vec(ExportBytes, m.exports))
    + SectionBytes(10, Vec(CodeBytes, m.codes))
  }

  // ---- reading ---------------------------------------------------------------------

  type Reader<!T> = seq<Byte> -> Option<(T, seq<Byte>)>

  function ReadU32(s: seq<Byte>): Option<(nat, seq<Byte>)> { ReadU(32, s) }

  function ReadMany<T>(read: Reader<T>, n: nat, s: seq<Byte>): Option<(seq<T>, seq<Byte>)>
    decreases n
  {
    if n == 0 then Some(([], s))
    else match read(s)
      case None => None
      case Some((x, s1)) =>
        match ReadMany(read, n - 1, s1)
        case None => None
        case Some((xs, s2)) => Some(([x] + xs, s2))
  }

  function ReadVec<T>(read: Reader<T>, s: seq<Byte>): Option<(seq<T>, seq<Byte>)> {
    match ReadU32(s)
    case None => None
    case Some((n, s1)) => ReadMany(read, n, s1)
  }

  // A length-prefixed run of bytes: a name, a section, a code entry.
  function ReadSized(s: seq<Byte>): (r: Option<(seq<Byte>, seq<Byte>)>)
    ensures r.Some? ==> |r.value.1| < |s|
  {
    match ReadU32(s)
    case None => None
    case Some((n, s1)) => if n > |s1| then None else Some((s1[..n], s1[n..]))
  }

  function ReadValType(s: seq<Byte>): Option<(Byte, seq<Byte>)> {
    if s == [] || !(0x7c <= s[0] <= 0x7f) then None else Some((s[0], s[1..]))
  }

  function ReadFuncType(s: seq<Byte>): Option<(FuncType, seq<Byte>)> {
    if s == [] || s[0] != 0x60 then None
    else match ReadVec(ReadValType, s[1..])
      case None => None
      case Some((params, s1)) =>
        match ReadVec(ReadValType, s1)
        case None => None
        case Some((results, s2)) => Some((FuncType(params, results), s2))
  }

  function ReadDesc(s: seq<Byte>): Option<(ImportDesc, seq<Byte>)> {
    if |s| >= 2 && s[0] == 0x02 && (s[1] == 0x01 || s[1] == 0x03) then
      match ReadU32(s[2..])
      case None => None
      case Some((min, s1)) =>
        match ReadU32(s1)
        case None => None
        case Some((max, s2)) => Some((ImportMemory(s[1] == 0x03, min, max), s2))
    else if |s| >= 3 && s[0] == 0x01 && s[2] == 0x00 then
      match ReadU32(s[3..])
      case None => None
      case Some((min, s1)) => Some((ImportTable(s[1], min), s1))
    else None
  }

  function ReadImport(s: seq<Byte>): Option<(Import, seq<Byte>)> {
    match ReadSized(s)
    case None => None
    case Some((mod, s1)) =>
      match ReadSized(s1)
      case None => None
      case Some((name, s2)) =>
        match ReadDesc(s2)
        case None => None
        case Some((desc, s3)) => Some((Import(mod, name, desc), s3))
  }

  function ReadExport(s: seq<Byte>): Option<(Export, seq<Byte>)> {
    match ReadSized(s)
    case None => None
    case Some((name, s1)) =>
      if s1 == [] then None
      else match ReadU32(s1[1..])
        case None => None
        case Some((index, s2)) => Some((Export(name, s1[0], index), s2))
  }

  function ReadGroup(s: seq<Byte>): Option<((nat, Byte), seq<Byte>)> {
    match ReadU32(s)
    case None => None
    case Some((n, s1)) =>
      match ReadValType(s1)
      case None => None
      case Some((t, s2)) => Some(((n, t), s2))
  }

  // A code entry is sized; its locals come first and the rest is the expression.
  function ReadCode(s: seq<Byte>): Option<(Code, seq<Byte>)> {
    match ReadSized(s)
    case None => None
    case Some((func, s1)) =>
      match ReadVec(ReadGroup, func)
      case None => None
      case Some((locals, expr)) => Some((Code(locals, expr), s1))
  }

  // A section's content must be used up exactly.
  function ReadWhole<T>(read: Reader<T>, s: seq<Byte>): Option<seq<T>> {
    match ReadVec(read, s)
    case None => None
    case Some((xs, tail)) => if tail == [] then Some(xs) else None
  }

  function ReadTypeSection(content: seq<Byte>, m: Module): Option<Module> {
    match ReadWhole(ReadFuncType, content) case None => None case Some(xs) => Some(m.(types := xs))
  }

  function ReadImportSection(content: seq<Byte>, m: Module): Option<Module> {
    match ReadWhole(ReadImport, content) case None => None case Some(xs) => Some(m.(imports := xs))
  }

  function ReadFunctionSection(content: seq<Byte>, m: Module): Option<Module> {
    match ReadWhole(ReadU32, content) case None => None case Some(xs) => Some(m.(funcs := xs))
  }

  function ReadExportSection(content: seq<Byte>, m: Module): Option<Module> {
    match ReadWhole(ReadExport, content) case None => None case Some(xs) => Some(m.(exports := xs))
  }

  function ReadCodeSection(content: seq<Byte>, m: Module): Option<Module> {
    match ReadWhole(ReadCode, content) case None => None case Some(xs) => Some(m.(codes := xs))
  }

  function ReadSection(id: Byte, content: seq<Byte>, m: Module): Option<Module> {
    match id
    case 1 => ReadTypeSection(content, m)
    case 2 => ReadImportSection(content, m)
    case 3 => ReadFunctionSection(content, m)
    case 7 => ReadExportSection(content, m)
    case 10 => ReadCodeSection(content, m)
    case _ => None
  }

  // Sections in ascending order of id, up to the last byte.
  function ReadSections(s: seq<Byte>, last: nat, m: Module): Option<Module>
    decreases |s|
  {
    if s == [] then Some(m)
    else if s[0] <= last then None
    else match ReadSized(s[1..])
      case None => None
      case Some((content, rest)) =>
        match ReadSection(s[0], content, m)
        case None => None
        case Some(m') => ReadSections(rest, s[0], m')
  }

  const NO_MODULE := Module([], [], [], [], [])

  function ReadModule(s: seq<Byte>): Option<Module> {
    if |s| < 8 || s[..8] != HEADER then None else ReadSections(s[8..], 0, NO_MODULE)
  }

  // ---- spelling then reading ---------------------------------------------------------

  // Whatever follows them, the bytes bs are read as exactly x.
  ghost predicate Reads<T(!new)>(read: Reader<T>, bs: seq<Byte>, x: T) {
    forall rest: seq<Byte> :: read(bs + rest) == Some((x, rest))
  }

  lemma {:induction false} ReadManySpans<T(!new)>(read: Reader<T>, spell: T -> seq<Byte>, xs: seq<T>, rest: seq<Byte>)
    requires forall i :: 0 <= i < |xs| ==> Reads(read, spell(xs[i]), xs[i])
    ensures ReadMany(read, |xs|, Concat(Spans(spell, xs)) + rest) == Some((xs, rest))
    decreases |xs|
  {
    if xs == [] {
      assert Concat(Spans(spell, xs)) + rest == rest;
    } else {
      var spans, tail := Spans(spell, xs), xs[1..];
      assert spans[1..] == Spans(spell, tail);
      assert Concat(spans) + rest == spell(xs[0]) + (Concat(spans[1..]) + rest);
      assert Reads(read, spell(xs[0]), xs[0]);
      forall i | 0 <= i < |tail| ensures Reads(read, spell(tail[i]), tail[i]) {
        assert tail[i] == xs[i + 1];
      }
      ReadManySpans(read, spell, tail, rest);
      assert [xs[0]] + tail == xs;
    }
  }

  lemma ReadVecRoundTrip<T(!new)>(read: Reader<T>, spell: T -> seq<Byte>, xs: seq<T>, rest: seq<Byte>)
    requires |xs| < 0x1_0000_0000
    requires forall i :: 0 <= i < |xs| ==> Reads(read, spell(xs[i]), xs[i])
    ensures ReadVec(read, Vec(spell, xs) + rest) == Some((xs, rest))
  {
    Pow2Of32();
    var body := Concat(Spans(spell, xs));
    ULebRoundTrip(32, |xs|, body + rest);
    assert Vec(spell, xs) + rest == ULeb(|xs|) + (body + rest);
    ReadManySpans(read, spell, xs, rest);
  }

  lemma ReadWholeRoundTrip<T(!new)>(read: Reader<T>, spell: T -> seq<Byte>, xs: seq<T>)
    requires |xs| < 0x1_0000_0000
    requires forall i :: 0 <= i < |xs| ==> Reads(read, spell(xs[i]), xs[i])
    ensures ReadWhole(read, Vec(spell, xs)) == Some(xs)
  {
    ReadVecRoundTrip(read, spell, xs, []);
    assert Vec(spell, xs) + [] == Vec(spell, xs);
  }

  lemma ReadSizedRoundTrip(bs: seq<Byte>, rest: seq<Byte>)
    requires |bs| < 0x1_0000_0000
    ensures ReadSized(VecBytes(bs) + rest) == Some((bs, rest))
  {
    Pow2Of32();
    ULebRoundTrip(32, |bs|, bs + rest);
    assert VecBytes(bs) + rest == ULeb(|bs|) + (bs + rest);
    assert (bs + rest)[..|bs|] == bs && (bs + rest)[|bs|..] == rest;
  }

  // A byte string is the vector of its bytes.
  function OneByte(b: Byte): seq<Byte> { [b] }

  lemma {:induction false} VecOfBytes(bs: seq<Byte>)
    ensures Concat(Spans(OneByte, bs)) == bs
    decreases |bs|
  {
    if bs != [] {
      assert Spans(OneByte, bs)[1..] == Spans(OneByte, bs[1..]);
      VecOfBytes(bs[1..]);
    }
  }

  // ---- the parts of a module the recompiler writes -------------------------------------

  predicate IsValType(b: Byte) { 0x7c <= b <= 0x7f }

  ghost predicate TypeOk(t: FuncType) {
    && |t.params| < 0x1_0000_0000 && |t.results| < 0x1_0000_0000
    && (forall i :: 0 <= i < |t.params| ==> IsValType(t.params[i]))
    && (forall i :: 0 <= i < |t.results| ==> IsValType(t.results[i]))
  }

  lemma ReadValTypes(bs: seq<Byte>, rest: seq<Byte>)
    requires |bs| < 0x1_0000_0000 && forall i :: 0 <= i < |bs| ==> IsValType(bs[i])
    ensures ReadVec(ReadValType, VecBytes(bs) + rest) == Some((bs, rest))
  {
    forall i | 0 <= i < |bs| ensures Reads(ReadValType, OneByte(bs[i]), bs[i]) {
      assert IsValType(bs[i]);
      forall rest: seq<Byte> ensures ReadValType([bs[i]] + rest) == Some((bs[i], rest)) {
        assert ([bs[i]] + rest)[1..] == rest;
      }
    }
    ReadVecRoundTrip(ReadValType, OneByte, bs, rest);
    VecOfBytes(bs);
  }

  lemma TypeRoundTrip(t: FuncType)
    requires TypeOk(t)
    ensures Reads(ReadFuncType, TypeBytes(t), t)
  {
    forall rest: seq<Byte> ensures ReadFuncType(TypeBytes(t) + rest) == Some((t, rest)) {
      var s := TypeBytes(t) + rest;
      assert s[1..] == VecBytes(t.params) + (VecBytes(t.results) + rest);
      ReadValTypes(t.params, VecBytes(t.results) + rest);
      ReadValTypes(t.results, rest);
    }
  }

  ghost predicate ImportOk(i: Import) {
    && |i.mod| < 0x1_0000_0000 && |i.name| < 0x1_0000_0000
    && i.desc.min < 0x1_0000_0000 && (i.desc.ImportMemory? ==> i.desc.max < 0x1_0000_0000)
  }

  lemma MemoryDescRoundTrip(shared: bool, min: nat, max: nat, rest: seq<Byte>)
    requires min < 0x1_0000_0000 && max < 0x1_0000_0000
    ensures ReadDesc(DescBytes(ImportMemory(shared, min, max)) + rest) == Some((ImportMemory(shared, min, max), rest))
  {
    var s := DescBytes(ImportMemory(shared, min, max)) + rest;
    assert s[2..] == ULeb(min) + (ULeb(max) + rest);
    ReadU32Of(min, ULeb(max) + rest);
    ReadU32Of(max, rest);
  }

  lemma DescRoundTrip(d: ImportDesc, rest: seq<Byte>)
    requires d.min < 0x1_0000_0000 && (d.ImportMemory? ==> d.max < 0x1_0000_0000)
    ensures ReadDesc(DescBytes(d) + rest) == Some((d, rest))
  {
    match d
    case ImportMemory(shared, min, max) =>
      MemoryDescRoundTrip(shared, min, max, rest);
    case ImportTable(elem, min) =>
      assert (DescBytes(d) + rest)[3..] == ULeb(min) + rest;
      ReadU32Of(min, rest);
  }

  lemma ImportRoundTrip(i: Import)
    requires ImportOk(i)
    ensures Reads(ReadImport, ImportBytes(i), i)
  {
    forall rest: seq<Byte> ensures ReadImport(ImportBytes(i) + rest) == Some((i, rest)) {
      var t2 := DescBytes(i.desc) + rest;
      var t1 := VecBytes(i.name) + t2;
      assert ImportBytes(i) + rest == VecBytes(i.mod) + t1;
      ReadSizedRoundTrip(i.mod, t1);
      ReadSizedRoundTrip(i.name, t2);
      DescRoundTrip(i.desc, rest);
    }
  }

  lemma U32RoundTrip(v: nat)
    requires v < 0x1_0000_0000
    ensures Reads(ReadU32, ULeb(v), v)
  {
    Pow2Of32();
    forall rest: seq<Byte> ensures ReadU32(ULeb(v) + rest) == Some((v, rest)) {
      ULebRoundTrip(32, v, rest);
    }
  }

  lemma ExportRoundTrip(x: Export)
    requires |x.name| < 0x1_0000_0000 && x.index < 0x1_0000_0000
    ensures Reads(ReadExport, ExportBytes(x), x)
  {
    U32RoundTrip(x.index);
    forall rest: seq<Byte> ensures ReadExport(ExportBytes(x) + rest) == Some((x, rest)) {
      var t := [x.kind] + (ULeb(x.index) + rest);
      assert ExportBytes(x) + rest == VecBytes(x.name) + t;
      ReadSizedRoundTrip(x.name, t);
      assert t[1..] == ULeb(x.index) + rest;
    }
  }

  ghost predicate GroupOk(g: (nat, Byte)) { g.0 < 0x1_0000_0000 && IsValType(g.1) }

  lemma GroupRoundTrip(g: (nat, Byte))
    requires GroupOk(g)
    ensures Reads(ReadGroup, GroupBytes(g), g)
  {
    U32RoundTrip(g.0);
    hide ULeb;
    forall rest: seq<Byte> ensures ReadGroup(GroupBytes(g) + rest) == Some((g, rest)) {
      assert GroupBytes(g) + rest == ULeb(g.0) + ([g.1] + rest);
      assert ([g.1] + rest)[1..] == rest;
    }
  }

  ghost predicate CodeOk(c: Code) {
    && |c.locals| < 0x1_0000_0000
    && (forall i :: 0 <= i < |c.locals| ==> GroupOk(c.locals[i]))
    && |Vec(GroupBytes, c.locals) + c.expr| < 0x1_0000_0000
  }

  lemma CodeRoundTrip(c: Code)
    requires CodeOk(c)
    ensures Reads(ReadCode, CodeBytes(c), c)
  {
    forall rest: seq<Byte> ensures ReadCode(CodeBytes(c) + rest) == Some((c, rest)) {
      ReadSizedRoundTrip(Vec(GroupBytes, c.locals) + c.expr, rest);
      forall i | 0 <= i < |c.locals| ensures Reads(ReadGroup, GroupBytes(c.locals[i]), c.locals[i]) {
        GroupRoundTrip(c.locals[i]);
      }
      ReadVecRoundTrip(ReadGroup, GroupBytes, c.locals, c.expr);
    }
  }

  // ---- the whole module ------------------------------------------------------------

  ghost predicate ModuleOk(m: Module) {
    && |m.types| < 0x1_0000_0000 && |m.imports| < 0x1_0000_0000 && |m.funcs| < 0x1_0000_0000
    && |m.exports| < 0x1_0000_0000 && |m.codes| < 0x1_0000_0000
    && (forall i :: 0 <= i < |m.types| ==> TypeOk(m.types[i]))
    && (forall i :: 0 <= i < |m.imports| ==> ImportOk(m.imports[i]))
    && (forall i :: 0 <= i < |m.funcs| ==> m.funcs[i] < 0x1_0000_0000)
    && (forall i :: 0 <= i < |m.exports| ==> |m.exports[i].name| < 0x1_0000_0000 && m.exports[i].index < 0x1_0000_0000)
    && (forall i :: 0 <= i < |m.codes| ==> CodeOk(m.codes[i]))
  }

  lemma SectionStep(id: Byte, content: seq<Byte>, rest: seq<Byte>, last: nat, m: Module, m': Module)
    requires id > last && |content| < 0x1_0000_0000
    requires ReadSection(id, content, m) == Some(m')
    ensures ReadSections(SectionBytes(id, content) + rest, last, m) == ReadSections(rest, id, m')
  {
    var s := SectionBytes(id, content) + rest;
    assert s[1..] == VecBytes(content) + rest;
    ReadSizedRoundTrip(content, rest);
  }

  lemma TypesParse(m: Module, m': Module, rest: seq<Byte>, last: nat)
    requires ModuleOk(m) && last < 1 && |Vec(TypeBytes, m.types)| < 0x1_0000_0000
    ensures ReadSections(SectionBytes(1, Vec(TypeBytes, m.types)) + rest, last, m')
         == ReadSections(rest, 1, m'.(types := m.types))
  {
    forall i | 0 <= i < |m.types| ensures Reads(ReadFuncType, TypeBytes(m.types[i]), m.types[i]) {
      TypeRoundTrip(m.types[i]);
    }
    ReadWholeRoundTrip(ReadFuncType, TypeBytes, m.types);
    SectionStep(1, Vec(TypeBytes, m.types), rest, last, m', m'.(types := m.types));
  }

  lemma ImportsParse(m: Module, m': Module, rest: seq<Byte>, last: nat)
    requires ModuleOk(m) && last < 2 && |Vec(ImportBytes, m.imports)| < 0x1_0000_0000
    ensures ReadSections(SectionBytes(2, Vec(ImportBytes, m.imports)) + rest, last, m')
         == ReadSections(rest, 2, m'.(imports := m.imports))
  {
    forall i | 0 <= i < |m.imports| ensures Reads(ReadImport, ImportBytes(m.imports[i]), m.imports[i]) {
      ImportRoundTrip(m.imports[i]);
    }
    ReadWholeRoundTrip(ReadImport, ImportBytes, m.imports);
    SectionStep(2, Vec(ImportBytes, m.imports), rest, last, m', m'.(imports := m.imports));
  }

  lemma FunctionsParse(m: Module, m': Module, rest: seq<Byte>, last: nat)
    requires ModuleOk(m) && last < 3 && |Vec(ULeb, m.funcs)| < 0x1_0000_0000
    ensures ReadSections(SectionBytes(3, Vec(ULeb, m.funcs)) + rest, last, m')
         == ReadSections(rest, 3, m'.(funcs := m.funcs))
  {
    forall i | 0 <= i < |m.funcs| ensures Reads(ReadU32, ULeb(m.funcs[i]), m.funcs[i]) {
      U32RoundTrip(m.funcs[i]);
    }
    ReadWholeRoundTrip(ReadU32, ULeb, m.funcs);
    SectionStep(3, Vec(ULeb, m.funcs), rest, last, m', m'.(funcs := m.funcs));
  }

  lemma ExportsParse(m: Module, m': Module, rest: seq<Byte>, last: nat)
    requires ModuleOk(m) && last < 7 && |Vec(ExportBytes, m.exports)| < 0x1_0000_0000
    ensures ReadSections(SectionBytes(7, Vec(ExportBytes, m.exports)) + rest, last, m')
         == ReadSections(rest, 7, m'.(exports := m.exports))
  {
    forall i | 0 <= i < |m.exports| ensures Reads(ReadExport, ExportBytes(m.exports[i]), m.exports[i]) {
      ExportRoundTrip(m.exports[i]);
    }
    ReadWholeRoundTrip(ReadExport, ExportBytes, m.exports);
    SectionStep(7, Vec(ExportBytes, m.exports), rest, last, m', m'.(exports := m.exports));
  }

  lemma CodesParse(m: Module, m': Module, rest: seq<Byte>, last: nat)
    requires ModuleOk(m) && last < 10 && |Vec(CodeBytes, m.codes)| < 0x1_0000_0000
    ensures ReadSections(SectionBytes(10, Vec(CodeBytes, m.codes)) + rest, last, m')
         == ReadSections(rest, 10, m'.(codes := m.codes))
  {
    forall i | 0 <= i < |m.codes| ensures Reads(ReadCode, CodeBytes(m.codes[i]), m.codes[i]) {
      CodeRoundTrip(m.codes[i]);
    }
    ReadWholeRoundTrip(ReadCode, CodeBytes, m.codes);
    SectionStep(10, Vec(CodeBytes, m.codes), rest, last, m', m'.(codes := m.codes));
  }

  lemma HeaderRead(a: seq<Byte>, b: seq<Byte>, c: seq<Byte>, d: seq<Byte>, e: seq<Byte>)
    ensures ReadModule(HEADER + a + b + c + d + e) == ReadSections(a + (b + (c + (d + (e + [])))), 0, NO_MODULE)
  {
    var s := HEADER + a + b + c + d + e;
    assert s[..8] == HEADER;
    assert s[8..] == a + (b + (c + (d + (e + []))));
  }

  // Reading what was written gives the module back, every declared size being exact.
  lemma ModuleRoundTrip(m: Module)
    requires ModuleOk(m) && |ModuleBytes(m)| < 0x1_0000_0000
    ensures ReadModule(ModuleBytes(m)) == Some(m)
  {
    var s1, s2 := SectionBytes(1, Vec(TypeBytes, m.types)), SectionBytes(2, Vec(ImportBytes, m.imports));
    var s3, s7 := SectionBytes(3, Vec(ULeb, m.funcs)), SectionBytes(7, Vec(ExportBytes, m.exports));
    var s10 := SectionBytes(10, Vec(CodeBytes, m.codes));
    var m1 := NO_MODULE.(types := m.types);
    var m2 := m1.(imports := m.imports);
    var m3 := m2.(funcs := m.funcs);
    var m4 := m3.(exports := m.exports);
    HeaderRead(s1, s2, s3, s7, s10);
    TypesParse(m, NO_MODULE, s2 + (s3 + (s7 + (s10 + []))), 0);
    ImportsParse(m, m1, s3 + (s7 + (s10 + [])), 1);
    FunctionsParse(m, m2, s7 + (s10 + []), 2);
    ExportsParse(m, m3, s10 + [], 3);
    CodesParse(m, m4, [], 7);
    assert m4.(codes := m.codes) == m;
  }

  // ---- writing the module ------------------------------------------------------------

  function Types(): (ts: seq<FuncType>)
    ensures |ts| == 21
  {
    seq(21, c requires 0 <= c < 21 => RowType(TypeDefs()[c]))
  }

  // The module around one body: the fixed types and imports, and the function "f".
  function Wrapped(funcType: nat, gs: seq<(nat, Byte)>, body: seq<Byte>): Module {
    Module(Types(), IMPORTS, [funcType], [Export(NAME_F, 0x00, 0)], [Code(gs, body + [WOP_END])])
  }

  // Everything written to e so far is done, unless that was too much for its buffer.
  ghost predicate Wrote(e: WasmEmit, done: seq<Byte>)
    reads e, e.buf
  {
    && e.Valid()
    && e.failed == (|done| > e.buf.Length)
    && (!e.failed ==> e.Contents() == done)
  }

  lemma ULebOne(v: nat)
    requires v < 0x80
    ensures ULeb(v) == [v]
  {
  }

  method PutByte(e: WasmEmit, b: Byte, ghost done: seq<Byte>)
    requires Wrote(e, done)
    modifies e`pos, e`failed, e.buf
    ensures Wrote(e, done + [b])
  {
    e.EmitByte(b);
  }

  method PutULeb(e: WasmEmit, v: nat, ghost done: seq<Byte>)
    requires Wrote(e, done)
    modifies e`pos, e`failed, e.buf
    ensures Wrote(e, done + ULeb(v))
  {
    e.EmitULeb(v);
  }

  method PutBytes(e: WasmEmit, bs: seq<Byte>, ghost done: seq<Byte>)
    requires Wrote(e, done)
    modifies e`pos, e`failed, e.buf
    ensures Wrote(e, done + bs)
  {
    e.EmitBytes(bs);
  }

  // A count and that many bytes of d, from index i on.
  method PutRun(e: WasmEmit, d: seq<Byte>, i: nat, n: nat, ghost done: seq<Byte>)
    requires i + n <= |d| && Wrote(e, done)
    modifies e`pos, e`failed, e.buf
    ensures Wrote(e, done + VecBytes(d[i..i + n]))
  {
    PutULeb(e, n, done);
    ghost var count := done + ULeb(n);
    assert count + d[i..i] == count;
    for p := 0 to n
      invariant Wrote(e, count + d[i..i + p])
    {
      PutByte(e, d[i + p], count + d[i..i + p]);
      assert count + d[i..i + p] + [d[i + p]] == count + d[i..i + (p + 1)];
    }
    assert count + d[i..i + n] == done + VecBytes(d[i..i + n]);
  }

  method EmitType(e: WasmEmit, d: seq<Byte>, ghost done: seq<Byte>)
    requires RowOk(d) && Wrote(e, done)
    modifies e`pos, e`failed, e.buf
    ensures Wrote(e, done + TypeBytes(RowType(d)))
  {
    var np := d[0];
    PutByte(e, 0x60, done);
    PutRun(e, d, 1, np, done + [0x60]);
    var nr := d[1 + np];
    PutRun(e, d, 2 + np, nr, done + [0x60] + VecBytes(d[1..1 + np]));
    assert d[2 + np..2 + np + nr] == d[2 + np..];
    assert done + TypeBytes(RowType(d)) == done + [0x60] + VecBytes(d[1..1 + np]) + VecBytes(d[2 + np..]);
  }

  lemma TypeBytesLength(d: seq<Byte>)
    requires RowOk(d)
    ensures |TypeBytes(RowType(d))| <= 11
  {
    ULebOne(d[0]);
    ULebOne(d[1 + d[0]]);
  }

  lemma SpansSnoc<T>(spell: T -> seq<Byte>, xs: seq<T>, x: T)
    ensures Concat(Spans(spell, xs + [x])) == Concat(Spans(spell, xs)) + spell(x)
  {
    assert Spans(spell, xs + [x]) == Spans(spell, xs) + [spell(x)];
    ConcatSnoc(Spans(spell, xs), spell(x));
  }

  // The type section's content after its first types.
  function TypesDone(ts: seq<FuncType>): seq<Byte> {
    ULeb(21) + Concat(Spans(TypeBytes, ts))
  }

  lemma TypesDoneStep(ts: seq<FuncType>, d: seq<Byte>)
    requires RowOk(d)
    ensures TypesDone(ts) + TypeBytes(RowType(d)) == TypesDone(ts + [RowType(d)])
    ensures |TypesDone(ts + [RowType(d)])| <= |TypesDone(ts)| + 11
  {
    TypeBytesLength(d);
    SpansSnoc(TypeBytes, ts, RowType(d));
  }

  // The type section's content fits the 512-byte scratch buffer.
  method EmitTypes(e: WasmEmit)
    requires Wrote(e, []) && e.buf.Length >= 512
    modifies e`pos, e`failed, e.buf
    ensures Wrote(e, Vec(TypeBytes, Types())) && !e.failed
  {
    var rows := TypeDefs();
    PutULeb(e, |rows|, []);
    assert [] + ULeb(21) == TypesDone([]);
    ULebOne(21);
    for c := 0 to |rows|
      invariant Wrote(e, TypesDone(Types()[..c]))
      invariant |TypesDone(Types()[..c])| <= 1 + 11 * c
    {
      EmitRow(e, rows[c], c);
    }
    assert Types()[..21] == Types();
  }

  method EmitRow(e: WasmEmit, d: seq<Byte>, ghost c: nat)
    requires c < 21 && d == TypeDefs()[c] && Wrote(e, TypesDone(Types()[..c]))
    modifies e`pos, e`failed, e.buf
    ensures Wrote(e, TypesDone(Types()[..c + 1]))
    ensures |TypesDone(Types()[..c + 1])| <= |TypesDone(Types()[..c])| + 11
  {
    hide Wrote, TypesDone, TypeDefs, TypeBytes, RowType, RowOk;
    EmitType(e, d, TypesDone(Types()[..c]));
    TypesDoneStep(Types()[..c], d);
    assert Types()[..c + 1] == Types()[..c] + [RowType(d)];
  }

  method MeasureTypes() returns (content: seq<Byte>)
    ensures content == Vec(TypeBytes, Types())
  {
    var scratch := new Byte[512];
    var s := new WasmEmit(scratch);
    EmitTypes(s);
    content := scratch[..s.pos];
  }

  method EmitName(e: WasmEmit, name: seq<Byte>, ghost done: seq<Byte>)
    requires Wrote(e, done)
    modifies e`pos, e`failed, e.buf
    ensures Wrote(e, done + VecBytes(name))
  {
    PutULeb(e, |name|, done);
    PutBytes(e, name, done + ULeb(|name|));
    assert done + ULeb(|name|) + name == done + VecBytes(name);
  }

  method EmitMemoryImport(e: WasmEmit, ghost done: seq<Byte>)
    requires Wrote(e, done)
    modifies e`pos, e`failed, e.buf
    ensures Wrote(e, done + ImportBytes(IMPORTS[0]))
  {
    hide Wrote, VecBytes, ULeb;
    EmitName(e, NAME_ENV, done);
    EmitName(e, NAME_MEMORY, done + VecBytes(NAME_ENV));
    ghost var d := done + VecBytes(NAME_ENV) + VecBytes(NAME_MEMORY);
    PutByte(e, 0x02, d);
    PutByte(e, 0x03, d + [0x02]);
    PutULeb(e, 0, d + [0x02] + [0x03]);
    PutULeb(e, 32768, d + [0x02] + [0x03] + ULeb(0));
    assert d + [0x02] + [0x03] + ULeb(0) + ULeb(32768) == done + ImportBytes(IMPORTS[0]);
  }

  method EmitTableImport(e: WasmEmit, ghost done: seq<Byte>)
    requires Wrote(e, done)
    modifies e`pos, e`failed, e.buf
    ensures Wrote(e, done + ImportBytes(IMPORTS[1]))
  {
    hide Wrote, VecBytes, ULeb;
    EmitName(e, NAME_ENV, done);
    EmitName(e, NAME_TABLE, done + VecBytes(NAME_ENV));
    ghost var d := done + VecBytes(NAME_ENV) + VecBytes(NAME_TABLE);
    PutByte(e, 0x01, d);
    PutByte(e, 0x70, d + [0x01]);
    PutByte(e, 0x00, d + [0x01] + [0x70]);
    PutULeb(e, 0, d + [0x01] + [0x70] + [0x00]);
    assert d + [0x01] + [0x70] + [0x00] + ULeb(0) == done + ImportBytes(IMPORTS[1]);
  }

  lemma ImportsSpelled()
    ensures Vec(ImportBytes, IMPORTS) == [] + ULeb(2) + ImportBytes(IMPORTS[0]) + ImportBytes(IMPORTS[1])
    ensures |Vec(ImportBytes, IMPORTS)| <= 64
  {
    SpansSnoc(ImportBytes, [], IMPORTS[0]);
    SpansSnoc(ImportBytes, [IMPORTS[0]], IMPORTS[1]);
    assert [] + [IMPORTS[0]] == [IMPORTS[0]] && [IMPORTS[0]] + [IMPORTS[1]] == IMPORTS;
    assert Concat(Spans(ImportBytes, [])) == [];
    ULebOne(2);
    ULebOne(3);
    ULebOne(5);
    ULebOne(6);
    ULebOne(0);
    assert |ULeb(32768)| == 3;
  }

  method EmitImports(e: WasmEmit)
    requires Wrote(e, []) && e.buf.Length >= 64
    modifies e`pos, e`failed, e.buf
    ensures Wrote(e, Vec(ImportBytes, IMPORTS)) && !e.failed
  {
    PutULeb(e, 2, []);
    EmitMemoryImport(e, [] + ULeb(2));
    EmitTableImport(e, [] + ULeb(2) + ImportBytes(IMPORTS[0]));
    ImportsSpelled();
  }

  method MeasureImports() returns (content: seq<Byte>)
    ensures content == Vec(ImportBytes, IMPORTS)
  {
    var scratch := new Byte[64];
    var s := new WasmEmit(scratch);
    EmitImports(s);
    content := scratch[..s.pos];
  }

  // ---- the code section --------------------------------------------------------------

  // A group of locals, left out when there are none.
  function Group(n: nat, valType: Byte): seq<(nat, Byte)> {
    if n > 0 then [(n, valType)] else []
  }

  function GroupPart(n: nat, valType: Byte): seq<Byte> {
    if n > 0 then GroupBytes((n, valType)) else []
  }

  method EmitGroup(e: WasmEmit, n: nat, valType: Byte, ghost done: seq<Byte>)
    requires Wrote(e, done)
    modifies e`pos, e`failed, e.buf
    ensures Wrote(e, done + GroupPart(n, valType))
  {
    if n > 0 {
      PutULeb(e, n, done);
      PutByte(e, valType, done + ULeb(n));
      assert done + ULeb(n) + [valType] == done + GroupBytes((n, valType));
    } else {
      assert done + [] == done;
    }
  }

  lemma GroupSpelled(gs: seq<(nat, Byte)>, n: nat, valType: Byte)
    ensures Concat(Spans(GroupBytes, gs + Group(n, valType)))
         == Concat(Spans(GroupBytes, gs)) + GroupPart(n, valType)
  {
    if n > 0 {
      SpansSnoc(GroupBytes, gs, (n, valType));
    } else {
      assert gs + Group(n, valType) == gs;
    }
  }

  lemma GroupLength(n: nat, valType: Byte)
    requires n < 0x8000_0000
    ensures |GroupPart(n, valType)| <= 6
  {
    Pow2Of32();
    Pow2Monotone(32, 35);
    ULebLength(n, 5);
  }

  lemma GroupsSpelled(nI64: nat, nF64: nat, nI32: nat)
    ensures Vec(GroupBytes, LocalGroups(nI64, nF64, nI32))
         == [] + ULeb(|LocalGroups(nI64, nF64, nI32)|)
            + GroupPart(nI64, WVT_I64) + GroupPart(nF64, WVT_F64) + GroupPart(nI32, WVT_I32)
  {
    var g1 := [] + Group(nI64, WVT_I64);
    var g2 := g1 + Group(nF64, WVT_F64);
    var g3 := g2 + Group(nI32, WVT_I32);
    GroupSpelled([], nI64, WVT_I64);
    GroupSpelled(g1, nF64, WVT_F64);
    GroupSpelled(g2, nI32, WVT_I32);
    assert g3 == LocalGroups(nI64, nF64, nI32);
    assert Concat(Spans(GroupBytes, [])) == [];
    Associate4(ULeb(|g3|), [], GroupPart(nI64, WVT_I64), GroupPart(nF64, WVT_F64), GroupPart(nI32, WVT_I32));
  }

  lemma Associate4(a: seq<Byte>, e: seq<Byte>, b: seq<Byte>, c: seq<Byte>, d: seq<Byte>)
    requires e == []
    ensures a + (e + b + c + d) == [] + a + b + c + d
  {
  }

  lemma GroupsLength(nI64: nat, nF64: nat, nI32: nat)
    requires nI64 < 0x8000_0000 && nF64 < 0x8000_0000 && nI32 < 0x8000_0000
    ensures |Vec(GroupBytes, LocalGroups(nI64, nF64, nI32))| <= 19
  {
    GroupsSpelled(nI64, nF64, nI32);
    GroupLength(nI64, WVT_I64);
    GroupLength(nF64, WVT_F64);
    GroupLength(nI32, WVT_I32);
    ULebOne(|LocalGroups(nI64, nF64, nI32)|);
  }

  // The locals header fits its 32-byte scratch buffer.
  method EmitLocals(e: WasmEmit, nI64: nat, nF64: nat, nI32: nat)
    requires nI64 < 0x8000_0000 && nF64 < 0x8000_0000 && nI32 < 0x8000_0000
    requires Wrote(e, []) && e.buf.Length >= 32
    modifies e`pos, e`failed, e.buf
    ensures Wrote(e, Vec(GroupBytes, LocalGroups(nI64, nF64, nI32))) && !e.failed
  {
    var ngroups := (if nI64 > 0 then 1 else 0) + (if nF64 > 0 then 1 else 0) + (if nI32 > 0 then 1 else 0);
    PutULeb(e, ngroups, []);
    ghost var d: seq<Byte> := [] + ULeb(ngroups);
    EmitGroup(e, nI64, WVT_I64, d);
    EmitGroup(e, nF64, WVT_F64, d + GroupPart(nI64, WVT_I64));
    EmitGroup(e, nI32, WVT_I32, d + GroupPart(nI64, WVT_I64) + GroupPart(nF64, WVT_F64));
    assert ngroups == |LocalGroups(nI64, nF64, nI32)|;
    GroupsSpelled(nI64, nF64, nI32);
    GroupsLength(nI64, nF64, nI32);
  }

  method MeasureLocals(nI64: nat, nF64: nat, nI32: nat) returns (locals: seq<Byte>)
    requires nI64 < 0x8000_0000 && nF64 < 0x8000_0000 && nI32 < 0x8000_0000
    ensures locals == Vec(GroupBytes, LocalGroups(nI64, nF64, nI32))
  {
    var lhdr := new Byte[32];
    var l := new WasmEmit(lhdr);
    EmitLocals(l, nI64, nF64, nI32);
    locals := lhdr[..l.pos];
  }

  method MeasureCodeHeader(funcSize: nat) returns (header: seq<Byte>)
    requires funcSize < 0x8000_0000
    ensures header == ULeb(1) + ULeb(funcSize)
  {
    var shdr := new Byte[16];
    var s := new WasmEmit(shdr);
    PutULeb(s, 1, []);
    PutULeb(s, funcSize, [] + ULeb(1));
    CodeHeaderLength(funcSize);
    header := shdr[..s.pos];
  }

  lemma VecOfOne<T>(spell: T -> seq<Byte>, x: T)
    ensures Vec(spell, [x]) == ULeb(1) + spell(x)
  {
    assert Spans(spell, [x]) == [spell(x)];
    assert Concat([spell(x)]) == spell(x) + Concat([]) == spell(x);
  }

  lemma Associate6(d: seq<Byte>, a: seq<Byte>, b: seq<Byte>, c1: seq<Byte>, c2: seq<Byte>, l: seq<Byte>, m: seq<Byte>, e: seq<Byte>)
    ensures d + a + b + (c1 + c2) + l + m + e == d + (a + (b + (c1 + (c2 + (l + (m + e))))))
  {
  }

  lemma CodeSectionSpelled(done: seq<Byte>, locals: seq<Byte>, gs: seq<(nat, Byte)>, body: seq<Byte>, header: seq<Byte>, size: nat)
    requires locals == Vec(GroupBytes, gs) && size == |locals| + |body| + 1
    requires header == ULeb(1) + ULeb(size)
    ensures done + [10] + ULeb(|header| + size) + header + locals + body + [WOP_END]
         == done + SectionBytes(10, Vec(CodeBytes, [Code(gs, body + [WOP_END])]))
  {
    var code := Code(gs, body + [WOP_END]);
    VecOfOne(CodeBytes, code);
    var func := locals + (body + [WOP_END]);
    assert CodeBytes(code) == ULeb(size) + func;
    assert |Vec(CodeBytes, [code])| == |header| + size;
    Associate6(done, [10], ULeb(|header| + size), ULeb(1), ULeb(size), locals, body, [WOP_END]);
  }

  method EmitCodeSection(e: WasmEmit, nI64: nat, nF64: nat, nI32: nat, body: seq<Byte>, ghost done: seq<Byte>)
    requires nI64 < 0x8000_0000 && nF64 < 0x8000_0000 && nI32 < 0x8000_0000 && |body| < 0x7fff_ffe0
    requires Wrote(e, done)
    modifies e`pos, e`failed, e.buf
    ensures Wrote(e, done + SectionBytes(10, Vec(CodeBytes, [Code(LocalGroups(nI64, nF64, nI32), body + [WOP_END])])))
  {
    var locals := MeasureLocals(nI64, nF64, nI32);
    GroupsLength(nI64, nF64, nI32);
    var funcSize := |locals| + |body| + 1;
    var header := MeasureCodeHeader(funcSize);
    PutByte(e, 10, done);
    PutULeb(e, |header| + funcSize, done + [10]);
    ghost var d := done + [10] + ULeb(|header| + funcSize);
    PutBytes(e, header, d);
    PutBytes(e, locals, d + header);
    PutBytes(e, body, d + header + locals);
    PutByte(e, WOP_END, d + header + locals + body);
    CodeSectionSpelled(done, locals, LocalGroups(nI64, nF64, nI32), body, header, funcSize);
  }

  // The 16 bytes for the code section's header are enough for any function size.
  lemma CodeHeaderLength(size: nat)
    requires size < 0x8000_0000
    ensures |ULeb(1) + ULeb(size)| <= 16
  {
    ULebOne(1);
    Pow2Of32();
    Pow2Monotone(32, 35);
    ULebLength(size, 5);
  }

  // The two sections written with their sizes as constants.
  lemma SmallSections(funcType: nat)
    requires funcType < 21
    ensures [3] + ULeb(2) + ULeb(1) + ULeb(funcType) == SectionBytes(3, Vec(ULeb, [funcType]))
    ensures [7] + ULeb(5) + ULeb(1) + ULeb(1) + [0x66] + [0x00] + ULeb(0)
         == SectionBytes(7, Vec(ExportBytes, [Export(NAME_F, 0x00, 0)]))
  {
    ULebOne(funcType);
    ULebOne(0);
    ULebOne(1);
    ULebOne(2);
    ULebOne(5);
    var x := Export(NAME_F, 0x00, 0);
    SpansSnoc(ULeb, [], funcType);
    SpansSnoc(ExportBytes, [], x);
    assert [] + [funcType] == [funcType] && [] + [x] == [x];
    assert Concat(Spans(ULeb, [])) == [] && Concat(Spans(ExportBytes, [])) == [];
    assert Vec(ULeb, [funcType]) == [1, funcType];
    assert Vec(ExportBytes, [x]) == [1, 1, 0x66, 0x00, 0];
  }

  method EmitFunctionSection(e: WasmEmit, funcType: nat, ghost done: seq<Byte>)
    requires funcType < 21 && Wrote(e, done)
    modifies e`pos, e`failed, e.buf
    ensures Wrote(e, done + SectionBytes(3, Vec(ULeb, [funcType])))
  {
    PutByte(e, 3, done);
    PutULeb(e, 2, done + [3]);
    PutULeb(e, 1, done + [3] + ULeb(2));
    PutULeb(e, funcType, done + [3] + ULeb(2) + ULeb(1));
    SmallSections(funcType);
    assert done + [3] + ULeb(2) + ULeb(1) + ULeb(funcType) == done + ([3] + ULeb(2) + ULeb(1) + ULeb(funcType));
  }

  method EmitExportSection(e: WasmEmit, ghost done: seq<Byte>)
    requires Wrote(e, done)
    modifies e`pos, e`failed, e.buf
    ensures Wrote(e, done + SectionBytes(7, Vec(ExportBytes, [Export(NAME_F, 0x00, 0)])))
  {
    PutByte(e, 7, done);
    PutULeb(e, 5, done + [7]);
    PutULeb(e, 1, done + [7] + ULeb(5));
    PutULeb(e, 1, done + [7] + ULeb(5) + ULeb(1));
    ghost var d := done + [7] + ULeb(5) + ULeb(1) + ULeb(1);
    PutByte(e, 0x66, d);
    PutByte(e, 0x00, d + [0x66]);
    PutULeb(e, 0, d + [0x66] + [0x00]);
    SmallSections(0);
    assert d + [0x66] + [0x00] + ULeb(0)
        == done + ([7] + ULeb(5) + ULeb(1) + ULeb(1) + [0x66] + [0x00] + ULeb(0));
  }

  // A section whose content was measured in a scratch buffer first.
  method EmitMeasured(e: WasmEmit, id: Byte, content: seq<Byte>, ghost done: seq<Byte>)
    requires Wrote(e, done)
    modifies e`pos, e`failed, e.buf
    ensures Wrote(e, done + SectionBytes(id, content))
  {
    hide Wrote, ULeb;
    PutByte(e, id, done);
    PutULeb(e, |content|, done + [id]);
    PutBytes(e, content, done + [id] + ULeb(|content|));
    assert done + [id] + ULeb(|content|) + content == done + SectionBytes(id, content);
  }

  // All sections but the code, which are the same up to the function's type.
  function HeadBytes(funcType: nat): seq<Byte> {
    HEADER
    + SectionBytes(1, Vec(TypeBytes, Types()))
    + SectionBytes(2, Vec(ImportBytes, IMPORTS))
    + SectionBytes(3, Vec(ULeb, [funcType]))
    + SectionBytes(7, Vec(ExportBytes, [Export(NAME_F, 0x00, 0)]))
  }

  method EmitHead(e: WasmEmit, funcType: nat)
    requires funcType < 21 && Wrote(e, [])
    modifies e`pos, e`failed, e.buf
    ensures Wrote(e, HeadBytes(funcType))
  {
    PutBytes(e, HEADER, []);
    assert [] + HEADER == HEADER;
    var types := MeasureTypes();
    EmitMeasured(e, 1, types, HEADER);
    var imports := MeasureImports();
    ghost var d := HEADER + SectionBytes(1, types);
    EmitMeasured(e, 2, imports, d);
    EmitFunctionSection(e, funcType, d + SectionBytes(2, imports));
    EmitExportSection(e, d + SectionBytes(2, imports) + SectionBytes(3, Vec(ULeb, [funcType])));
  }

  // wasm_emit_wrap_module: the module's length, or -1 when it does not fit out.
  method WrapModule(body: seq<Byte>, funcType: nat, nI64: nat, nF64: nat, nI32: nat, out: array<Byte>)
    returns (len: int)
    requires funcType < 21 && nI64 < 0x8000_0000 && nF64 < 0x8000_0000 && nI32 < 0x8000_0000
    requires |body| < 0x7fff_ffe0
    modifies out
    ensures var bytes := ModuleBytes(Wrapped(funcType, LocalGroups(nI64, nF64, nI32), body));
      && len == (if |bytes| <= out.Length then |bytes| else -1)
      && (len >= 0 ==> out[..len] == bytes)
  {
    var e := new WasmEmit(out);
    EmitHead(e, funcType);
    EmitCodeSection(e, nI64, nF64, nI32, body, HeadBytes(funcType));
    assert HeadBytes(funcType)
      + SectionBytes(10, Vec(CodeBytes, [Code(LocalGroups(nI64, nF64, nI32), body + [WOP_END])]))
        == ModuleBytes(Wrapped(funcType, LocalGroups(nI64, nF64, nI32), body));
    return if e.failed then -1 else e.pos;
  }

  // ---- what a reader gets out of a wrapped module ---------------------------------------

  lemma WrappedOk(funcType: nat, nI64: nat, nF64: nat, nI32: nat, body: seq<Byte>)
    requires funcType < 21 && nI64 < 0x8000_0000 && nF64 < 0x8000_0000 && nI32 < 0x8000_0000
    requires |body| < 0x7fff_ffe0
    ensures ModuleOk(Wrapped(funcType, LocalGroups(nI64, nF64, nI32), body))
  {
    GroupsLength(nI64, nF64, nI32);
    forall c | 0 <= c < 21 ensures TypeOk(Types()[c]) {
      RowValTypes(c);
    }
  }

  lemma RowValTypes(c: nat)
    requires c < 21
    ensures TypeOk(Types()[c])
  {
    var d := TypeDefs()[c];
    assert forall i :: 1 <= i < |d| && i != 1 + d[0] ==> IsValType(d[i]);
  }

  // The function type, the local groups and the body come back, with the END added.
  lemma WrapRoundTrip(funcType: nat, nI64: nat, nF64: nat, nI32: nat, body: seq<Byte>)
    requires funcType < 21 && nI64 < 0x8000_0000 && nF64 < 0x8000_0000 && nI32 < 0x8000_0000
    requires |body| < 0x7fff_ffe0
    requires |ModuleBytes(Wrapped(funcType, LocalGroups(nI64, nF64, nI32), body))| < 0x8000_0000
    ensures var r := ReadModule(ModuleBytes(Wrapped(funcType, LocalGroups(nI64, nF64, nI32), body)));
      && r.Some? && r.value.funcs == [funcType]
      && r.value.codes == [Code(LocalGroups(nI64, nF64, nI32), body + [WOP_END])]
      && r.value.exports == [Export(NAME_F, 0x00, 0)]
      && r.value.types == Types() && r.value.imports == IMPORTS
  {
    WrappedOk(funcType, nI64, nF64, nI32, body);
    ModuleRoundTrip(Wrapped(funcType, LocalGroups(nI64, nF64, nI32), body));
  }
}
