/** A decoder for the fragment, read off section 5 of the WebAssembly Core
    Specification 1.0, and the proof that it inverts the emitter. */
module WasmDecode {
  import opened Common
  import opened Leb128
  import opened WasmSyntax
  import opened WasmEmit

  type Parsed<T> = Option<(T, seq<byte>)>

  // ----- Decoder -----

  function DecodeN<T>(p: seq<byte> -> Parsed<T>, n: nat, bs: seq<byte>): Parsed<seq<T>> {
    if n == 0 then Some(([], bs))
    else
      var (x, rest) :- p(bs);
      var (xs, tail) :- DecodeN(p, n - 1, rest);
      Some(([x] + xs, tail))
  }

  function DecodeVec<T>(p: seq<byte> -> Parsed<T>, bs: seq<byte>): Parsed<seq<T>> {
    var (n, rest) :- DecodeU(32, bs);
    DecodeN(p, n, rest)
  }

  function DecodeIndex(bs: seq<byte>): Parsed<nat> { DecodeU(32, bs) }

  function DecodeChunk(bs: seq<byte>): (r: Parsed<seq<byte>>)
    ensures r.Some? ==> |r.value.0| + |r.value.1| < |bs|
  {
    var (n, rest) :- DecodeU(32, bs);
    if n <= |rest| then Some((rest[..n], rest[n..])) else None
  }

  function DecodeByte(b: byte, bs: seq<byte>): Option<seq<byte>> {
    if bs != [] && bs[0] == b then Some(bs[1..]) else None
  }

  function DecodeValType(bs: seq<byte>): Parsed<ValType> {
    if bs == [] then None
    else if bs[0] == 0x7f then Some((I32, bs[1..]))
    else if bs[0] == 0x7e then Some((I64, bs[1..]))
    else None
  }

  function DecodeFuncType(bs: seq<byte>): Parsed<FuncType> {
    var rest :- DecodeByte(0x60, bs);
    var (ps, rest1) :- DecodeVec(DecodeValType, rest);
    var (rs, rest2) :- DecodeVec(DecodeValType, rest1);
    Some((FuncType(ps, rs), rest2))
  }

  function DecodeImport(bs: seq<byte>): Parsed<Import> {
    var (m, rest) :- DecodeChunk(bs);
    var (n, rest1) :- DecodeChunk(rest);
    var rest2 :- DecodeByte(0x00, rest1);
    var (t, rest3) :- DecodeIndex(rest2);
    Some((Import(m, n, t), rest3))
  }

  function DecodeMem(bs: seq<byte>): Parsed<nat> {
    var rest :- DecodeByte(0x00, bs);
    DecodeIndex(rest)
  }

  function DecodeExport(bs: seq<byte>): Parsed<Export> {
    var (n, rest) :- DecodeChunk(bs);
    if rest == [] || rest[0] !in {0x00, 0x02} then None
    else
      var (i, rest1) :- DecodeIndex(rest[1..]);
      Some((Export(n, if rest[0] == 0x00 then FuncExport else MemExport, i), rest1))
  }

  function DecodeLocals(bs: seq<byte>): Parsed<Locals> {
    var (n, rest) :- DecodeIndex(bs);
    var (t, rest1) :- DecodeValType(rest);
    Some((Locals(n, t), rest1))
  }

  function DecodeInstr(bs: seq<byte>): (r: Parsed<Instr>)
    ensures r.Some? ==> |r.value.1| < |bs|
    decreases |bs|, 0
  {
    if bs == [] then None
    else if bs[0] in {0x20, 0x21, 0x10, 0x0c, 0x0d} then
      var (x, r) :- DecodeU(32, bs[1..]);
      Some((Indexed(bs[0], x), r))
    else if bs[0] == 0x41 then
      var (n, r) :- DecodeS(32, bs[1..]);
      Some((I32Const(n), r))
    else if bs[0] == 0x42 then
      var (n, r) :- DecodeS(64, bs[1..]);
      Some((I64Const(n), r))
    else if bs[0] == 0x2d then
      var (a, r) :- DecodeU(32, bs[1..]);
      var (o, r1) :- DecodeU(32, r);
      Some((Load8U(a, o), r1))
    else if bs[0] in {0x02, 0x03} then
      var r :- DecodeByte(0x40, bs[1..]);
      var (body, r1) :- DecodeInstrs(r);
      Some((if bs[0] == 0x02 then Block(body) else Loop(body), r1))
    else
      var i :- Plain(bs[0]);
      Some((i, bs[1..]))
  }

  function Indexed(op: byte, x: nat): Instr
    requires op in {0x20, 0x21, 0x10, 0x0c, 0x0d}
  {
    if op == 0x20 then LocalGet(x)
    else if op == 0x21 then LocalSet(x)
    else if op == 0x10 then Call(x)
    else if op == 0x0c then Br(x)
    else BrIf(x)
  }

  function Plain(op: byte): Option<Instr> {
    if op == 0x6a then Some(Add)
    else if op == 0x6c then Some(Mul)
    else if op == 0x4e then Some(GeS)
    else if op == 0x1a then Some(Drop)
    else None
  }

  /** An instruction sequence up to and including its `end`. */
  function DecodeInstrs(bs: seq<byte>): (r: Parsed<seq<Instr>>)
    ensures r.Some? ==> |r.value.1| < |bs|
    decreases |bs|, 1
  {
    if bs == [] then None
    else if bs[0] == 0x0b then Some(([], bs[1..]))
    else
      var (i, rest) :- DecodeInstr(bs);
      var (ins, tail) :- DecodeInstrs(rest);
      Some(([i] + ins, tail))
  }

  function DecodeCode(bs: seq<byte>): Parsed<Code> {
    var (inner, tail) :- DecodeChunk(bs);
    var (locals, rest) :- DecodeVec(DecodeLocals, inner);
    var (body, rest1) :- DecodeInstrs(rest);
    if rest1 == [] then Some((Code(locals, body), tail)) else None
  }

  /** A section's content must be used up. */
  function Whole<T>(r: Parsed<T>): Option<T> {
    var (x, rest) :- r;
    if rest == [] then Some(x) else None
  }

  function DecodeContent(id: byte, c: seq<byte>): Option<Section> {
    if id == 1 then var x :- Whole(DecodeVec(DecodeFuncType, c)); Some(Types(x))
    else if id == 2 then var x :- Whole(DecodeVec(DecodeImport, c)); Some(Imports(x))
    else if id == 3 then var x :- Whole(DecodeVec(DecodeIndex, c)); Some(Funcs(x))
    else if id == 5 then var x :- Whole(DecodeVec(DecodeMem, c)); Some(Mems(x))
    else if id == 7 then var x :- Whole(DecodeVec(DecodeExport, c)); Some(Exports(x))
    else if id == 10 then var x :- Whole(DecodeVec(DecodeCode, c)); Some(Codes(x))
    else None
  }

  /** Sections in strictly increasing order of id, to the end of the input. */
  function DecodeSections(after: byte, bs: seq<byte>): Option<seq<Section>>
    decreases |bs|
  {
    if bs == [] then Some([])
    else if bs[0] <= after then None
    else
      var (content, rest) :- DecodeChunk(bs[1..]);
      var s :- DecodeContent(bs[0], content);
      var ss :- DecodeSections(bs[0], rest);
      Some([s] + ss)
  }

  function DecodeModule(bs: seq<byte>): Option<seq<Section>> {
    if MAGIC <= bs then DecodeSections(0, bs[8..]) else None
  }

  // ----- Round trips -----

  /** `p` reads back what `enc` wrote for every item, whatever follows. */
  ghost predicate Inverts<T>(p: seq<byte> -> Parsed<T>, enc: T -> seq<byte>, xs: seq<T>) {
    forall x, r :: x in xs ==> p(enc(x) + r) == Some((x, r))
  }

  lemma {:induction false} NRoundTrip<T>(p: seq<byte> -> Parsed<T>, enc: T -> seq<byte>, xs: seq<T>, rest: seq<byte>)
    requires Inverts(p, enc, xs)
    ensures DecodeN(p, |xs|, Concat(Map(enc, xs)) + rest) == Some((xs, rest))
  {
    var bs := Map(enc, xs);
    if xs == [] {
      assert Concat(bs) + rest == rest;
    } else {
      assert bs[1..] == Map(enc, xs[1..]);
      var tail := Concat(bs[1..]) + rest;
      assert Concat(bs) + rest == enc(xs[0]) + tail;
      assert xs[0] in xs;
      NRoundTrip(p, enc, xs[1..], rest);
      assert xs == [xs[0]] + xs[1..];
    }
  }

  lemma VecRoundTrip<T>(p: seq<byte> -> Parsed<T>, enc: T -> seq<byte>, xs: seq<T>, rest: seq<byte>)
    requires |xs| < TWO32
    requires Inverts(p, enc, xs)
    ensures DecodeVec(p, Vec(Map(enc, xs)) + rest) == Some((xs, rest))
  {
    var cs := Concat(Map(enc, xs)) + rest;
    assert Vec(Map(enc, xs)) + rest == UlebBytes(|xs|) + cs;
    DecodeUint32(|xs|, cs);
    NRoundTrip(p, enc, xs, rest);
  }

  lemma ChunkRoundTrip(c: seq<byte>, rest: seq<byte>)
    requires |c| < TWO32
    ensures DecodeChunk(UlebBytes(ToUint32(|c|)) + c + rest) == Some((c, rest))
  {
    var u := UlebBytes(|c|);
    assert u + c + rest == u + (c + rest);
    DecodeUint32(|c|, c + rest);
    assert (c + rest)[..|c|] == c && (c + rest)[|c|..] == rest;
  }

  /** Structured control survives: an immediate equal to 0x0b is never taken for
      the `end` of a block. */
  lemma {:induction false} InstrRoundTrip(i: Instr, rest: seq<byte>)
    requires InRange(i)
    ensures Print(i) != [] && Print(i)[0] != 0x0b
    ensures DecodeInstr(Print(i) + rest) == Some((i, rest))
    decreases i, 0
  {
    match i
    case Block(body) => NestedRoundTrip(i, body, rest);
    case Loop(body) => NestedRoundTrip(i, body, rest);
    case _ => FlatRoundTrip(i, rest);
  }

  lemma {:induction false} NestedRoundTrip(i: Instr, body: seq<Instr>, rest: seq<byte>)
    requires i == Block(body) || i == Loop(body)
    requires AllInRange(body)
    ensures Print(i) != [] && Print(i)[0] != 0x0b
    ensures DecodeInstr(Print(i) + rest) == Some((i, rest))
    decreases body, 2
  {
    BlockTail(Print(i) + rest, body, rest);
    InstrsRoundTrip(body, rest);
  }

  lemma FlatRoundTrip(i: Instr, rest: seq<byte>)
    requires InRange(i) && !i.Block? && !i.Loop?
    ensures Print(i) != [] && Print(i)[0] != 0x0b
    ensures DecodeInstr(Print(i) + rest) == Some((i, rest))
  {
    match i
    case I32Const(n) => ConstRoundTrip(i, n, rest);
    case I64Const(n) => ConstRoundTrip(i, n, rest);
    case LocalGet(x) => IndexRoundTrip(i, x, rest);
    case LocalSet(x) => IndexRoundTrip(i, x, rest);
    case Call(f) => IndexRoundTrip(i, f, rest);
    case Br(l) => IndexRoundTrip(i, l, rest);
    case BrIf(l) => IndexRoundTrip(i, l, rest);
    case Load8U(a, o) => LoadRoundTrip(a, o, rest);
    case Add | Mul | GeS | Drop =>
      assert (Print(i) + rest)[1..] == rest;
  }

  lemma ConstRoundTrip(i: Instr, n: int, rest: seq<byte>)
    requires i == I32Const(n) || i == I64Const(n)
    requires -TWO31 <= n < TWO31
    ensures DecodeInstr(Print(i) + rest) == Some((i, rest))
  {
    var bs := Print(i) + rest;
    assert bs[1..] == SlebBytes(n) + rest;
    DecodeInt32(n, rest);
  }

  lemma IndexRoundTrip(i: Instr, x: nat, rest: seq<byte>)
    requires i == LocalGet(x) || i == LocalSet(x) || i == Call(x) || i == Br(x) || i == BrIf(x)
    requires x < TWO32
    ensures DecodeInstr(Print(i) + rest) == Some((i, rest))
  {
    DecodeUint32(x, rest);
    var bs := Print(i) + rest;
    assert bs[1..] == UlebBytes(x) + rest;
    assert Indexed(bs[0], x) == i;
  }

  lemma LoadRoundTrip(a: nat, o: nat, rest: seq<byte>)
    requires a < TWO32 && o < TWO32
    ensures DecodeInstr(Print(Load8U(a, o)) + rest) == Some((Load8U(a, o), rest))
  {
    var bs := Print(Load8U(a, o)) + rest;
    assert bs[1..] == UlebBytes(a) + (UlebBytes(o) + rest);
    DecodeUint32(a, UlebBytes(o) + rest);
    DecodeUint32(o, rest);
  }

  lemma BlockTail(bs: seq<byte>, body: seq<Instr>, rest: seq<byte>)
    requires |bs| >= 2 && bs == [bs[0], 0x40] + PrintAll(body) + [0x0b] + rest
    ensures DecodeByte(0x40, bs[1..]) == Some(PrintAll(body) + ([0x0b] + rest))
  {
    assert bs[1..][1..] == PrintAll(body) + ([0x0b] + rest);
  }

  lemma {:induction false} InstrsRoundTrip(ins: seq<Instr>, rest: seq<byte>)
    requires AllInRange(ins)
    ensures DecodeInstrs(PrintAll(ins) + ([0x0b] + rest)) == Some((ins, rest))
    decreases ins, 1
  {
    var bs := PrintAll(ins) + ([0x0b] + rest);
    if ins == [] {
      assert bs[1..] == rest;
    } else {
      var tail := PrintAll(ins[1..]) + ([0x0b] + rest);
      assert bs == Print(ins[0]) + tail;
      InstrRoundTrip(ins[0], tail);
      assert bs[0] == Print(ins[0])[0];
      InstrsRoundTrip(ins[1..], rest);
      assert ins == [ins[0]] + ins[1..];
    }
  }

  // ----- Vectors that fit a JavaScript array -----

  /** A JavaScript array has fewer than 2^32 elements. */
  predicate Fits(bs: seq<byte>) { |bs| < TWO32 }

  lemma {:induction false} ConcatBounds(items: seq<seq<byte>>)
    requires forall i :: 0 <= i < |items| ==> |items[i]| > 0
    ensures |items| <= |Concat(items)|
    ensures forall i :: 0 <= i < |items| ==> |items[i]| <= |Concat(items)|
  {
    if items != [] {
      ConcatBounds(items[1..]);
      assert forall i :: 1 <= i < |items| ==> items[i] == items[1..][i - 1];
    }
  }

  lemma VecFits<T>(enc: T -> seq<byte>, xs: seq<T>)
    requires forall x :: x in xs ==> enc(x) != []
    requires Fits(Vec(Map(enc, xs)))
    ensures |xs| < TWO32
    ensures forall x :: x in xs ==> Fits(enc(x))
  {
    var items := Map(enc, xs);
    forall i | 0 <= i < |items| ensures |items[i]| > 0 {
      assert xs[i] in xs;
    }
    ConcatBounds(items);
    forall x | x in xs ensures Fits(enc(x)) {
      var i :| 0 <= i < |xs| && xs[i] == x;
      assert items[i] == enc(x);
    }
  }

  lemma IndexItem(x: nat, rest: seq<byte>)
    requires x < TWO32
    ensures PrintIndex(x) != []
    ensures DecodeIndex(PrintIndex(x) + rest) == Some((x, rest))
  {
    DecodeUint32(x, rest);
  }

  lemma ValTypesRoundTrip(ts: seq<ValType>, rest: seq<byte>)
    requires Fits(Vec(Map(t => [TypeByte(t)], ts)))
    ensures DecodeVec(DecodeValType, Vec(Map(t => [TypeByte(t)], ts)) + rest) == Some((ts, rest))
  {
    var enc := (t: ValType) => [TypeByte(t)];
    VecFits(enc, ts);
    forall t, r | t in ts ensures DecodeValType(enc(t) + r) == Some((t, r)) {
      assert (enc(t) + r)[1..] == r;
    }
    VecRoundTrip(DecodeValType, enc, ts, rest);
  }

  lemma FuncTypeRoundTrip(t: FuncType, rest: seq<byte>)
    requires Fits(PrintType(t))
    ensures DecodeFuncType(PrintType(t) + rest) == Some((t, rest))
  {
    var ps, rs := Vec(Map(t => [TypeByte(t)], t.params)), Vec(Map(t => [TypeByte(t)], t.results));
    assert (PrintType(t) + rest)[1..] == ps + (rs + rest);
    ValTypesRoundTrip(t.params, rs + rest);
    ValTypesRoundTrip(t.results, rest);
  }

  lemma ImportRoundTrip(i: Import, rest: seq<byte>)
    requires Fits(PrintImport(i)) && i.typeIdx < TWO32
    ensures DecodeImport(PrintImport(i) + rest) == Some((i, rest))
  {
    var tail := [0x00] + (PrintIndex(i.typeIdx) + rest);
    assert PrintImport(i) + rest == PrintName(i.mod) + (PrintName(i.name) + tail);
    ChunkRoundTrip(i.mod, PrintName(i.name) + tail);
    ChunkRoundTrip(i.name, tail);
    assert tail[1..] == PrintIndex(i.typeIdx) + rest;
    IndexItem(i.typeIdx, rest);
  }

  lemma MemRoundTrip(m: nat, rest: seq<byte>)
    requires m < TWO32
    ensures DecodeMem(PrintMem(m) + rest) == Some((m, rest))
  {
    assert (PrintMem(m) + rest)[1..] == PrintIndex(m) + rest;
    IndexItem(m, rest);
  }

  lemma ExportRoundTrip(e: Export, rest: seq<byte>)
    requires Fits(PrintExport(e)) && e.index < TWO32
    ensures DecodeExport(PrintExport(e) + rest) == Some((e, rest))
  {
    var tail := [if e.kind.FuncExport? then 0x00 else 0x02] + (PrintIndex(e.index) + rest);
    assert PrintExport(e) + rest == PrintName(e.name) + tail;
    ChunkRoundTrip(e.name, tail);
    assert tail[1..] == PrintIndex(e.index) + rest;
    IndexItem(e.index, rest);
  }

  lemma LocalsRoundTrip(g: Locals, rest: seq<byte>)
    requires g.count < TWO32
    ensures DecodeLocals(LocalsBytes(g) + rest) == Some((g, rest))
  {
    var tail := [TypeByte(g.t)] + rest;
    assert LocalsBytes(g) + rest == PrintIndex(g.count) + tail;
    IndexItem(g.count, tail);
    assert tail[1..] == rest;
  }

  lemma CodeRoundTrip(c: Code, rest: seq<byte>)
    requires Fits(PrintCode(c)) && CodeInRange(c)
    ensures DecodeCode(PrintCode(c) + rest) == Some((c, rest))
  {
    var locals := Vec(Map(LocalsBytes, c.locals));
    var inner := locals + PrintAll(c.body) + [0x0b];
    ChunkRoundTrip(inner, rest);
    VecFits(LocalsBytes, c.locals);
    forall g, r | g in c.locals ensures DecodeLocals(LocalsBytes(g) + r) == Some((g, r)) {
      LocalsRoundTrip(g, r);
    }
    var body := PrintAll(c.body) + ([0x0b] + []);
    VecRoundTrip(DecodeLocals, LocalsBytes, c.locals, body);
    assert inner == locals + body;
    InstrsRoundTrip(c.body, []);
  }

  // ----- Sections and modules -----

  lemma WholeVec<T>(p: seq<byte> -> Parsed<T>, enc: T -> seq<byte>, xs: seq<T>)
    requires |xs| < TWO32
    requires Inverts(p, enc, xs)
    ensures Whole(DecodeVec(p, Vec(Map(enc, xs)))) == Some(xs)
  {
    VecRoundTrip(p, enc, xs, []);
    assert Vec(Map(enc, xs)) + [] == Vec(Map(enc, xs));
  }

  lemma TypesRoundTrip(xs: seq<FuncType>)
    requires Fits(Vec(Map(PrintType, xs)))
    ensures DecodeContent(1, Vec(Map(PrintType, xs))) == Some(Types(xs))
  {
    VecFits(PrintType, xs);
    assert Inverts(DecodeFuncType, PrintType, xs) by {
      forall x, r | x in xs ensures DecodeFuncType(PrintType(x) + r) == Some((x, r)) {
        FuncTypeRoundTrip(x, r);
      }
    }
    WholeVec(DecodeFuncType, PrintType, xs);
  }

  lemma ImportsRoundTrip(xs: seq<Import>)
    requires Fits(Vec(Map(PrintImport, xs)))
    requires forall i :: i in xs ==> i.typeIdx < TWO32
    ensures DecodeContent(2, Vec(Map(PrintImport, xs))) == Some(Imports(xs))
  {
    VecFits(PrintImport, xs);
    assert Inverts(DecodeImport, PrintImport, xs) by {
      forall x, r | x in xs ensures DecodeImport(PrintImport(x) + r) == Some((x, r)) {
        ImportRoundTrip(x, r);
      }
    }
    WholeVec(DecodeImport, PrintImport, xs);
  }

  lemma FuncsRoundTrip(xs: seq<nat>)
    requires Fits(Vec(Map(PrintIndex, xs)))
    requires forall f :: f in xs ==> f < TWO32
    ensures DecodeContent(3, Vec(Map(PrintIndex, xs))) == Some(Funcs(xs))
  {
    VecFits(PrintIndex, xs);
    assert Inverts(DecodeIndex, PrintIndex, xs) by {
      forall x, r | x in xs ensures DecodeIndex(PrintIndex(x) + r) == Some((x, r)) {
        IndexItem(x, r);
      }
    }
    WholeVec(DecodeIndex, PrintIndex, xs);
  }

  lemma MemsRoundTrip(xs: seq<nat>)
    requires Fits(Vec(Map(PrintMem, xs)))
    requires forall m :: m in xs ==> m < TWO32
    ensures DecodeContent(5, Vec(Map(PrintMem, xs))) == Some(Mems(xs))
  {
    VecFits(PrintMem, xs);
    assert Inverts(DecodeMem, PrintMem, xs) by {
      forall x, r | x in xs ensures DecodeMem(PrintMem(x) + r) == Some((x, r)) {
        MemRoundTrip(x, r);
      }
    }
    WholeVec(DecodeMem, PrintMem, xs);
  }

  lemma ExportsInvert(xs: seq<Export>)
    requires forall e :: e in xs ==> e.index < TWO32 && Fits(PrintExport(e))
    ensures Inverts(DecodeExport, PrintExport, xs)
  {
    forall x, r | x in xs ensures DecodeExport(PrintExport(x) + r) == Some((x, r)) {
      ExportRoundTrip(x, r);
    }
  }

  lemma ExportsRoundTrip(xs: seq<Export>)
    requires Fits(Vec(Map(PrintExport, xs)))
    requires forall e :: e in xs ==> e.index < TWO32
    ensures DecodeContent(7, Vec(Map(PrintExport, xs))) == Some(Exports(xs))
  {
    VecFits(PrintExport, xs);
    ExportsInvert(xs);
    WholeVec(DecodeExport, PrintExport, xs);
  }

  lemma CodesInvert(xs: seq<Code>)
    requires forall c :: c in xs ==> CodeInRange(c) && Fits(PrintCode(c))
    ensures Inverts(DecodeCode, PrintCode, xs)
  {
    forall x, r | x in xs ensures DecodeCode(PrintCode(x) + r) == Some((x, r)) {
      CodeRoundTrip(x, r);
    }
  }

  lemma CodesRoundTrip(xs: seq<Code>)
    requires Fits(Vec(Map(PrintCode, xs)))
    requires forall c :: c in xs ==> CodeInRange(c)
    ensures DecodeContent(10, Vec(Map(PrintCode, xs))) == Some(Codes(xs))
  {
    VecFits(PrintCode, xs);
    CodesInvert(xs);
    WholeVec(DecodeCode, PrintCode, xs);
    CodesContent(Vec(Map(PrintCode, xs)), xs);
  }

  lemma CodesContent(c: seq<byte>, xs: seq<Code>)
    requires Whole(DecodeVec(DecodeCode, c)) == Some(xs)
    ensures DecodeContent(10, c) == Some(Codes(xs))
  {
  }

  lemma ContentRoundTrip(s: Section)
    requires Fits(PrintContent(s)) && SectionInRange(s)
    ensures DecodeContent(s.Id(), PrintContent(s)) == Some(s)
  {
    match s
    case Types(xs) => TypesRoundTrip(xs);
    case Imports(xs) => ImportsRoundTrip(xs);
    case Funcs(xs) => FuncsRoundTrip(xs);
    case Mems(xs) => MemsRoundTrip(xs);
    case Exports(xs) => ExportsRoundTrip(xs);
    case Codes(xs) => CodesRoundTrip(xs);
  }

  lemma SectionHead(s: Section, tail: seq<byte>)
    requires Fits(PrintContent(s))
    ensures PrintSection(s) != [] && PrintSection(s)[0] == s.Id()
    ensures DecodeChunk((PrintSection(s) + tail)[1..]) == Some((PrintContent(s), tail))
  {
    var c := PrintContent(s);
    assert (PrintSection(s) + tail)[1..] == UlebBytes(ToUint32(|c|)) + c + tail;
    ChunkRoundTrip(c, tail);
  }

  lemma SectionStep(after: byte, s: Section, tail: seq<byte>, ss: seq<Section>)
    requires after < s.Id() && SectionInRange(s) && Fits(PrintContent(s))
    requires DecodeSections(s.Id(), tail) == Some(ss)
    ensures DecodeSections(after, PrintSection(s) + tail) == Some([s] + ss)
  {
    SectionHead(s, tail);
    ContentRoundTrip(s);
  }

  lemma {:induction false} SectionsRoundTrip(after: byte, secs: seq<Section>)
    requires Increasing(secs) && (secs != [] ==> after < secs[0].Id())
    requires forall s :: s in secs ==> SectionInRange(s)
    requires Fits(Concat(Map(PrintSection, secs)))
    ensures DecodeSections(after, Concat(Map(PrintSection, secs))) == Some(secs)
    decreases secs
  {
    if secs != [] {
      var s, tail := secs[0], Concat(Map(PrintSection, secs[1..]));
      assert Map(PrintSection, secs)[1..] == Map(PrintSection, secs[1..]);
      assert Concat(Map(PrintSection, secs)) == PrintSection(s) + tail;
      assert s in secs;
      SectionsRoundTrip(s.Id(), secs[1..]);
      SectionStep(after, s, tail, secs[1..]);
      assert secs == [s] + secs[1..];
    }
  }

  /** Every module put together from the emitter's helpers, with its sections in
      order, is read back exactly, and to the last byte. */
  lemma ModuleRoundTrip(secs: seq<Section>)
    requires Increasing(secs)
    requires forall s :: s in secs ==> SectionInRange(s)
    requires Fits(PrintModule(secs))
    ensures DecodeModule(PrintModule(secs)) == Some(secs)
  {
    assert PrintModule(secs)[8..] == Concat(Map(PrintSection, secs));
    SectionsRoundTrip(0, secs);
  }
}
