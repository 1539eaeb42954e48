/** The array-building helpers of bench/scripts/wasm-mod.js, and the printer of
    abstract modules they amount to. */
module WasmEmit {
  import opened Common
  import opened Leb128
  import opened WasmSyntax

  // ----- bench/scripts/wasm-mod.js:34-53 -----

  function Vec(items: seq<seq<byte>>): seq<byte> {
    UlebBytes(ToUint32(|items|)) + Concat(items)
  }

  function SectionBytes(id: byte, content: seq<byte>): seq<byte> {
    [id] + UlebBytes(ToUint32(|content|)) + content
  }

  function Str(s: string): seq<byte> {
    UlebBytes(ToUint32(|s|)) + Bytes(s)
  }

  function TypeByte(t: ValType): byte {
    match t case I32 => 0x7f case I64 => 0x7e
  }

  function FuncTypeBytes(params: seq<ValType>, results: seq<ValType>): seq<byte> {
    [0x60] + Vec(Map(t => [TypeByte(t)], params)) + Vec(Map(t => [TypeByte(t)], results))
  }

  function CodeBytes(locals: seq<Locals>, body: seq<byte>): seq<byte> {
    var inner := Vec(Map(LocalsBytes, locals)) + body + [0x0b];
    UlebBytes(ToUint32(|inner|)) + inner
  }

  function LocalsBytes(g: Locals): seq<byte> {
    UlebBytes(ToUint32(g.count)) + [TypeByte(g.t)]
  }

  function I32c(n: int): seq<byte> { [0x41] + SlebBytes(ToInt32(n)) }
  function I64c(n: int): seq<byte> { [0x42] + SlebBytes(ToInt32(n)) }
  function Get(i: int): seq<byte> { [0x20] + UlebBytes(ToUint32(i)) }
  function Set(i: int): seq<byte> { [0x21] + UlebBytes(ToUint32(i)) }
  function CallBytes(i: int): seq<byte> { [0x10] + UlebBytes(ToUint32(i)) }
  const ADD: byte := 0x6a
  const MUL: byte := 0x6c
  const GE_S: byte := 0x4e
  const DROP: byte := 0x1a

  // ----- bench/scripts/wasm-mod.js:58-68 -----

  function ForLoop(iIdx: int, boundExpr: seq<byte>, body: seq<byte>): seq<byte> {
    I32c(0) + Set(iIdx) +
    [0x02, 0x40] +
    [0x03, 0x40] +
    Get(iIdx) + boundExpr + [GE_S, 0x0d, 0x01] +
    body +
    Get(iIdx) + I32c(1) + [ADD] + Set(iIdx) +
    [0x0c, 0x00] +
    [0x0b] +
    [0x0b]
  }

  const MAGIC: seq<byte> := [0, 0x61, 0x73, 0x6d, 1, 0, 0, 0]

  // ----- Printing abstract syntax with the same helpers -----

  function Print(i: Instr): seq<byte> {
    match i
    case I32Const(n) => I32c(n)
    case I64Const(n) => I64c(n)
    case LocalGet(x) => Get(x)
    case LocalSet(x) => Set(x)
    case Call(f) => CallBytes(f)
    case Add => [ADD]
    case Mul => [MUL]
    case GeS => [GE_S]
    case Drop => [DROP]
    case Load8U(a, o) => [0x2d] + UlebBytes(ToUint32(a)) + UlebBytes(ToUint32(o))
    case Block(body) => [0x02, 0x40] + PrintAll(body) + [0x0b]
    case Loop(body) => [0x03, 0x40] + PrintAll(body) + [0x0b]
    case Br(l) => [0x0c] + UlebBytes(ToUint32(l))
    case BrIf(l) => [0x0d] + UlebBytes(ToUint32(l))
  }

  function PrintAll(ins: seq<Instr>): seq<byte> {
    if ins == [] then [] else Print(ins[0]) + PrintAll(ins[1..])
  }

  function PrintType(t: FuncType): seq<byte> { FuncTypeBytes(t.params, t.results) }

  function PrintName(n: seq<byte>): seq<byte> { UlebBytes(ToUint32(|n|)) + n }

  function PrintIndex(i: nat): seq<byte> { UlebBytes(ToUint32(i)) }

  function PrintImport(i: Import): seq<byte> {
    PrintName(i.mod) + PrintName(i.name) + [0x00] + PrintIndex(i.typeIdx)
  }

  function PrintMem(min: nat): seq<byte> { [0x00] + PrintIndex(min) }

  function PrintExport(e: Export): seq<byte> {
    PrintName(e.name) + [if e.kind.FuncExport? then 0x00 else 0x02] + PrintIndex(e.index)
  }

  function PrintCode(c: Code): seq<byte> { CodeBytes(c.locals, PrintAll(c.body)) }

  function PrintContent(s: Section): seq<byte> {
    match s
    case Types(ts) => Vec(Map(PrintType, ts))
    case Imports(ins) => Vec(Map(PrintImport, ins))
    case Funcs(fs) => Vec(Map(PrintIndex, fs))
    case Mems(ms) => Vec(Map(PrintMem, ms))
    case Exports(es) => Vec(Map(PrintExport, es))
    case Codes(cs) => Vec(Map(PrintCode, cs))
  }

  function PrintSection(s: Section): seq<byte> { SectionBytes(s.Id(), PrintContent(s)) }

  function PrintModule(secs: seq<Section>): seq<byte> {
    MAGIC + Concat(Map(PrintSection, secs))
  }

  lemma {:induction false} PrintAllAppend(a: seq<Instr>, b: seq<Instr>)
    ensures PrintAll(a + b) == PrintAll(a) + PrintAll(b)
  {
    if a == [] {
      assert a + b == b;
    } else {
      assert (a + b)[1..] == a[1..] + b;
      PrintAllAppend(a[1..], b);
    }
  }

  /** Sections are appended one after the other. */
  lemma MoreSections(secs: seq<Section>, s: Section)
    ensures PrintModule(secs + [s]) == PrintModule(secs) + PrintSection(s)
  {
    assert Map(PrintSection, secs + [s]) == Map(PrintSection, secs) + [PrintSection(s)];
    ConcatSnoc(Map(PrintSection, secs), PrintSection(s));
    assert MAGIC + (Concat(Map(PrintSection, secs)) + PrintSection(s)) == PrintModule(secs) + PrintSection(s);
  }

  lemma FourSections(a: Section, b: Section, c: Section, d: Section)
    ensures PrintModule([a, b, c, d]) == MAGIC + PrintSection(a) + PrintSection(b) + PrintSection(c) + PrintSection(d)
  {
    assert PrintModule([]) == MAGIC;
    MoreSections([], a);
    MoreSections([a], b);
    MoreSections([a, b], c);
    MoreSections([a, b, c], d);
    assert [] + [a] == [a] && [a] + [b] == [a, b] && [a, b] + [c] == [a, b, c] && [a, b, c] + [d] == [a, b, c, d];
  }

  lemma FiveSections(a: Section, b: Section, c: Section, d: Section, e: Section)
    ensures PrintModule([a, b, c, d, e])
         == MAGIC + PrintSection(a) + PrintSection(b) + PrintSection(c) + PrintSection(d) + PrintSection(e)
  {
    FourSections(a, b, c, d);
    MoreSections([a, b, c, d], e);
    assert [a, b, c, d] + [e] == [a, b, c, d, e];
  }

  lemma SixSections(a: Section, b: Section, c: Section, d: Section, e: Section, f: Section)
    ensures PrintModule([a, b, c, d, e, f])
         == MAGIC + PrintSection(a) + PrintSection(b) + PrintSection(c) + PrintSection(d) + PrintSection(e) + PrintSection(f)
  {
    FiveSections(a, b, c, d, e);
    MoreSections([a, b, c, d, e], f);
    assert [a, b, c, d, e] + [f] == [a, b, c, d, e, f];
  }

  lemma ModuleLength(secs: seq<Section>)
    requires |secs| <= 6
    requires forall i :: 0 <= i < |secs| ==> |PrintContent(secs[i])| <= 1000
    ensures |PrintModule(secs)| < TWO32
  {
    forall i | 0 <= i < |secs| ensures |Map(PrintSection, secs)[i]| <= 1006 {
      SectionLength(secs[i]);
    }
    ConcatLength(Map(PrintSection, secs), 1006);
  }

  // ----- Small immediates -----

  lemma SmallIndices()
    ensures PrintIndex(0) == [0] && PrintIndex(1) == [1] && PrintIndex(2) == [2]
  {
  }

  lemma ExportPrints(name: string, kind: ExportKind, i: nat)
    requires i <= 2
    ensures PrintExport(Export(Bytes(name), kind, i)) == Str(name) + [if kind.FuncExport? then 0x00 else 0x02, i]
  {
    SmallIndices();
  }

  lemma PrintOne(i: Instr)
    ensures PrintAll([i]) == Print(i)
  {
  }

  lemma PrintTwo(i: Instr, j: Instr)
    ensures PrintAll([i, j]) == Print(i) + Print(j)
  {
    assert [i, j][1..] == [j];
    PrintOne(j);
  }

  lemma PrintThree(i: Instr, j: Instr, k: Instr)
    ensures PrintAll([i, j, k]) == Print(i) + Print(j) + Print(k)
  {
    PrintTwo(i, j);
    PrintOne(k);
    PrintAllAppend([i, j], [k]);
    assert [i, j] + [k] == [i, j, k];
  }

  lemma PrintMore(ins: seq<Instr>, i: Instr)
    ensures PrintAll(ins + [i]) == PrintAll(ins) + Print(i)
  {
    PrintOne(i);
    PrintAllAppend(ins, [i]);
  }

  // ----- Sizes -----

  lemma {:induction false} ConcatLength(items: seq<seq<byte>>, m: nat)
    requires forall i :: 0 <= i < |items| ==> |items[i]| <= m
    ensures |Concat(items)| <= |items| * m
  {
    if items != [] {
      assert forall i :: 0 <= i < |items| - 1 ==> items[1..][i] == items[i + 1];
      ConcatLength(items[1..], m);
      assert |items| * m == m + (|items| - 1) * m;
    }
  }

  lemma VecLength(items: seq<seq<byte>>, m: nat)
    requires forall i :: 0 <= i < |items| ==> |items[i]| <= m
    ensures |Vec(items)| <= 5 + |items| * m
  {
    AtMostFiveBytes(|items|);
    ConcatLength(items, m);
  }

  lemma InstrLength(i: Instr)
    requires !i.Block? && !i.Loop?
    ensures |Print(i)| <= 11
  {
    match i
    case I32Const(n) => AtMostFiveBytes(n);
    case I64Const(n) => AtMostFiveBytes(n);
    case LocalGet(x) => AtMostFiveBytes(x);
    case LocalSet(x) => AtMostFiveBytes(x);
    case Call(f) => AtMostFiveBytes(f);
    case Br(l) => AtMostFiveBytes(l);
    case BrIf(l) => AtMostFiveBytes(l);
    case Load8U(a, o) =>
      AtMostFiveBytes(a);
      AtMostFiveBytes(o);
    case Add | Mul | GeS | Drop =>
  }

  lemma {:induction false} FlatLength(ins: seq<Instr>)
    requires forall j :: 0 <= j < |ins| ==> !ins[j].Block? && !ins[j].Loop?
    ensures |PrintAll(ins)| <= 11 * |ins|
  {
    if ins != [] {
      InstrLength(ins[0]);
      assert forall j :: 0 <= j < |ins| - 1 ==> ins[1..][j] == ins[j + 1];
      FlatLength(ins[1..]);
    }
  }

  lemma ForLoopLength(x: int, bound: seq<byte>, body: seq<byte>)
    ensures |ForLoop(x, bound, body)| <= 50 + |bound| + |body|
  {
    AtMostFiveBytes(0);
    AtMostFiveBytes(1);
    AtMostFiveBytes(x);
  }

  lemma CodeLength(locals: seq<Locals>, body: seq<byte>)
    ensures |CodeBytes(locals, body)| <= 11 + 6 * |locals| + |body|
  {
    forall i | 0 <= i < |locals| ensures |LocalsBytes(locals[i])| <= 6 {
      AtMostFiveBytes(locals[i].count);
    }
    VecLength(Map(LocalsBytes, locals), 6);
    AtMostFiveBytes(|Vec(Map(LocalsBytes, locals)) + body + [0x0b]|);
  }

  lemma FuncTypeLength(t: FuncType)
    ensures |PrintType(t)| <= 11 + |t.params| + |t.results|
  {
    VecLength(Map(t => [TypeByte(t)], t.params), 1);
    VecLength(Map(t => [TypeByte(t)], t.results), 1);
  }

  lemma SectionLength(s: Section)
    ensures |PrintSection(s)| <= 6 + |PrintContent(s)|
  {
    AtMostFiveBytes(|PrintContent(s)|);
  }
}
