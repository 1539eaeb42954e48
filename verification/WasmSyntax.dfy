/** Abstract syntax of the WebAssembly fragment that bench/scripts/wasm-mod.js emits
    (WebAssembly Core Specification 1.0, section 2). */
module WasmSyntax {
  import opened Common
  import opened Leb128

  datatype ValType = I32 | I64

  datatype Instr =
    | I32Const(n: int)
    | I64Const(n: int)
    | LocalGet(x: nat)
    | LocalSet(x: nat)
    | Call(f: nat)
    | Add
    | Mul
    | GeS
    | Drop
    | Load8U(align: nat, offset: nat)
    | Block(body: seq<Instr>)
    | Loop(body: seq<Instr>)
    | Br(l: nat)
    | BrIf(l: nat)

  datatype FuncType = FuncType(params: seq<ValType>, results: seq<ValType>)
  datatype Import = Import(mod: seq<byte>, name: seq<byte>, typeIdx: nat)
  datatype ExportKind = FuncExport | MemExport
  datatype Export = Export(name: seq<byte>, kind: ExportKind, index: nat)
  datatype Locals = Locals(count: nat, t: ValType)
  datatype Code = Code(locals: seq<Locals>, body: seq<Instr>)

  datatype Section =
    | Types(types: seq<FuncType>)
    | Imports(imports: seq<Import>)
    | Funcs(funcs: seq<nat>)
    | Mems(mins: seq<nat>)
    | Exports(exports: seq<Export>)
    | Codes(codes: seq<Code>)
  {
    /** Section ids, section 5.5.2. */
    function Id(): byte {
      match this
      case Types(_) => 1
      case Imports(_) => 2
      case Funcs(_) => 3
      case Mems(_) => 5
      case Exports(_) => 7
      case Codes(_) => 10
    }
  }

  datatype Module = Module(
    types: seq<FuncType>,
    imports: seq<Import>,
    funcs: seq<nat>,
    mins: seq<nat>,
    exports: seq<Export>,
    codes: seq<Code>)

  /** The module a list of sections describes; an absent section is an empty one. */
  function Assemble(secs: seq<Section>): Module {
    if secs == [] then Module([], [], [], [], [], [])
    else
      var m := Assemble(secs[1..]);
      match secs[0]
      case Types(ts) => m.(types := ts)
      case Imports(ins) => m.(imports := ins)
      case Funcs(fs) => m.(funcs := fs)
      case Mems(ms) => m.(mins := ms)
      case Exports(es) => m.(exports := es)
      case Codes(cs) => m.(codes := cs)
  }

  // ----- Immediates that have an encoding -----

  predicate InRange(i: Instr) {
    match i
    case I32Const(n) => -TWO31 <= n < TWO31
    case I64Const(n) => -TWO31 <= n < TWO31
    case LocalGet(x) => x < TWO32
    case LocalSet(x) => x < TWO32
    case Call(f) => f < TWO32
    case Load8U(a, o) => a < TWO32 && o < TWO32
    case Br(l) => l < TWO32
    case BrIf(l) => l < TWO32
    case Block(body) => AllInRange(body)
    case Loop(body) => AllInRange(body)
    case _ => true
  }

  predicate AllInRange(ins: seq<Instr>) {
    forall j :: 0 <= j < |ins| ==> InRange(ins[j])
  }

  predicate CodeInRange(c: Code) {
    && (forall g :: g in c.locals ==> g.count < TWO32)
    && AllInRange(c.body)
  }

  predicate SectionInRange(s: Section) {
    match s
    case Types(_) => true
    case Imports(ins) => forall i :: i in ins ==> i.typeIdx < TWO32
    case Funcs(fs) => forall f :: f in fs ==> f < TWO32
    case Mems(ms) => forall m :: m in ms ==> m < TWO32
    case Exports(es) => forall e :: e in es ==> e.index < TWO32
    case Codes(cs) => forall c :: c in cs ==> CodeInRange(c)
  }

  predicate Increasing(secs: seq<Section>) {
    forall i, j :: 0 <= i < j < |secs| ==> secs[i].Id() < secs[j].Id()
  }
}
