/** `bigModule` (bench/scripts/wasm-mod.js:124-147): many functions, each a chain of
    additions and multiplications, every constant shifted by a salt. */
module WasmBig {
  import opened Common
  import opened Decimal
  import opened Leb128
  import opened WasmSyntax
  import opened WasmEmit
  import opened WasmDecode
  import opened WasmExec
  import opened WasmValid

  // ----- The builder -----

  function ChainBytes(k: int, chain: nat): seq<byte> {
    if chain == 0 then []
    else ChainBytes(k, chain - 1) + (I32c(k + chain) + [ADD] + I32c((chain - 1) % 7 + 2) + [MUL])
  }

  function BodyBytes(k: int, chain: nat): seq<byte> {
    CodeBytes([], Get(0) + ChainBytes(k, chain))
  }

  function ExportBytes(f: nat): seq<byte> {
    Str("f" + Dec(f)) + [0x00] + UlebBytes(ToUint32(f))
  }

  function Bodies(funcs: nat, chain: nat, salt: int): (r: seq<seq<byte>>)
    ensures |r| == funcs && forall f :: 0 <= f < funcs ==> r[f] == BodyBytes(salt + f, chain)
  {
    seq(funcs, f requires f >= 0 => BodyBytes(salt + f, chain))
  }

  function ExportList(funcs: nat): (r: seq<seq<byte>>)
    ensures |r| == funcs && forall f :: 0 <= f < funcs ==> r[f] == ExportBytes(f)
  {
    seq(funcs, f requires f >= 0 => ExportBytes(f))
  }

  function TypeIndices(funcs: nat): (r: seq<seq<byte>>)
    ensures |r| == funcs && forall f :: 0 <= f < funcs ==> r[f] == [0x00]
  {
    seq(funcs, _ => [0x00])
  }

  function BigModule(funcs: nat, chain: nat, salt: int): seq<byte> {
    MAGIC +
    SectionBytes(1, Vec([FuncTypeBytes([I32], [I32])])) +
    SectionBytes(3, Vec(TypeIndices(funcs))) +
    SectionBytes(7, Vec(ExportList(funcs))) +
    SectionBytes(10, Vec(Bodies(funcs, chain, salt)))
  }

  /** The builder's own nested loops; a count below zero runs no iteration. */
  method BuildBigModule(funcs: int, chain: int, salt: int) returns (out: seq<byte>)
    ensures out == BigModule(Max(0, funcs), Max(0, chain), salt)
  {
    var bodies: seq<seq<byte>>, exports: seq<seq<byte>> := [], [];
    var f := 0;
    while f < funcs
      invariant 0 <= f <= Max(0, funcs)
      invariant bodies == Bodies(f, Max(0, chain), salt) && exports == ExportList(f)
    {
      var body := BuildBody(salt, f, chain);
      ListsStep(f, Max(0, chain), salt);
      bodies := bodies + [CodeBytes([], body)];
      exports := exports + [Str("f" + Dec(f)) + [0x00] + UlebBytes(ToUint32(f))];
      f := f + 1;
    }
    var types := seq(|bodies|, _ => [0x00]);
    assert types == TypeIndices(f);
    out := MAGIC +
      SectionBytes(1, Vec([FuncTypeBytes([I32], [I32])])) +
      SectionBytes(3, Vec(types)) +
      SectionBytes(7, Vec(exports)) +
      SectionBytes(10, Vec(bodies));
  }

  lemma ListsStep(f: nat, chain: nat, salt: int)
    ensures Bodies(f + 1, chain, salt) == Bodies(f, chain, salt) + [BodyBytes(salt + f, chain)]
    ensures ExportList(f + 1) == ExportList(f) + [ExportBytes(f)]
  {
  }

  /** The inner loop of the builder. */
  method BuildBody(salt: int, f: nat, chain: int) returns (body: seq<byte>)
    ensures body == Get(0) + ChainBytes(salt + f, Max(0, chain))
  {
    body := Get(0);
    var c := 0;
    while c < chain
      invariant 0 <= c <= Max(0, chain)
      invariant body == Get(0) + ChainBytes(salt + f, c)
    {
      ghost var done, piece := ChainBytes(salt + f, c), I32c(salt + f + c + 1) + [ADD] + I32c(c % 7 + 2) + [MUL];
      assert Get(0) + done + piece == Get(0) + (done + piece);
      body := body + (I32c(salt + f + c + 1) + [ADD] + I32c(c % 7 + 2) + [MUL]);
      c := c + 1;
    }
  }

  // ----- The module it means -----

  function ChainCode(k: int, chain: nat): seq<Instr> {
    if chain == 0 then []
    else ChainCode(k, chain - 1) + Link(k, chain)
  }

  function FuncCode(k: int, chain: nat): Code { Code([], [LocalGet(0)] + ChainCode(k, chain)) }

  function FuncName(f: nat): seq<byte> { Bytes("f" + Dec(f)) }

  const TYPE_SEC := Types([FuncType([I32], [I32])])

  function FuncIndices(funcs: nat): (r: seq<nat>)
    ensures |r| == funcs && forall f :: 0 <= f < funcs ==> r[f] == 0
  {
    seq(funcs, _ => 0)
  }

  function FuncExports(funcs: nat): (r: seq<Export>)
    ensures |r| == funcs && forall f :: 0 <= f < funcs ==> r[f] == Export(FuncName(f), FuncExport, f)
  {
    seq(funcs, f requires f >= 0 => Export(FuncName(f), FuncExport, f))
  }

  function FuncCodes(funcs: nat, chain: nat, salt: int): (r: seq<Code>)
    ensures |r| == funcs && forall f :: 0 <= f < funcs ==> r[f] == FuncCode(salt + f, chain)
  {
    seq(funcs, f requires f >= 0 => FuncCode(salt + f, chain))
  }

  function Sections(funcs: nat, chain: nat, salt: int): seq<Section> {
    [TYPE_SEC, Funcs(FuncIndices(funcs)), Exports(FuncExports(funcs)), Codes(FuncCodes(funcs, chain, salt))]
  }

  function TheModule(funcs: nat, chain: nat, salt: int): Module {
    Module([FuncType([I32], [I32])], [], FuncIndices(funcs), [], FuncExports(funcs), FuncCodes(funcs, chain, salt))
  }

  // ----- The bytes decode to it -----

  lemma LinkPrints(k: int, m: int)
    requires 0 <= m < 100
    ensures PrintAll([I32Const(ToInt32(k)), Add, I32Const(m), Mul]) == I32c(k) + [ADD] + I32c(m) + [MUL]
  {
    PrintThree(I32Const(ToInt32(k)), Add, I32Const(m));
    PrintMore([I32Const(ToInt32(k)), Add, I32Const(m)], Mul);
    assert [I32Const(ToInt32(k)), Add, I32Const(m)] + [Mul] == [I32Const(ToInt32(k)), Add, I32Const(m), Mul];
  }

  function Link(k: int, chain: nat): seq<Instr>
    requires chain > 0
  {
    [I32Const(ToInt32(k + chain)), Add, I32Const((chain - 1) % 7 + 2), Mul]
  }

  lemma {:induction false} ChainPrints(k: int, chain: nat)
    ensures PrintAll(ChainCode(k, chain)) == ChainBytes(k, chain)
  {
    if chain > 0 {
      ChainPrints(k, chain - 1);
      LinkPrints(k + chain, (chain - 1) % 7 + 2);
      PrintAllAppend(ChainCode(k, chain - 1), Link(k, chain));
    }
  }

  lemma BodyPrints(k: int, chain: nat)
    ensures PrintCode(FuncCode(k, chain)) == BodyBytes(k, chain)
  {
    ChainPrints(k, chain);
    PrintOne(LocalGet(0));
    PrintAllAppend([LocalGet(0)], ChainCode(k, chain));
  }

  lemma ExportsPrint(funcs: nat)
    ensures PrintSection(Exports(FuncExports(funcs))) == SectionBytes(7, Vec(ExportList(funcs)))
  {
    var es := Map(PrintExport, FuncExports(funcs));
    forall f | 0 <= f < funcs ensures es[f] == ExportList(funcs)[f] {
    }
    assert es == ExportList(funcs);
  }

  lemma BodiesPrint(funcs: nat, chain: nat, salt: int)
    ensures PrintSection(Codes(FuncCodes(funcs, chain, salt))) == SectionBytes(10, Vec(Bodies(funcs, chain, salt)))
  {
    var cs := Map(PrintCode, FuncCodes(funcs, chain, salt));
    forall f | 0 <= f < funcs ensures cs[f] == Bodies(funcs, chain, salt)[f] {
      BodyPrints(salt + f, chain);
    }
    assert cs == Bodies(funcs, chain, salt);
  }

  lemma IndicesPrint(funcs: nat)
    ensures PrintSection(TYPE_SEC) == SectionBytes(1, Vec([FuncTypeBytes([I32], [I32])]))
    ensures PrintSection(Funcs(FuncIndices(funcs))) == SectionBytes(3, Vec(TypeIndices(funcs)))
  {
    assert Map(PrintType, TYPE_SEC.types) == [FuncTypeBytes([I32], [I32])];
    SmallIndices();
    assert Map(PrintIndex, FuncIndices(funcs)) == TypeIndices(funcs);
  }

  lemma Prints(funcs: nat, chain: nat, salt: int)
    ensures BigModule(funcs, chain, salt) == PrintModule(Sections(funcs, chain, salt))
  {
    FourSections(TYPE_SEC, Funcs(FuncIndices(funcs)), Exports(FuncExports(funcs)), Codes(FuncCodes(funcs, chain, salt)));
    IndicesPrint(funcs);
    ExportsPrint(funcs);
    BodiesPrint(funcs, chain, salt);
  }

  lemma {:induction false} ChainInRange(k: int, chain: nat)
    ensures AllInRange(ChainCode(k, chain))
  {
    if chain > 0 {
      ChainInRange(k, chain - 1);
    }
  }

  lemma AllSectionsInRange(funcs: nat, chain: nat, salt: int)
    requires funcs < TWO32
    ensures forall s :: s in Sections(funcs, chain, salt) ==> SectionInRange(s)
  {
    var cs := FuncCodes(funcs, chain, salt);
    forall f | 0 <= f < funcs ensures CodeInRange(cs[f]) {
      ChainInRange(salt + f, chain);
    }
  }

  /** A JavaScript array holds the module only if there are fewer than 2^32 functions. */
  lemma FewFunctions(funcs: nat, chain: nat, salt: int)
    requires Fits(BigModule(funcs, chain, salt))
    ensures funcs < TWO32
  {
    ConcatBounds(Bodies(funcs, chain, salt));
  }

  lemma Assembles(funcs: nat, chain: nat, salt: int)
    ensures Assemble(Sections(funcs, chain, salt)) == TheModule(funcs, chain, salt)
  {
    var ss := Sections(funcs, chain, salt);
    assert ss[1..][1..] == ss[2..] && ss[2..][1..] == ss[3..] && ss[3..][1..] == [];
    assert Assemble(ss[3..]) == Module([], [], [], [], [], FuncCodes(funcs, chain, salt));
    assert Assemble(ss[2..]) == Module([], [], [], [], FuncExports(funcs), FuncCodes(funcs, chain, salt));
    assert Assemble(ss[1..]) == Module([], [], FuncIndices(funcs), [], FuncExports(funcs), FuncCodes(funcs, chain, salt));
  }

  lemma InOrder(funcs: nat, chain: nat, salt: int)
    ensures Increasing(Sections(funcs, chain, salt))
  {
  }

  lemma Decodes(funcs: nat, chain: nat, salt: int)
    requires Fits(BigModule(funcs, chain, salt))
    ensures DecodeModule(BigModule(funcs, chain, salt)) == Some(Sections(funcs, chain, salt))
    ensures Assemble(Sections(funcs, chain, salt)) == TheModule(funcs, chain, salt)
  {
    Prints(funcs, chain, salt);
    FewFunctions(funcs, chain, salt);
    InOrder(funcs, chain, salt);
    AllSectionsInRange(funcs, chain, salt);
    ModuleRoundTrip(Sections(funcs, chain, salt));
    Assembles(funcs, chain, salt);
  }

  // ----- It validates -----

  lemma {:induction false} ChainYields(c: Ctx, k: int, chain: nat)
    ensures CheckSeq(c, ChainCode(k, chain), Live([I32])) == Some(Live([I32]))
  {
    if chain > 0 {
      ChainYields(c, k, chain - 1);
      var a, m := I32Const(ToInt32(k + chain)), I32Const((chain - 1) % 7 + 2);
      assert [I32] + [I32] == [I32, I32] && [] + [I32, I32] == [I32, I32] && [] + [I32] == [I32];
      CheckArith(c, Add, []);
      CheckArith(c, Mul, []);
      CheckTwo(c, a, Add, Live([I32]), Live([I32, I32]), Live([I32]));
      CheckTwo(c, m, Mul, Live([I32]), Live([I32, I32]), Live([I32]));
      CheckAppend(c, [a, Add], [m, Mul], Live([I32]));
      assert [a, Add] + [m, Mul] == [a, Add, m, Mul];
      CheckAppend(c, ChainCode(k, chain - 1), [a, Add, m, Mul], Live([I32]));
    }
  }

  lemma FuncValid(m: Module, k: int, chain: nat)
    ensures ValidCode(m, FuncType([I32], [I32]), FuncCode(k, chain))
  {
    assert Expand([]) == [] && [I32] + [] == [I32] && [] + [I32] == [I32];
    var c := Ctx(m, [I32], [[I32]]);
    CheckOne(c, LocalGet(0), Live([]), Live([I32]));
    ChainYields(c, k, chain);
    CheckAppend(c, [LocalGet(0)], ChainCode(k, chain), Live([]));
    PopOne(I32);
  }

  lemma NamesDiffer(f: nat, g: nat)
    requires FuncName(f) == FuncName(g)
    ensures f == g
  {
    DecDigits(f);
    DecDigits(g);
    BytesInjective("f" + Dec(f), "f" + Dec(g));
    assert ("f" + Dec(f))[1..] == Dec(f) && ("f" + Dec(g))[1..] == Dec(g);
    DecInjective(f, g);
  }

  lemma Validates(funcs: nat, chain: nat, salt: int)
    ensures ValidModule(TheModule(funcs, chain, salt))
  {
    var m := TheModule(funcs, chain, salt);
    forall f | 0 <= f < funcs ensures ValidCode(m, m.types[m.funcs[f]], m.codes[f]) {
      FuncValid(m, salt + f, chain);
    }
    forall i, j | 0 <= i < j < funcs ensures m.exports[i].name != m.exports[j].name {
      if FuncName(i) == FuncName(j) {
        NamesDiffer(i, j);
      }
    }
  }

  // ----- It computes affine maps -----

  /** x, then + (k + 1), * 2, + (k + 2), * 3, and so on. */
  function Fold(k: int, chain: nat, x: int): int {
    if chain == 0 then x else (Fold(k, chain - 1, x) + (k + chain)) * ((chain - 1) % 7 + 2)
  }

  function Slope(chain: nat): nat { if chain == 0 then 1 else Slope(chain - 1) * ((chain - 1) % 7 + 2) }

  lemma Distribute(a: int, x: int, b: int, m: int)
    ensures (a * x + b) * m == (a * m) * x + b * m
  {
    assert (a * x) * m == (a * m) * x;
  }

  /** The fold is an affine map of its argument whose slope no salt changes. */
  lemma {:induction false} FoldIsAffine(k: int, chain: nat, x: int)
    ensures Fold(k, chain, x) == Slope(chain) * x + Fold(k, chain, 0)
  {
    if chain > 0 {
      FoldIsAffine(k, chain - 1, x);
      var m, a, b := (chain - 1) % 7 + 2, Slope(chain - 1), Fold(k, chain - 1, 0) + (k + chain);
      Distribute(a, x, b, m);
      Distribute(a, 0, b, m);
    }
  }

  lemma WrapInt32(n: int)
    ensures Wrap(ToInt32(n)) == Wrap(n)
  {
    WrapShift(ToInt32(n), n / TWO32);
    WrapShift(n % TWO32 - TWO32, n / TWO32 + 1);
  }

  lemma WrapMul(a: int, m: int)
    ensures Wrap(Wrap(a) * m) == Wrap(a * m)
  {
    var q, r := a / TWO32, a % TWO32;
    assert a * m == r * m + (q * m) * TWO32 by {
      assert a == r + q * TWO32;
      assert (r + q * TWO32) * m == r * m + (q * m) * TWO32;
    }
    WrapShift(r * m, q * m);
  }

  lemma ExecOp(env: Env, i: Instr, n: int, s: State, a: u32, fuel: nat)
    requires i.Add? || i.Mul?
    requires s.stack == [I32V(a)]
    ensures ExecSeq(env, [I32Const(n), i], s, fuel) == Normal(s.(stack := [I32V(BinOp(i, a, Wrap(n)))]))
  {
    var t := s.(stack := [I32V(a), I32V(Wrap(n))]);
    assert [I32V(a)] + [I32V(Wrap(n))] == t.stack == [] + t.stack;
    ExecBinOp(env, i, t, [], a, Wrap(n), fuel);
    assert [] + [I32V(BinOp(i, a, Wrap(n)))] == [I32V(BinOp(i, a, Wrap(n)))];
    ExecTwo(env, I32Const(n), i, s, t, s.(stack := [I32V(BinOp(i, a, Wrap(n)))]), fuel);
  }

  lemma ExecPair(env: Env, c: int, d: int, s: State, a: u32, fuel: nat)
    requires s.stack == [I32V(a)]
    ensures ExecSeq(env, [I32Const(c), Add, I32Const(d), Mul], s, fuel)
         == Normal(s.(stack := [I32V(BinOp(Mul, BinOp(Add, a, Wrap(c)), Wrap(d)))]))
  {
    var b := BinOp(Add, a, Wrap(c));
    ExecOp(env, Add, c, s, a, fuel);
    ExecOp(env, Mul, d, s.(stack := [I32V(b)]), b, fuel);
    ExecAppend(env, [I32Const(c), Add], [I32Const(d), Mul], s, fuel);
    assert [I32Const(c), Add] + [I32Const(d), Mul] == [I32Const(c), Add, I32Const(d), Mul];
  }

  lemma LinkValue(k: int, m: nat, v: int)
    requires m < 100
    ensures BinOp(Mul, BinOp(Add, Wrap(v), Wrap(ToInt32(k))), Wrap(m)) == Wrap((v + k) * m)
  {
    SumValue(k, v);
    ProductValue(v + k, m);
  }

  lemma SumValue(k: int, v: int)
    ensures BinOp(Add, Wrap(v), Wrap(ToInt32(k))) == Wrap(v + k)
  {
    WrapInt32(k);
    WrapAdd(v, k);
  }

  lemma ProductValue(a: int, m: nat)
    requires m < 100
    ensures BinOp(Mul, Wrap(a), Wrap(m)) == Wrap(a * m)
  {
    WrapMul(a, m);
  }

  lemma ExecLink(env: Env, k: int, m: nat, v: int, s: State, fuel: nat)
    requires m < 100 && s.stack == [I32V(Wrap(v))]
    ensures ExecSeq(env, [I32Const(ToInt32(k)), Add, I32Const(m), Mul], s, fuel)
         == Normal(s.(stack := [I32V(Wrap((v + k) * m))]))
  {
    ExecPair(env, ToInt32(k), m, s, Wrap(v), fuel);
    LinkValue(k, m, v);
  }

  lemma {:induction false} ExecChain(env: Env, k: int, chain: nat, x: int, s: State, fuel: nat)
    requires s.stack == [I32V(Wrap(x))]
    ensures ExecSeq(env, ChainCode(k, chain), s, fuel) == Normal(s.(stack := [I32V(Wrap(Fold(k, chain, x)))]))
    decreases chain
  {
    if chain > 0 {
      var link := [I32Const(ToInt32(k + chain)), Add, I32Const((chain - 1) % 7 + 2), Mul];
      ExecChain(env, k, chain - 1, x, s, fuel);
      var t := s.(stack := [I32V(Wrap(Fold(k, chain - 1, x)))]);
      ExecLink(env, k + chain, (chain - 1) % 7 + 2, Fold(k, chain - 1, x), t, fuel);
      ExecAppend(env, ChainCode(k, chain - 1), link, s, fuel);
    }
  }

  lemma ExecFunc(env: Env, k: int, chain: nat, x: u32, mem: seq<byte>, fuel: nat)
    ensures ExecSeq(env, FuncCode(k, chain).body, State([I32V(x)], [], mem, []), fuel)
         == Normal(State([I32V(x)], [I32V(Wrap(Fold(k, chain, x)))], mem, []))
  {
    var s := State([I32V(x)], [], mem, []);
    assert [] + [I32V(x)] == [I32V(x)];
    ExecOne(env, LocalGet(0), s, s.(stack := [I32V(x)]), fuel);
    ExecAppend(env, [LocalGet(0)], ChainCode(k, chain), s, fuel);
    ExecChain(env, k, chain, x, s.(stack := [I32V(x)]), fuel);
  }

  lemma {:induction false} FindsOnly(es: seq<Export>, i: nat)
    requires i < |es| && forall j :: 0 <= j < i ==> es[j].name != es[i].name
    ensures FindExport(es, es[i].name) == Some(es[i])
    decreases i
  {
    if i > 0 {
      assert es[1..][i - 1] == es[i] && forall j :: 0 <= j < i - 1 ==> es[1..][j] == es[j + 1];
      FindsOnly(es[1..], i - 1);
    }
  }

  lemma FindsFunc(es: seq<Export>, funcs: nat, f: nat)
    requires es == FuncExports(funcs) && f < funcs
    ensures FindExport(es, FuncName(f)) == Some(Export(FuncName(f), FuncExport, f))
  {
    forall j | 0 <= j < f ensures es[j].name != es[f].name {
      if FuncName(j) == FuncName(f) {
        NamesDiffer(j, f);
      }
    }
    FindsOnly(es, f);
  }

  lemma InvokeFunc(env: Env, funcs: nat, chain: nat, salt: int, f: nat, x: u32, mem: seq<byte>, fuel: nat)
    requires env.m == TheModule(funcs, chain, salt) && f < funcs
    ensures TypeOfFunc(env.m, f) == Some(FuncType([I32], [I32]))
    ensures Invoke(env, f, [I32V(x)], mem, [], fuel) == Normal(State([], [I32V(Wrap(Fold(salt + f, chain, x)))], mem, []))
  {
    var code := FuncCode(salt + f, chain);
    assert env.m.codes[f] == code && TypeOfFunc(env.m, f) == Some(FuncType([I32], [I32]));
    InvokeRuns(env, f, FuncType([I32], [I32]), code, [I32V(x)], mem, [], fuel);
    FinishFunc(env, salt + f, chain, x, mem, fuel);
  }

  lemma FinishFunc(env: Env, k: int, chain: nat, x: u32, mem: seq<byte>, fuel: nat)
    ensures var code := FuncCode(k, chain);
      Finish(1, ExecSeq(env, code.body, Frame(code, [I32V(x)], mem, []), fuel))
      == Normal(State([], [I32V(Wrap(Fold(k, chain, x)))], mem, []))
  {
    ExecFunc(env, k, chain, x, mem, fuel);
    assert Expand([]) == [];
    assert Frame(FuncCode(k, chain), [I32V(x)], mem, []) == State([I32V(x)], [], mem, []);
  }

  /** Every function of every module maps x to the fold at its own index. */
  lemma RunFunc(env: Env, funcs: nat, chain: nat, salt: int, f: nat, x: u32, mem: seq<byte>, fuel: nat)
    requires env.m == TheModule(funcs, chain, salt) && f < funcs
    ensures Run(env, "f" + Dec(f), [I32V(x)], mem, fuel)
         == Normal(State([], [I32V(Wrap(Fold(salt + f, chain, x)))], mem, []))
  {
    FindsFunc(env.m.exports, funcs, f);
    InvokeFunc(env, funcs, chain, salt, f, x, mem, fuel);
  }

  predicate ComputesAffine(env: Env, chain: nat, k: int, f: nat, x: u32, mem: seq<byte>, fuel: nat) {
    Run(env, "f" + Dec(f), [I32V(x)], mem, fuel)
    == Normal(State([], [I32V(Wrap(Slope(chain) * x + Fold(k, chain, 0)))], mem, []))
  }

  lemma FuncIsAffine(env: Env, funcs: nat, chain: nat, salt: int, f: nat, x: u32, mem: seq<byte>, fuel: nat)
    requires env.m == TheModule(funcs, chain, salt) && f < funcs
    ensures ComputesAffine(env, chain, salt + f, f, x, mem, fuel)
  {
    RunFunc(env, funcs, chain, salt, f, x, mem, fuel);
    AffineResult(salt + f, chain, x);
  }

  lemma AffineResult(k: int, chain: nat, x: u32)
    ensures I32V(Wrap(Fold(k, chain, x))) == I32V(Wrap(Slope(chain) * x + Fold(k, chain, 0)))
  {
    FoldIsAffine(k, chain, x);
  }

  /** From bytes to results, for every size a JavaScript array can hold. */
  lemma BigModuleCorrect(host: Host, funcs: nat, chain: nat, salt: int, f: nat, x: u32, mem: seq<byte>, fuel: nat)
    requires Fits(BigModule(funcs, chain, salt)) && f < funcs
    ensures DecodeModule(BigModule(funcs, chain, salt)).Some?
    ensures var m := Assemble(DecodeModule(BigModule(funcs, chain, salt)).value);
      ValidModule(m) && |m.codes| == funcs && ComputesAffine(Env(m, host), chain, salt + f, f, x, mem, fuel)
  {
    Decodes(funcs, chain, salt);
    Validates(funcs, chain, salt);
    FuncIsAffine(Env(TheModule(funcs, chain, salt), host), funcs, chain, salt, f, x, mem, fuel);
  }

  // ----- Salts -----

  lemma {:induction false} ChainHead(k: int, chain: nat)
    requires chain > 0
    ensures ChainCode(k, chain) != [] && ChainCode(k, chain)[0] == I32Const(ToInt32(k + 1))
  {
    if chain > 1 {
      ChainHead(k, chain - 1);
    }
  }

  lemma SameResidue(a: int, b: int)
    ensures ToInt32(a) == ToInt32(b) <==> ToUint32(a) == ToUint32(b)
  {
  }

  lemma ShiftResidue(a: int, b: int, d: int)
    requires ToUint32(a) == ToUint32(b)
    ensures ToUint32(a + d) == ToUint32(b + d)
  {
    WrapShift(b + d, a / TWO32 - b / TWO32);
    assert a + d == b + d + (a / TWO32 - b / TWO32) * TWO32;
  }

  lemma {:induction false} SameChain(k: int, k': int, chain: nat)
    requires ToUint32(k) == ToUint32(k')
    ensures ChainCode(k, chain) == ChainCode(k', chain)
  {
    if chain > 0 {
      SameChain(k, k', chain - 1);
      ShiftResidue(k, k', chain);
      SameResidue(k + chain, k' + chain);
    }
  }

  lemma SaltShows(funcs: nat, chain: nat, salt: int, salt': int)
    requires funcs > 0 && chain > 0
    requires FuncCodes(funcs, chain, salt) == FuncCodes(funcs, chain, salt')
    ensures ToUint32(salt) == ToUint32(salt')
  {
    assert FuncCodes(funcs, chain, salt)[0] == FuncCodes(funcs, chain, salt')[0];
    var code, code' := FuncCode(salt, chain).body, FuncCode(salt', chain).body;
    assert code[1] == code'[1] by {
      ChainHead(salt, chain);
    }
    ChainHead(salt, chain);
    ChainHead(salt', chain);
    SameResidue(salt + 1, salt' + 1);
    ShiftResidue(salt + 1, salt' + 1, -1);
  }

  lemma SaltHidden(funcs: nat, chain: nat, salt: int, salt': int)
    requires funcs == 0 || chain == 0 || ToUint32(salt) == ToUint32(salt')
    ensures FuncCodes(funcs, chain, salt) == FuncCodes(funcs, chain, salt')
  {
    forall f | 0 <= f < funcs
      ensures FuncCodes(funcs, chain, salt)[f] == FuncCodes(funcs, chain, salt')[f]
    {
      if chain > 0 {
        ShiftResidue(salt, salt', f);
        SameChain(salt + f, salt' + f, chain);
      }
    }
  }

  /** Two salts give the same bytes exactly when they are congruent modulo 2^32, or
      there is no constant for them to shift. */
  lemma SaltsDiffer(funcs: nat, chain: nat, salt: int, salt': int)
    requires Fits(BigModule(funcs, chain, salt))
    ensures BigModule(funcs, chain, salt) == BigModule(funcs, chain, salt')
       <==> funcs == 0 || chain == 0 || ToUint32(salt) == ToUint32(salt')
  {
    if BigModule(funcs, chain, salt) == BigModule(funcs, chain, salt') {
      Decodes(funcs, chain, salt);
      Decodes(funcs, chain, salt');
      assert Sections(funcs, chain, salt)[3] == Sections(funcs, chain, salt')[3];
      if funcs > 0 && chain > 0 {
        SaltShows(funcs, chain, salt, salt');
      }
    } else if funcs == 0 || chain == 0 || ToUint32(salt) == ToUint32(salt') {
      SaltHidden(funcs, chain, salt, salt');
      Prints(funcs, chain, salt);
      Prints(funcs, chain, salt');
      assert false;
    }
  }
}
