/** `computeModule` (bench/scripts/wasm-mod.js:77-97): from bytes to results. */
module WasmCompute {
  import opened Common
  import opened Leb128
  import opened WasmSyntax
  import opened WasmEmit
  import opened WasmDecode
  import opened WasmExec
  import opened WasmValid
  import opened WasmForLoop

  // ----- The builder -----

  function ComputeModule(): seq<byte> {
    var add := Get(0) + Get(1) + [ADD];
    var sum :=
      I32c(0) + Set(2) +
      ForLoop(1, Get(0), Get(2) + Get(1) + Get(1) + [MUL] + [ADD] + Set(2)) +
      Get(2);
    MAGIC +
    SectionBytes(1, Vec([FuncTypeBytes([I32, I32], [I32]), FuncTypeBytes([I32], [I32])])) +
    SectionBytes(3, Vec([[0x00], [0x01]])) +
    SectionBytes(5, Vec([[0x00, 0x01]])) +
    SectionBytes(7, Vec([
      Str("memory") + [0x02, 0x00],
      Str("add") + [0x00, 0x00],
      Str("sum") + [0x00, 0x01]])) +
    SectionBytes(10, Vec([CodeBytes([], add), CodeBytes([Locals(2, I32)], sum)]))
  }

  // ----- The module it means -----

  const ADD_CODE := [LocalGet(0), LocalGet(1), Add]
  const SQUARE_BODY := [LocalGet(2), LocalGet(1), LocalGet(1), Mul, Add, LocalSet(2)]
  const SUM_CODE := [I32Const(0), LocalSet(2)] + ForLoopCode(1, [LocalGet(0)], SQUARE_BODY) + [LocalGet(2)]

  const TYPE_SEC := Types([FuncType([I32, I32], [I32]), FuncType([I32], [I32])])
  const FUNC_SEC := Funcs([0, 1])
  const MEM_SEC := Mems([1])
  const EXPORT_SEC := Exports([
    Export(Bytes("memory"), MemExport, 0),
    Export(Bytes("add"), FuncExport, 0),
    Export(Bytes("sum"), FuncExport, 1)])
  const CODE_SEC := Codes([Code([], ADD_CODE), Code([Locals(2, I32)], SUM_CODE)])

  const SECTIONS := [TYPE_SEC, FUNC_SEC, MEM_SEC, EXPORT_SEC, CODE_SEC]

  function TheModule(): Module {
    Module(
      [FuncType([I32, I32], [I32]), FuncType([I32], [I32])],
      [],
      [0, 1],
      [1],
      [ Export(Bytes("memory"), MemExport, 0),
        Export(Bytes("add"), FuncExport, 0),
        Export(Bytes("sum"), FuncExport, 1)],
      [Code([], ADD_CODE), Code([Locals(2, I32)], SUM_CODE)])
  }

  // ----- The bytes decode to it -----

  lemma SquarePrints()
    ensures PrintAll(SQUARE_BODY) == Get(2) + Get(1) + Get(1) + [MUL] + [ADD] + Set(2)
  {
    var get := [LocalGet(2), LocalGet(1), LocalGet(1)];
    PrintThree(LocalGet(2), LocalGet(1), LocalGet(1));
    PrintMore(get, Mul);
    PrintMore(get + [Mul], Add);
    PrintMore(get + [Mul] + [Add], LocalSet(2));
    assert get + [Mul] + [Add] + [LocalSet(2)] == SQUARE_BODY;
  }

  lemma SumPrints()
    ensures PrintAll(SUM_CODE) == I32c(0) + Set(2)
      + ForLoop(1, Get(0), Get(2) + Get(1) + Get(1) + [MUL] + [ADD] + Set(2)) + Get(2)
  {
    SquarePrints();
    PrintOne(LocalGet(0));
    PrintOne(LocalGet(2));
    PrintTwo(I32Const(0), LocalSet(2));
    ForLoopPrints(1, [LocalGet(0)], SQUARE_BODY);
    var init := [I32Const(0), LocalSet(2)];
    PrintAllAppend(init, ForLoopCode(1, [LocalGet(0)], SQUARE_BODY));
    PrintAllAppend(init + ForLoopCode(1, [LocalGet(0)], SQUARE_BODY), [LocalGet(2)]);
  }

  lemma ContentsPrint()
    ensures PrintSection(TYPE_SEC) == SectionBytes(1, Vec([FuncTypeBytes([I32, I32], [I32]), FuncTypeBytes([I32], [I32])]))
    ensures PrintSection(FUNC_SEC) == SectionBytes(3, Vec([[0x00], [0x01]]))
    ensures PrintSection(MEM_SEC) == SectionBytes(5, Vec([[0x00, 0x01]]))
  {
    SmallIndices();
    assert Map(PrintType, TYPE_SEC.types) == [FuncTypeBytes([I32, I32], [I32]), FuncTypeBytes([I32], [I32])];
    assert Map(PrintIndex, FUNC_SEC.funcs) == [[0x00], [0x01]];
    assert PrintMem(1) == [0x00, 0x01];
    assert Map(PrintMem, MEM_SEC.mins) == [[0x00, 0x01]];
  }

  lemma ExportsPrint()
    ensures PrintSection(EXPORT_SEC) == SectionBytes(7, Vec([
      Str("memory") + [0x02, 0x00],
      Str("add") + [0x00, 0x00],
      Str("sum") + [0x00, 0x01]]))
  {
    ExportPrints("memory", MemExport, 0);
    ExportPrints("add", FuncExport, 0);
    ExportPrints("sum", FuncExport, 1);
    assert Map(PrintExport, EXPORT_SEC.exports) == [
      Str("memory") + [0x02, 0x00],
      Str("add") + [0x00, 0x00],
      Str("sum") + [0x00, 0x01]];
  }

  lemma CodePrints()
    ensures PrintSection(CODE_SEC) == SectionBytes(10, Vec([
      CodeBytes([], Get(0) + Get(1) + [ADD]),
      CodeBytes([Locals(2, I32)], PrintAll(SUM_CODE))]))
  {
    PrintThree(LocalGet(0), LocalGet(1), Add);
    assert Map(PrintCode, CODE_SEC.codes) ==
      [CodeBytes([], PrintAll(ADD_CODE)), CodeBytes([Locals(2, I32)], PrintAll(SUM_CODE))];
  }

  lemma Prints()
    ensures ComputeModule() == PrintModule(SECTIONS)
  {
    FiveSections(TYPE_SEC, FUNC_SEC, MEM_SEC, EXPORT_SEC, CODE_SEC);
    ContentsPrint();
    ExportsPrint();
    CodePrints();
    SumPrints();
  }

  lemma Assembles()
    ensures Assemble(SECTIONS) == TheModule()
  {
    var ss := SECTIONS;
    assert ss[1..][1..] == ss[2..] && ss[2..][1..] == ss[3..] && ss[3..][1..] == ss[4..] && ss[4..][1..] == [];
    assert Assemble(ss[4..]) == Module([], [], [], [], [], CODE_SEC.codes);
    assert Assemble(ss[3..]) == Module([], [], [], [], EXPORT_SEC.exports, CODE_SEC.codes);
    assert Assemble(ss[2..]) == Module([], [], [], [1], EXPORT_SEC.exports, CODE_SEC.codes);
  }

  lemma ContentsSmall()
    ensures |PrintContent(TYPE_SEC)| <= 1000 && |PrintContent(FUNC_SEC)| <= 1000 && |PrintContent(MEM_SEC)| <= 1000
  {
    FuncTypeLength(FuncType([I32, I32], [I32]));
    FuncTypeLength(FuncType([I32], [I32]));
    VecLength(Map(PrintType, TYPE_SEC.types), 20);
    SmallIndices();
    VecLength(Map(PrintIndex, FUNC_SEC.funcs), 1);
    assert PrintMem(1) == [0x00, 0x01];
    VecLength(Map(PrintMem, MEM_SEC.mins), 2);
  }

  lemma ExportsSmall()
    ensures |PrintContent(EXPORT_SEC)| <= 1000
  {
    SmallIndices();
    forall e | e in EXPORT_SEC.exports ensures |PrintExport(e)| <= 20 {
      AtMostFiveBytes(|e.name|);
    }
    VecLength(Map(PrintExport, EXPORT_SEC.exports), 20);
  }

  lemma SumLength()
    ensures |PrintAll(SUM_CODE)| <= 300
  {
    var init, loop := [I32Const(0), LocalSet(2)], ForLoopCode(1, [LocalGet(0)], SQUARE_BODY);
    FlatLength(init);
    FlatLength([LocalGet(0)]);
    FlatLength([LocalGet(2)]);
    FlatLength(SQUARE_BODY);
    ForLoopPrints(1, [LocalGet(0)], SQUARE_BODY);
    ForLoopLength(1, PrintAll([LocalGet(0)]), PrintAll(SQUARE_BODY));
    PrintAllAppend(init, loop);
    PrintAllAppend(init + loop, [LocalGet(2)]);
  }

  lemma CodesSmall()
    ensures |PrintContent(CODE_SEC)| <= 1000
  {
    FlatLength(ADD_CODE);
    SumLength();
    CodeLength([], PrintAll(ADD_CODE));
    CodeLength([Locals(2, I32)], PrintAll(SUM_CODE));
    VecLength(Map(PrintCode, CODE_SEC.codes), 400);
  }

  lemma CodesInRange()
    ensures SectionInRange(CODE_SEC)
  {
    ForLoopInRange(1, [LocalGet(0)], SQUARE_BODY);
    assert CodeInRange(CODE_SEC.codes[0]) && CodeInRange(CODE_SEC.codes[1]);
  }

  lemma AllSectionsInRange()
    ensures forall s :: s in SECTIONS ==> SectionInRange(s)
  {
    CodesInRange();
  }

  lemma InOrder()
    ensures Increasing(SECTIONS)
  {
  }

  lemma Small()
    ensures Fits(PrintModule(SECTIONS))
  {
    ContentsSmall();
    ExportsSmall();
    CodesSmall();
    ModuleLength(SECTIONS);
  }

  /** The emitted bytes are a well-formed module and exactly this one. */
  lemma Decodes()
    ensures DecodeModule(ComputeModule()) == Some(SECTIONS)
    ensures Assemble(SECTIONS) == TheModule()
  {
    Prints();
    Small();
    InOrder();
    AllSectionsInRange();
    ModuleRoundTrip(SECTIONS);
    Assembles();
  }

  // ----- It validates -----

  const THREE_I32 := [I32, I32, I32]

  lemma SquareYields(m: Module)
    ensures Yields(m, THREE_I32, SQUARE_BODY, []) && Yields(m, THREE_I32, [LocalGet(0)], [I32])
  {
    var c := Ctx(m, THREE_I32, []);
    assert [] + [I32] == [I32] && [I32] + [I32] == [I32, I32] && [I32, I32] + [I32] == THREE_I32;
    CheckThree(c, LocalGet(2), LocalGet(1), LocalGet(1), Live([]), Live([I32]), Live([I32, I32]), Live(THREE_I32));
    CheckArith(c, Mul, [I32]);
    CheckArith(c, Add, []);
    assert [I32] + [I32, I32] == THREE_I32 && [] + [I32, I32] == [I32, I32];
    CheckPop(c, 2, []);
    CheckThree(c, Mul, Add, LocalSet(2), Live(THREE_I32), Live([I32, I32]), Live([I32]), Live([]));
    var push, rest := [LocalGet(2), LocalGet(1), LocalGet(1)], [Mul, Add, LocalSet(2)];
    CheckAppend(c, push, rest, Live([]));
    assert push + rest == SQUARE_BODY;
    CheckOne(c, LocalGet(0), Live([]), Live([I32]));
  }

  lemma SumValid(env: Env)
    requires env.m == TheModule()
    ensures ValidCode(env.m, FuncType([I32], [I32]), Code([Locals(2, I32)], SUM_CODE))
  {
    assert Expand([Locals(2, I32)]) == [I32, I32] by {
      assert [Locals(2, I32)][1..] == [];
    }
    assert [I32] + [I32, I32] == THREE_I32;
    var c := Ctx(env.m, THREE_I32, [[I32]]);
    var init, loop := [I32Const(0), LocalSet(2)], ForLoopCode(1, [LocalGet(0)], SQUARE_BODY);
    assert [] + [I32] == [I32];
    CheckPop(c, 2, []);
    CheckTwo(c, I32Const(0), LocalSet(2), Live([]), Live([I32]), Live([]));
    SquareYields(env.m);
    ForLoopValid(env, THREE_I32, [[I32]], 1, [LocalGet(0)], SQUARE_BODY, Opds([], false));
    CheckOne(c, LocalGet(2), Live([]), Live([I32]));
    CheckAppend(c, init, loop, Opds([], false));
    CheckAppend(c, init + loop, [LocalGet(2)], Opds([], false));
    PopOne(I32);
  }

  lemma AddValid(m: Module)
    ensures ValidCode(m, FuncType([I32, I32], [I32]), Code([], ADD_CODE))
  {
    assert Expand([]) == [] && [I32, I32] + [] == [I32, I32];
    var c := Ctx(m, [I32, I32], [[I32]]);
    CheckArith(c, Add, []);
    assert [] + [I32, I32] == [I32, I32] && [] + [I32] == [I32] && [I32] + [I32] == [I32, I32];
    CheckThree(c, LocalGet(0), LocalGet(1), Add, Live([]), Live([I32]), Live([I32, I32]), Live([I32]));
    PopOne(I32);
  }

  lemma ExportNamesDiffer()
    ensures forall i, j :: 0 <= i < j < 3 ==> TheModule().exports[i].name != TheModule().exports[j].name
  {
    assert |Bytes("memory")| == 6 && |Bytes("add")| == 3 && |Bytes("sum")| == 3;
    assert Bytes("add")[0] == 97 && Bytes("sum")[0] == 115;
  }

  lemma Validates(host: Host)
    ensures EnvOk(Env(TheModule(), host))
  {
    var env := Env(TheModule(), host);
    AddValid(env.m);
    SumValid(env);
    ExportNamesDiffer();
  }

  // ----- It computes sums of squares -----

  function SumSquares(n: nat): nat { if n == 0 then 0 else SumSquares(n - 1) + (n - 1) * (n - 1) }

  lemma Cubic(k: int)
    ensures (k - 1) * k * (2 * k - 1) + 6 * (k * k) == k * (k + 1) * (2 * k + 1)
  {
    var p, q := (k - 1) * (2 * k - 1), (k + 1) * (2 * k + 1);
    assert q - p == 6 * k;
    assert k * q - k * p == k * (6 * k);
    assert (k - 1) * k * (2 * k - 1) == k * p;
    assert k * (k + 1) * (2 * k + 1) == k * q;
  }

  lemma {:induction false} ClosedForm(n: nat)
    ensures 6 * SumSquares(n) == (n - 1) * n * (2 * n - 1)
  {
    if n > 0 {
      ClosedForm(n - 1);
      Cubic(n - 1);
    }
  }

  function Pyramid(n: nat): int { (n - 1) * n * (2 * n - 1) / 6 }

  lemma PyramidNumber(n: nat)
    ensures Pyramid(n) == SumSquares(n)
  {
    ClosedForm(n);
  }

  function SumState(n: u32, i: nat, mem: seq<byte>, trace: seq<HostCall>): State
    requires i < TWO32
  {
    State([I32V(n), I32V(i), I32V(Wrap(SumSquares(i)))], [], mem, trace)
  }

  lemma SquareStore(env: Env, s: State, a: u32, v: u32, fuel: nat)
    requires s.stack == [I32V(a), I32V(v), I32V(v)] && |s.locals| == 3
    ensures ExecSeq(env, [Mul, Add, LocalSet(2)], s, fuel)
         == Normal(s.(stack := [], locals := s.locals[2 := I32V(Wrap(a + Wrap(v * v)))]))
  {
    var sq, r := Wrap(v * v), Wrap(a + Wrap(v * v));
    var s1, s2 := s.(stack := [I32V(a), I32V(sq)]), s.(stack := [I32V(r)]);
    assert s.stack == [I32V(a)] + [I32V(v), I32V(v)];
    ExecBinOp(env, Mul, s, [I32V(a)], v, v, fuel);
    assert s1.stack == [I32V(a)] + [I32V(sq)] && s1.stack == [] + [I32V(a), I32V(sq)];
    ExecBinOp(env, Add, s1, [], a, sq, fuel);
    assert s2.stack == [] + [I32V(r)];
    ExecSet(env, 2, s2, [], I32V(r), fuel);
    ExecThree(env, Mul, Add, LocalSet(2), s, s1, s2, s2.(stack := [], locals := s.locals[2 := I32V(r)]), fuel);
  }

  /** One turn of the body adds i * i. */
  lemma ExecSquare(env: Env, n: u32, i: nat, mem: seq<byte>, trace: seq<HostCall>, fuel: nat)
    requires i < TWO31
    ensures ExecSeq(env, SQUARE_BODY, SumState(n, i, mem, trace), fuel)
         == Normal(SumState(n, i, mem, trace).(locals := [I32V(n), I32V(i), I32V(Wrap(SumSquares(i + 1)))]))
  {
    var s := SumState(n, i, mem, trace);
    var push, rest := [LocalGet(2), LocalGet(1), LocalGet(1)], [Mul, Add, LocalSet(2)];
    assert SQUARE_BODY == push + rest;
    PushThree(env, s, 2, 1, 1, fuel);
    SquareStore(env, s.(stack := [s.locals[2], I32V(i), I32V(i)]), Wrap(SumSquares(i)), i, fuel);
    ExecAppend(env, push, rest, s, fuel);
    WrapAdd(SumSquares(i), i * i);
  }

  /** The whole loop, at every fuel: `limit - i` turns are needed and enough. */
  lemma {:induction false} CountSquares(env: Env, n: u32, i: nat, limit: nat, mem: seq<byte>, trace: seq<HostCall>, fuel: nat)
    requires i <= limit < TWO31
    ensures CountedFor(env, 1, SQUARE_BODY, i, limit, SumState(n, i, mem, trace), fuel)
         == if fuel < limit - i then OutOfFuel else Normal(SumState(n, limit, mem, trace))
    decreases fuel
  {
    var s := SumState(n, i, mem, trace);
    if i < limit {
      assert s.(stack := []) == s;
      ExecSquare(env, n, i, mem, trace, fuel);
      if fuel > 0 {
        var t := ExecSeq(env, SQUARE_BODY, s, fuel).s;
        assert SetLocal(t, 1, i + 1).(stack := []) == SumState(n, i + 1, mem, trace);
        CountSquares(env, n, i + 1, limit, mem, trace, fuel - 1);
      }
    }
  }

  lemma SquareWrites()
    ensures Writes(SQUARE_BODY) == {2}
  {
    WritesLast(SQUARE_BODY[..5], LocalSet(2));
    assert SQUARE_BODY == SQUARE_BODY[..5] + [LocalSet(2)];
  }

  lemma CountsTo(env: Env, body: seq<Instr>, n: u32, s: State, fuel: nat)
    requires EnvOk(env)
    requires Yields(env.m, THREE_I32, body, []) && Yields(env.m, THREE_I32, [LocalGet(0)], [I32]) && Writes(body) == {2}
    requires s.locals == [I32V(n), I32V(0), I32V(0)]
    ensures ExecSeq(env, ForLoopCode(1, [LocalGet(0)], body), s, fuel)
         == CountedFor(env, 1, body, 0, Max(0, Signed(n)), SetLocal(s, 1, 0), fuel)
  {
    ForLoopToLocal(env, THREE_I32, 1, 0, body, n, s, fuel);
  }

  lemma ExecSquareLoop(env: Env, n: u32, s: State, fuel: nat)
    requires EnvOk(env) && s.locals == [I32V(n), I32V(0), I32V(0)] && s.stack == []
    ensures var limit := Max(0, Signed(n));
      ExecSeq(env, ForLoopCode(1, [LocalGet(0)], SQUARE_BODY), s, fuel)
      == if fuel < limit then OutOfFuel else Normal(SumState(n, limit, s.mem, s.trace))
  {
    SquareYields(env.m);
    SquareWrites();
    CountsTo(env, SQUARE_BODY, n, s, fuel);
    assert SetLocal(s, 1, 0) == SumState(n, 0, s.mem, s.trace);
    CountSquares(env, n, 0, Max(0, Signed(n)), s.mem, s.trace, fuel);
  }

  lemma ExecSum(env: Env, n: u32, mem: seq<byte>, trace: seq<HostCall>, fuel: nat)
    requires EnvOk(env)
    ensures var limit := Max(0, Signed(n));
      ExecSeq(env, SUM_CODE, State([I32V(n), I32V(0), I32V(0)], [], mem, trace), fuel)
      == if fuel < limit then OutOfFuel
         else Normal(Push(SumState(n, limit, mem, trace), I32V(Wrap(SumSquares(limit)))))
  {
    var s := State([I32V(n), I32V(0), I32V(0)], [], mem, trace);
    var limit := Max(0, Signed(n));
    var init, loop := [I32Const(0), LocalSet(2)], ForLoopCode(1, [LocalGet(0)], SQUARE_BODY);
    ExecClear(env, 2, s, fuel);
    assert SetLocal(s, 2, 0) == s;
    ExecAppend(env, init, loop, s, fuel);
    ExecAppend(env, init + loop, [LocalGet(2)], s, fuel);
    ExecSquareLoop(env, n, s, fuel);
    if fuel >= limit {
      var t := SumState(n, limit, mem, trace);
      ExecOne(env, LocalGet(2), t, Push(t, t.locals[2]), fuel);
    }
  }

  lemma ExecAdd(env: Env, a: u32, b: u32, mem: seq<byte>, trace: seq<HostCall>, fuel: nat)
    ensures ExecSeq(env, ADD_CODE, State([I32V(a), I32V(b)], [], mem, trace), fuel)
         == Normal(State([I32V(a), I32V(b)], [I32V(Wrap(a + b))], mem, trace))
  {
    var s := State([I32V(a), I32V(b)], [], mem, trace);
    var x, y, z := I32V(a), I32V(b), I32V(Wrap(a + b));
    assert [] + [x] == [x] && [x] + [y] == [x, y] && [] + [x, y] == [x, y] && [] + [z] == [z];
    ExecBinOp(env, Add, s.(stack := [x, y]), [], a, b, fuel);
    ExecThree(env, LocalGet(0), LocalGet(1), Add, s, s.(stack := [x]), s.(stack := [x, y]), s.(stack := [z]), fuel);
  }

  lemma FindNames()
    ensures FindExport(TheModule().exports, Bytes("add")) == Some(Export(Bytes("add"), FuncExport, 0))
    ensures FindExport(TheModule().exports, Bytes("sum")) == Some(Export(Bytes("sum"), FuncExport, 1))
  {
    ExportNamesDiffer();
    var es := TheModule().exports;
    assert es[1..][0] == es[1] && es[1..][1..][0] == es[2];
    assert es[0].name == Bytes("memory") && es[1].name == Bytes("add") && es[2].name == Bytes("sum");
  }

  lemma RunAdd(env: Env, a: u32, b: u32, mem: seq<byte>, fuel: nat)
    requires env.m == TheModule()
    ensures Run(env, "add", [I32V(a), I32V(b)], mem, fuel) == Normal(State([], [I32V(Wrap(a + b))], mem, []))
  {
    FindNames();
    ExecAdd(env, a, b, mem, [], fuel);
    assert Frame(Code([], ADD_CODE), [I32V(a), I32V(b)], mem, []).locals == [I32V(a), I32V(b)];
  }

  lemma RunSum(env: Env, n: u32, mem: seq<byte>, fuel: nat)
    requires env.m == TheModule() && EnvOk(env)
    ensures var limit := Max(0, Signed(n));
      Run(env, "sum", [I32V(n)], mem, fuel)
      == if fuel < limit then OutOfFuel else Normal(State([], [I32V(Wrap(SumSquares(limit)))], mem, []))
  {
    FindNames();
    ExecSum(env, n, mem, [], fuel);
    assert Expand([Locals(2, I32)]) == [I32, I32] by {
      assert [Locals(2, I32)][1..] == [];
    }
    assert Frame(Code([Locals(2, I32)], SUM_CODE), [I32V(n)], mem, []).locals == [I32V(n), I32V(0), I32V(0)];
  }

  /** `add` gives a + b; `sum` gives the closed form of the sum of squares, after exactly
      max(0, n) turns. */
  predicate ComputesSums(env: Env, a: u32, b: u32, n: u32, mem: seq<byte>, fuel: nat) {
    var limit := Max(0, Signed(n));
    && Run(env, "add", [I32V(a), I32V(b)], mem, fuel) == Normal(State([], [I32V(Wrap(a + b))], mem, []))
    && Run(env, "sum", [I32V(n)], mem, fuel)
       == if fuel < limit then OutOfFuel else Normal(State([], [I32V(Wrap(Pyramid(limit)))], mem, []))
  }

  lemma TheModuleComputes(env: Env, a: u32, b: u32, n: u32, mem: seq<byte>, fuel: nat)
    requires env.m == TheModule() && EnvOk(env)
    ensures ComputesSums(env, a, b, n, mem, fuel)
  {
    RunAdd(env, a, b, mem, fuel);
    RunSum(env, n, mem, fuel);
    PyramidNumber(Max(0, Signed(n)));
  }

  lemma MemoryExported()
    ensures ExportsMemory(TheModule(), 1)
  {
  }

  /** From bytes to results: the emitted module decodes, validates, and its exports
      compute a + b and the sum of i * i for 0 <= i < n, (n - 1) n (2n - 1) / 6, on every
      i32, without a trap, in exactly max(0, n) turns of the loop, touching neither
      memory nor host. */
  lemma ComputeModuleCorrect(host: Host, a: u32, b: u32, n: u32, mem: seq<byte>, fuel: nat)
    ensures DecodeModule(ComputeModule()).Some?
    ensures var m := Assemble(DecodeModule(ComputeModule()).value);
      ValidModule(m) && ExportsMemory(m, 1) && ComputesSums(Env(m, host), a, b, n, mem, fuel)
  {
    Decodes();
    MemoryExported();
    Validates(host);
    TheModuleComputes(Env(TheModule(), host), a, b, n, mem, fuel);
  }
}
