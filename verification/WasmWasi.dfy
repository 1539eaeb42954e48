/** `wasiModule` (bench/scripts/wasm-mod.js:149-180): the host calls a command makes. */
module WasmWasi {
  import opened Common
  import opened Leb128
  import opened WasmSyntax
  import opened WasmEmit
  import opened WasmDecode
  import opened WasmExec
  import opened WasmValid
  import opened WasmForLoop

  const RANDOM_GET := 0
  const CLOCK_TIME_GET := 1

  // ----- The builder -----

  function WasiModule(syscalls: int): seq<byte> {
    var loop := if syscalls == 0 then [] else ForLoop(0, I32c(syscalls),
      I32c(0) + I32c(16) + CallBytes(RANDOM_GET) + [DROP] +
      I32c(1) + I64c(0) + I32c(32) + CallBytes(CLOCK_TIME_GET) + [DROP]);
    MAGIC +
    SectionBytes(1, Vec([
      FuncTypeBytes([I32, I32], [I32]),
      FuncTypeBytes([I32, I64, I32], [I32]),
      FuncTypeBytes([], [])])) +
    SectionBytes(2, Vec([
      Str("wasi_snapshot_preview1") + Str("random_get") + [0x00, 0x00],
      Str("wasi_snapshot_preview1") + Str("clock_time_get") + [0x00, 0x01]])) +
    SectionBytes(3, Vec([[0x02]])) +
    SectionBytes(5, Vec([[0x00, 0x01]])) +
    SectionBytes(7, Vec([Str("memory") + [0x02, 0x00], Str("_start") + [0x00, 0x02]])) +
    SectionBytes(10, Vec([CodeBytes([Locals(1, I32)], loop)]))
  }

  // ----- The module it means -----

  const RANDOM_BODY := [I32Const(0), I32Const(16), Call(RANDOM_GET), Drop]
  const CLOCK_BODY := [I32Const(1), I64Const(0), I32Const(32), Call(CLOCK_TIME_GET), Drop]
  const CALLS_BODY := RANDOM_BODY + CLOCK_BODY

  function StartCode(syscalls: int): seq<Instr> {
    if syscalls == 0 then [] else ForLoopCode(0, [I32Const(ToInt32(syscalls))], CALLS_BODY)
  }

  const WASI := Bytes("wasi_snapshot_preview1")
  const TYPE_SEC := Types([FuncType([I32, I32], [I32]), FuncType([I32, I64, I32], [I32]), FuncType([], [])])
  const IMPORT_SEC := Imports([Import(WASI, Bytes("random_get"), 0), Import(WASI, Bytes("clock_time_get"), 1)])
  const FUNC_SEC := Funcs([2])
  const MEM_SEC := Mems([1])
  const EXPORT_SEC := Exports([Export(Bytes("memory"), MemExport, 0), Export(Bytes("_start"), FuncExport, 2)])

  function CodeSec(code: seq<Instr>): Section { Codes([Code([Locals(1, I32)], code)]) }

  function Sections(code: seq<Instr>): seq<Section> {
    [TYPE_SEC, IMPORT_SEC, FUNC_SEC, MEM_SEC, EXPORT_SEC, CodeSec(code)]
  }

  function TheModule(code: seq<Instr>): Module {
    Module(TYPE_SEC.types, IMPORT_SEC.imports, [2], [1], EXPORT_SEC.exports, [Code([Locals(1, I32)], code)])
  }

  // ----- The bytes decode to it -----

  lemma CallsPrint()
    ensures PrintAll(CALLS_BODY)
         == I32c(0) + I32c(16) + CallBytes(RANDOM_GET) + [DROP] +
            I32c(1) + I64c(0) + I32c(32) + CallBytes(CLOCK_TIME_GET) + [DROP]
  {
    var a := [I32Const(0), I32Const(16), Call(RANDOM_GET)];
    PrintThree(I32Const(0), I32Const(16), Call(RANDOM_GET));
    PrintMore(a, Drop);
    PrintMore(a + [Drop], I32Const(1));
    PrintMore(a + [Drop] + [I32Const(1)], I64Const(0));
    PrintMore(a + [Drop] + [I32Const(1)] + [I64Const(0)], I32Const(32));
    PrintMore(a + [Drop] + [I32Const(1)] + [I64Const(0)] + [I32Const(32)], Call(CLOCK_TIME_GET));
    PrintMore(a + [Drop] + [I32Const(1)] + [I64Const(0)] + [I32Const(32)] + [Call(CLOCK_TIME_GET)], Drop);
    assert a + [Drop] + [I32Const(1)] + [I64Const(0)] + [I32Const(32)] + [Call(CLOCK_TIME_GET)] + [Drop] == CALLS_BODY;
  }

  lemma StartPrints(syscalls: int)
    ensures PrintAll(StartCode(syscalls)) == if syscalls == 0 then [] else ForLoop(0, I32c(syscalls),
      I32c(0) + I32c(16) + CallBytes(RANDOM_GET) + [DROP] +
      I32c(1) + I64c(0) + I32c(32) + CallBytes(CLOCK_TIME_GET) + [DROP])
  {
    CallsPrint();
    PrintOne(I32Const(ToInt32(syscalls)));
    assert Print(I32Const(ToInt32(syscalls))) == I32c(syscalls);
    ForLoopPrints(0, [I32Const(ToInt32(syscalls))], CALLS_BODY);
  }

  lemma ContentsPrint()
    ensures PrintSection(TYPE_SEC) == SectionBytes(1, Vec([
      FuncTypeBytes([I32, I32], [I32]),
      FuncTypeBytes([I32, I64, I32], [I32]),
      FuncTypeBytes([], [])]))
    ensures PrintSection(FUNC_SEC) == SectionBytes(3, Vec([[0x02]]))
    ensures PrintSection(MEM_SEC) == SectionBytes(5, Vec([[0x00, 0x01]]))
  {
    SmallIndices();
    assert Map(PrintType, TYPE_SEC.types) ==
      [FuncTypeBytes([I32, I32], [I32]), FuncTypeBytes([I32, I64, I32], [I32]), FuncTypeBytes([], [])];
    assert Map(PrintIndex, FUNC_SEC.funcs) == [[0x02]];
    assert PrintMem(1) == [0x00, 0x01];
    assert Map(PrintMem, MEM_SEC.mins) == [[0x00, 0x01]];
  }

  lemma ImportPrints(mod: string, name: string, i: nat)
    requires i <= 2
    ensures PrintImport(Import(Bytes(mod), Bytes(name), i)) == Str(mod) + Str(name) + [0x00, i]
  {
    SmallIndices();
    assert Str(mod) + Str(name) + [0x00] + [i] == Str(mod) + Str(name) + [0x00, i];
  }

  lemma NamesPrint()
    ensures PrintSection(IMPORT_SEC) == SectionBytes(2, Vec([
      Str("wasi_snapshot_preview1") + Str("random_get") + [0x00, 0x00],
      Str("wasi_snapshot_preview1") + Str("clock_time_get") + [0x00, 0x01]]))
  {
    ImportPrints("wasi_snapshot_preview1", "random_get", 0);
    ImportPrints("wasi_snapshot_preview1", "clock_time_get", 1);
    assert Map(PrintImport, IMPORT_SEC.imports) == [
      Str("wasi_snapshot_preview1") + Str("random_get") + [0x00, 0x00],
      Str("wasi_snapshot_preview1") + Str("clock_time_get") + [0x00, 0x01]];
  }

  lemma ExportsPrint()
    ensures PrintSection(EXPORT_SEC) == SectionBytes(7, Vec([Str("memory") + [0x02, 0x00], Str("_start") + [0x00, 0x02]]))
  {
    ExportPrints("memory", MemExport, 0);
    ExportPrints("_start", FuncExport, 2);
    assert Map(PrintExport, EXPORT_SEC.exports) == [Str("memory") + [0x02, 0x00], Str("_start") + [0x00, 0x02]];
  }

  lemma CodePrints(code: seq<Instr>)
    ensures PrintSection(CodeSec(code)) == SectionBytes(10, Vec([CodeBytes([Locals(1, I32)], PrintAll(code))]))
  {
    assert Map(PrintCode, CodeSec(code).codes) == [CodeBytes([Locals(1, I32)], PrintAll(code))];
  }

  lemma Prints(syscalls: int)
    ensures WasiModule(syscalls) == PrintModule(Sections(StartCode(syscalls)))
  {
    SixSections(TYPE_SEC, IMPORT_SEC, FUNC_SEC, MEM_SEC, EXPORT_SEC, CodeSec(StartCode(syscalls)));
    ContentsPrint();
    NamesPrint();
    ExportsPrint();
    CodePrints(StartCode(syscalls));
    StartPrints(syscalls);
  }

  lemma ContentsSmall()
    ensures |PrintContent(TYPE_SEC)| <= 1000 && |PrintContent(FUNC_SEC)| <= 1000 && |PrintContent(MEM_SEC)| <= 1000
  {
    forall t | t in TYPE_SEC.types ensures |PrintType(t)| <= 20 {
      FuncTypeLength(t);
    }
    VecLength(Map(PrintType, TYPE_SEC.types), 20);
    SmallIndices();
    VecLength(Map(PrintIndex, FUNC_SEC.funcs), 1);
    assert PrintMem(1) == [0x00, 0x01];
    VecLength(Map(PrintMem, MEM_SEC.mins), 2);
  }

  lemma NamesSmall()
    ensures |PrintContent(IMPORT_SEC)| <= 1000 && |PrintContent(EXPORT_SEC)| <= 1000
  {
    SmallIndices();
    forall i | i in IMPORT_SEC.imports ensures |PrintImport(i)| <= 60 {
      AtMostFiveBytes(|i.mod|);
      AtMostFiveBytes(|i.name|);
    }
    VecLength(Map(PrintImport, IMPORT_SEC.imports), 60);
    forall e | e in EXPORT_SEC.exports ensures |PrintExport(e)| <= 20 {
      AtMostFiveBytes(|e.name|);
    }
    VecLength(Map(PrintExport, EXPORT_SEC.exports), 20);
  }

  lemma StartLength(syscalls: int)
    ensures |PrintAll(StartCode(syscalls))| <= 300
  {
    FlatLength([I32Const(ToInt32(syscalls))]);
    FlatLength(CALLS_BODY);
    ForLoopPrints(0, [I32Const(ToInt32(syscalls))], CALLS_BODY);
    ForLoopLength(0, PrintAll([I32Const(ToInt32(syscalls))]), PrintAll(CALLS_BODY));
  }

  lemma CodeSmall(code: seq<Instr>)
    requires |PrintAll(code)| <= 300
    ensures |PrintContent(CodeSec(code))| <= 1000
  {
    CodeLength([Locals(1, I32)], PrintAll(code));
    VecLength(Map(PrintCode, CodeSec(code).codes), 400);
  }

  lemma Small(code: seq<Instr>)
    requires |PrintAll(code)| <= 300
    ensures Fits(PrintModule(Sections(code)))
  {
    ContentsSmall();
    NamesSmall();
    CodeSmall(code);
    ModuleLength(Sections(code));
  }

  lemma StartInRange(syscalls: int)
    ensures AllInRange(StartCode(syscalls))
  {
    assert AllInRange([I32Const(ToInt32(syscalls))]);
    assert AllInRange(CALLS_BODY);
    ForLoopInRange(0, [I32Const(ToInt32(syscalls))], CALLS_BODY);
  }

  lemma AllSectionsInRange(code: seq<Instr>)
    requires AllInRange(code)
    ensures forall s :: s in Sections(code) ==> SectionInRange(s)
  {
    assert CodeInRange(CodeSec(code).codes[0]);
  }

  lemma InOrder(code: seq<Instr>)
    ensures Increasing(Sections(code))
  {
  }

  lemma Assembles(code: seq<Instr>)
    ensures Assemble(Sections(code)) == TheModule(code)
  {
    var ss, cs := Sections(code), CodeSec(code).codes;
    assert ss[1..][1..] == ss[2..] && ss[2..][1..] == ss[3..] && ss[3..][1..] == ss[4..];
    assert ss[4..][1..] == ss[5..] && ss[5..][1..] == [];
    assert Assemble(ss[5..]) == Module([], [], [], [], [], cs);
    assert Assemble(ss[4..]) == Module([], [], [], [], EXPORT_SEC.exports, cs);
    assert Assemble(ss[3..]) == Module([], [], [], [1], EXPORT_SEC.exports, cs);
    assert Assemble(ss[2..]) == Module([], [], [2], [1], EXPORT_SEC.exports, cs);
    assert Assemble(ss[1..]) == Module([], IMPORT_SEC.imports, [2], [1], EXPORT_SEC.exports, cs);
  }

  lemma Decodes(syscalls: int)
    ensures DecodeModule(WasiModule(syscalls)) == Some(Sections(StartCode(syscalls)))
    ensures Assemble(Sections(StartCode(syscalls))) == TheModule(StartCode(syscalls))
  {
    var code := StartCode(syscalls);
    Prints(syscalls);
    StartLength(syscalls);
    Small(code);
    InOrder(code);
    StartInRange(syscalls);
    AllSectionsInRange(code);
    ModuleRoundTrip(Sections(code));
    Assembles(code);
  }

  // ----- It validates -----

  predicate TypedAsWasi(m: Module) { m.types == TYPE_SEC.types && m.imports == IMPORT_SEC.imports }

  lemma CallTypes(m: Module)
    requires TypedAsWasi(m)
    ensures TypeOfFunc(m, 0) == Some(FuncType([I32, I32], [I32]))
    ensures TypeOfFunc(m, 1) == Some(FuncType([I32, I64, I32], [I32]))
  {
  }

  lemma CheckCall(c: Ctx, f: nat, t: FuncType)
    requires TypeOfFunc(c.m, f) == Some(t) && t.results == [I32]
    ensures CheckSeq(c, [Call(f), Drop], Live(t.params)) == Some(Live([]))
  {
    PopExactly(t.params);
    assert [] + [I32] == [I32] && [I32][..0] == [];
    CheckTwo(c, Call(f), Drop, Live(t.params), Live([I32]), Live([]));
  }

  lemma {:induction false} PopExactly(ts: seq<ValType>)
    ensures PopAll(Live(ts), ts) == Some(Live([]))
    decreases |ts|
  {
    if ts != [] {
      PopExactly(ts[..|ts| - 1]);
    }
  }

  lemma CallsYield(m: Module, n: int)
    requires TypedAsWasi(m)
    ensures Yields(m, [I32], CALLS_BODY, []) && Yields(m, [I32], [I32Const(n)], [I32])
  {
    var c := Ctx(m, [I32], []);
    CallTypes(m);
    var two, three := [I32, I32], [I32, I64, I32];
    assert [] + [I32] == [I32] && [I32] + [I32] == two && [I32] + [I64] == [I32, I64] && [I32, I64] + [I32] == three;
    CheckTwo(c, I32Const(0), I32Const(16), Live([]), Live([I32]), Live(two));
    CheckCall(c, 0, FuncType(two, [I32]));
    CheckAppend(c, [I32Const(0), I32Const(16)], [Call(0), Drop], Live([]));
    assert RANDOM_BODY == [I32Const(0), I32Const(16)] + [Call(0), Drop];
    CheckThree(c, I32Const(1), I64Const(0), I32Const(32), Live([]), Live([I32]), Live([I32, I64]), Live(three));
    CheckCall(c, 1, FuncType(three, [I32]));
    CheckAppend(c, [I32Const(1), I64Const(0), I32Const(32)], [Call(1), Drop], Live([]));
    assert CLOCK_BODY == [I32Const(1), I64Const(0), I32Const(32)] + [Call(1), Drop];
    CheckAppend(c, RANDOM_BODY, CLOCK_BODY, Live([]));
    CheckOne(c, I32Const(n), Live([]), Live([I32]));
  }

  lemma StartValid(env: Env, syscalls: int)
    requires TypedAsWasi(env.m)
    ensures ValidCode(env.m, FuncType([], []), Code([Locals(1, I32)], StartCode(syscalls)))
  {
    assert Expand([Locals(1, I32)]) == [I32] by {
      assert [Locals(1, I32)][1..] == [];
    }
    assert [] + [I32] == [I32];
    CallsYield(env.m, ToInt32(syscalls));
    ForLoopValid(env, [I32], [[]], 0, [I32Const(ToInt32(syscalls))], CALLS_BODY, Live([]));
  }

  lemma NamesDiffer()
    ensures Bytes("memory") != Bytes("_start")
  {
    assert Bytes("memory")[0] == 109 && Bytes("_start")[0] == 95;
  }

  lemma Validates(host: Host, syscalls: int)
    ensures ValidModule(TheModule(StartCode(syscalls)))
  {
    StartValid(Env(TheModule(StartCode(syscalls)), host), syscalls);
    NamesDiffer();
  }

  // ----- It makes these host calls -----

  const CALL_PAIR := [HostCall(RANDOM_GET, [I32V(0), I32V(16)]), HostCall(CLOCK_TIME_GET, [I32V(1), I64V(0), I32V(32)])]

  function Repeat(n: nat): seq<HostCall> { if n == 0 then [] else Repeat(n - 1) + CALL_PAIR }

  lemma {:induction false} RepeatFirst(n: nat)
    ensures Repeat(n + 1) == CALL_PAIR + Repeat(n)
  {
    if n > 0 {
      RepeatFirst(n - 1);
      assert CALL_PAIR + Repeat(n - 1) + CALL_PAIR == CALL_PAIR + (Repeat(n - 1) + CALL_PAIR);
    } else {
      assert [] + CALL_PAIR == CALL_PAIR + [];
    }
  }

  /** `s` after one more host call, with everything but memory settled. */
  predicate Called(s: State, t: State, calls: seq<HostCall>) {
    t.locals == s.locals && t.stack == [] && t.trace == s.trace + calls && |t.mem| == |s.mem|
  }

  lemma ExecCall(env: Env, f: nat, t: FuncType, s: State, fuel: nat)
    requires HostOk(env) && f < |env.m.imports|
    requires TypeOfFunc(env.m, f) == Some(t) && t.results == [I32] && |s.stack| == |t.params|
    ensures var r := ExecSeq(env, [Call(f), Drop], s, fuel);
      r.Normal? && Called(s, r.s, [HostCall(f, s.stack)])
  {
    assert s.stack[|s.stack| - |t.params|..] == s.stack && Pop(s, |t.params|).stack == [];
    var call := HostCall(f, s.stack);
    var (results, mem) := env.host(s.trace, call, s.mem);
    assert Answers(env.m, f, s.mem, (results, mem));
    var u := State(s.locals, results, mem, s.trace + [call]);
    assert [] + results == results;
    assert ExecInstr(env, Call(f), s, fuel) == Normal(u);
    assert Pop(u, 1).stack == [];
    ExecTwo(env, Call(f), Drop, s, u, Pop(u, 1), fuel);
  }

  lemma ExecRandom(env: Env, s: State, fuel: nat)
    requires HostOk(env) && TypedAsWasi(env.m) && s.stack == []
    ensures var r := ExecSeq(env, RANDOM_BODY, s, fuel);
      r.Normal? && Called(s, r.s, [CALL_PAIR[0]])
  {
    CallTypes(env.m);
    var t, u := s.(stack := [I32V(0)]), s.(stack := [I32V(0), I32V(16)]);
    assert [] + [I32V(0)] == [I32V(0)] && [I32V(0)] + [I32V(16)] == [I32V(0), I32V(16)];
    ExecTwo(env, I32Const(0), I32Const(16), s, t, u, fuel);
    ExecAppend(env, [I32Const(0), I32Const(16)], [Call(0), Drop], s, fuel);
    assert RANDOM_BODY == [I32Const(0), I32Const(16)] + [Call(0), Drop];
    ExecCall(env, 0, FuncType([I32, I32], [I32]), u, fuel);
  }

  lemma ExecClock(env: Env, s: State, fuel: nat)
    requires HostOk(env) && TypedAsWasi(env.m) && s.stack == []
    ensures var r := ExecSeq(env, CLOCK_BODY, s, fuel);
      r.Normal? && Called(s, r.s, [CALL_PAIR[1]])
  {
    CallTypes(env.m);
    var a, b, c := I32V(1), I64V(0), I32V(32);
    assert [] + [a] == [a] && [a] + [b] == [a, b] && [a, b] + [c] == [a, b, c];
    ExecThree(env, I32Const(1), I64Const(0), I32Const(32),
      s, s.(stack := [a]), s.(stack := [a, b]), s.(stack := [a, b, c]), fuel);
    ExecAppend(env, [I32Const(1), I64Const(0), I32Const(32)], [Call(1), Drop], s, fuel);
    assert CLOCK_BODY == [I32Const(1), I64Const(0), I32Const(32)] + [Call(1), Drop];
    ExecCall(env, 1, FuncType([I32, I64, I32], [I32]), s.(stack := [a, b, c]), fuel);
  }

  lemma ExecCalls(env: Env, s: State, fuel: nat)
    requires HostOk(env) && TypedAsWasi(env.m) && s.stack == []
    ensures var r := ExecSeq(env, CALLS_BODY, s, fuel);
      r.Normal? && Called(s, r.s, CALL_PAIR)
  {
    ExecRandom(env, s, fuel);
    var t := ExecSeq(env, RANDOM_BODY, s, fuel).s;
    ExecClock(env, t, fuel);
    ExecAppend(env, RANDOM_BODY, CLOCK_BODY, s, fuel);
    assert CALL_PAIR == [CALL_PAIR[0]] + [CALL_PAIR[1]];
    assert s.trace + [CALL_PAIR[0]] + [CALL_PAIR[1]] == s.trace + CALL_PAIR;
  }

  predicate Traces(s: State, turns: nat, limit: nat, fuel: nat, r: Outcome)
    requires limit < TWO32
  {
    match r
    case OutOfFuel => fuel < turns
    case Normal(t) =>
      && fuel >= turns
      && t.locals == [I32V(limit)] && t.stack == []
      && t.trace == s.trace + Repeat(turns) && |t.mem| == |s.mem|
    case _ => false
  }

  lemma {:induction false} CountCalls(env: Env, i: nat, limit: nat, s: State, fuel: nat)
    requires HostOk(env) && TypedAsWasi(env.m)
    requires i <= limit < TWO31 && s.locals == [I32V(i)] && s.stack == []
    ensures Traces(s, limit - i, limit, fuel, CountedFor(env, 0, CALLS_BODY, i, limit, s, fuel))
    decreases fuel
  {
    if i < limit {
      assert s.(stack := []) == s;
      ExecCalls(env, s, fuel);
      var t := ExecSeq(env, CALLS_BODY, s, fuel).s;
      if fuel > 0 {
        var u := SetLocal(t, 0, i + 1).(stack := s.stack);
        CountCalls(env, i + 1, limit, u, fuel - 1);
        RepeatFirst(limit - i - 1);
        assert s.trace + CALL_PAIR + Repeat(limit - i - 1) == s.trace + (CALL_PAIR + Repeat(limit - i - 1));
      }
    } else {
      assert s.trace + [] == s.trace;
    }
  }

  lemma SignedWrap(n: int)
    ensures Signed(Wrap(ToInt32(n))) == ToInt32(n)
  {
    var i := ToInt32(n);
    if i < 0 {
      assert Wrap(i) == i + TWO32 by {
        WrapShift(i, 1);
      }
    }
  }

  lemma CallsWrite()
    ensures Writes(CALLS_BODY) == {}
  {
    WritesLast(CALLS_BODY[..8], Drop);
    assert CALLS_BODY == CALLS_BODY[..8] + [Drop];
  }

  lemma CountsTo(env: Env, body: seq<Instr>, n: int, s: State, fuel: nat)
    requires EnvOk(env)
    requires Yields(env.m, [I32], body, []) && Yields(env.m, [I32], [I32Const(n)], [I32]) && Writes(body) == {}
    requires s.locals == [I32V(0)]
    ensures ExecSeq(env, ForLoopCode(0, [I32Const(n)], body), s, fuel)
         == CountedFor(env, 0, body, 0, Max(0, Signed(Wrap(n))), SetLocal(s, 0, 0), fuel)
  {
    ForLoopToConst(env, [I32], 0, n, body, s, fuel);
  }

  lemma ExecStart(env: Env, syscalls: int, mem: seq<byte>, fuel: nat)
    requires EnvOk(env) && TypedAsWasi(env.m)
    ensures var limit := Max(0, ToInt32(syscalls));
      var s := State([I32V(0)], [], mem, []);
      Traces(s, limit, limit, fuel, ExecSeq(env, StartCode(syscalls), s, fuel))
  {
    var n := ToInt32(syscalls);
    var s := State([I32V(0)], [], mem, []);
    if syscalls != 0 {
      CallsYield(env.m, n);
      CallsWrite();
      CountsTo(env, CALLS_BODY, n, s, fuel);
      SignedWrap(syscalls);
      assert SetLocal(s, 0, 0) == s;
      CountCalls(env, 0, Max(0, n), s, fuel);
    }
  }

  /** `_start` makes exactly max(0, n) pairs of host calls, with these arguments and in
      this order, whatever the host answers, and nothing else observable. */
  predicate MakesCalls(env: Env, n: int, mem: seq<byte>, fuel: nat) {
    match Run(env, "_start", [], mem, fuel)
    case OutOfFuel => fuel < Max(0, n)
    case Normal(t) => fuel >= Max(0, n) && t.stack == [] && t.trace == Repeat(Max(0, n)) && |t.mem| == |mem|
    case _ => false
  }

  lemma RunStart(env: Env, syscalls: int, mem: seq<byte>, fuel: nat)
    requires env.m == TheModule(StartCode(syscalls)) && EnvOk(env)
    ensures MakesCalls(env, ToInt32(syscalls), mem, fuel)
  {
    NamesDiffer();
    var es := env.m.exports;
    assert es[1..][0] == es[1];
    assert FindExport(es, Bytes("_start")) == Some(Export(Bytes("_start"), FuncExport, 2));
    var code := Code([Locals(1, I32)], StartCode(syscalls));
    ExecStart(env, syscalls, mem, fuel);
    assert Expand([Locals(1, I32)]) == [I32] by {
      assert [Locals(1, I32)][1..] == [];
    }
    assert Frame(code, [], mem, []).locals == [I32V(0)];
    assert [] + Repeat(Max(0, ToInt32(syscalls))) == Repeat(Max(0, ToInt32(syscalls)));
    assert TypeOfFunc(env.m, 2) == Some(FuncType([], []));
    assert Run(env, "_start", [], mem, fuel) == Finish(0, ExecSeq(env, code.body, Frame(code, [], mem, []), fuel));
  }

  /** The two calls of the trace are `random_get` and `clock_time_get`. */
  predicate ImportsWasi(m: Module) {
    && |m.imports| == 2
    && ImportsAs(m, RANDOM_GET, "wasi_snapshot_preview1", "random_get")
    && ImportsAs(m, CLOCK_TIME_GET, "wasi_snapshot_preview1", "clock_time_get")
    && TypeOfFunc(m, RANDOM_GET) == Some(FuncType([I32, I32], [I32]))
    && TypeOfFunc(m, CLOCK_TIME_GET) == Some(FuncType([I32, I64, I32], [I32]))
  }

  lemma Surroundings(code: seq<Instr>)
    ensures ExportsMemory(TheModule(code), 1) && ImportsWasi(TheModule(code))
  {
  }

  /** From bytes to the host-call trace, for every count a script can pass. */
  lemma WasiModuleCorrect(host: Host, syscalls: int, mem: seq<byte>, fuel: nat)
    ensures DecodeModule(WasiModule(syscalls)).Some?
    ensures var m := Assemble(DecodeModule(WasiModule(syscalls)).value);
      && ValidModule(m) && ExportsMemory(m, 1) && ImportsWasi(m)
      && |m.codes| == 1 && (m.codes[0].body == [] <==> syscalls == 0)
      && (HostOk(Env(m, host)) ==> MakesCalls(Env(m, host), ToInt32(syscalls), mem, fuel))
  {
    Decodes(syscalls);
    Surroundings(StartCode(syscalls));
    Validates(host, syscalls);
    var env := Env(TheModule(StartCode(syscalls)), host);
    if HostOk(env) {
      RunStart(env, syscalls, mem, fuel);
    }
  }
}
