/** `memoryModule` (bench/scripts/wasm-mod.js:99-122): summing bytes of linear memory. */
module WasmMemory {
  import opened Common
  import opened Leb128
  import opened WasmSyntax
  import opened WasmEmit
  import opened WasmDecode
  import opened WasmExec
  import opened WasmValid
  import opened WasmForLoop

  // ----- The builder -----

  function MemoryModule(pages: int): seq<byte> {
    var body :=
      I32c(0) + Set(3) +
      ForLoop(2, Get(1),
        Get(3) +
        Get(0) + Get(2) + [ADD] + [0x2d, 0x00, 0x00] +
        [ADD] + Set(3)) +
      Get(3);
    MAGIC +
    SectionBytes(1, Vec([FuncTypeBytes([I32, I32], [I32])])) +
    SectionBytes(3, Vec([[0x00]])) +
    SectionBytes(5, Vec([[0x00] + UlebBytes(ToUint32(pages))])) +
    SectionBytes(7, Vec([Str("memory") + [0x02, 0x00], Str("sum8") + [0x00, 0x00]])) +
    SectionBytes(10, Vec([CodeBytes([Locals(2, I32)], body)]))
  }

  // ----- The module it means -----

  const LOAD_BODY := [LocalGet(3), LocalGet(0), LocalGet(2), Add, Load8U(0, 0), Add, LocalSet(3)]
  const SUM_CODE := [I32Const(0), LocalSet(3)] + ForLoopCode(2, [LocalGet(1)], LOAD_BODY) + [LocalGet(3)]

  const TYPE_SEC := Types([FuncType([I32, I32], [I32])])
  const FUNC_SEC := Funcs([0])
  const EXPORT_SEC := Exports([Export(Bytes("memory"), MemExport, 0), Export(Bytes("sum8"), FuncExport, 0)])
  const CODE_SEC := Codes([Code([Locals(2, I32)], SUM_CODE)])

  function MemSec(pages: int): Section { Mems([ToUint32(pages)]) }

  function Sections(pages: int): seq<Section> { [TYPE_SEC, FUNC_SEC, MemSec(pages), EXPORT_SEC, CODE_SEC] }

  function TheModule(pages: int): Module {
    Module(
      [FuncType([I32, I32], [I32])],
      [],
      [0],
      [ToUint32(pages)],
      [Export(Bytes("memory"), MemExport, 0), Export(Bytes("sum8"), FuncExport, 0)],
      [Code([Locals(2, I32)], SUM_CODE)])
  }

  // ----- The bytes decode to it -----

  lemma LoadPrints()
    ensures PrintAll(LOAD_BODY) == Get(3) + Get(0) + Get(2) + [ADD] + [0x2d, 0x00, 0x00] + [ADD] + Set(3)
  {
    var get := [LocalGet(3), LocalGet(0), LocalGet(2)];
    PrintThree(LocalGet(3), LocalGet(0), LocalGet(2));
    PrintMore(get, Add);
    PrintMore(get + [Add], Load8U(0, 0));
    PrintMore(get + [Add] + [Load8U(0, 0)], Add);
    PrintMore(get + [Add] + [Load8U(0, 0)] + [Add], LocalSet(3));
    assert get + [Add] + [Load8U(0, 0)] + [Add] + [LocalSet(3)] == LOAD_BODY;
    assert Print(Load8U(0, 0)) == [0x2d, 0x00, 0x00];
  }

  lemma SumPrints()
    ensures PrintAll(SUM_CODE) == I32c(0) + Set(3) + ForLoop(2, Get(1),
      Get(3) + Get(0) + Get(2) + [ADD] + [0x2d, 0x00, 0x00] + [ADD] + Set(3)) + Get(3)
  {
    LoadPrints();
    PrintOne(LocalGet(1));
    PrintTwo(I32Const(0), LocalSet(3));
    ForLoopPrints(2, [LocalGet(1)], LOAD_BODY);
    PrintAllAppend([I32Const(0), LocalSet(3)], ForLoopCode(2, [LocalGet(1)], LOAD_BODY));
    PrintMore([I32Const(0), LocalSet(3)] + ForLoopCode(2, [LocalGet(1)], LOAD_BODY), LocalGet(3));
  }

  lemma ContentsPrint(pages: int)
    ensures PrintSection(TYPE_SEC) == SectionBytes(1, Vec([FuncTypeBytes([I32, I32], [I32])]))
    ensures PrintSection(FUNC_SEC) == SectionBytes(3, Vec([[0x00]]))
    ensures PrintSection(MemSec(pages)) == SectionBytes(5, Vec([[0x00] + UlebBytes(ToUint32(pages))]))
  {
    SmallIndices();
    assert Map(PrintType, TYPE_SEC.types) == [FuncTypeBytes([I32, I32], [I32])];
    assert Map(PrintIndex, FUNC_SEC.funcs) == [[0x00]];
    assert Map(PrintMem, MemSec(pages).mins) == [[0x00] + UlebBytes(ToUint32(pages))];
  }

  lemma ExportsPrint()
    ensures PrintSection(EXPORT_SEC) == SectionBytes(7, Vec([Str("memory") + [0x02, 0x00], Str("sum8") + [0x00, 0x00]]))
  {
    ExportPrints("memory", MemExport, 0);
    ExportPrints("sum8", FuncExport, 0);
    assert Map(PrintExport, EXPORT_SEC.exports) == [Str("memory") + [0x02, 0x00], Str("sum8") + [0x00, 0x00]];
  }

  lemma CodePrints()
    ensures PrintSection(CODE_SEC) == SectionBytes(10, Vec([CodeBytes([Locals(2, I32)], PrintAll(SUM_CODE))]))
  {
    assert Map(PrintCode, CODE_SEC.codes) == [CodeBytes([Locals(2, I32)], PrintAll(SUM_CODE))];
  }

  lemma Prints(pages: int)
    ensures MemoryModule(pages) == PrintModule(Sections(pages))
  {
    FiveSections(TYPE_SEC, FUNC_SEC, MemSec(pages), EXPORT_SEC, CODE_SEC);
    ContentsPrint(pages);
    ExportsPrint();
    CodePrints();
    SumPrints();
  }

  lemma ContentsSmall(pages: int)
    ensures |PrintContent(TYPE_SEC)| <= 1000 && |PrintContent(FUNC_SEC)| <= 1000 && |PrintContent(MemSec(pages))| <= 1000
  {
    FuncTypeLength(FuncType([I32, I32], [I32]));
    VecLength(Map(PrintType, TYPE_SEC.types), 20);
    SmallIndices();
    VecLength(Map(PrintIndex, FUNC_SEC.funcs), 1);
    AtMostFiveBytes(pages);
    VecLength(Map(PrintMem, MemSec(pages).mins), 6);
  }

  lemma ExportsSmall()
    ensures |PrintContent(EXPORT_SEC)| <= 1000
  {
    SmallIndices();
    forall e | e in EXPORT_SEC.exports ensures |PrintExport(e)| <= 20 {
      AtMostFiveBytes(|e.name|);
    }
    VecLength(Map(PrintExport, EXPORT_SEC.exports), 20);
  }

  lemma SumLength()
    ensures |PrintAll(SUM_CODE)| <= 300
  {
    var init, loop := [I32Const(0), LocalSet(3)], ForLoopCode(2, [LocalGet(1)], LOAD_BODY);
    FlatLength(init);
    FlatLength([LocalGet(1)]);
    FlatLength(LOAD_BODY);
    FlatLength([LocalGet(3)]);
    ForLoopPrints(2, [LocalGet(1)], LOAD_BODY);
    ForLoopLength(2, PrintAll([LocalGet(1)]), PrintAll(LOAD_BODY));
    PrintAllAppend(init, loop);
    PrintAllAppend(init + loop, [LocalGet(3)]);
  }

  lemma CodesSmall()
    ensures |PrintContent(CODE_SEC)| <= 1000
  {
    SumLength();
    CodeLength([Locals(2, I32)], PrintAll(SUM_CODE));
    VecLength(Map(PrintCode, CODE_SEC.codes), 400);
  }

  lemma Small(pages: int)
    ensures Fits(PrintModule(Sections(pages)))
  {
    ContentsSmall(pages);
    ExportsSmall();
    CodesSmall();
    ModuleLength(Sections(pages));
  }

  lemma CodesInRange()
    ensures SectionInRange(CODE_SEC)
  {
    ForLoopInRange(2, [LocalGet(1)], LOAD_BODY);
    assert CodeInRange(CODE_SEC.codes[0]);
  }

  lemma AllSectionsInRange(pages: int)
    ensures forall s :: s in Sections(pages) ==> SectionInRange(s)
  {
    CodesInRange();
  }

  lemma InOrder(pages: int)
    ensures Increasing(Sections(pages))
  {
  }

  lemma Assembles(pages: int)
    ensures Assemble(Sections(pages)) == TheModule(pages)
  {
    var ss := Sections(pages);
    assert ss[1..][1..] == ss[2..] && ss[2..][1..] == ss[3..] && ss[3..][1..] == ss[4..] && ss[4..][1..] == [];
    assert Assemble(ss[4..]) == Module([], [], [], [], [], CODE_SEC.codes);
    assert Assemble(ss[3..]) == Module([], [], [], [], EXPORT_SEC.exports, CODE_SEC.codes);
    assert Assemble(ss[2..]) == Module([], [], [], [ToUint32(pages)], EXPORT_SEC.exports, CODE_SEC.codes);
  }

  lemma Decodes(pages: int)
    ensures DecodeModule(MemoryModule(pages)) == Some(Sections(pages))
    ensures Assemble(Sections(pages)) == TheModule(pages)
  {
    Prints(pages);
    Small(pages);
    InOrder(pages);
    AllSectionsInRange(pages);
    ModuleRoundTrip(Sections(pages));
    Assembles(pages);
  }

  // ----- It validates exactly when the memory is not too large -----

  const FOUR_I32 := [I32, I32, I32, I32]

  lemma LoadYields(m: Module)
    requires m.mins != []
    ensures Yields(m, FOUR_I32, LOAD_BODY, []) && Yields(m, FOUR_I32, [LocalGet(1)], [I32])
  {
    var c := Ctx(m, FOUR_I32, []);
    var three := [I32, I32, I32];
    assert [] + [I32] == [I32] && [I32] + [I32] == [I32, I32] && [I32, I32] + [I32] == three;
    CheckThree(c, LocalGet(3), LocalGet(0), LocalGet(2), Live([]), Live([I32]), Live([I32, I32]), Live(three));
    var get, load := [LocalGet(3), LocalGet(0), LocalGet(2)], [Add, Load8U(0, 0), Add];
    LoadAddYields(c);
    CheckPop(c, 3, []);
    CheckOne(c, LocalSet(3), Live([I32]), Live([]));
    CheckAppend(c, get, load, Live([]));
    CheckAppend(c, get + load, [LocalSet(3)], Live([]));
    assert get + load + [LocalSet(3)] == LOAD_BODY;
    CheckOne(c, LocalGet(1), Live([]), Live([I32]));
  }

  lemma LoadAddYields(c: Ctx)
    requires c.m.mins != []
    ensures CheckSeq(c, [Add, Load8U(0, 0), Add], Live([I32, I32, I32])) == Some(Live([I32]))
  {
    var two := [I32, I32];
    assert [I32] + [I32, I32] == [I32, I32, I32] && [I32] + [I32] == two && [] + two == two && [] + [I32] == [I32];
    CheckArith(c, Add, [I32]);
    CheckLoad(c, [I32]);
    CheckArith(c, Add, []);
    CheckThree(c, Add, Load8U(0, 0), Add, Live([I32, I32, I32]), Live(two), Live(two), Live([I32]));
  }

  lemma CheckLoad(c: Ctx, ts: seq<ValType>)
    requires c.m.mins != []
    ensures CheckInstr(c, Load8U(0, 0), Live(ts + [I32])) == Some(Live(ts + [I32]))
  {
    assert (ts + [I32])[..|ts|] == ts;
  }

  lemma SumValid(env: Env, pages: int)
    requires env.m == TheModule(pages)
    ensures ValidCode(env.m, FuncType([I32, I32], [I32]), Code([Locals(2, I32)], SUM_CODE))
  {
    assert Expand([Locals(2, I32)]) == [I32, I32] by {
      assert [Locals(2, I32)][1..] == [];
    }
    assert [I32, I32] + [I32, I32] == FOUR_I32;
    var c := Ctx(env.m, FOUR_I32, [[I32]]);
    var init, loop := [I32Const(0), LocalSet(3)], ForLoopCode(2, [LocalGet(1)], LOAD_BODY);
    assert [] + [I32] == [I32];
    CheckPop(c, 3, []);
    CheckTwo(c, I32Const(0), LocalSet(3), Live([]), Live([I32]), Live([]));
    LoadYields(env.m);
    ForLoopValid(env, FOUR_I32, [[I32]], 2, [LocalGet(1)], LOAD_BODY, Live([]));
    CheckOne(c, LocalGet(3), Live([]), Live([I32]));
    CheckAppend(c, init, loop, Live([]));
    CheckAppend(c, init + loop, [LocalGet(3)], Live([]));
    PopOne(I32);
  }

  lemma NamesDiffer()
    ensures Bytes("memory") != Bytes("sum8")
  {
    assert |Bytes("memory")| == 6 && |Bytes("sum8")| == 4;
  }

  /** The one way to get an invalid module is to ask for more than 2^16 pages. */
  lemma ValidIff(pages: int)
    ensures ValidModule(TheModule(pages)) <==> ToUint32(pages) <= 0x1_0000
  {
    SumValid(Env(TheModule(pages), (_, _, mem) => ([], mem)), pages);
    NamesDiffer();
    if ValidModule(TheModule(pages)) {
      assert TheModule(pages).mins[0] in TheModule(pages).mins;
    }
  }

  // ----- It sums bytes -----

  /** The address of byte `i` of the window, in 32-bit arithmetic. */
  function Addr(p: u32, i: nat): u32 { Wrap(p + i) }

  /** The first index from `i` on whose byte is outside memory, or `limit`. */
  function FirstOut(mem: seq<byte>, p: u32, i: nat, limit: nat): (j: nat)
    requires i <= limit
    ensures i <= j <= limit
    ensures forall k :: i <= k < j ==> Addr(p, k) < |mem|
    ensures j < limit ==> Addr(p, j) >= |mem|
    decreases limit - i
  {
    if i == limit || Addr(p, i) >= |mem| then i else FirstOut(mem, p, i + 1, limit)
  }

  function SumBytes(mem: seq<byte>, p: u32, n: nat): nat
    requires forall k :: 0 <= k < n ==> Addr(p, k) < |mem|
  {
    if n == 0 then 0 else SumBytes(mem, p, n - 1) + mem[Addr(p, n - 1)]
  }

  function LoadState(p: u32, len: u32, i: nat, mem: seq<byte>, trace: seq<HostCall>): State
    requires i < TWO32
    requires forall k :: 0 <= k < i ==> Addr(p, k) < |mem|
  {
    State([I32V(p), I32V(len), I32V(i), I32V(Wrap(SumBytes(mem, p, i)))], [], mem, trace)
  }

  lemma ExecAddress(env: Env, s: State, acc: u32, p: u32, i: u32, fuel: nat)
    requires s.stack == [] && |s.locals| == 4
    requires s.locals[3] == I32V(acc) && s.locals[0] == I32V(p) && s.locals[2] == I32V(i)
    ensures ExecSeq(env, [LocalGet(3), LocalGet(0), LocalGet(2)] + [Add], s, fuel)
         == Normal(s.(stack := [I32V(acc), I32V(Addr(p, i))]))
  {
    var t := s.(stack := [I32V(acc), I32V(p), I32V(i)]);
    var u := s.(stack := [I32V(acc), I32V(Addr(p, i))]);
    PushThree(env, s, 3, 0, 2, fuel);
    assert t.stack == [I32V(acc)] + [I32V(p), I32V(i)] && u.stack == [I32V(acc)] + [I32V(Addr(p, i))];
    ExecBinOp(env, Add, t, [I32V(acc)], p, i, fuel);
    ExecOne(env, Add, t, u, fuel);
    ExecAppend(env, [LocalGet(3), LocalGet(0), LocalGet(2)], [Add], s, fuel);
  }

  lemma ExecByte(env: Env, s: State, acc: u32, a: u32, fuel: nat)
    requires s.stack == [I32V(acc), I32V(a)]
    ensures ExecInstr(env, Load8U(0, 0), s, fuel)
         == if a < |s.mem| then Normal(s.(stack := [I32V(acc), I32V(s.mem[a])])) else Trapped
  {
    assert Top(s) == I32V(a) && HasI32(s, 1) && Pop(s, 1).stack == [I32V(acc)];
    assert a < |s.mem| ==> [I32V(acc)] + [I32V(s.mem[a])] == [I32V(acc), I32V(s.mem[a])];
  }

  lemma ExecAddSet(env: Env, s: State, acc: u32, b: u32, fuel: nat)
    requires s.stack == [I32V(acc), I32V(b)] && |s.locals| == 4
    ensures ExecSeq(env, [Add, LocalSet(3)], s, fuel)
         == Normal(s.(stack := [], locals := s.locals[3 := I32V(Wrap(acc + b))]))
  {
    var u := s.(stack := [I32V(Wrap(acc + b))]);
    assert [] + [I32V(acc), I32V(b)] == s.stack && [] + u.stack == u.stack;
    ExecBinOp(env, Add, s, [], acc, b, fuel);
    ExecSet(env, 3, u, [], I32V(Wrap(acc + b)), fuel);
    ExecTwo(env, Add, LocalSet(3), s, u, s.(stack := [], locals := s.locals[3 := I32V(Wrap(acc + b))]), fuel);
  }

  lemma ExecLoadAdd(env: Env, s: State, acc: u32, a: u32, fuel: nat)
    requires s.stack == [I32V(acc), I32V(a)] && |s.locals| == 4
    ensures ExecSeq(env, [Load8U(0, 0), Add, LocalSet(3)], s, fuel)
         == if a < |s.mem| then Normal(s.(stack := [], locals := s.locals[3 := I32V(Wrap(acc + s.mem[a]))])) else Trapped
  {
    ExecByte(env, s, acc, a, fuel);
    assert [Load8U(0, 0), Add, LocalSet(3)][1..] == [Add, LocalSet(3)];
    if a < |s.mem| {
      var t := s.(stack := [I32V(acc), I32V(s.mem[a])]);
      ExecAddSet(env, t, acc, s.mem[a], fuel);
      assert t.(stack := [], locals := s.locals[3 := I32V(Wrap(acc + s.mem[a]))])
          == s.(stack := [], locals := s.locals[3 := I32V(Wrap(acc + s.mem[a]))]);
    }
  }

  lemma ExecLoadBody(env: Env, s: State, acc: u32, p: u32, i: u32, fuel: nat)
    requires s.stack == [] && |s.locals| == 4
    requires s.locals[3] == I32V(acc) && s.locals[0] == I32V(p) && s.locals[2] == I32V(i)
    ensures ExecSeq(env, LOAD_BODY, s, fuel)
         == if Addr(p, i) < |s.mem| then Normal(s.(locals := s.locals[3 := I32V(Wrap(acc + s.mem[Addr(p, i)]))])) else Trapped
  {
    var front, rest := [LocalGet(3), LocalGet(0), LocalGet(2)] + [Add], [Load8U(0, 0), Add, LocalSet(3)];
    assert LOAD_BODY == front + rest;
    ExecAddress(env, s, acc, p, i, fuel);
    ExecAppend(env, front, rest, s, fuel);
    ExecLoadAdd(env, s.(stack := [I32V(acc), I32V(Addr(p, i))]), acc, Addr(p, i), fuel);
  }

  /** One turn of the body adds the byte at ptr + i, or traps if there is none. */
  lemma ExecLoad(env: Env, p: u32, len: u32, i: nat, mem: seq<byte>, trace: seq<HostCall>, fuel: nat)
    requires i < TWO31 && forall k :: 0 <= k < i ==> Addr(p, k) < |mem|
    ensures var s := LoadState(p, len, i, mem, trace);
      ExecSeq(env, LOAD_BODY, s, fuel)
      == if Addr(p, i) >= |mem| then Trapped
         else Normal(s.(locals := s.locals[3 := I32V(Wrap(SumBytes(mem, p, i + 1)))]))
  {
    ExecLoadBody(env, LoadState(p, len, i, mem, trace), Wrap(SumBytes(mem, p, i)), p, i, fuel);
    if Addr(p, i) < |mem| {
      WrapAdd(SumBytes(mem, p, i), mem[Addr(p, i)]);
    }
  }

  lemma NextState(p: u32, len: u32, i: nat, mem: seq<byte>, trace: seq<HostCall>)
    requires i < TWO31 && forall k :: 0 <= k <= i ==> Addr(p, k) < |mem|
    ensures var s := LoadState(p, len, i, mem, trace);
      SetLocal(s.(locals := s.locals[3 := I32V(Wrap(SumBytes(mem, p, i + 1)))]), 2, i + 1).(stack := [])
      == LoadState(p, len, i + 1, mem, trace)
  {
  }

  lemma {:induction false} CountBytes(env: Env, p: u32, len: u32, i: nat, limit: nat, mem: seq<byte>, trace: seq<HostCall>, fuel: nat)
    requires i <= limit < TWO31 && forall k :: 0 <= k < i ==> Addr(p, k) < |mem|
    ensures var j := FirstOut(mem, p, i, limit);
      CountedFor(env, 2, LOAD_BODY, i, limit, LoadState(p, len, i, mem, trace), fuel)
      == if fuel < j - i then OutOfFuel
         else if j < limit then Trapped
         else Normal(LoadState(p, len, limit, mem, trace))
    decreases fuel
  {
    var s := LoadState(p, len, i, mem, trace);
    if i < limit {
      assert s.(stack := []) == s;
      ExecLoad(env, p, len, i, mem, trace, fuel);
      if Addr(p, i) < |mem| && fuel > 0 {
        NextState(p, len, i, mem, trace);
        CountBytes(env, p, len, i + 1, limit, mem, trace, fuel - 1);
      }
    }
  }

  lemma LoadWrites()
    ensures Writes(LOAD_BODY) == {3}
  {
    WritesLast(LOAD_BODY[..6], LocalSet(3));
    assert LOAD_BODY == LOAD_BODY[..6] + [LocalSet(3)];
  }

  lemma LoadLoopCounts(env: Env, p: u32, len: u32, s: State, fuel: nat)
    requires EnvOk(env) && env.m.mins != []
    requires s.locals == [I32V(p), I32V(len), I32V(0), I32V(0)]
    ensures ExecSeq(env, ForLoopCode(2, [LocalGet(1)], LOAD_BODY), s, fuel)
         == CountedFor(env, 2, LOAD_BODY, 0, Max(0, Signed(len)), SetLocal(s, 2, 0), fuel)
  {
    LoadYields(env.m);
    LoadWrites();
    CountsTo(env, LOAD_BODY, p, len, s, fuel);
  }

  lemma CountsTo(env: Env, body: seq<Instr>, p: u32, len: u32, s: State, fuel: nat)
    requires EnvOk(env)
    requires Yields(env.m, FOUR_I32, body, []) && Yields(env.m, FOUR_I32, [LocalGet(1)], [I32]) && Writes(body) == {3}
    requires s.locals == [I32V(p), I32V(len), I32V(0), I32V(0)]
    ensures ExecSeq(env, ForLoopCode(2, [LocalGet(1)], body), s, fuel)
         == CountedFor(env, 2, body, 0, Max(0, Signed(len)), SetLocal(s, 2, 0), fuel)
  {
    ForLoopToLocal(env, FOUR_I32, 2, 1, body, len, s, fuel);
  }

  lemma ExecLoadLoop(env: Env, p: u32, len: u32, s: State, fuel: nat)
    requires EnvOk(env) && env.m.mins != []
    requires s.locals == [I32V(p), I32V(len), I32V(0), I32V(0)] && s.stack == []
    ensures var limit := Max(0, Signed(len));
      var j := FirstOut(s.mem, p, 0, limit);
      ExecSeq(env, ForLoopCode(2, [LocalGet(1)], LOAD_BODY), s, fuel)
      == if fuel < j then OutOfFuel
         else if j < limit then Trapped
         else Normal(LoadState(p, len, limit, s.mem, s.trace))
  {
    LoadLoopCounts(env, p, len, s, fuel);
    assert SetLocal(s, 2, 0) == LoadState(p, len, 0, s.mem, s.trace);
    CountBytes(env, p, len, 0, Max(0, Signed(len)), s.mem, s.trace, fuel);
  }

  lemma ExecSum(env: Env, p: u32, len: u32, mem: seq<byte>, fuel: nat)
    requires EnvOk(env) && env.m.mins != []
    ensures var limit := Max(0, Signed(len));
      var j := FirstOut(mem, p, 0, limit);
      ExecSeq(env, SUM_CODE, State([I32V(p), I32V(len), I32V(0), I32V(0)], [], mem, []), fuel)
      == if fuel < j then OutOfFuel
         else if j < limit then Trapped
         else Normal(Push(LoadState(p, len, limit, mem, []), I32V(Wrap(SumBytes(mem, p, limit)))))
  {
    var s := State([I32V(p), I32V(len), I32V(0), I32V(0)], [], mem, []);
    var limit := Max(0, Signed(len));
    var init, loop := [I32Const(0), LocalSet(3)], ForLoopCode(2, [LocalGet(1)], LOAD_BODY);
    ExecClear(env, 3, s, fuel);
    assert SetLocal(s, 3, 0) == s;
    ExecAppend(env, init, loop, s, fuel);
    ExecAppend(env, init + loop, [LocalGet(3)], s, fuel);
    ExecLoadLoop(env, p, len, s, fuel);
    var j := FirstOut(mem, p, 0, limit);
    if fuel >= j && j == limit {
      var t := LoadState(p, len, limit, mem, []);
      ExecOne(env, LocalGet(3), t, Push(t, t.locals[3]), fuel);
    }
  }

  /** `sum8` sums the bytes of its window after exactly one turn each; it traps if and
      only if some byte of the window is outside memory, on reaching the first. */
  predicate SumsBytes(env: Env, p: u32, len: u32, mem: seq<byte>, fuel: nat) {
    var limit := Max(0, Signed(len));
    var j := FirstOut(mem, p, 0, limit);
    Run(env, "sum8", [I32V(p), I32V(len)], mem, fuel)
    == if fuel < j then OutOfFuel
       else if j < limit then Trapped
       else Normal(State([], [I32V(Wrap(SumBytes(mem, p, limit)))], mem, []))
  }

  lemma RunSum(env: Env, pages: int, p: u32, len: u32, mem: seq<byte>, fuel: nat)
    requires env.m == TheModule(pages) && EnvOk(env)
    ensures SumsBytes(env, p, len, mem, fuel)
  {
    NamesDiffer();
    var es := env.m.exports;
    assert es[1..][0] == es[1];
    assert FindExport(es, Bytes("sum8")) == Some(Export(Bytes("sum8"), FuncExport, 0));
    ExecSum(env, p, len, mem, fuel);
    assert Expand([Locals(2, I32)]) == [I32, I32] by {
      assert [Locals(2, I32)][1..] == [];
    }
    assert Frame(Code([Locals(2, I32)], SUM_CODE), [I32V(p), I32V(len)], mem, []).locals
        == [I32V(p), I32V(len), I32V(0), I32V(0)];
  }

  lemma MemoryExported(pages: int)
    ensures ExportsMemory(TheModule(pages), ToUint32(pages))
  {
  }

  /** From bytes to results, for every page count that validates. */
  lemma MemoryModuleCorrect(host: Host, pages: int, p: u32, len: u32, mem: seq<byte>, fuel: nat)
    ensures DecodeModule(MemoryModule(pages)).Some?
    ensures var m := Assemble(DecodeModule(MemoryModule(pages)).value);
      && (ValidModule(m) <==> ToUint32(pages) <= 0x1_0000)
      && ExportsMemory(m, ToUint32(pages))
      && (ValidModule(m) ==> SumsBytes(Env(m, host), p, len, mem, fuel))
  {
    Decodes(pages);
    ValidIff(pages);
    MemoryExported(pages);
    if ValidModule(TheModule(pages)) {
      RunSum(Env(TheModule(pages), host), pages, p, len, mem, fuel);
    }
  }

  /** A window inside memory never traps, nor does any window of a full 4 GiB memory. */
  lemma InBounds(mem: seq<byte>, p: u32, len: u32)
    requires p + Max(0, Signed(len)) <= |mem| <= TWO32 || |mem| == TWO32
    ensures FirstOut(mem, p, 0, Max(0, Signed(len))) == Max(0, Signed(len))
  {
    forall k | 0 <= k < Max(0, Signed(len)) ensures Addr(p, k) < |mem| {
      if |mem| < TWO32 {
        assert Wrap(p + k) == p + k;
      }
    }
  }
}
