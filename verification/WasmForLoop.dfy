/** Compiler correctness of `forLoop` (bench/scripts/wasm-mod.js:55-68). */
module WasmForLoop {
  import opened Common
  import opened Leb128
  import opened WasmSyntax
  import opened WasmEmit
  import opened WasmExec
  import opened WasmValid

  // ----- The instructions the emitted bytes stand for -----

  function LoopBody(x: nat, bound: seq<Instr>, body: seq<Instr>): seq<Instr> {
    [LocalGet(x)] + (bound + ([GeS, BrIf(1)] + (body + [LocalGet(x), I32Const(1), Add, LocalSet(x), Br(0)])))
  }

  function ForLoopCode(x: nat, bound: seq<Instr>, body: seq<Instr>): seq<Instr> {
    [I32Const(0), LocalSet(x), Block([Loop(LoopBody(x, bound, body))])]
  }

  lemma BranchBytes()
    ensures Print(Br(0)) == [0x0c, 0x00] && Print(BrIf(1)) == [0x0d, 0x01]
  {
  }

  lemma Regroup<T>(a: seq<T>, b: seq<T>, c: seq<T>, d: seq<T>, e: seq<T>)
    ensures a + (b + (c + (d + e))) == a + b + c + d + e
  {
  }

  lemma IncrementPrints(x: nat)
    ensures PrintAll([LocalGet(x), I32Const(1), Add, LocalSet(x), Br(0)])
         == Get(x) + I32c(1) + [ADD] + Set(x) + [0x0c, 0x00]
  {
    PrintThree(LocalGet(x), I32Const(1), Add);
    PrintMore([LocalGet(x), I32Const(1), Add], LocalSet(x));
    PrintMore([LocalGet(x), I32Const(1), Add, LocalSet(x)], Br(0));
    assert [LocalGet(x), I32Const(1), Add] + [LocalSet(x)] == [LocalGet(x), I32Const(1), Add, LocalSet(x)];
    assert [LocalGet(x), I32Const(1), Add, LocalSet(x)] + [Br(0)] == [LocalGet(x), I32Const(1), Add, LocalSet(x), Br(0)];
    BranchBytes();
  }

  lemma TestPrints()
    ensures PrintAll([GeS, BrIf(1)]) == [GE_S, 0x0d, 0x01]
  {
    assert [GeS, BrIf(1)][1..] == [BrIf(1)] && PrintAll([BrIf(1)]) == Print(BrIf(1));
    BranchBytes();
  }

  lemma LoopBodyPrints(x: nat, bound: seq<Instr>, body: seq<Instr>)
    ensures PrintAll(LoopBody(x, bound, body))
         == Get(x) + PrintAll(bound) + [GE_S, 0x0d, 0x01] + PrintAll(body)
            + (Get(x) + I32c(1) + [ADD] + Set(x) + [0x0c, 0x00])
  {
    var tail := [LocalGet(x), I32Const(1), Add, LocalSet(x), Br(0)];
    IncrementPrints(x);
    TestPrints();
    PrintAllAppend(body, tail);
    PrintAllAppend([GeS, BrIf(1)], body + tail);
    PrintAllAppend(bound, [GeS, BrIf(1)] + (body + tail));
    PrintAllAppend([LocalGet(x)], bound + ([GeS, BrIf(1)] + (body + tail)));
    assert PrintAll([LocalGet(x)]) == Get(x);
    Regroup(Get(x), PrintAll(bound), [GE_S, 0x0d, 0x01], PrintAll(body), PrintAll(tail));
  }

  /** The shape of `forLoop`'s array, its pieces arbitrary. */
  lemma Unnest<T>(h: seq<T>, blk: seq<T>, lp: seq<T>, b: seq<T>, i1: seq<T>, i2: seq<T>, i3: seq<T>, i4: seq<T>, i5: seq<T>, e: seq<T>)
    ensures h + blk + lp + b + i1 + i2 + i3 + i4 + i5 + e + e
         == h + (blk + (lp + (b + (i1 + i2 + i3 + i4 + i5)) + e) + e)
  {
    assert b + i1 + i2 + i3 + i4 + i5 == b + (i1 + i2 + i3 + i4 + i5);
    var m := b + (i1 + i2 + i3 + i4 + i5);
    assert h + blk + lp + b + i1 + i2 + i3 + i4 + i5 == h + blk + lp + m;
    assert h + blk + lp + m + e + e == h + (blk + (lp + m + e) + e);
  }

  /** On the bytes of any bound and body, `forLoop` is the printer at work. */
  lemma ForLoopPrints(x: nat, bound: seq<Instr>, body: seq<Instr>)
    ensures ForLoop(x, PrintAll(bound), PrintAll(body)) == PrintAll(ForLoopCode(x, bound, body))
  {
    var loop := Loop(LoopBody(x, bound, body));
    var block := Block([loop]);
    var code := ForLoopCode(x, bound, body);
    assert code == [I32Const(0), LocalSet(x)] + [block];
    assert [I32Const(0), LocalSet(x)][1..] == [LocalSet(x)];
    PrintAllAppend([I32Const(0), LocalSet(x)], [block]);
    assert PrintAll([LocalSet(x)]) == Set(x);
    assert PrintAll([loop]) == Print(loop) && PrintAll([block]) == Print(block);
    LoopBodyPrints(x, bound, body);
    ForLoopShape(x, PrintAll(bound), PrintAll(body), PrintAll(loop.body));
  }

  lemma ForLoopShape(x: nat, bound: seq<byte>, body: seq<byte>, inner: seq<byte>)
    requires inner == Get(x) + bound + [GE_S, 0x0d, 0x01] + body + (Get(x) + I32c(1) + [ADD] + Set(x) + [0x0c, 0x00])
    ensures ForLoop(x, bound, body)
         == (I32c(0) + Set(x)) + ([0x02, 0x40] + ([0x03, 0x40] + inner + [0x0b]) + [0x0b])
  {
    var front := Get(x) + bound + [GE_S, 0x0d, 0x01] + body;
    var h := I32c(0) + Set(x) + [0x02, 0x40] + [0x03, 0x40];
    Regroup5(h, Get(x), bound, [GE_S, 0x0d, 0x01], body);
    Unnest(I32c(0) + Set(x), [0x02, 0x40], [0x03, 0x40], front, Get(x), I32c(1), [ADD], Set(x), [0x0c, 0x00], [0x0b]);
  }

  lemma Regroup5<T>(h: seq<T>, a: seq<T>, b: seq<T>, c: seq<T>, d: seq<T>)
    ensures h + a + b + c + d == h + (a + b + c + d)
  {
  }

  lemma ForLoopInRange(x: nat, bound: seq<Instr>, body: seq<Instr>)
    requires x < TWO32 && AllInRange(bound) && AllInRange(body)
    ensures AllInRange(ForLoopCode(x, bound, body))
  {
    var inc := [LocalGet(x), I32Const(1), Add, LocalSet(x), Br(0)];
    assert AllInRange(body + inc);
    assert AllInRange([GeS, BrIf(1)] + (body + inc));
    assert AllInRange(bound + ([GeS, BrIf(1)] + (body + inc)));
    assert AllInRange(LoopBody(x, bound, body));
    var loop := Loop(LoopBody(x, bound, body));
    assert InRange(loop);
    assert AllInRange([loop]);
    assert InRange(Block([loop]));
  }

  // ----- What the source means: for (i = 0; i < bound; i++) body -----

  function SetLocal(s: State, x: nat, n: int): State
    requires x < |s.locals|
  {
    s.(locals := s.locals[x := I32V(Wrap(n))])
  }

  /** The rest of the loop from a test of the condition, the bound being evaluated
      afresh each time. Going round again takes one unit of fuel. */
  function SourceFor(env: Env, x: nat, bound: seq<Instr>, body: seq<Instr>, s: State, fuel: nat): Outcome
    decreases fuel
  {
    if x >= |s.locals| || !s.locals[x].I32V? then Stuck
    else
      match ExecSeq(env, bound, s.(stack := []), fuel)
      case Normal(b) =>
        if !HasI32(b, 1) || |b.stack| != 1 then Stuck
        else
          var t := b.(stack := []);
          if !(Signed(s.locals[x].n) < Signed(Top(b).n)) then Normal(t.(stack := s.stack))
          else
            (match ExecSeq(env, body, t, fuel)
             case Normal(u) =>
               if x >= |u.locals| || !u.locals[x].I32V? then Stuck
               else if fuel == 0 then OutOfFuel
               else SourceFor(env, x, bound, body, SetLocal(u, x, u.locals[x].n + 1).(stack := s.stack), fuel - 1)
             case r => r)
      case r => r
  }

  /** `for (i = k; i < limit; i++) body`, counting outside the machine. */
  function CountedFor(env: Env, x: nat, body: seq<Instr>, k: nat, limit: nat, s: State, fuel: nat): Outcome
    requires x < |s.locals|
    decreases fuel
  {
    if k >= limit then Normal(s)
    else
      match ExecSeq(env, body, s.(stack := []), fuel)
      case Normal(t) =>
        if x >= |t.locals| then Stuck
        else if fuel == 0 then OutOfFuel
        else CountedFor(env, x, body, k + 1, limit, SetLocal(t, x, k + 1).(stack := s.stack), fuel - 1)
      case r => r
  }

  // ----- Preservation of meaning -----

  /** A bound of type [] -> [i32] and a body of type [] -> [], neither able to
      branch out, over a counter that is an i32 local. */
  predicate WellFormed(env: Env, locals: seq<ValType>, x: nat, bound: seq<Instr>, body: seq<Instr>) {
    && x < |locals| && locals[x] == I32
    && Yields(env.m, locals, bound, [I32])
    && Yields(env.m, locals, body, [])
  }

  /** The tail of the loop body: add one to the counter and go round. */
  lemma ExecIncrement(env: Env, x: nat, s: State, fuel: nat)
    requires x < |s.locals| && s.locals[x].I32V? && s.stack == []
    ensures ExecSeq(env, [LocalGet(x), I32Const(1), Add, LocalSet(x), Br(0)], s, fuel)
         == Branch(0, SetLocal(s, x, s.locals[x].n + 1))
  {
    var n: int := s.locals[x].n;
    var s1, s2, s3 := s.(stack := [I32V(n)]), s.(stack := [I32V(n), I32V(1)]), s.(stack := [I32V(Wrap(n + 1))]);
    assert [] + [I32V(n)] == [I32V(n)] && [I32V(n)] + [I32V(1)] == [I32V(n), I32V(1)];
    assert [] + s2.stack == s2.stack && [] + s3.stack == s3.stack;
    ExecBinOp(env, Add, s2, [], n, 1, fuel);
    ExecThree(env, LocalGet(x), I32Const(1), Add, s, s1, s2, s3, fuel);
    ExecSet(env, x, s3, [], I32V(Wrap(n + 1)), fuel);
    var t := SetLocal(s, x, n + 1);
    assert [LocalSet(x), Br(0)][1..] == [Br(0)];
    assert ExecSeq(env, [Br(0)], t, fuel) == Branch(0, t);
    assert ExecSeq(env, [LocalSet(x), Br(0)], s3, fuel) == Branch(0, t);
    ExecAppend(env, [LocalGet(x), I32Const(1), Add], [LocalSet(x), Br(0)], s, fuel);
    assert [LocalGet(x), I32Const(1), Add] + [LocalSet(x), Br(0)] == [LocalGet(x), I32Const(1), Add, LocalSet(x), Br(0)];
  }

  lemma ExecGeS(env: Env, s: State, i: u32, b: u32, fuel: nat)
    requires s.stack == [I32V(i), I32V(b)]
    ensures ExecInstr(env, GeS, s, fuel) == Normal(s.(stack := [I32V(BinOp(GeS, i, b))]))
  {
    assert Pop(s, 2).stack == [] && Top(Pop(s, 1)) == I32V(i) && HasI32(s, 2);
  }

  lemma ExecBrIf(env: Env, s: State, c: u32, fuel: nat)
    requires s.stack == [I32V(c)]
    ensures ExecSeq(env, [BrIf(1)], s, fuel) == if c == 0 then Normal(s.(stack := [])) else Branch(1, s.(stack := []))
  {
    assert Pop(s, 1) == s.(stack := []) && HasI32(s, 1) && [BrIf(1)][1..] == [];
  }

  /** The test: branch out of the block when the counter has reached the bound. */
  lemma ExecTest(env: Env, s: State, i: u32, b: u32, fuel: nat)
    requires s.stack == [I32V(i), I32V(b)]
    ensures ExecSeq(env, [GeS, BrIf(1)], s, fuel)
         == if Signed(i) < Signed(b) then Normal(s.(stack := [])) else Branch(1, s.(stack := []))
  {
    var t := s.(stack := [I32V(BinOp(GeS, i, b))]);
    ExecGeS(env, s, i, b, fuel);
    assert [GeS, BrIf(1)][1..] == [BrIf(1)];
    assert ExecSeq(env, [GeS, BrIf(1)], s, fuel) == ExecSeq(env, [BrIf(1)], t, fuel);
    ExecBrIf(env, t, BinOp(GeS, i, b), fuel);
  }

  /** One turn of the emitted loop, from the test to the back edge. */
  function Turn(env: Env, x: nat, bound: seq<Instr>, body: seq<Instr>, s: State, fuel: nat): Outcome
    requires x < |s.locals|
  {
    match ExecSeq(env, bound, s.(stack := []), fuel)
    case Normal(b) =>
      if !HasI32(b, 1) || |b.stack| != 1 || !s.locals[x].I32V? then Stuck
      else
        var t := b.(stack := []);
        if !(Signed(s.locals[x].n) < Signed(Top(b).n)) then Branch(1, t)
        else
          (match ExecSeq(env, body, t, fuel)
           case Normal(u) =>
             if x >= |u.locals| || !u.locals[x].I32V? then Stuck
             else Branch(0, SetLocal(u, x, u.locals[x].n + 1))
           case Branch(_, _) => Stuck
           case r => r)
    case Branch(_, _) => Stuck
    case r => r
  }

  lemma ExecTurn(env: Env, locals: seq<ValType>, x: nat, bound: seq<Instr>, body: seq<Instr>, s: State, fuel: nat)
    requires EnvOk(env) && WellFormed(env, locals, x, bound, body)
    requires Typed(s.locals, locals) && s.stack == []
    ensures ExecSeq(env, LoopBody(x, bound, body), s, fuel) == Turn(env, x, bound, body, s, fuel)
    ensures match Turn(env, x, bound, body, s, fuel)
            case Branch(l, t) => l <= 1 && Typed(t.locals, locals) && t.stack == []
            case Normal(_) => false
            case Stuck => false
            case _ => true
  {
    var c := Ctx(env.m, locals, []);
    var inc := [LocalGet(x), I32Const(1), Add, LocalSet(x), Br(0)];
    var rest := [GeS, BrIf(1)] + (body + inc);
    var i := s.locals[x];
    var s1 := Push(s, i);
    assert s1 == Under([i], s);
    ExecAppend(env, [LocalGet(x)], bound + rest, s, fuel);
    assert ExecSeq(env, [LocalGet(x)], s, fuel) == Normal(s1);
    SeqSound(env, c, bound, [], Opds([I32], false), s, fuel);
    assert s == s.(stack := []);
    SeqFrame(env, bound, s, [i], fuel);
    ExecAppend(env, bound, rest, s1, fuel);
    match ExecSeq(env, bound, s, fuel)
    case Normal(b) =>
      var t, s2 := b.(stack := []), Under([i], b);
      assert s2.stack == [i, Top(b)];
      ExecAppend(env, [GeS, BrIf(1)], body + inc, s2, fuel);
      ExecTest(env, s2, i.n, Top(b).n, fuel);
      assert s2.(stack := []) == t;
      ExecAppend(env, body, inc, t, fuel);
      SeqSound(env, c, body, [], Opds([], false), t, fuel);
      match ExecSeq(env, body, t, fuel) {
        case Normal(u) => ExecIncrement(env, x, u, fuel);
        case _ =>
      }
    case _ =>
  }

  lemma {:induction false} ExecLoop(env: Env, locals: seq<ValType>, x: nat, bound: seq<Instr>, body: seq<Instr>, s: State, fuel: nat)
    requires EnvOk(env) && WellFormed(env, locals, x, bound, body)
    requires Typed(s.locals, locals)
    ensures ExecInstr(env, Block([Loop(LoopBody(x, bound, body))]), s, fuel) == SourceFor(env, x, bound, body, s, fuel)
    decreases fuel
  {
    var loop := Loop(LoopBody(x, bound, body));
    LoopExits(env, locals, x, bound, body, s.(stack := []), fuel);
    SourceStack(env, x, bound, body, s, fuel);
  }

  /** The stack below the loop plays no part in the source semantics. */
  lemma {:induction false} SourceStack(env: Env, x: nat, bound: seq<Instr>, body: seq<Instr>, s: State, fuel: nat)
    ensures SourceFor(env, x, bound, body, s, fuel)
         == match SourceFor(env, x, bound, body, s.(stack := []), fuel)
            case Normal(t) => Normal(t.(stack := s.stack))
            case r => r
    decreases fuel
  {
    var z := s.(stack := []);
    assert z.(stack := []) == z;
    if x < |s.locals| && s.locals[x].I32V? && fuel > 0 {
      match ExecSeq(env, bound, z, fuel)
      case Normal(b) =>
        match ExecSeq(env, body, b.(stack := []), fuel) {
          case Normal(u) =>
            if x < |u.locals| && u.locals[x].I32V? {
              var v := SetLocal(u, x, u.locals[x].n + 1);
              SourceStack(env, x, bound, body, v.(stack := s.stack), fuel - 1);
              assert v.(stack := s.stack).(stack := []) == v.(stack := []);
            }
          case _ =>
        }
      case _ =>
    }
  }

  /** The loop leaves through its enclosing block exactly when the source loop ends. */
  lemma {:induction false} LoopExits(env: Env, locals: seq<ValType>, x: nat, bound: seq<Instr>, body: seq<Instr>, s: State, fuel: nat)
    requires EnvOk(env) && WellFormed(env, locals, x, bound, body)
    requires Typed(s.locals, locals) && s.stack == []
    ensures ExecInstr(env, Loop(LoopBody(x, bound, body)), s, fuel)
         == match SourceFor(env, x, bound, body, s, fuel)
            case Normal(t) => Branch(0, t)
            case r => r
    ensures match SourceFor(env, x, bound, body, s, fuel)
            case Normal(t) => t.stack == []
            case Branch(_, _) => false
            case Stuck => false
            case _ => true
    decreases fuel
  {
    ExecTurn(env, locals, x, bound, body, s, fuel);
    assert s.(stack := []) == s;
    match Turn(env, x, bound, body, s, fuel)
    case Branch(l, t) =>
      assert Under(s.stack, t) == t && t.(stack := s.stack) == t;
      if l == 0 && fuel > 0 {
        LoopExits(env, locals, x, bound, body, t, fuel - 1);
      }
    case _ =>
  }

  /** Compiler correctness: the emitted loop means the source loop. The statement
      covers every bound and body, the traps and divergence of either, and host
      calls, at every fuel. */
  lemma ForLoopCorrect(env: Env, locals: seq<ValType>, x: nat, bound: seq<Instr>, body: seq<Instr>, s: State, fuel: nat)
    requires EnvOk(env) && WellFormed(env, locals, x, bound, body)
    requires Typed(s.locals, locals)
    ensures ExecSeq(env, ForLoopCode(x, bound, body), s, fuel)
         == SourceFor(env, x, bound, body, SetLocal(s, x, 0), fuel)
  {
    var code := ForLoopCode(x, bound, body);
    var s1, s2 := Push(s, I32V(0)), SetLocal(s, x, 0);
    assert Pop(s1, 1) == s;
    assert code[1..][0] == LocalSet(x) && code[1..][1..] == code[2..];
    assert ExecInstr(env, LocalSet(x), s1, fuel) == Normal(s2);
    ExecLoop(env, locals, x, bound, body, s2, fuel);
    var r := ExecInstr(env, code[2], s2, fuel);
    assert ExecSeq(env, code[2..], s2, fuel) == r by {
      match r
      case Normal(t) => assert ExecSeq(env, code[2..][1..], t, fuel) == r;
      case _ =>
    }
    assert ExecSeq(env, code[1..], s1, fuel) == r;
  }

  /** Whenever its body is [] -> [], so is the loop, in any context. */
  lemma ForLoopValid(env: Env, locals: seq<ValType>, labels: seq<seq<ValType>>, x: nat, bound: seq<Instr>, body: seq<Instr>, o: Opds)
    requires WellFormed(env, locals, x, bound, body)
    ensures CheckSeq(Ctx(env.m, locals, labels), ForLoopCode(x, bound, body), o) == Some(o)
  {
    var c := Ctx(env.m, locals, labels);
    var c1 := Ctx(env.m, locals, [[]] + labels);
    LoopBodyValid(env, locals, labels, x, bound, body);
    var loop := Loop(LoopBody(x, bound, body));
    assert [[]] + c1.labels == [[], []] + labels;
    assert CheckSeq(c1, [loop], Opds([], false)) == Some(Opds([], false));
    var code := ForLoopCode(x, bound, body);
    assert code[1..][1..] == [Block([loop])] && code[1..][0] == LocalSet(x);
    assert PushT(o, I32).known[..|o.known|] == o.known;
    assert CheckSeq(c, [Block([loop])], o) == Some(o);
    assert CheckSeq(c, code[1..], PushT(o, I32)) == Some(o);
  }

  lemma LoopBodyValid(env: Env, locals: seq<ValType>, labels: seq<seq<ValType>>, x: nat, bound: seq<Instr>, body: seq<Instr>)
    requires WellFormed(env, locals, x, bound, body)
    ensures CheckSeq(Ctx(env.m, locals, [[], []] + labels), LoopBody(x, bound, body), Opds([], false)) == Some(Opds([], true))
  {
    var c, c0 := Ctx(env.m, locals, [[], []] + labels), Ctx(env.m, locals, []);
    assert [] + c.labels == c.labels;
    var inc := [LocalGet(x), I32Const(1), Add, LocalSet(x), Br(0)];
    var rest := [GeS, BrIf(1)] + (body + inc);
    var empty, one, two := Opds([], false), Opds([I32], false), Opds([I32, I32], false);
    assert PushT(empty, I32) == one;
    assert CheckSeq(c, [LocalGet(x)], empty) == Some(one);
    CheckAppend(c, [LocalGet(x)], bound + rest, empty);
    SeqWeaken(c0, bound, empty, c.labels);
    CheckFrame(c, bound, [I32], []);
    assert [I32] + [] == [I32] && [I32] + [I32] == [I32, I32];
    CheckAppend(c, bound, rest, one);
    CheckTest(c);
    CheckAppend(c, [GeS, BrIf(1)], body + inc, two);
    SeqWeaken(c0, body, empty, c.labels);
    CheckAppend(c, body, inc, empty);
    CheckIncrement(c, x);
  }

  lemma CheckTest(c: Ctx)
    requires |c.labels| > 1 && c.labels[1] == []
    ensures CheckSeq(c, [GeS, BrIf(1)], Opds([I32, I32], false)) == Some(Opds([], false))
  {
    CheckArith(c, GeS, []);
    assert [] + [I32, I32] == [I32, I32] && [] + [I32] == [I32];
    CheckExit(c);
    CheckTwo(c, GeS, BrIf(1), Live([I32, I32]), Live([I32]), Live([]));
  }

  lemma CheckExit(c: Ctx)
    requires |c.labels| > 1 && c.labels[1] == []
    ensures CheckInstr(c, BrIf(1), Live([I32])) == Some(Live([]))
  {
    assert [I32][..0] == [] && [] + c.labels[1] == [];
  }

  lemma CheckIncrement(c: Ctx, x: nat)
    requires x < |c.locals| && c.locals[x] == I32 && c.labels != [] && c.labels[0] == []
    ensures CheckSeq(c, [LocalGet(x), I32Const(1), Add, LocalSet(x), Br(0)], Opds([], false)) == Some(Opds([], true))
  {
    assert [] + [I32] == [I32] && [I32] + [I32] == [I32, I32] && [] + [I32, I32] == [I32, I32];
    CheckPush(c, LocalGet(x), []);
    CheckPush(c, I32Const(1), [I32]);
    CheckArith(c, Add, []);
    CheckThree(c, LocalGet(x), I32Const(1), Add, Live([]), Live([I32]), Live([I32, I32]), Live([I32]));
    CheckPop(c, x, []);
    CheckTwo(c, LocalSet(x), Br(0), Live([I32]), Live([]), Opds([], true));
    CheckAppend(c, [LocalGet(x), I32Const(1), Add], [LocalSet(x), Br(0)], Live([]));
    assert [LocalGet(x), I32Const(1), Add] + [LocalSet(x), Br(0)] == [LocalGet(x), I32Const(1), Add, LocalSet(x), Br(0)];
  }

  // ----- Trip counts -----

  /** The bound pushes `b` in every state that differs from `s` only in `w`. */
  ghost predicate AlwaysPushes(env: Env, bound: seq<Instr>, b: u32, w: set<nat>, s: State) {
    forall t: State, f: nat {:trigger ExecSeq(env, bound, t, f)} ::
      t.stack == [] && SameOutside(w, s.locals, t.locals) ==>
      ExecSeq(env, bound, t, f) == Normal(Push(t, I32V(b)))
  }

  lemma {:induction false} SourceCounts(env: Env, x: nat, bound: seq<Instr>, body: seq<Instr>, b: u32, k: nat, s0: State, s: State, fuel: nat)
    requires x < |s.locals| && x !in Writes(body)
    requires AlwaysPushes(env, bound, b, Writes(body) + {x}, s0)
    requires SameOutside(Writes(body) + {x}, s0.locals, s.locals)
    requires k <= Max(0, Signed(b)) && s.locals[x] == I32V(k)
    ensures SourceFor(env, x, bound, body, s, fuel) == CountedFor(env, x, body, k, Max(0, Signed(b)), s, fuel)
    decreases fuel
  {
    var z := s.(stack := []);
    assert ExecSeq(env, bound, z, fuel) == Normal(Push(z, I32V(b)));
    assert Push(z, I32V(b)).(stack := []) == z && z.(stack := s.stack) == s;
    if k < Max(0, Signed(b)) {
      SeqKeeps(env, body, z, fuel);
      match ExecSeq(env, body, z, fuel)
      case Normal(u) =>
        if fuel > 0 {
          SourceCounts(env, x, bound, body, b, k + 1, s0, SetLocal(u, x, k + 1).(stack := s.stack), fuel - 1);
        }
      case _ =>
    }
  }

  /** With a bound that always pushes the same `b` and a body that leaves the counter
      alone, the body runs with counter 0, 1, 2, ... below max(0, b) and no further. */
  lemma ForLoopCounts(env: Env, locals: seq<ValType>, x: nat, bound: seq<Instr>, body: seq<Instr>, b: u32, s: State, fuel: nat)
    requires EnvOk(env) && WellFormed(env, locals, x, bound, body)
    requires Typed(s.locals, locals) && x !in Writes(body)
    requires AlwaysPushes(env, bound, b, Writes(body) + {x}, s)
    ensures ExecSeq(env, ForLoopCode(x, bound, body), s, fuel)
         == CountedFor(env, x, body, 0, Max(0, Signed(b)), SetLocal(s, x, 0), fuel)
  {
    ForLoopCorrect(env, locals, x, bound, body, s, fuel);
    SourceCounts(env, x, bound, body, b, 0, s, SetLocal(s, x, 0), fuel);
  }

  /** A loop that ends has gone round `limit - k` times and leaves its counter at the
      limit, with no overflow on the way. */
  lemma {:induction false} CountedEnds(env: Env, x: nat, body: seq<Instr>, k: nat, limit: nat, s: State, fuel: nat, t: State)
    requires k <= limit < TWO31 && x < |s.locals| && s.locals[x] == I32V(k)
    requires CountedFor(env, x, body, k, limit, s, fuel) == Normal(t)
    ensures fuel >= limit - k && x < |t.locals| && t.locals[x] == I32V(limit) && t.stack == s.stack
    decreases fuel
  {
    if k < limit {
      var u := ExecSeq(env, body, s.(stack := []), fuel).s;
      CountedEnds(env, x, body, k + 1, limit, SetLocal(u, x, k + 1).(stack := s.stack), fuel - 1, t);
    }
  }

  // ----- Bounds that do not change -----

  lemma BoundIsLocal(env: Env, y: nat, w: set<nat>, s: State, b: u32)
    requires y < |s.locals| && y !in w && s.locals[y] == I32V(b)
    ensures AlwaysPushes(env, [LocalGet(y)], b, w, s)
  {
    forall t: State, f: nat | t.stack == [] && SameOutside(w, s.locals, t.locals)
      ensures ExecSeq(env, [LocalGet(y)], t, f) == Normal(Push(t, I32V(b)))
    {
      ExecOne(env, LocalGet(y), t, Push(t, I32V(b)), f);
    }
  }

  lemma BoundIsConst(env: Env, n: int, w: set<nat>, s: State)
    ensures AlwaysPushes(env, [I32Const(n)], Wrap(n), w, s)
  {
    forall t: State, f: nat | t.stack == [] && SameOutside(w, s.locals, t.locals)
      ensures ExecSeq(env, [I32Const(n)], t, f) == Normal(Push(t, I32V(Wrap(n))))
    {
      ExecOne(env, I32Const(n), t, Push(t, I32V(Wrap(n))), f);
    }
  }

  lemma ForLoopToLocal(env: Env, locals: seq<ValType>, x: nat, y: nat, body: seq<Instr>, b: u32, s: State, fuel: nat)
    requires EnvOk(env) && WellFormed(env, locals, x, [LocalGet(y)], body)
    requires Typed(s.locals, locals) && x !in Writes(body)
    requires y < |s.locals| && y != x && y !in Writes(body) && s.locals[y] == I32V(b)
    ensures ExecSeq(env, ForLoopCode(x, [LocalGet(y)], body), s, fuel)
         == CountedFor(env, x, body, 0, Max(0, Signed(b)), SetLocal(s, x, 0), fuel)
  {
    BoundIsLocal(env, y, Writes(body) + {x}, s, b);
    ForLoopCounts(env, locals, x, [LocalGet(y)], body, b, s, fuel);
  }

  lemma ForLoopToConst(env: Env, locals: seq<ValType>, x: nat, n: int, body: seq<Instr>, s: State, fuel: nat)
    requires EnvOk(env) && WellFormed(env, locals, x, [I32Const(n)], body)
    requires Typed(s.locals, locals) && x !in Writes(body)
    ensures ExecSeq(env, ForLoopCode(x, [I32Const(n)], body), s, fuel)
         == CountedFor(env, x, body, 0, Max(0, Signed(Wrap(n))), SetLocal(s, x, 0), fuel)
  {
    BoundIsConst(env, n, Writes(body) + {x}, s);
    ForLoopCounts(env, locals, x, [I32Const(n)], body, Wrap(n), s, fuel);
  }

  /** Straight-line code that assigns only in its last instruction. */
  lemma {:induction false} WritesLast(ins: seq<Instr>, last: Instr)
    requires forall j :: 0 <= j < |ins| ==> WritesOf(ins[j]) == {}
    ensures Writes(ins + [last]) == WritesOf(last)
    decreases ins
  {
    if ins == [] {
      assert [last][1..] == [];
    } else {
      assert (ins + [last])[1..] == ins[1..] + [last];
      assert forall j :: 0 <= j < |ins| - 1 ==> ins[1..][j] == ins[j + 1];
      WritesLast(ins[1..], last);
    }
  }

  lemma PushThree(env: Env, s: State, x: nat, y: nat, z: nat, fuel: nat)
    requires s.stack == [] && x < |s.locals| && y < |s.locals| && z < |s.locals|
    ensures ExecSeq(env, [LocalGet(x), LocalGet(y), LocalGet(z)], s, fuel)
         == Normal(s.(stack := [s.locals[x], s.locals[y], s.locals[z]]))
  {
    var a, b, c := s.locals[x], s.locals[y], s.locals[z];
    assert [] + [a] == [a] && [a] + [b] == [a, b] && [a, b] + [c] == [a, b, c];
    ExecThree(env, LocalGet(x), LocalGet(y), LocalGet(z),
      s, s.(stack := [a]), s.(stack := [a, b]), s.(stack := [a, b, c]), fuel);
  }

  lemma ExecClear(env: Env, x: nat, s: State, fuel: nat)
    requires s.stack == [] && x < |s.locals|
    ensures ExecSeq(env, [I32Const(0), LocalSet(x)], s, fuel) == Normal(SetLocal(s, x, 0))
  {
    var s1 := s.(stack := [I32V(0)]);
    assert [] + [I32V(0)] == [I32V(0)];
    ExecSet(env, x, s1, [], I32V(0), fuel);
    ExecTwo(env, I32Const(0), LocalSet(x), s, s1, SetLocal(s, x, 0), fuel);
  }
}
