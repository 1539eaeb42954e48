/** An interpreter for the fragment (WebAssembly Core Specification 1.0, section 4.4).

    `fuel` bounds the back edges of each loop and the depth of calls, and nothing
    else, so the fuel a run needs is the number of times its loops go round. */
module WasmExec {
  import opened Common
  import opened Leb128
  import opened WasmSyntax

  const TWO64 := 0x1_0000_0000_0000_0000
  type u32 = n: int | 0 <= n < TWO32
  type u64 = n: int | 0 <= n < TWO64

  datatype Val = I32V(n: u32) | I64V(m: u64)

  datatype HostCall = HostCall(func: nat, args: seq<Val>)

  /** An imported function, given the host calls so far and this one, answers with
      results and a memory. */
  type Host = (seq<HostCall>, HostCall, seq<byte>) -> (seq<Val>, seq<byte>)

  datatype Env = Env(m: Module, host: Host)

  datatype State = State(locals: seq<Val>, stack: seq<Val>, mem: seq<byte>, trace: seq<HostCall>)

  /** `Stuck` is what validation rules out: a missing or mistyped operand, an index
      out of range. */
  datatype Outcome = Normal(s: State) | Branch(l: nat, s: State) | Trapped | OutOfFuel | Stuck

  function Wrap(n: int): u32 { n % TWO32 }

  function Push(s: State, v: Val): State { s.(stack := s.stack + [v]) }

  function Pop(s: State, n: nat): State
    requires n <= |s.stack|
  {
    s.(stack := s.stack[..|s.stack| - n])
  }

  function Top(s: State): Val
    requires s.stack != []
  {
    s.stack[|s.stack| - 1]
  }

  predicate HasI32(s: State, n: nat) {
    && n <= |s.stack|
    && forall j :: |s.stack| - n <= j < |s.stack| ==> s.stack[j].I32V?
  }

  function Under(base: seq<Val>, s: State): State { s.(stack := base + s.stack) }

  function TypeOfFunc(m: Module, f: nat): Option<FuncType> {
    var k := |m.imports|;
    var t :- if f < k then Some(m.imports[f].typeIdx)
             else if f - k < |m.funcs| then Some(m.funcs[f - k])
             else None;
    if t < |m.types| then Some(m.types[t]) else None
  }

  function Expand(gs: seq<Locals>): seq<ValType> {
    if gs == [] then [] else seq(gs[0].count, _ => gs[0].t) + Expand(gs[1..])
  }

  function Zero(t: ValType): Val { if t.I32? then I32V(0) else I64V(0) }

  /** The signed reading of an i32. */
  function Signed(n: u32): int { if n < TWO31 then n else n - TWO32 }

  function BinOp(i: Instr, a: u32, b: u32): u32 {
    match i
    case Add => Wrap(a + b)
    case Mul => Wrap(a * b)
    case _ => if Signed(a) >= Signed(b) then 1 else 0
  }

  function ExecInstr(env: Env, i: Instr, s: State, fuel: nat): Outcome
    decreases fuel, 0, i, 1
  {
    match i
    case I32Const(n) => Normal(Push(s, I32V(Wrap(n))))
    case I64Const(n) => Normal(Push(s, I64V(n % TWO64)))
    case LocalGet(x) => if x < |s.locals| then Normal(Push(s, s.locals[x])) else Stuck
    case LocalSet(x) =>
      if x < |s.locals| && s.stack != []
      then Normal(Pop(s, 1).(locals := s.locals[x := Top(s)]))
      else Stuck
    case Add | Mul | GeS =>
      if HasI32(s, 2)
      then Normal(Push(Pop(s, 2), I32V(BinOp(i, Top(Pop(s, 1)).n, Top(s).n))))
      else Stuck
    case Drop => if s.stack != [] then Normal(Pop(s, 1)) else Stuck
    case Load8U(_, offset) =>
      if !HasI32(s, 1) then Stuck
      else if Top(s).n + offset >= |s.mem| then Trapped
      else Normal(Push(Pop(s, 1), I32V(s.mem[Top(s).n + offset])))
    case Br(l) => Branch(l, s)
    case BrIf(l) =>
      if !HasI32(s, 1) then Stuck
      else if Top(s).n != 0 then Branch(l, Pop(s, 1))
      else Normal(Pop(s, 1))
    case Block(body) =>
      (match ExecSeq(env, body, s.(stack := []), fuel)
       case Normal(t) => if t.stack == [] then Normal(t.(stack := s.stack)) else Stuck
       case Branch(l, t) => if l == 0 then Normal(t.(stack := s.stack)) else Branch(l - 1, Under(s.stack, t))
       case r => r)
    case Loop(body) =>
      (match ExecSeq(env, body, s.(stack := []), fuel)
       case Normal(t) => if t.stack == [] then Normal(t.(stack := s.stack)) else Stuck
       case Branch(l, t) =>
         if l > 0 then Branch(l - 1, Under(s.stack, t))
         else if fuel == 0 then OutOfFuel
         else ExecInstr(env, i, t.(stack := s.stack), fuel - 1)
       case r => r)
    case Call(f) =>
      (match TypeOfFunc(env.m, f)
       case None => Stuck
       case Some(t) =>
         if |s.stack| < |t.params| then Stuck
         else
           match CallFunc(env, f, s.stack[|s.stack| - |t.params|..], s.mem, s.trace, fuel)
           case Normal(r) => Normal(State(s.locals, Pop(s, |t.params|).stack + r.stack, r.mem, r.trace))
           case r => r)
  }

  /** A call on the given arguments; the results are the stack of the outcome. */
  function CallFunc(env: Env, f: nat, args: seq<Val>, mem: seq<byte>, trace: seq<HostCall>, fuel: nat): (r: Outcome)
    ensures !r.Branch?
    decreases fuel, 0, Call(f), 0
  {
    if f < |env.m.imports| then
      var call := HostCall(f, args);
      var (results, mem') := env.host(trace, call, mem);
      Normal(State([], results, mem', trace + [call]))
    else if fuel == 0 then OutOfFuel
    else Invoke(env, f, args, mem, trace, fuel - 1)
  }

  function ExecSeq(env: Env, ins: seq<Instr>, s: State, fuel: nat): Outcome
    decreases fuel, 0, ins, 2
  {
    if ins == [] then Normal(s)
    else
      match ExecInstr(env, ins[0], s, fuel)
      case Normal(t) => ExecSeq(env, ins[1..], t, fuel)
      case r => r
  }

  /** A call of a defined function: its arguments become the first locals, the
      others start at zero, and a branch past the last block returns. The results
      are left on the stack of the outcome. */
  function Invoke(env: Env, f: nat, args: seq<Val>, mem: seq<byte>, trace: seq<HostCall>, fuel: nat): (r: Outcome)
    ensures !r.Branch?
    decreases fuel, 1
  {
    var k := |env.m.imports|;
    match TypeOfFunc(env.m, f)
    case None => Stuck
    case Some(t) =>
      if f < k || f - k >= |env.m.codes| then Stuck
      else
        var code := env.m.codes[f - k];
        Finish(|t.results|, ExecSeq(env, code.body, Frame(code, args, mem, trace), fuel))
  }

  function Frame(code: Code, args: seq<Val>, mem: seq<byte>, trace: seq<HostCall>): State {
    State(args + Map(Zero, Expand(code.locals)), [], mem, trace)
  }

  function Finish(arity: nat, r: Outcome): (out: Outcome)
    ensures !out.Branch?
  {
    match r
    case Normal(u) => if |u.stack| == arity then Normal(u.(locals := [])) else Stuck
    case Branch(l, u) =>
      if l == 0 && |u.stack| >= arity
      then Normal(u.(locals := [], stack := u.stack[|u.stack| - arity..]))
      else Stuck
    case _ => r
  }

  lemma InvokeRuns(env: Env, f: nat, t: FuncType, code: Code, args: seq<Val>, mem: seq<byte>, trace: seq<HostCall>, fuel: nat)
    requires TypeOfFunc(env.m, f) == Some(t) && |env.m.imports| <= f < |env.m.imports| + |env.m.codes|
    requires env.m.codes[f - |env.m.imports|] == code
    ensures Invoke(env, f, args, mem, trace, fuel)
         == Finish(|t.results|, ExecSeq(env, code.body, Frame(code, args, mem, trace), fuel))
  {
  }

  /** Calls an exported function by name. */
  function Run(env: Env, name: string, args: seq<Val>, mem: seq<byte>, fuel: nat): Outcome {
    match FindExport(env.m.exports, Bytes(name))
    case None => Stuck
    case Some(e) => if e.kind.FuncExport? then Invoke(env, e.index, args, mem, [], fuel) else Stuck
  }

  function FindExport(es: seq<Export>, name: seq<byte>): Option<Export> {
    if es == [] then None
    else if es[0].name == name then Some(es[0])
    else FindExport(es[1..], name)
  }

  /** The module has one memory of this many pages, exported as "memory". */
  predicate ExportsMemory(m: Module, pages: nat) {
    m.mins == [pages] && FindExport(m.exports, Bytes("memory")) == Some(Export(Bytes("memory"), MemExport, 0))
  }

  /** Function `f` is imported under this module and name. */
  predicate ImportsAs(m: Module, f: nat, mod: string, name: string) {
    f < |m.imports| && m.imports[f].mod == Bytes(mod) && m.imports[f].name == Bytes(name)
  }

  // ----- Sequencing, framing and what a sequence can write -----

  function Then(r: Outcome, env: Env, ins: seq<Instr>, fuel: nat): Outcome {
    match r case Normal(t) => ExecSeq(env, ins, t, fuel) case _ => r
  }

  lemma {:induction false} ExecAppend(env: Env, a: seq<Instr>, b: seq<Instr>, s: State, fuel: nat)
    ensures ExecSeq(env, a + b, s, fuel) == Then(ExecSeq(env, a, s, fuel), env, b, fuel)
    decreases a
  {
    if a == [] {
      assert a + b == b;
    } else {
      assert (a + b)[0] == a[0] && (a + b)[1..] == a[1..] + b;
      match ExecInstr(env, a[0], s, fuel)
      case Normal(t) => ExecAppend(env, a[1..], b, t, fuel);
      case _ =>
    }
  }

  function Framed(base: seq<Val>, r: Outcome): Outcome {
    match r
    case Normal(t) => Normal(Under(base, t))
    case Branch(l, t) => Branch(l, Under(base, t))
    case _ => r
  }

  /** Code that does not get stuck on its own stack runs the same on top of any
      other, and leaves that one alone. */
  lemma {:induction false} InstrFrame(env: Env, i: Instr, s: State, base: seq<Val>, fuel: nat)
    requires ExecInstr(env, i, s, fuel) != Stuck
    ensures ExecInstr(env, i, Under(base, s), fuel) == Framed(base, ExecInstr(env, i, s, fuel))
    decreases fuel
  {
    var u := Under(base, s);
    match i
    case Loop(body) =>
      assert u.(stack := []) == s.(stack := []);
      match ExecSeq(env, body, s.(stack := []), fuel) {
        case Branch(l, t) =>
          if l == 0 && fuel > 0 {
            InstrFrame(env, i, t.(stack := s.stack), base, fuel - 1);
            assert Under(base, t.(stack := s.stack)) == t.(stack := u.stack);
          } else {
            UnderUnder(base, s.stack, t);
          }
        case _ =>
      }
    case Block(body) =>
      assert u.(stack := []) == s.(stack := []);
      match ExecSeq(env, body, s.(stack := []), fuel) {
        case Branch(l, t) => UnderUnder(base, s.stack, t);
        case _ =>
      }
    case Call(f) => CallFrame(env, f, s, base, fuel);
    case _ => StackFrame(env, i, s, base, fuel);
  }

  lemma UnderUnder(a: seq<Val>, b: seq<Val>, t: State)
    ensures Under(a + b, t) == Under(a, Under(b, t))
  {
    assert (a + b) + t.stack == a + (b + t.stack);
  }

  lemma UnderPop(base: seq<Val>, s: State, n: nat)
    requires n <= |s.stack|
    ensures Pop(Under(base, s), n) == Under(base, Pop(s, n))
    ensures s.stack != [] ==> Top(Under(base, s)) == Top(s)
    ensures HasI32(s, n) ==> HasI32(Under(base, s), n)
  {
    assert Pop(Under(base, s), n).stack == base + Pop(s, n).stack;
  }

  lemma UnderPush(base: seq<Val>, s: State, v: Val)
    ensures Push(Under(base, s), v) == Under(base, Push(s, v))
  {
    assert base + s.stack + [v] == base + (s.stack + [v]);
  }

  lemma StackFrame(env: Env, i: Instr, s: State, base: seq<Val>, fuel: nat)
    requires !i.Block? && !i.Loop? && !i.Call?
    requires ExecInstr(env, i, s, fuel) != Stuck
    ensures ExecInstr(env, i, Under(base, s), fuel) == Framed(base, ExecInstr(env, i, s, fuel))
  {
    match i
    case I32Const(n) => UnderPush(base, s, I32V(Wrap(n)));
    case I64Const(n) => UnderPush(base, s, I64V(n % TWO64));
    case LocalGet(x) => UnderPush(base, s, s.locals[x]);
    case Add | Mul | GeS => BinOpFrame(env, i, s, base, fuel);
    case Load8U(_, o) =>
      UnderPop(base, s, 1);
      if Top(s).n + o < |s.mem| {
        UnderPush(base, Pop(s, 1), I32V(s.mem[Top(s).n + o]));
      }
    case Br(_) =>
    case LocalSet(_) => UnderPop(base, s, 1);
    case BrIf(_) => UnderPop(base, s, 1);
    case Drop => UnderPop(base, s, 1);
  }

  lemma BinOpFrame(env: Env, i: Instr, s: State, base: seq<Val>, fuel: nat)
    requires i.Add? || i.Mul? || i.GeS?
    requires ExecInstr(env, i, s, fuel) != Stuck
    ensures ExecInstr(env, i, Under(base, s), fuel) == Framed(base, ExecInstr(env, i, s, fuel))
  {
    var below := s.stack[..|s.stack| - 2];
    var a, b := s.stack[|s.stack| - 2].n, s.stack[|s.stack| - 1].n;
    assert s.stack == below + [I32V(a), I32V(b)];
    OnTop(base, below, [I32V(a), I32V(b)]);
    ExecBinOp(env, i, s, below, a, b, fuel);
    ExecBinOp(env, i, Under(base, s), base + below, a, b, fuel);
    OnTop(base, below, [I32V(BinOp(i, a, b))]);
  }

  lemma OnTop(base: seq<Val>, below: seq<Val>, top: seq<Val>)
    ensures base + (below + top) == base + below + top
  {
  }

  lemma SameArgs(base: seq<Val>, s: State, n: nat)
    requires n <= |s.stack|
    ensures n <= |base + s.stack|
    ensures (base + s.stack)[|base + s.stack| - n..] == s.stack[|s.stack| - n..]
  {
  }

  lemma CallFrame(env: Env, f: nat, s: State, base: seq<Val>, fuel: nat)
    requires ExecInstr(env, Call(f), s, fuel) != Stuck
    ensures ExecInstr(env, Call(f), Under(base, s), fuel) == Framed(base, ExecInstr(env, Call(f), s, fuel))
  {
    var n := |TypeOfFunc(env.m, f).value.params|;
    UnderPop(base, s, n);
    SameArgs(base, s, n);
    var r := CallFunc(env, f, s.stack[|s.stack| - n..], s.mem, s.trace, fuel);
    if r.Normal? {
      Assoc(base, Pop(s, n).stack, r.s.stack);
    }
  }

  lemma {:induction false} SeqFrame(env: Env, ins: seq<Instr>, s: State, base: seq<Val>, fuel: nat)
    requires ExecSeq(env, ins, s, fuel) != Stuck
    ensures ExecSeq(env, ins, Under(base, s), fuel) == Framed(base, ExecSeq(env, ins, s, fuel))
    decreases ins
  {
    if ins != [] {
      InstrFrame(env, ins[0], s, base, fuel);
      match ExecInstr(env, ins[0], s, fuel)
      case Normal(t) => SeqFrame(env, ins[1..], t, base, fuel);
      case _ =>
    }
  }

  // ----- Fuel only decides whether a run is finished -----

  lemma {:induction false} InstrMore(env: Env, i: Instr, s: State, f: nat, g: nat)
    requires f <= g && ExecInstr(env, i, s, f) != OutOfFuel
    ensures ExecInstr(env, i, s, g) == ExecInstr(env, i, s, f)
    decreases f, 0, i, 1
  {
    match i
    case Block(body) => SeqMore(env, body, s.(stack := []), f, g);
    case Loop(body) =>
      SeqMore(env, body, s.(stack := []), f, g);
      match ExecSeq(env, body, s.(stack := []), f) {
        case Branch(l, t) =>
          if l == 0 {
            InstrMore(env, i, t.(stack := s.stack), f - 1, g - 1);
          }
        case _ =>
      }
    case Call(n) =>
      match TypeOfFunc(env.m, n) {
        case Some(t) =>
          if |t.params| <= |s.stack| {
            CallMore(env, n, s.stack[|s.stack| - |t.params|..], s.mem, s.trace, f, g);
          }
        case None =>
      }
    case _ =>
  }

  lemma {:induction false} CallMore(env: Env, n: nat, args: seq<Val>, mem: seq<byte>, trace: seq<HostCall>, f: nat, g: nat)
    requires f <= g && CallFunc(env, n, args, mem, trace, f) != OutOfFuel
    ensures CallFunc(env, n, args, mem, trace, g) == CallFunc(env, n, args, mem, trace, f)
    decreases f, 0, Call(n), 0
  {
    if n >= |env.m.imports| {
      InvokeMore(env, n, args, mem, trace, f - 1, g - 1);
    }
  }

  lemma {:induction false} InvokeMore(env: Env, n: nat, args: seq<Val>, mem: seq<byte>, trace: seq<HostCall>, f: nat, g: nat)
    requires f <= g && Invoke(env, n, args, mem, trace, f) != OutOfFuel
    ensures Invoke(env, n, args, mem, trace, g) == Invoke(env, n, args, mem, trace, f)
    decreases f, 1
  {
    var k := |env.m.imports|;
    if TypeOfFunc(env.m, n).Some? && k <= n && n - k < |env.m.codes| {
      var code := env.m.codes[n - k];
      SeqMore(env, code.body, Frame(code, args, mem, trace), f, g);
    }
  }

  /** A run that has an outcome has the same one at any larger fuel. */
  lemma {:induction false} SeqMore(env: Env, ins: seq<Instr>, s: State, f: nat, g: nat)
    requires f <= g && ExecSeq(env, ins, s, f) != OutOfFuel
    ensures ExecSeq(env, ins, s, g) == ExecSeq(env, ins, s, f)
    decreases f, 0, ins, 2
  {
    if ins != [] {
      InstrMore(env, ins[0], s, f, g);
      match ExecInstr(env, ins[0], s, f)
      case Normal(t) => SeqMore(env, ins[1..], t, f, g);
      case _ =>
    }
  }

  /** So code has at most one outcome from a state, at whatever fuel it is reached. */
  lemma OneOutcome(env: Env, ins: seq<Instr>, s: State, f: nat, g: nat)
    requires ExecSeq(env, ins, s, f) != OutOfFuel && ExecSeq(env, ins, s, g) != OutOfFuel
    ensures ExecSeq(env, ins, s, f) == ExecSeq(env, ins, s, g)
  {
    if f <= g {
      SeqMore(env, ins, s, f, g);
    } else {
      SeqMore(env, ins, s, g, f);
    }
  }

  /** The run comes to an end. */
  ghost predicate Halts(env: Env, ins: seq<Instr>, s: State) {
    exists f: nat :: ExecSeq(env, ins, s, f) != OutOfFuel
  }

  /** The locals a sequence assigns, at any depth. */
  function Writes(ins: seq<Instr>): set<nat> {
    if ins == [] then {} else WritesOf(ins[0]) + Writes(ins[1..])
  }

  function WritesOf(i: Instr): set<nat> {
    match i
    case LocalSet(x) => {x}
    case Block(body) => Writes(body)
    case Loop(body) => Writes(body)
    case _ => {}
  }

  predicate SameOutside(w: set<nat>, a: seq<Val>, b: seq<Val>) {
    |a| == |b| && forall j :: 0 <= j < |a| && j !in w ==> a[j] == b[j]
  }

  predicate Keeps(w: set<nat>, s: State, r: Outcome) {
    match r
    case Normal(t) => SameOutside(w, s.locals, t.locals)
    case Branch(_, t) => SameOutside(w, s.locals, t.locals)
    case _ => true
  }

  lemma {:induction false} InstrKeeps(env: Env, i: Instr, s: State, fuel: nat)
    ensures Keeps(WritesOf(i), s, ExecInstr(env, i, s, fuel))
    decreases fuel, i, 0
  {
    match i
    case Block(body) => SeqKeeps(env, body, s.(stack := []), fuel);
    case Loop(body) =>
      SeqKeeps(env, body, s.(stack := []), fuel);
      match ExecSeq(env, body, s.(stack := []), fuel) {
        case Branch(l, t) =>
          if l == 0 && fuel > 0 {
            InstrKeeps(env, i, t.(stack := s.stack), fuel - 1);
          }
        case _ =>
      }
    case _ =>
  }

  /** Running code changes no local that it does not assign. */
  lemma {:induction false} SeqKeeps(env: Env, ins: seq<Instr>, s: State, fuel: nat)
    ensures Keeps(Writes(ins), s, ExecSeq(env, ins, s, fuel))
    decreases fuel, ins, 1
  {
    if ins != [] {
      InstrKeeps(env, ins[0], s, fuel);
      match ExecInstr(env, ins[0], s, fuel)
      case Normal(t) => SeqKeeps(env, ins[1..], t, fuel);
      case _ =>
    }
  }

  // ----- Straight-line runs -----

  lemma ExecOne(env: Env, i: Instr, s: State, t: State, fuel: nat)
    requires ExecInstr(env, i, s, fuel) == Normal(t)
    ensures ExecSeq(env, [i], s, fuel) == Normal(t)
  {
  }

  lemma ExecTwo(env: Env, i: Instr, j: Instr, s: State, t: State, u: State, fuel: nat)
    requires ExecInstr(env, i, s, fuel) == Normal(t)
    requires ExecInstr(env, j, t, fuel) == Normal(u)
    ensures ExecSeq(env, [i, j], s, fuel) == Normal(u)
  {
    assert [i, j][1..] == [j];
    ExecOne(env, j, t, u, fuel);
  }

  lemma ExecThree(env: Env, i: Instr, j: Instr, k: Instr, s: State, t: State, u: State, v: State, fuel: nat)
    requires ExecInstr(env, i, s, fuel) == Normal(t)
    requires ExecInstr(env, j, t, fuel) == Normal(u)
    requires ExecInstr(env, k, u, fuel) == Normal(v)
    ensures ExecSeq(env, [i, j, k], s, fuel) == Normal(v)
  {
    assert [i, j, k][1..] == [j, k];
    ExecTwo(env, j, k, t, u, v, fuel);
  }

  lemma ExecBinOp(env: Env, i: Instr, s: State, base: seq<Val>, a: u32, b: u32, fuel: nat)
    requires i.Add? || i.Mul? || i.GeS?
    requires s.stack == base + [I32V(a), I32V(b)]
    ensures ExecInstr(env, i, s, fuel) == Normal(s.(stack := base + [I32V(BinOp(i, a, b))]))
  {
    assert Pop(s, 2).stack == base && Top(Pop(s, 1)) == I32V(a) && Top(s) == I32V(b);
  }

  lemma ExecSet(env: Env, x: nat, s: State, base: seq<Val>, v: Val, fuel: nat)
    requires s.stack == base + [v] && x < |s.locals|
    ensures ExecInstr(env, LocalSet(x), s, fuel) == Normal(s.(stack := base, locals := s.locals[x := v]))
  {
    assert Pop(s, 1).stack == base;
  }

  lemma WrapAdd(a: int, b: int)
    ensures Wrap(Wrap(a) + Wrap(b)) == Wrap(a + b)
  {
    WrapShift(Wrap(a) + Wrap(b), a / TWO32 + b / TWO32);
  }

  lemma WrapShift(a: int, q: int)
    ensures Wrap(a + q * TWO32) == Wrap(a)
  {
    assert (a + q * TWO32) / TWO32 == a / TWO32 + q;
  }
}
