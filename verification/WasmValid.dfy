/** Validation (WebAssembly Core Specification 1.0, section 3 and its appendix on the
    validation algorithm) and the proof that validated code never gets stuck. */
module WasmValid {
  import opened Common
  import opened Leb128
  import opened WasmSyntax
  import opened WasmExec

  /** The operand types known on the stack; `dead` after an unconditional branch,
      when anything may be popped below them. */
  datatype Opds = Opds(known: seq<ValType>, dead: bool)

  /** Label types run from the innermost block outwards. */
  datatype Ctx = Ctx(m: Module, locals: seq<ValType>, labels: seq<seq<ValType>>)

  function PushT(o: Opds, t: ValType): Opds { o.(known := o.known + [t]) }

  function PopT(o: Opds, t: ValType): Option<Opds> {
    var k := |o.known|;
    if k == 0 then (if o.dead then Some(o) else None)
    else if o.known[k - 1] == t then Some(o.(known := o.known[..k - 1]))
    else None
  }

  function PopAll(o: Opds, ts: seq<ValType>): Option<Opds>
    decreases |ts|
  {
    if ts == [] then Some(o)
    else
      var o1 :- PopT(o, ts[|ts| - 1]);
      PopAll(o1, ts[..|ts| - 1])
  }

  function CheckInstr(c: Ctx, i: Instr, o: Opds): Option<Opds>
    decreases i, 0
  {
    match i
    case I32Const(_) => Some(PushT(o, I32))
    case I64Const(_) => Some(PushT(o, I64))
    case LocalGet(x) => if x < |c.locals| then Some(PushT(o, c.locals[x])) else None
    case LocalSet(x) => if x < |c.locals| then PopT(o, c.locals[x]) else None
    case Add | Mul | GeS =>
      var o1 :- PopT(o, I32);
      var o2 :- PopT(o1, I32);
      Some(PushT(o2, I32))
    case Drop =>
      if o.known != [] then Some(o.(known := o.known[..|o.known| - 1]))
      else if o.dead then Some(o)
      else None
    case Load8U(align, _) =>
      if align != 0 || c.m.mins == [] then None
      else
        var o1 :- PopT(o, I32);
        Some(PushT(o1, I32))
    case Br(l) =>
      if l >= |c.labels| then None
      else
        var _ :- PopAll(o, c.labels[l]);
        Some(Opds([], true))
    case BrIf(l) =>
      if l >= |c.labels| then None
      else
        var o1 :- PopT(o, I32);
        var o2 :- PopAll(o1, c.labels[l]);
        Some(o2.(known := o2.known + c.labels[l]))
    case Block(body) =>
      var r :- CheckSeq(c.(labels := [[]] + c.labels), body, Opds([], false));
      if r.known == [] then Some(o) else None
    case Loop(body) =>
      var r :- CheckSeq(c.(labels := [[]] + c.labels), body, Opds([], false));
      if r.known == [] then Some(o) else None
    case Call(f) =>
      var t :- TypeOfFunc(c.m, f);
      var o1 :- PopAll(o, t.params);
      Some(o1.(known := o1.known + t.results))
  }

  function CheckSeq(c: Ctx, ins: seq<Instr>, o: Opds): Option<Opds>
    decreases ins, 1
  {
    if ins == [] then Some(o)
    else
      var o1 :- CheckInstr(c, ins[0], o);
      CheckSeq(c, ins[1..], o1)
  }

  /** `ins` has type [] -> ts where no branch can leave it. */
  predicate Yields(m: Module, locals: seq<ValType>, ins: seq<Instr>, ts: seq<ValType>) {
    CheckSeq(Ctx(m, locals, []), ins, Opds([], false)) == Some(Opds(ts, false))
  }

  predicate ValidCode(m: Module, t: FuncType, code: Code) {
    var c := Ctx(m, t.params + Expand(code.locals), [t.results]);
    match CheckSeq(c, code.body, Opds([], false))
    case None => false
    case Some(o) => match PopAll(o, t.results)
      case None => false
      case Some(o1) => o1.known == []
  }

  predicate ValidFunc(m: Module, f: nat)
    requires f < |m.funcs| == |m.codes|
  {
    m.funcs[f] < |m.types| && ValidCode(m, m.types[m.funcs[f]], m.codes[f])
  }

  predicate ValidModule(m: Module) {
    && (forall t :: t in m.types ==> |t.results| <= 1)
    && (forall i :: i in m.imports ==> i.typeIdx < |m.types|)
    && |m.funcs| == |m.codes|
    && (forall f {:trigger ValidFunc(m, f)} :: 0 <= f < |m.funcs| ==> ValidFunc(m, f))
    && |m.mins| <= 1
    && (forall p :: p in m.mins ==> p <= 0x1_0000)
    && (forall e :: e in m.exports ==>
          e.index < if e.kind.FuncExport? then |m.imports| + |m.funcs| else |m.mins|)
    && (forall i, j :: 0 <= i < j < |m.exports| ==> m.exports[i].name != m.exports[j].name)
  }

  // ----- Typed states -----

  predicate Typed(vs: seq<Val>, ts: seq<ValType>) {
    && |vs| == |ts|
    && forall i :: 0 <= i < |vs| ==> (vs[i].I32V? <==> ts[i].I32?)
  }

  predicate EndsWith(vs: seq<Val>, ts: seq<ValType>) {
    |vs| >= |ts| && Typed(vs[|vs| - |ts|..], ts)
  }

  /** Imported functions keep to their types and do not resize memory. */
  ghost predicate HostOk(env: Env) {
    forall trace, call: HostCall, mem {:trigger env.host(trace, call, mem)} ::
      call.func < |env.m.imports| ==> Answers(env.m, call.func, mem, env.host(trace, call, mem))
  }

  predicate Answers(m: Module, f: nat, mem: seq<byte>, answer: (seq<Val>, seq<byte>)) {
    && |answer.1| == |mem|
    && match TypeOfFunc(m, f)
       case None => true
       case Some(t) => Typed(answer.0, t.results)
  }

  ghost predicate EnvOk(env: Env) { ValidModule(env.m) && HostOk(env) }

  /** The outcomes open to code that checks from `s` to `r` in context `c`. */
  predicate Sound(c: Ctx, s: State, r: Opds, out: Outcome) {
    match out
    case Normal(t) => !r.dead && Typed(t.stack, r.known) && Typed(t.locals, c.locals) && |t.mem| == |s.mem|
    case Branch(l, t) => l < |c.labels| && EndsWith(t.stack, c.labels[l]) && Typed(t.locals, c.locals) && |t.mem| == |s.mem|
    case Stuck => false
    case _ => true
  }

  lemma {:induction false} PopAllLive(ks: seq<ValType>, ts: seq<ValType>)
    requires PopAll(Opds(ks, false), ts).Some?
    ensures |ts| <= |ks| && PopAll(Opds(ks, false), ts) == Some(Opds(ks[..|ks| - |ts|], false))
    ensures ks == ks[..|ks| - |ts|] + ts
    decreases ts
  {
    if ts != [] {
      var k, n := |ks|, |ts|;
      PopAllLive(ks[..k - 1], ts[..n - 1]);
      assert ks[..k - 1][..|ks[..k - 1]| - |ts[..n - 1]|] == ks[..k - n];
      assert ks == ks[..k - 1] + [ks[k - 1]];
      assert ts == ts[..n - 1] + [ts[n - 1]];
    } else {
      assert ks[..|ks|] == ks;
    }
  }

  lemma TypedSplit(vs: seq<Val>, a: seq<ValType>, b: seq<ValType>)
    requires Typed(vs, a + b)
    ensures Typed(vs[..|a|], a) && Typed(vs[|a|..], b) && EndsWith(vs, b)
  {
    assert |vs| - |b| == |a|;
    forall i | 0 <= i < |b| ensures vs[|a|..][i].I32V? <==> b[i].I32? {
      assert (a + b)[|a| + i] == b[i];
    }
  }

  lemma TypedAppend(u: seq<Val>, v: seq<Val>, a: seq<ValType>, b: seq<ValType>)
    requires Typed(u, a) && Typed(v, b)
    ensures Typed(u + v, a + b)
  {
  }

  lemma TypedPush(s: State, v: Val, o: seq<ValType>, t: ValType)
    requires Typed(s.stack, o) && (v.I32V? <==> t.I32?)
    ensures Typed(Push(s, v).stack, o + [t])
  {
  }

  lemma TypedPop(s: State, n: nat, o: seq<ValType>)
    requires Typed(s.stack, o) && n <= |o|
    ensures Typed(Pop(s, n).stack, o[..|o| - n])
    ensures (forall j :: |o| - n <= j < |o| ==> o[j].I32?) ==> HasI32(s, n)
    ensures o != [] ==> (Top(s).I32V? <==> o[|o| - 1].I32?)
  {
  }

  /** The context inside a block. */
  function Inner(c: Ctx): Ctx { c.(labels := [[]] + c.labels) }

  lemma {:induction false} InstrSound(env: Env, c: Ctx, i: Instr, o: seq<ValType>, r: Opds, s: State, fuel: nat)
    requires EnvOk(env) && c.m == env.m
    requires CheckInstr(c, i, Opds(o, false)) == Some(r)
    requires Typed(s.stack, o) && Typed(s.locals, c.locals)
    ensures Sound(c, s, r, ExecInstr(env, i, s, fuel))
    decreases fuel, 0, i, 1
  {
    match i
    case Block(body) =>
      SeqSound(env, Inner(c), body, [], CheckSeq(Inner(c), body, Opds([], false)).value, s.(stack := []), fuel);
      var t := ExecSeq(env, body, s.(stack := []), fuel);
      if t.Branch? && t.l > 0 {
        DeeperBranch(c, s, t);
      }
    case Loop(body) => LoopSound(env, c, body, o, s, fuel);
    case Call(f) => CallInstrSound(env, c, f, o, r, s, fuel);
    case Br(l) => BranchSound(env, c, i, l, o, r, s, fuel);
    case BrIf(l) => BranchSound(env, c, i, l, o, r, s, fuel);
    case _ => StackSound(env, c, i, o, r, s, fuel);
  }

  lemma {:induction false} LoopSound(env: Env, c: Ctx, body: seq<Instr>, o: seq<ValType>, s: State, fuel: nat)
    requires EnvOk(env) && c.m == env.m
    requires CheckInstr(c, Loop(body), Opds(o, false)).Some?
    requires Typed(s.stack, o) && Typed(s.locals, c.locals)
    ensures Sound(c, s, Opds(o, false), ExecInstr(env, Loop(body), s, fuel))
    decreases fuel, 0, body, 3
  {
    SeqSound(env, Inner(c), body, [], CheckSeq(Inner(c), body, Opds([], false)).value, s.(stack := []), fuel);
    var t := ExecSeq(env, body, s.(stack := []), fuel);
    if t.Branch? {
      if t.l > 0 {
        DeeperBranch(c, s, t);
      } else if fuel > 0 {
        LoopSound(env, c, body, o, t.s.(stack := s.stack), fuel - 1);
      }
    }
  }

  lemma {:induction false} CallInstrSound(env: Env, c: Ctx, f: nat, o: seq<ValType>, r: Opds, s: State, fuel: nat)
    requires EnvOk(env) && c.m == env.m
    requires CheckInstr(c, Call(f), Opds(o, false)) == Some(r)
    requires Typed(s.stack, o) && Typed(s.locals, c.locals)
    ensures Sound(c, s, r, ExecInstr(env, Call(f), s, fuel))
    decreases fuel, 0, Call(f), 0
  {
    var ty := TypeOfFunc(env.m, f).value;
    ArgsTyped(s, o, ty.params);
    var base := o[..|o| - |ty.params|];
    var args := s.stack[|s.stack| - |ty.params|..];
    CallSound(env, f, ty, args, s.mem, s.trace, fuel);
    var out := CallFunc(env, f, args, s.mem, s.trace, fuel);
    if out.Normal? {
      TypedAppend(Pop(s, |ty.params|).stack, out.s.stack, base, ty.results);
    }
  }

  lemma ArgsTyped(s: State, o: seq<ValType>, params: seq<ValType>)
    requires Typed(s.stack, o) && PopAll(Opds(o, false), params).Some?
    ensures |params| <= |s.stack| && Typed(s.stack[|s.stack| - |params|..], params)
    ensures Typed(Pop(s, |params|).stack, o[..|o| - |params|])
    ensures PopAll(Opds(o, false), params) == Some(Opds(o[..|o| - |params|], false))
  {
    PopAllLive(o, params);
    TypedSplit(s.stack, o[..|o| - |params|], params);
  }

  lemma DeeperBranch(c: Ctx, s: State, t: Outcome)
    requires t.Branch? && 0 < t.l <= |c.labels| && EndsWith(t.s.stack, ([[]] + c.labels)[t.l])
    ensures EndsWith((s.stack + t.s.stack), c.labels[t.l - 1])
  {
    var ts := c.labels[t.l - 1];
    var u := s.stack + t.s.stack;
    assert u[|u| - |ts|..] == t.s.stack[|t.s.stack| - |ts|..];
  }

  lemma BranchSound(env: Env, c: Ctx, i: Instr, l: nat, o: seq<ValType>, r: Opds, s: State, fuel: nat)
    requires i == Br(l) || i == BrIf(l)
    requires CheckInstr(c, i, Opds(o, false)) == Some(r)
    requires Typed(s.stack, o) && Typed(s.locals, c.locals)
    ensures Sound(c, s, r, ExecInstr(env, i, s, fuel))
  {
    if i.Br? {
      Carries(s.stack, o, c.labels[l]);
    } else {
      TypedPop(s, 1, o);
      Carries(Pop(s, 1).stack, o[..|o| - 1], c.labels[l]);
    }
  }

  /** Operands that a branch may take: they end with the label's types, and popping and
      pushing these changes nothing. */
  lemma Carries(stack: seq<Val>, o: seq<ValType>, ts: seq<ValType>)
    requires Typed(stack, o) && PopAll(Opds(o, false), ts).Some?
    ensures EndsWith(stack, ts) && PopAll(Opds(o, false), ts).value.known + ts == o
    ensures !PopAll(Opds(o, false), ts).value.dead
  {
    PopAllLive(o, ts);
    TypedSplit(stack, o[..|o| - |ts|], ts);
  }

  lemma ArithSound(env: Env, c: Ctx, i: Instr, o: seq<ValType>, r: Opds, s: State, fuel: nat)
    requires i.Add? || i.Mul? || i.GeS?
    requires CheckInstr(c, i, Opds(o, false)) == Some(r)
    requires Typed(s.stack, o) && Typed(s.locals, c.locals)
    ensures Sound(c, s, r, ExecInstr(env, i, s, fuel))
  {
    var k := |o|;
    var o2 := o[..k - 2];
    assert o[..k - 1][k - 2] == o[k - 2] && o[..k - 1][..k - 2] == o2;
    TypedPop(s, 2, o);
    TypedPush(Pop(s, 2), I32V(BinOp(i, Top(Pop(s, 1)).n, Top(s).n)), o2, I32);
  }

  lemma StackSound(env: Env, c: Ctx, i: Instr, o: seq<ValType>, r: Opds, s: State, fuel: nat)
    requires !i.Block? && !i.Loop? && !i.Call? && !i.Br? && !i.BrIf?
    requires CheckInstr(c, i, Opds(o, false)) == Some(r)
    requires Typed(s.stack, o) && Typed(s.locals, c.locals)
    ensures Sound(c, s, r, ExecInstr(env, i, s, fuel))
  {
    match i
    case Add | Mul | GeS => ArithSound(env, c, i, o, r, s, fuel);
    case I32Const(n) => TypedPush(s, I32V(Wrap(n)), o, I32);
    case I64Const(n) => TypedPush(s, I64V(n % TWO64), o, I64);
    case LocalGet(x) => TypedPush(s, s.locals[x], o, c.locals[x]);
    case LocalSet(x) => TypedPop(s, 1, o);
    case Drop => TypedPop(s, 1, o);
    case Load8U(_, offset) =>
      TypedPop(s, 1, o);
      var ea := Top(s).n + offset;
      if ea < |s.mem| {
        TypedPush(Pop(s, 1), I32V(s.mem[ea]), o[..|o| - 1], I32);
      }
  }

  lemma {:induction false} SeqSound(env: Env, c: Ctx, ins: seq<Instr>, o: seq<ValType>, r: Opds, s: State, fuel: nat)
    requires EnvOk(env) && c.m == env.m
    requires CheckSeq(c, ins, Opds(o, false)) == Some(r)
    requires Typed(s.stack, o) && Typed(s.locals, c.locals)
    ensures Sound(c, s, r, ExecSeq(env, ins, s, fuel))
    decreases fuel, 0, ins, 1
  {
    if ins != [] {
      var o1 := CheckInstr(c, ins[0], Opds(o, false)).value;
      InstrSound(env, c, ins[0], o, o1, s, fuel);
      match ExecInstr(env, ins[0], s, fuel)
      case Normal(t) => SeqSound(env, c, ins[1..], o1.known, r, t, fuel);
      case _ =>
    }
  }

  /** What a call leaves behind: results of the declared types, memory of the same size. */
  predicate Returns(t: FuncType, mem: seq<byte>, out: Outcome) {
    match out
    case Normal(u) => Typed(u.stack, t.results) && |u.mem| == |mem|
    case Stuck => false
    case _ => true
  }

  lemma {:induction false} CallSound(env: Env, f: nat, t: FuncType, args: seq<Val>, mem: seq<byte>, trace: seq<HostCall>, fuel: nat)
    requires EnvOk(env) && TypeOfFunc(env.m, f) == Some(t) && Typed(args, t.params)
    ensures Returns(t, mem, CallFunc(env, f, args, mem, trace, fuel))
    decreases fuel, 0, Call(f), -1
  {
    if f < |env.m.imports| {
      var call := HostCall(f, args);
      assert Answers(env.m, call.func, mem, env.host(trace, call, mem));
    } else if fuel > 0 {
      InvokeSound(env, f, t, args, mem, trace, fuel - 1);
    }
  }

  /** Type soundness: in a valid module, a call on arguments of the declared types
      never gets stuck, whatever the host answers. */
  lemma {:induction false} InvokeSound(env: Env, f: nat, t: FuncType, args: seq<Val>, mem: seq<byte>, trace: seq<HostCall>, fuel: nat)
    requires EnvOk(env) && TypeOfFunc(env.m, f) == Some(t) && Typed(args, t.params)
    requires f >= |env.m.imports|
    ensures Returns(t, mem, Invoke(env, f, args, mem, trace, fuel))
    decreases fuel, 1
  {
    CodeOf(env.m, f, t);
    var code := env.m.codes[f - |env.m.imports|];
    InvokeRuns(env, f, t, code, args, mem, trace, fuel);
    BodySound(env, t, code, args, mem, trace, fuel);
  }

  lemma {:induction false} BodySound(env: Env, t: FuncType, code: Code, args: seq<Val>, mem: seq<byte>, trace: seq<HostCall>, fuel: nat)
    requires EnvOk(env) && ValidCode(env.m, t, code) && Typed(args, t.params)
    ensures Returns(t, mem, Finish(|t.results|, ExecSeq(env, code.body, Frame(code, args, mem, trace), fuel)))
    decreases fuel, 0, code.body, 4
  {
    var c := Ctx(env.m, t.params + Expand(code.locals), [t.results]);
    var s := Frame(code, args, mem, trace);
    TypedAppend(args, Map(Zero, Expand(code.locals)), t.params, Expand(code.locals));
    var r := CheckSeq(c, code.body, Opds([], false)).value;
    SeqSound(env, c, code.body, [], r, s, fuel);
    if !r.dead {
      BodyEnds(r.known, t.results);
    }
  }

  lemma BodyEnds(known: seq<ValType>, results: seq<ValType>)
    requires PopAll(Opds(known, false), results).Some?
    requires PopAll(Opds(known, false), results).value.known == []
    ensures known == results
  {
    PopAllLive(known, results);
  }

  lemma CodeOf(m: Module, f: nat, t: FuncType)
    requires ValidModule(m) && TypeOfFunc(m, f) == Some(t) && f >= |m.imports|
    ensures f - |m.imports| < |m.codes| && ValidCode(m, t, m.codes[f - |m.imports|])
  {
    assert ValidFunc(m, f - |m.imports|);
  }

  // ----- Code that needs no label checks under any -----

  lemma {:induction false} InstrWeaken(c: Ctx, i: Instr, o: Opds, extra: seq<seq<ValType>>)
    requires CheckInstr(c, i, o).Some?
    ensures CheckInstr(c.(labels := c.labels + extra), i, o) == CheckInstr(c, i, o)
    decreases i, 0
  {
    match i
    case Block(body) =>
      SeqWeaken(c.(labels := [[]] + c.labels), body, Opds([], false), extra);
      assert ([[]] + c.labels) + extra == [[]] + (c.labels + extra);
    case Loop(body) =>
      SeqWeaken(c.(labels := [[]] + c.labels), body, Opds([], false), extra);
      assert ([[]] + c.labels) + extra == [[]] + (c.labels + extra);
    case _ =>
  }

  lemma {:induction false} SeqWeaken(c: Ctx, ins: seq<Instr>, o: Opds, extra: seq<seq<ValType>>)
    requires CheckSeq(c, ins, o).Some?
    ensures CheckSeq(c.(labels := c.labels + extra), ins, o) == CheckSeq(c, ins, o)
    decreases ins, 1
  {
    if ins != [] {
      InstrWeaken(c, ins[0], o, extra);
      SeqWeaken(c, ins[1..], CheckInstr(c, ins[0], o).value, extra);
    }
  }

  lemma {:induction false} CheckAppend(c: Ctx, a: seq<Instr>, b: seq<Instr>, o: Opds)
    requires CheckSeq(c, a, o).Some?
    ensures CheckSeq(c, a + b, o) == CheckSeq(c, b, CheckSeq(c, a, o).value)
    decreases a
  {
    if a == [] {
      assert a + b == b;
    } else {
      assert (a + b)[0] == a[0] && (a + b)[1..] == a[1..] + b;
      CheckAppend(c, a[1..], b, CheckInstr(c, a[0], o).value);
    }
  }

  /** Live code checks the same on top of further operands. */
  function FramedT(base: seq<ValType>, o: Opds): Opds {
    if o.dead then o else Opds(base + o.known, false)
  }

  lemma {:induction false} PopAllFrame(base: seq<ValType>, ks: seq<ValType>, ts: seq<ValType>)
    requires PopAll(Opds(ks, false), ts).Some?
    ensures PopAll(Opds(base + ks, false), ts) == Some(FramedT(base, PopAll(Opds(ks, false), ts).value))
    decreases ts
  {
    if ts != [] {
      var k := |ks|;
      assert (base + ks)[..|base| + k - 1] == base + ks[..k - 1];
      PopAllFrame(base, ks[..k - 1], ts[..|ts| - 1]);
    }
  }

  lemma FramePush(base: seq<ValType>, ks: seq<ValType>, t: ValType)
    ensures PushT(Opds(base + ks, false), t) == Opds(base + PushT(Opds(ks, false), t).known, false)
  {
    assert (base + ks) + [t] == base + (ks + [t]);
  }

  lemma FramePop(base: seq<ValType>, ks: seq<ValType>)
    requires ks != []
    ensures (base + ks)[..|base + ks| - 1] == base + ks[..|ks| - 1]
    ensures (base + ks)[|base + ks| - 1] == ks[|ks| - 1]
  {
  }

  lemma InstrCheckFrame(c: Ctx, i: Instr, base: seq<ValType>, ks: seq<ValType>)
    requires CheckInstr(c, i, Live(ks)).Some?
    ensures CheckInstr(c, i, Live(base + ks)) == Some(FramedT(base, CheckInstr(c, i, Live(ks)).value))
  {
    match i
    case I32Const(_) => FramePush(base, ks, I32);
    case I64Const(_) => FramePush(base, ks, I64);
    case LocalGet(x) => FramePush(base, ks, c.locals[x]);
    case Add | Mul | GeS | Load8U(_, _) | LocalSet(_) | Drop => PoppingFrame(c, i, base, ks);
    case Br(_) | BrIf(_) | Call(_) => TransferFrame(c, i, base, ks);
    case Block(_) =>
    case Loop(_) =>
  }

  lemma PoppingFrame(c: Ctx, i: Instr, base: seq<ValType>, ks: seq<ValType>)
    requires i.Add? || i.Mul? || i.GeS? || i.Load8U? || i.LocalSet? || i.Drop?
    requires CheckInstr(c, i, Live(ks)).Some?
    ensures CheckInstr(c, i, Live(base + ks)) == Some(FramedT(base, CheckInstr(c, i, Live(ks)).value))
  {
    var ks1 := ks[..|ks| - 1];
    FramePop(base, ks);
    if i.Add? || i.Mul? || i.GeS? {
      FramePop(base, ks1);
      FramePush(base, ks1[..|ks1| - 1], I32);
    } else if i.Load8U? {
      FramePush(base, ks1, I32);
    }
  }

  lemma TransferFrame(c: Ctx, i: Instr, base: seq<ValType>, ks: seq<ValType>)
    requires i.Br? || i.BrIf? || i.Call?
    requires CheckInstr(c, i, Live(ks)).Some?
    ensures CheckInstr(c, i, Live(base + ks)) == Some(FramedT(base, CheckInstr(c, i, Live(ks)).value))
  {
    match i
    case Br(l) => PopAllFrame(base, ks, c.labels[l]);
    case BrIf(l) =>
      FramePop(base, ks);
      MoreOnTop(base, ks[..|ks| - 1], c.labels[l], c.labels[l]);
    case Call(f) =>
      var t := TypeOfFunc(c.m, f).value;
      MoreOnTop(base, ks, t.params, t.results);
  }

  lemma MoreOnTop(base: seq<ValType>, ks: seq<ValType>, ts: seq<ValType>, us: seq<ValType>)
    requires PopAll(Opds(ks, false), ts).Some?
    ensures PopAll(Opds(base + ks, false), ts).Some?
    ensures var o, o' := PopAll(Opds(ks, false), ts).value, PopAll(Opds(base + ks, false), ts).value;
      !o.dead && !o'.dead && o'.known + us == base + (o.known + us)
  {
    PopAllFrame(base, ks, ts);
    PopAllLive(ks, ts);
    var o := PopAll(Opds(ks, false), ts).value;
    assert (base + o.known) + us == base + (o.known + us);
  }

  lemma {:induction false} CheckFrame(c: Ctx, ins: seq<Instr>, base: seq<ValType>, ks: seq<ValType>)
    requires CheckSeq(c, ins, Opds(ks, false)).Some?
    ensures CheckSeq(c, ins, Opds(base + ks, false)) == Some(FramedT(base, CheckSeq(c, ins, Opds(ks, false)).value))
    decreases ins
  {
    if ins != [] {
      InstrCheckFrame(c, ins[0], base, ks);
      var o := CheckInstr(c, ins[0], Opds(ks, false)).value;
      if o.dead {
        StaysDead(c, ins[1..], o);
      } else {
        CheckFrame(c, ins[1..], base, o.known);
      }
    }
  }

  lemma {:induction false} PopAllDead(o: Opds, ts: seq<ValType>)
    requires PopAll(o, ts).Some?
    ensures PopAll(o, ts).value.dead == o.dead
    decreases |ts|
  {
    if ts != [] {
      PopAllDead(PopT(o, ts[|ts| - 1]).value, ts[..|ts| - 1]);
    }
  }

  lemma {:induction false} StaysDead(c: Ctx, ins: seq<Instr>, o: Opds)
    requires o.dead && CheckSeq(c, ins, o).Some?
    ensures CheckSeq(c, ins, o).value.dead
    decreases ins
  {
    if ins != [] {
      match ins[0] {
        case BrIf(l) => PopAllDead(PopT(o, I32).value, c.labels[l]);
        case Call(f) => PopAllDead(o, TypeOfFunc(c.m, f).value.params);
        case _ =>
      }
      StaysDead(c, ins[1..], CheckInstr(c, ins[0], o).value);
    }
  }

  lemma CheckOne(c: Ctx, i: Instr, o: Opds, p: Opds)
    requires CheckInstr(c, i, o) == Some(p)
    ensures CheckSeq(c, [i], o) == Some(p)
  {
  }

  lemma CheckTwo(c: Ctx, i: Instr, j: Instr, o: Opds, p: Opds, q: Opds)
    requires CheckInstr(c, i, o) == Some(p) && CheckInstr(c, j, p) == Some(q)
    ensures CheckSeq(c, [i, j], o) == Some(q)
  {
    assert [i, j][1..] == [j];
    CheckOne(c, j, p, q);
  }

  lemma CheckThree(c: Ctx, i: Instr, j: Instr, k: Instr, o: Opds, p: Opds, q: Opds, r: Opds)
    requires CheckInstr(c, i, o) == Some(p) && CheckInstr(c, j, p) == Some(q) && CheckInstr(c, k, q) == Some(r)
    ensures CheckSeq(c, [i, j, k], o) == Some(r)
  {
    assert [i, j, k][1..] == [j, k];
    CheckTwo(c, j, k, p, q, r);
  }

  function Live(ts: seq<ValType>): Opds { Opds(ts, false) }

  lemma CheckPush(c: Ctx, i: Instr, ts: seq<ValType>)
    requires i.I32Const? || (i.LocalGet? && i.x < |c.locals| && c.locals[i.x] == I32)
    ensures CheckInstr(c, i, Live(ts)) == Some(Live(ts + [I32]))
  {
  }

  lemma CheckPop(c: Ctx, x: nat, ts: seq<ValType>)
    requires x < |c.locals| && c.locals[x] == I32
    ensures CheckInstr(c, LocalSet(x), Live(ts + [I32])) == Some(Live(ts))
  {
    assert (ts + [I32])[..|ts|] == ts;
  }

  lemma CheckArith(c: Ctx, i: Instr, o: seq<ValType>)
    requires i.Add? || i.Mul? || i.GeS?
    ensures CheckInstr(c, i, Opds(o + [I32, I32], false)) == Some(Opds(o + [I32], false))
  {
    var k := o + [I32, I32];
    assert k[..|k| - 1] == o + [I32] && (o + [I32])[..|o|] == o;
  }

  lemma PopOne(t: ValType)
    ensures PopAll(Opds([t], false), [t]) == Some(Opds([], false))
  {
    assert [t][..0] == [];
    assert PopAll(Opds([], false), []) == Some(Opds([], false));
  }
}
