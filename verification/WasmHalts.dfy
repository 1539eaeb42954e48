/** Termination of `forLoop` (bench/scripts/wasm-mod.js:55-68): it ends exactly when the
    turns of its body do, after max(0, b) of them. */
module WasmHalts {
  import opened Common
  import opened Leb128
  import opened WasmSyntax
  import opened WasmExec
  import opened WasmValid
  import opened WasmForLoop

  /** More fuel changes nothing about a loop that has ended. */
  lemma {:induction false} CountedMore(env: Env, x: nat, body: seq<Instr>, k: nat, limit: nat, s: State, f: nat, g: nat)
    requires x < |s.locals| && f <= g && CountedFor(env, x, body, k, limit, s, f) != OutOfFuel
    ensures CountedFor(env, x, body, k, limit, s, g) == CountedFor(env, x, body, k, limit, s, f)
    decreases f
  {
    if k < limit {
      SeqMore(env, body, s.(stack := []), f, g);
      match ExecSeq(env, body, s.(stack := []), f)
      case Normal(t) =>
        if x < |t.locals| {
          CountedMore(env, x, body, k + 1, limit, SetLocal(t, x, k + 1).(stack := s.stack), f - 1, g - 1);
        }
      case _ =>
    }
  }

  // ----- Exactly when -----

  /** The turns `k` to `limit` of the body come to an end, up to one that traps. */
  ghost predicate TurnsHalt(env: Env, x: nat, body: seq<Instr>, k: nat, limit: nat, s: State)
    requires x < |s.locals|
    decreases limit - k
  {
    k < limit ==>
      exists f: nat :: TurnHalts(env, x, body, s, f) &&
        match ExecSeq(env, body, s.(stack := []), f)
        case Normal(t) => TurnsHalt(env, x, body, k + 1, limit, SetLocal(t, x, k + 1).(stack := s.stack))
        case _ => true
  }

  predicate TurnHalts(env: Env, x: nat, body: seq<Instr>, s: State, f: nat) {
    match ExecSeq(env, body, s.(stack := []), f)
    case Normal(t) => x < |t.locals|
    case OutOfFuel => false
    case _ => true
  }

  lemma {:induction false} TurnsEnough(env: Env, x: nat, body: seq<Instr>, k: nat, limit: nat, s: State) returns (fuel: nat)
    requires x < |s.locals| && TurnsHalt(env, x, body, k, limit, s)
    ensures CountedFor(env, x, body, k, limit, s, fuel) != OutOfFuel
    decreases limit - k
  {
    fuel := 0;
    if k < limit {
      var z := s.(stack := []);
      var f: nat :| TurnHalts(env, x, body, s, f) &&
        match ExecSeq(env, body, z, f)
        case Normal(t) => TurnsHalt(env, x, body, k + 1, limit, SetLocal(t, x, k + 1).(stack := s.stack))
        case _ => true;
      fuel := f;
      match ExecSeq(env, body, z, f) {
        case Normal(t) =>
          var next := SetLocal(t, x, k + 1).(stack := s.stack);
          var g := TurnsEnough(env, x, body, k + 1, limit, next);
          fuel := Max(f, g) + 1;
          SeqMore(env, body, z, f, fuel);
          CountedMore(env, x, body, k + 1, limit, next, g, fuel - 1);
        case _ =>
      }
    }
  }

  lemma {:induction false} TurnsNeeded(env: Env, x: nat, body: seq<Instr>, k: nat, limit: nat, s: State, fuel: nat)
    requires x < |s.locals| && CountedFor(env, x, body, k, limit, s, fuel) != OutOfFuel
    ensures TurnsHalt(env, x, body, k, limit, s)
    decreases fuel
  {
    if k < limit {
      SeqKeeps(env, body, s.(stack := []), fuel);
      assert TurnHalts(env, x, body, s, fuel);
      match ExecSeq(env, body, s.(stack := []), fuel)
      case Normal(t) => TurnsNeeded(env, x, body, k + 1, limit, SetLocal(t, x, k + 1).(stack := s.stack), fuel - 1);
      case _ =>
    }
  }

  /** The emitted loop ends if and only if each turn of the body that it reaches ends. */
  lemma ForLoopHaltsIff(env: Env, locals: seq<ValType>, x: nat, bound: seq<Instr>, body: seq<Instr>, b: u32, s: State)
    requires EnvOk(env) && WellFormed(env, locals, x, bound, body)
    requires Typed(s.locals, locals) && x !in Writes(body)
    requires AlwaysPushes(env, bound, b, Writes(body) + {x}, s)
    ensures Halts(env, ForLoopCode(x, bound, body), s)
       <==> TurnsHalt(env, x, body, 0, Max(0, Signed(b)), SetLocal(s, x, 0))
  {
    var limit, z := Max(0, Signed(b)), SetLocal(s, x, 0);
    if TurnsHalt(env, x, body, 0, limit, z) {
      var fuel := TurnsEnough(env, x, body, 0, limit, z);
      ForLoopCounts(env, locals, x, bound, body, b, s, fuel);
    }
    if Halts(env, ForLoopCode(x, bound, body), s) {
      var fuel: nat :| ExecSeq(env, ForLoopCode(x, bound, body), s, fuel) != OutOfFuel;
      ForLoopCounts(env, locals, x, bound, body, b, s, fuel);
      TurnsNeeded(env, x, body, 0, limit, z, fuel);
    }
  }

  // ----- With how much fuel -----

  /** A state in which the loop from `s` may run its body. */
  predicate InTurn(locals: seq<ValType>, x: nat, body: seq<Instr>, limit: nat, s: State, t: State) {
    && t.stack == [] && Typed(t.locals, locals) && |t.mem| == |s.mem|
    && SameOutside(Writes(body) + {x}, s.locals, t.locals)
    && x < |t.locals| && t.locals[x].I32V? && t.locals[x].n < limit
  }

  ghost predicate EndsWithin(env: Env, locals: seq<ValType>, x: nat, body: seq<Instr>, limit: nat, s: State, need: nat) {
    forall t: State :: InTurn(locals, x, body, limit, s, t) ==> ExecSeq(env, body, t, need) != OutOfFuel
  }

  /** The measure is `limit - k`: each turn costs one unit beyond what the body needs.
      The turns leave by a trap or run to the limit. */
  lemma {:induction false} CountedWithin(env: Env, locals: seq<ValType>, x: nat, body: seq<Instr>, k: nat, limit: nat,
      s0: State, s: State, need: nat, fuel: nat)
    requires EnvOk(env) && Yields(env.m, locals, body, []) && x !in Writes(body)
    requires EndsWithin(env, locals, x, body, limit, s0, need) && fuel >= need + (limit - k)
    requires k <= limit < TWO31 && x < |s.locals| && s.locals[x] == I32V(k)
    requires Typed(s.locals, locals) && |s.mem| == |s0.mem| && SameOutside(Writes(body) + {x}, s0.locals, s.locals)
    ensures match CountedFor(env, x, body, k, limit, s, fuel)
            case Normal(t) => x < |t.locals| && t.locals[x] == I32V(limit) && t.stack == s.stack
            case Trapped => true
            case _ => false
    decreases limit - k
  {
    if k < limit {
      var z := s.(stack := []);
      assert InTurn(locals, x, body, limit, s0, z);
      SeqMore(env, body, z, need, fuel);
      SeqSound(env, Ctx(env.m, locals, []), body, [], Opds([], false), z, fuel);
      SeqKeeps(env, body, z, fuel);
      match ExecSeq(env, body, z, fuel)
      case Normal(t) =>
        CountedWithin(env, locals, x, body, k + 1, limit, s0, SetLocal(t, x, k + 1).(stack := s.stack), need, fuel - 1);
      case _ =>
    }
  }

  /** If every turn ends within `need`, the emitted loop ends within `need + max(0, b)`,
      at the limit unless its body traps; and any more fuel gives the same outcome. */
  lemma ForLoopEnds(env: Env, locals: seq<ValType>, x: nat, bound: seq<Instr>, body: seq<Instr>, b: u32, s: State, need: nat, fuel: nat)
    requires EnvOk(env) && WellFormed(env, locals, x, bound, body)
    requires Typed(s.locals, locals) && x !in Writes(body)
    requires AlwaysPushes(env, bound, b, Writes(body) + {x}, s)
    requires EndsWithin(env, locals, x, body, Max(0, Signed(b)), s, need)
    requires fuel >= need + Max(0, Signed(b))
    ensures ExecSeq(env, ForLoopCode(x, bound, body), s, fuel)
         == CountedFor(env, x, body, 0, Max(0, Signed(b)), SetLocal(s, x, 0), need + Max(0, Signed(b)))
    ensures match ExecSeq(env, ForLoopCode(x, bound, body), s, fuel)
            case Normal(t) => x < |t.locals| && t.locals[x] == I32V(Max(0, Signed(b))) && t.stack == s.stack
            case Trapped => true
            case _ => false
  {
    var limit, z := Max(0, Signed(b)), SetLocal(s, x, 0);
    ForLoopCounts(env, locals, x, bound, body, b, s, fuel);
    CountedWithin(env, locals, x, body, 0, limit, s, z, need, need + limit);
    CountedMore(env, x, body, 0, limit, z, need + limit, fuel);
  }
}
