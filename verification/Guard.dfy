/** The idle guard that the test runner puts in front of every page
    (wpt/dom-run.js:150-162), over a discrete clock and every order of events. */
module Guard {
  import opened Common

  /** What the page and the host remember. `pending` holds the live timers, with the
      `armed` time each callback captured. */
  datatype Page = Page(now: nat, done: bool, guard: Option<nat>, pending: map<nat, nat>, nextId: nat)

  datatype Event =
    | Tick(d: nat)   // time passes
    | Arm            // `__esdevArm()`
    | Result         // a subtest finishes
    | Complete       // the harness completes
    | Fire(id: nat)  // the host runs a timer that is due

  const LOADING := Page(0, false, None, map[], 0)

  /** `clearTimeout` and `setTimeout`. */
  function Clear(p: Page): Page {
    if p.guard.Some? then p.(pending := p.pending - {p.guard.value}) else p
  }

  function Armed(p: Page): Page {
    if p.done then p
    else
      var c := Clear(p);
      c.(guard := Some(c.nextId), pending := c.pending[c.nextId := c.now], nextId := c.nextId + 1)
  }

  predicate Due(p: Page, grace: nat, id: nat) { id in p.pending && p.now >= p.pending[id] + grace }

  /** A callback that runs this late ran late because the page was busy. */
  predicate Late(p: Page, grace: nat, id: nat)
    requires id in p.pending
  {
    2 * (p.now - p.pending[id]) > 3 * grace
  }

  /** Whether this event calls `timeout()`. */
  predicate Ends(p: Page, grace: nat, e: Event) { e.Fire? && Due(p, grace, e.id) && !Late(p, grace, e.id) }

  function Step(p: Page, grace: nat, e: Event): Option<Page> {
    match e
    case Tick(d) => Some(p.(now := p.now + d))
    case Arm => Some(Armed(p))
    case Result => Some(if p.guard.Some? then Armed(p) else p)
    case Complete => Some(Clear(p.(done := true)))
    case Fire(id) =>
      if !Due(p, grace, id) then None
      else
        var q := p.(pending := p.pending - {id});
        Some(if Late(p, grace, id) then Armed(q) else q)
  }

  // ----- Runs -----

  /** What happened: when the page last armed the guard or reported a result under it,
      and when `timeout()` was called. */
  datatype Log = Log(last: nat, ended: seq<nat>, unguarded: bool)

  datatype Track = Track(p: Page, log: Log)

  const ORIGIN := Track(LOADING, Log(0, [], true))

  function Next(t: Track, grace: nat, e: Event): Option<Track> {
    var p :- Step(t.p, grace, e);
    var progress := !t.p.done && (e.Arm? || (e.Result? && t.p.guard.Some?));
    Some(Track(p, Log(
      if progress then t.p.now else t.log.last,
      if Ends(t.p, grace, e) then t.log.ended + [t.p.now] else t.log.ended,
      if progress then false else t.log.unguarded || Ends(t.p, grace, e))))
  }

  function Follow(t: Track, grace: nat, es: seq<Event>): Option<Track>
    decreases |es|
  {
    if es == [] then Some(t)
    else
      var t' :- Next(t, grace, es[0]);
      Follow(t', grace, es[1..])
  }

  /** At most one timer lives, it is the guard's, none outlives completion, and its
      armed time is not before the last progress. Without a guard, none was armed; and
      an armed page is watched until it completes or is ended. */
  predicate Inv(t: Track) {
    var p := t.p;
    && (forall id :: id in p.pending ==> p.guard == Some(id))
    && (forall id :: id in p.pending ==> t.log.last <= p.pending[id] <= p.now)
    && (p.done ==> p.pending == map[])
    && (p.guard.Some? ==> p.guard.value < p.nextId)
    && t.log.last <= p.now
    && (!t.log.unguarded && !p.done ==> p.guard.Some? && p.guard.value in p.pending)
  }

  lemma StepKeeps(t: Track, grace: nat, e: Event)
    requires Inv(t) && Next(t, grace, e).Some?
    ensures Inv(Next(t, grace, e).value)
  {
  }

  // ----- The guard itself -----

  class PageGuard {
    const grace: nat
    var now: nat
    var done: bool
    var guard: Option<nat>
    var pending: map<nat, nat>
    var nextId: nat
    ghost var log: Log

    function State(): Page
      reads this
    {
      Page(now, done, guard, pending, nextId)
    }

    ghost function Now(): Track
      reads this
    {
      Track(State(), log)
    }

    ghost predicate Valid()
      reads this
    {
      Inv(Now())
    }

    constructor (grace: nat)
      ensures this.grace == grace && Valid() && Now() == ORIGIN
    {
      this.grace := grace;
      now, done, guard, pending, nextId := 0, false, None, map[], 0;
      log := ORIGIN.log;
    }

    method ClearTimeout(timer: Option<nat>)
      modifies this`pending
      ensures pending == if timer.Some? then old(pending) - {timer.value} else old(pending)
    {
      if timer.Some? {
        pending := pending - {timer.value};
      }
    }

    /** `__esdevArm`, which the handlers below call too. */
    method ArmGuard()
      modifies this`guard, this`pending, this`nextId
      ensures State() == Armed(old(State()))
    {
      if done {
        return;
      }
      ClearTimeout(guard);
      guard, pending, nextId := Some(nextId), pending[nextId := now], nextId + 1;
    }

    method Wait(d: nat)
      requires Valid()
      modifies this`now, this`log
      ensures Valid() && Some(Now()) == Next(old(Now()), grace, Tick(d))
    {
      ghost var t := Now();
      StepKeeps(t, grace, Tick(d));
      now := now + d;
      log := Next(t, grace, Tick(d)).value.log;
    }

    method OnScriptsRun()
      requires Valid()
      modifies this`guard, this`pending, this`nextId, this`log
      ensures Valid() && Some(Now()) == Next(old(Now()), grace, Arm)
    {
      ghost var t := Now();
      StepKeeps(t, grace, Arm);
      ArmGuard();
      log := Next(t, grace, Arm).value.log;
    }

    method OnResult()
      requires Valid()
      modifies this`guard, this`pending, this`nextId, this`log
      ensures Valid() && Some(Now()) == Next(old(Now()), grace, Result)
    {
      ghost var t := Now();
      StepKeeps(t, grace, Result);
      if guard != None {
        ArmGuard();
      }
      log := Next(t, grace, Result).value.log;
    }

    method OnCompletion()
      requires Valid()
      modifies this`done, this`pending, this`log
      ensures Valid() && Some(Now()) == Next(old(Now()), grace, Complete)
    {
      ghost var t := Now();
      StepKeeps(t, grace, Complete);
      done := true;
      ClearTimeout(guard);
      log := Next(t, grace, Complete).value.log;
    }

    /** Runs a due timer; `timeout` says whether the page is ended, which happens only to
        an idle one. */
    method RunTimer(id: nat) returns (timeout: bool)
      requires Valid() && Due(State(), grace, id)
      modifies this`guard, this`pending, this`nextId, this`log
      ensures Valid() && Some(Now()) == Next(old(Now()), grace, Fire(id))
      ensures timeout == Ends(old(State()), grace, Fire(id))
      ensures timeout ==> !done && now >= log.last + grace
    {
      ghost var t := Now();
      StepKeeps(t, grace, Fire(id));
      var armed := pending[id];
      pending := pending - {id};
      if 2 * (now - armed) > 3 * grace {
        ArmGuard();
        timeout := false;
      } else {
        timeout := true;
      }
      log := Next(t, grace, Fire(id)).value.log;
    }
  }

  // ----- What holds after every run -----

  lemma {:induction false} FollowKeeps(t: Track, grace: nat, es: seq<Event>)
    requires Inv(t) && Follow(t, grace, es).Some?
    ensures Inv(Follow(t, grace, es).value)
    decreases |es|
  {
    if es != [] {
      StepKeeps(t, grace, es[0]);
      FollowKeeps(Next(t, grace, es[0]).value, grace, es[1..]);
    }
  }

  lemma OneTimer(grace: nat, es: seq<Event>)
    requires Follow(ORIGIN, grace, es).Some?
    ensures var p := Follow(ORIGIN, grace, es).value.p;
      |p.pending| <= 1 && (p.done ==> p.pending == map[])
  {
    FollowKeeps(ORIGIN, grace, es);
    var p := Follow(ORIGIN, grace, es).value.p;
    AtMostOne(p.pending, p.guard);
  }

  lemma AtMostOne(m: map<nat, nat>, g: Option<nat>)
    requires forall id :: id in m ==> g == Some(id)
    ensures |m| <= 1
  {
    if g.Some? && g.value in m {
      assert m.Keys == {g.value};
      assert |m.Keys| == 1;
    } else {
      assert m == map[];
    }
  }

  /** `timeout()` is only called before completion, after at least `grace` without
      progress, by a callback at most half a grace late. */
  lemma EndsOnlyIdle(grace: nat, es: seq<Event>, e: Event)
    requires Follow(ORIGIN, grace, es).Some? && Ends(Follow(ORIGIN, grace, es).value.p, grace, e)
    ensures var t := Follow(ORIGIN, grace, es).value;
      && !t.p.done
      && t.p.now >= t.log.last + grace
      && t.p.pending[e.id] >= t.log.last
      && 2 * (t.p.now - t.p.pending[e.id]) <= 3 * grace
  {
    FollowKeeps(ORIGIN, grace, es);
  }

  /** An armed page that has not completed is watched: either its timer lives, or
      `timeout()` has been called since its last progress. */
  lemma NeverUnwatched(grace: nat, es: seq<Event>)
    requires Follow(ORIGIN, grace, es).Some?
    ensures var t := Follow(ORIGIN, grace, es).value;
      t.p.done || t.log.unguarded || exists id :: id in t.p.pending
  {
    FollowKeeps(ORIGIN, grace, es);
  }

  /** Progress comes less than `grace` apart until the page completes. */
  predicate Steady(t: Track, grace: nat, es: seq<Event>)
    requires Follow(t, grace, es).Some?
    decreases |es|
  {
    && (t.p.done || t.p.now < t.log.last + grace)
    && (es == [] || Steady(Next(t, grace, es[0]).value, grace, es[1..]))
  }

  /** From any reachable state on, a page that makes progress is never cut off. */
  lemma {:induction false} SteadyNeverEnds(t: Track, grace: nat, es: seq<Event>)
    requires Inv(t) && Follow(t, grace, es).Some? && Steady(t, grace, es)
    ensures Follow(t, grace, es).value.log.ended == t.log.ended
    decreases |es|
  {
    if es != [] {
      StepKeeps(t, grace, es[0]);
      SteadyNeverEnds(Next(t, grace, es[0]).value, grace, es[1..]);
    }
  }

  /** A page that is not armed yet is never ended either. */
  lemma {:induction false} UnarmedNeverEnds(t: Track, grace: nat, es: seq<Event>)
    requires Inv(t) && t.p.guard == None && Follow(t, grace, es).Some? && Arm !in es
    ensures Follow(t, grace, es).value.log.ended == t.log.ended && Follow(t, grace, es).value.p.guard == None
    decreases |es|
  {
    if es != [] {
      StepKeeps(t, grace, es[0]);
      UnarmedNeverEnds(Next(t, grace, es[0]).value, grace, es[1..]);
    }
  }

  /** And an idle one is: a timer that runs on time ends the page. */
  lemma IdleIsEnded(t: Track, grace: nat, id: nat, wait: nat)
    requires Inv(t) && id in t.p.pending
    requires t.p.pending[id] + grace <= t.p.now + wait && 2 * (t.p.now + wait - t.p.pending[id]) <= 3 * grace
    ensures Follow(t, grace, [Tick(wait), Fire(id)]).Some?
    ensures Follow(t, grace, [Tick(wait), Fire(id)]).value.log.ended == t.log.ended + [t.p.now + wait]
  {
    var es := [Tick(wait), Fire(id)];
    assert es[1..] == [Fire(id)] && es[1..][1..] == [];
    var waited := Next(t, grace, Tick(wait)).value;
    var ended := Next(waited, grace, Fire(id)).value;
    assert Follow(ended, grace, es[1..][1..]) == Some(ended);
    assert Follow(waited, grace, es[1..]) == Some(ended);
  }

  /** A callback that runs late gives the page one fresh grace period from that moment,
      and no more: if it stays idle, the next one ends it. */
  lemma LateThenEnded(t: Track, grace: nat, id: nat, wait: nat, more: nat)
    requires Inv(t) && id in t.p.pending && 2 * (t.p.now + wait - t.p.pending[id]) > 3 * grace
    requires grace <= more && 2 * more <= 3 * grace
    ensures var es := [Tick(wait), Fire(id), Tick(more), Fire(t.p.nextId)];
      && Follow(t, grace, es).Some?
      && Follow(t, grace, es).value.log.ended == t.log.ended + [t.p.now + wait + more]
  {
    var again := t.p.nextId;
    var waited := Next(t, grace, Tick(wait)).value;
    StepKeeps(t, grace, Tick(wait));
    assert Due(waited.p, grace, id);
    var rearmed := Next(waited, grace, Fire(id)).value;
    StepKeeps(waited, grace, Fire(id));
    assert rearmed.p.pending[again] == rearmed.p.now && rearmed.log.ended == t.log.ended;
    IdleIsEnded(rearmed, grace, again, more);
    var es := [Tick(wait), Fire(id), Tick(more), Fire(again)];
    assert es[1..] == [Fire(id), Tick(more), Fire(again)] && es[1..][1..] == [Tick(more), Fire(again)];
    assert Follow(waited, grace, es[1..]) == Follow(rearmed, grace, es[1..][1..]);
  }
}
