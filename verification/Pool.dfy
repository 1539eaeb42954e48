/** The worker pool of the test runner (wpt/dom-run.js:247-255): workers share a counter,
    and their runs may finish in any order. */
module Pool {
  import opened Common

  datatype Worker = Ready | Running(index: nat) | Finished

  datatype State<T> = State(next: nat, outcomes: seq<Option<T>>, workers: seq<Worker>)

  function Initial<T>(n: nat, jobs: int): State<T> {
    State(0, Empty(n), Waiting(Max(1, jobs)))
  }

  function Empty<T>(n: nat): seq<Option<T>> { seq(n, _ => None) }

  function Waiting(n: nat): seq<Worker> { seq(n, _ => Ready) }

  /** The loop's test and the claim after it, with no `await` between. */
  function Claim<T>(s: State<T>, w: nat): State<T>
    requires w < |s.workers|
  {
    if s.next < |s.outcomes| then s.(next := s.next + 1, workers := s.workers[w := Running(s.next)])
    else s.(workers := s.workers[w := Finished])
  }

  /** Worker `w` goes on: from its start, or from the end of its run. File `i` always
      gives `results[i]`. */
  function Step<T>(s: State<T>, w: nat, results: seq<T>): Option<State<T>> {
    if w >= |s.workers| then None
    else match s.workers[w]
      case Ready => Some(Claim(s, w))
      case Running(i) =>
        if i < |s.outcomes| && i < |results| then Some(Claim(s.(outcomes := s.outcomes[i := Some(results[i])]), w)) else None
      case Finished => None
  }

  // ----- Counting -----

  function Busy(workers: seq<Worker>): nat {
    if workers == [] then 0
    else Busy(workers[..|workers| - 1]) + if workers[|workers| - 1].Running? then 1 else 0
  }

  function Stopped(workers: seq<Worker>): nat {
    if workers == [] then 0
    else Stopped(workers[..|workers| - 1]) + if workers[|workers| - 1].Finished? then 1 else 0
  }

  function Settled<T>(outcomes: seq<Option<T>>): nat {
    if outcomes == [] then 0
    else Settled(outcomes[..|outcomes| - 1]) + if outcomes[|outcomes| - 1].Some? then 1 else 0
  }

  lemma {:induction false} WorkersUpdate(ws: seq<Worker>, i: nat, x: Worker)
    requires i < |ws|
    ensures Busy(ws[i := x]) == Busy(ws) - (if ws[i].Running? then 1 else 0) + (if x.Running? then 1 else 0)
    ensures Stopped(ws[i := x]) == Stopped(ws) - (if ws[i].Finished? then 1 else 0) + (if x.Finished? then 1 else 0)
  {
    var n := |ws| - 1;
    if i < n {
      WorkersUpdate(ws[..n], i, x);
      assert ws[i := x][..n] == ws[..n][i := x];
    } else {
      assert ws[i := x][..n] == ws[..n];
    }
  }

  lemma {:induction false} SettledUpdate<T>(os: seq<Option<T>>, i: nat, x: T)
    requires i < |os| && os[i].None?
    ensures Settled(os[i := Some(x)]) == Settled(os) + 1
  {
    var n := |os| - 1;
    if i < n {
      SettledUpdate(os[..n], i, x);
      assert os[i := Some(x)][..n] == os[..n][i := Some(x)];
    } else {
      assert os[i := Some(x)][..n] == os[..n];
    }
  }

  lemma {:induction false} WorkersBound(ws: seq<Worker>)
    ensures Busy(ws) + Stopped(ws) <= |ws|
    ensures Stopped(ws) == |ws| <==> forall w :: 0 <= w < |ws| ==> ws[w].Finished?
  {
    if ws != [] {
      WorkersBound(ws[..|ws| - 1]);
    }
  }

  lemma {:induction false} NothingYet<T>(n: nat, w: nat)
    ensures Settled(Empty<T>(n)) == 0
    ensures Busy(Waiting(w)) == Stopped(Waiting(w)) == 0
    decreases n + w
  {
    if n > 0 {
      NothingYet<T>(n - 1, w);
      assert Empty<T>(n)[..n - 1] == Empty<T>(n - 1);
    } else if w > 0 {
      NothingYet<T>(0, w - 1);
      assert Waiting(w)[..w - 1] == Waiting(w - 1);
    }
  }

  // ----- Every schedule -----

  /** The pool, and which worker claimed each index so far. */
  datatype Track<T> = Track(s: State<T>, owners: seq<nat>)

  function Next<T>(t: Track<T>, w: nat, results: seq<T>): Option<Track<T>> {
    var s :- Step(t.s, w, results);
    Some(Track(s, if s.next > t.s.next then t.owners + [w] else t.owners))
  }

  function Follow<T>(t: Track<T>, schedule: seq<nat>, results: seq<T>): Option<Track<T>>
    decreases |schedule|
  {
    if schedule == [] then Some(t)
    else
      var t' :- Next(t, schedule[0], results);
      Follow(t', schedule[1..], results)
  }

  /** The pool after its workers went on in the order of `schedule`. */
  function After<T>(results: seq<T>, jobs: int, schedule: seq<nat>): Option<Track<T>> {
    Follow(Track(Initial(|results|, jobs), []), schedule, results)
  }

  predicate Resolved<T>(s: State<T>) { forall w :: 0 <= w < |s.workers| ==> s.workers[w].Finished? }

  /** Exactly the indices below `next` are claimed, each by one owner, which runs it or
      has left the file's own outcome in its slot. No worker stops while files remain. */
  ghost predicate Inv<T>(t: Track<T>, results: seq<T>) {
    var s := t.s;
    && |s.outcomes| == |results|
    && s.next == |t.owners| <= |results|
    && (forall w :: 0 <= w < |s.workers| && s.workers[w].Running? ==>
          s.workers[w].index < s.next && t.owners[s.workers[w].index] == w)
    && (forall w :: 0 <= w < |s.workers| && s.workers[w].Finished? ==> s.next == |results|)
    && (forall i :: 0 <= i < s.next ==> t.owners[i] < |s.workers|)
    && (forall i :: 0 <= i < s.next ==>
          s.outcomes[i] == if s.workers[t.owners[i]] == Running(i) then None else Some(results[i]))
    && (forall i :: s.next <= i < |results| ==> s.outcomes[i] == None)
    && Busy(s.workers) + Settled(s.outcomes) == s.next
  }

  lemma ClaimKeeps<T>(t: Track<T>, w: nat, results: seq<T>)
    requires w < |t.s.workers|
    requires Inv(Track(t.s.(workers := t.s.workers[w := Ready]), t.owners), results)
    ensures var s := Claim(t.s, w);
      Inv(Track(s, if s.next > t.s.next then t.owners + [w] else t.owners), results)
  {
    var ready := t.s.workers[w := Ready];
    var s := Claim(t.s, w);
    WorkersUpdate(ready, w, s.workers[w]);
    assert ready[w := s.workers[w]] == s.workers;
  }

  lemma SettleKeeps<T>(t: Track<T>, w: nat, results: seq<T>)
    requires Inv(t, results) && w < |t.s.workers| && t.s.workers[w].Running?
    ensures var i := t.s.workers[w].index;
      i < |results| && Inv(Track(t.s.(outcomes := t.s.outcomes[i := Some(results[i])], workers := t.s.workers[w := Ready]), t.owners), results)
  {
    var i := t.s.workers[w].index;
    assert t.owners[i] == w;
    WorkersUpdate(t.s.workers, w, Ready);
    SettledUpdate(t.s.outcomes, i, results[i]);
  }

  lemma NextKeeps<T>(t: Track<T>, w: nat, results: seq<T>)
    requires Inv(t, results) && Next(t, w, results).Some?
    ensures Inv(Next(t, w, results).value, results)
    ensures |Next(t, w, results).value.s.workers| == |t.s.workers|
    ensures var s := Next(t, w, results).value.s; s.next + Stopped(s.workers) == t.s.next + Stopped(t.s.workers) + 1
  {
    match t.s.workers[w]
    case Ready =>
      assert t.s.workers[w := Ready] == t.s.workers;
      ClaimKeeps(t, w, results);
      StopCount(t.s, w);
    case Running(i) =>
      SettleKeeps(t, w, results);
      var s := t.s.(outcomes := t.s.outcomes[i := Some(results[i])]);
      ClaimKeeps(Track(s, t.owners), w, results);
      StopCount(s, w);
  }

  lemma StopCount<T>(s: State<T>, w: nat)
    requires w < |s.workers| && !s.workers[w].Finished?
    ensures Claim(s, w).next + Stopped(Claim(s, w).workers) == s.next + Stopped(s.workers) + 1
  {
    WorkersUpdate(s.workers, w, Claim(s, w).workers[w]);
  }

  // ----- The pool itself -----

  class RunnerPool<T(0)> {
    var next: nat
    const outcomes: array<Option<T>>
    var workers: seq<Worker>
    ghost const results: seq<T>
    ghost var owners: seq<nat>

    function View(): State<T>
      reads this, outcomes
    {
      State(next, outcomes[..], workers)
    }

    ghost function Now(): Track<T>
      reads this, outcomes
    {
      Track(View(), owners)
    }

    ghost predicate Valid()
      reads this, outcomes
    {
      workers != [] && Inv(Now(), results)
    }

    /** A pool over `n` files, of which the i-th run is going to give `results[i]`. */
    constructor (n: nat, jobs: int, ghost results: seq<T>)
      requires |results| == n
      ensures fresh(outcomes) && this.results == results
      ensures Valid() && Now() == Track(Initial(n, jobs), [])
    {
      next := 0;
      outcomes := new Option<T>[n](_ => None);
      workers := Waiting(Max(1, jobs));
      this.results, owners := results, [];
      new;
      assert outcomes[..] == Empty(n);
      InitialInv(results, jobs);
    }

    method Loop(w: nat)
      requires w < |workers|
      modifies this`next, this`workers
      ensures View() == Claim(old(View()), w)
    {
      if next < outcomes.Length {
        var index := next;
        next := next + 1;
        workers := workers[w := Running(index)];
      } else {
        workers := workers[w := Finished];
      }
    }

    method Begin(w: nat)
      requires Valid() && w < |workers| && workers[w].Ready?
      modifies this`next, this`workers, this`owners
      ensures Valid() && Some(Now()) == Next(old(Now()), w, results)
    {
      ghost var t := Now();
      NextKeeps(t, w, results);
      Loop(w);
      owners := Next(t, w, results).value.owners;
    }

    /** The run of worker `w` resolves to its file's outcome. */
    method Resolve(w: nat, outcome: T)
      requires Valid() && w < |workers| && workers[w].Running?
      requires outcome == results[workers[w].index]
      modifies this`next, this`workers, this`owners, outcomes
      ensures Valid() && Some(Now()) == Next(old(Now()), w, results)
    {
      ghost var t := Now();
      NextKeeps(t, w, results);
      outcomes[workers[w].index] := Some(outcome);
      Loop(w);
      owners := Next(t, w, results).value.owners;
    }

    /** After the pool has resolved: what a run of one file after another would give. */
    method Collect() returns (all: seq<Option<T>>)
      requires Valid() && Resolved(View())
      ensures all == Sequential(results)
    {
      AllSettled(Now(), results);
      all := outcomes[..];
    }
  }

  // ----- What holds after every schedule -----

  lemma {:induction false} FollowKeeps<T>(t: Track<T>, schedule: seq<nat>, results: seq<T>)
    requires Inv(t, results) && Follow(t, schedule, results).Some?
    ensures var t' := Follow(t, schedule, results).value;
      && Inv(t', results) && |t'.s.workers| == |t.s.workers|
      && t'.s.next + Stopped(t'.s.workers) == t.s.next + Stopped(t.s.workers) + |schedule|
    decreases |schedule|
  {
    if schedule != [] {
      NextKeeps(t, schedule[0], results);
      FollowKeeps(Next(t, schedule[0], results).value, schedule[1..], results);
    }
  }

  lemma PoolInv<T>(results: seq<T>, jobs: int, schedule: seq<nat>)
    requires After(results, jobs, schedule).Some?
    ensures var t := After(results, jobs, schedule).value;
      && Inv(t, results) && |t.s.workers| == Max(1, jobs)
      && t.s.next + Stopped(t.s.workers) == |schedule|
  {
    InitialInv(results, jobs);
    FollowKeeps(Track(Initial(|results|, jobs), []), schedule, results);
  }

  lemma InitialInv<T>(results: seq<T>, jobs: int)
    ensures Inv(Track(Initial(|results|, jobs), []), results)
    ensures Stopped(Initial<T>(|results|, jobs).workers) == 0
  {
    NothingYet<T>(|results|, Max(1, jobs));
  }

  /** At any time: at most `jobs` runs are under way, every index below `next` is either
      under way or settled, and none under way is run twice. */
  lemma InFlight<T>(results: seq<T>, jobs: int, schedule: seq<nat>, v: nat, w: nat)
    requires After(results, jobs, schedule).Some?
    ensures var s := After(results, jobs, schedule).value.s;
      && Busy(s.workers) <= |s.workers| == Max(1, jobs)
      && Busy(s.workers) + Settled(s.outcomes) == s.next <= |results|
      && (v < w < |s.workers| && s.workers[v].Running? && s.workers[w].Running? ==> s.workers[v].index != s.workers[w].index)
  {
    PoolInv(results, jobs, schedule);
    WorkersBound(After(results, jobs, schedule).value.s.workers);
  }

  /** The pool neither stalls nor runs on: until it resolves some worker can go on, and
      it resolves after exactly one step a file and one a worker. */
  lemma ResolvesOnTime<T>(results: seq<T>, jobs: int, schedule: seq<nat>)
    requires After(results, jobs, schedule).Some?
    ensures var s := After(results, jobs, schedule).value.s;
      && |schedule| <= |results| + Max(1, jobs)
      && (Resolved(s) <==> |schedule| == |results| + Max(1, jobs))
      && (!Resolved(s) ==> exists w :: 0 <= w < |s.workers| && Step(s, w, results).Some?)
  {
    PoolInv(results, jobs, schedule);
    var t := After(results, jobs, schedule).value;
    WorkersBound(t.s.workers);
    if !Resolved(t.s) {
      var w :| 0 <= w < |t.s.workers| && !t.s.workers[w].Finished?;
      assert Step(t.s, w, results).Some?;
    } else {
      assert t.s.workers[0].Finished?;
    }
  }

  function Sequential<T>(results: seq<T>): seq<Option<T>> { Map(r => Some(r), results) }

  /** Whatever the schedule and the number of jobs, a resolved pool has what running the
      files one after another gives. */
  lemma RefinesSequential<T>(results: seq<T>, jobs: int, schedule: seq<nat>)
    requires After(results, jobs, schedule).Some? && Resolved(After(results, jobs, schedule).value.s)
    ensures After(results, jobs, schedule).value.s.outcomes == Sequential(results)
  {
    PoolInv(results, jobs, schedule);
    AllSettled(After(results, jobs, schedule).value, results);
  }

  lemma AllSettled<T>(t: Track<T>, results: seq<T>)
    requires Inv(t, results) && Resolved(t.s) && t.s.workers != []
    ensures t.s.outcomes == Sequential(results)
  {
    assert t.s.workers[0].Finished?;
    assert forall i :: 0 <= i < |results| ==> t.s.outcomes[i] == Some(results[i]);
  }
}
