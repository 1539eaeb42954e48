/** What the test runner's report says, told from what happened to each file
    (wpt/dom-run.js:161-278) and not from how the report is put together. */
module ReportLaws {
  import opened Common
  import opened Decimal
  import opened Report

  // ----- What can happen to a file -----

  predicate Refusal(a: Attempt) { a.Exited? && a.child.refused.Some? }

  /** The page reported itself, with this status. */
  predicate Reported(a: Attempt, status: nat) {
    a.Exited? && a.child.refused.None? && a.child.report.Some? && a.child.report.value.status == status
  }

  predicate NoReport(a: Attempt) { a.Exited? && a.child.refused.None? && a.child.report.None? }

  predicate Killed(a: Attempt) { NoReport(a) && a.child.expired }

  predicate Silent(a: Attempt) { NoReport(a) && !a.child.expired && a.child.code == 0 && a.child.output == "" }

  predicate BadExit(a: Attempt) { NoReport(a) && !a.child.expired && (a.child.code != 0 || a.child.output != "") }

  predicate BadStatus(a: Attempt) {
    a.Exited? && a.child.refused.None? && a.child.report.Some? && a.child.report.value.status !in {0, 2}
  }

  /** The page's own verdict, or the grace period's end, lets its subtests count. */
  predicate Counts(a: Attempt) { Reported(a, 0) || Reported(a, 2) }

  predicate NeverEnded(a: Attempt) { Killed(a) || Silent(a) || Reported(a, 2) }

  predicate WentWrong(a: Attempt) { a.Unassembled? || BadExit(a) || BadStatus(a) }

  predicate Pass(t: Test) { t.status == 0 }

  predicate Fail(t: Test) { t.status != 0 }

  function TestsOf(a: Attempt): seq<Test> {
    if a.Exited? && a.child.report.Some? then a.child.report.value.tests else []
  }

  function Count<A>(p: A -> bool, xs: seq<A>): nat {
    if xs == [] then 0 else Count(p, xs[..|xs| - 1]) + if p(xs[|xs| - 1]) then 1 else 0
  }

  function CountTests(p: Test -> bool, attempts: seq<Attempt>): nat {
    if attempts == [] then 0
    else
      var a := attempts[|attempts| - 1];
      CountTests(p, attempts[..|attempts| - 1]) + if Counts(a) then Count(p, TestsOf(a)) else 0
  }

  function Outcomes(attempts: seq<Attempt>, timeout: nat): seq<Outcome> { Map(a => Judge(a, timeout), attempts) }

  // ----- The totals -----

  lemma {:induction false} PassesCount(ts: seq<Test>)
    ensures Passes(ts) == Count(Pass, ts)
    ensures |ts| - Passes(ts) == Count(Fail, ts)
  {
    if ts != [] {
      PassesCount(ts[..|ts| - 1]);
    }
  }

  lemma OneJudged(a: Attempt, timeout: nat)
    ensures var o := Judge(a, timeout);
      && Refused(o) == One(Refusal(a)) && Timeouts(o) == One(NeverEnded(a)) && Errors(o) == One(WentWrong(a))
      && Counted(o) == Counts(a) && (Counts(a) ==> o.tests == TestsOf(a))
  {
  }

  lemma {:induction false} SumIsCount(f: Outcome -> nat, p: Attempt -> bool, attempts: seq<Attempt>, timeout: nat)
    requires forall a :: f(Judge(a, timeout)) == One(p(a))
    ensures Sum(f, Outcomes(attempts, timeout)) == Count(p, attempts)
  {
    if attempts != [] {
      var n := |attempts| - 1;
      SumIsCount(f, p, attempts[..n], timeout);
      assert Outcomes(attempts, timeout)[..n] == Outcomes(attempts[..n], timeout);
    }
  }

  lemma {:induction false} SumIsCountTests(f: Outcome -> nat, p: Test -> bool, attempts: seq<Attempt>, timeout: nat)
    requires forall a :: f(Judge(a, timeout)) == if Counts(a) then Count(p, TestsOf(a)) else 0
    ensures Sum(f, Outcomes(attempts, timeout)) == CountTests(p, attempts)
  {
    if attempts != [] {
      var n := |attempts| - 1;
      SumIsCountTests(f, p, attempts[..n], timeout);
      assert Outcomes(attempts, timeout)[..n] == Outcomes(attempts[..n], timeout);
    }
  }

  lemma FilesCount(attempts: seq<Attempt>, timeout: nat)
    ensures var os := Outcomes(attempts, timeout);
      && Sum(Refused, os) == Count(Refusal, attempts)
      && Sum(Timeouts, os) == Count(NeverEnded, attempts)
      && Sum(Errors, os) == Count(WentWrong, attempts)
  {
    forall a ensures Refused(Judge(a, timeout)) == One(Refusal(a)) && Timeouts(Judge(a, timeout)) == One(NeverEnded(a))
                  && Errors(Judge(a, timeout)) == One(WentWrong(a)) {
      OneJudged(a, timeout);
    }
    SumIsCount(Refused, Refusal, attempts, timeout);
    SumIsCount(Timeouts, NeverEnded, attempts, timeout);
    SumIsCount(Errors, WentWrong, attempts, timeout);
  }

  lemma TestsCount(attempts: seq<Attempt>, timeout: nat)
    ensures var os := Outcomes(attempts, timeout);
      Sum(Passed, os) == CountTests(Pass, attempts) && Sum(Failed, os) == CountTests(Fail, attempts)
  {
    forall a ensures Passed(Judge(a, timeout)) == (if Counts(a) then Count(Pass, TestsOf(a)) else 0)
                  && Failed(Judge(a, timeout)) == (if Counts(a) then Count(Fail, TestsOf(a)) else 0) {
      OneJudged(a, timeout);
      PassesCount(TestsOf(a));
    }
    SumIsCountTests(Passed, Pass, attempts, timeout);
    SumIsCountTests(Failed, Fail, attempts, timeout);
  }

  /** A killed, silent or ended page is a timeout; one not put together, or with a bad exit
      or status, an error; the subtests of a page that completed or was ended are passed
      exactly with status 0. */
  lemma TotalsTell(files: nat, skipped: seq<Skip>, paths: seq<string>, attempts: seq<Attempt>, timeout: nat)
    requires |paths| == |attempts|
    ensures var t := Summary(files, skipped, paths, Outcomes(attempts, timeout)).totals;
      && t.files == files
      && t.runnable == |paths| - Count(Refusal, attempts)
      && t.skipped == |skipped| + Count(Refusal, attempts)
      && t.timeout == Count(NeverEnded, attempts)
      && t.errored == Count(WentWrong, attempts)
      && t.passed == CountTests(Pass, attempts)
      && t.failed == CountTests(Fail, attempts)
  {
    FilesCount(attempts, timeout);
    TestsCount(attempts, timeout);
  }

  // ----- The lists -----

  lemma {:induction false} GatherIn<T>(f: (string, Outcome) -> seq<T>, paths: seq<string>, os: seq<Outcome>, x: T)
    requires |paths| == |os|
    ensures x in Gather(f, paths, os) <==> exists i :: 0 <= i < |os| && x in f(paths[i], os[i])
    decreases |os|
  {
    if os != [] {
      var n := |os| - 1;
      GatherIn(f, paths[..n], os[..n], x);
      assert forall i :: 0 <= i < n ==> paths[..n][i] == paths[i] && os[..n][i] == os[i];
    }
  }

  /** The lists follow the paths: what comes first is listed first. */
  lemma {:induction false} GatherAppend<T>(f: (string, Outcome) -> seq<T>, ps: seq<string>, os: seq<Outcome>, qs: seq<string>, rs: seq<Outcome>)
    requires |ps| == |os| && |qs| == |rs|
    ensures Gather(f, ps + qs, os + rs) == Gather(f, ps, os) + Gather(f, qs, rs)
    decreases |rs|
  {
    if rs == [] {
      assert ps + qs == ps && os + rs == os;
    } else {
      var n := |rs| - 1;
      GatherAppend(f, ps, os, qs[..n], rs[..n]);
      assert (ps + qs)[..|ps + qs| - 1] == ps + qs[..n] && (os + rs)[..|os + rs| - 1] == os + rs[..n];
      Assoc(Gather(f, ps, os), Gather(f, qs[..n], rs[..n]), f(qs[n], rs[n]));
    }
  }

  lemma {:induction false} TestFailuresIn(path: string, ts: seq<Test>, f: Failure)
    ensures f in TestFailures(path, ts) <==> f.TestFailure? && f.path == path && f.test in ts && f.test.status != 0
  {
    if ts != [] {
      var n := |ts| - 1;
      TestFailuresIn(path, ts[..n], f);
      assert ts == ts[..n] + [ts[n]];
    }
  }

  lemma {:induction false} TestFailuresAppend(path: string, ts: seq<Test>, us: seq<Test>)
    ensures TestFailures(path, ts + us) == TestFailures(path, ts) + TestFailures(path, us)
    decreases |us|
  {
    if us == [] {
      assert ts + us == ts;
    } else {
      var n := |us| - 1;
      TestFailuresAppend(path, ts, us[..n]);
      assert (ts + us)[..|ts + us| - 1] == ts + us[..n];
      Assoc(TestFailures(path, ts), TestFailures(path, us[..n]), if us[n].status == 0 then [] else [TestFailure(path, us[n])]);
    }
  }

  /** The failure that `f` reports happened to this file. */
  predicate Happened(path: string, a: Attempt, f: Failure) {
    && f.path == path
    && match f
       case TestFailure(_, t) => Counts(a) && t in TestsOf(a) && t.status != 0
       case FileFailure(_, harness, message) =>
         match harness
         case TIMEOUT => Killed(a)
         case INCOMPLETE => Silent(a)
         case ERROR =>
           && WentWrong(a)
           && (a.Unassembled? ==> message == "could not assemble the test: " + a.error)
           && (BadExit(a) ==> "exit " + Dec(a.child.code) <= message)
         case _ => false
  }

  lemma ListedHappened(path: string, a: Attempt, timeout: nat, f: Failure)
    requires f in FileFailures(path, Judge(a, timeout))
    ensures Happened(path, a, f)
  {
    OneJudged(a, timeout);
    if Counts(a) {
      TestFailuresIn(path, TestsOf(a), f);
    }
  }

  /** What happened is listed, a file's failure with some message. */
  lemma HappenedListed(path: string, a: Attempt, timeout: nat, f: Failure) returns (g: Failure)
    requires Happened(path, a, f)
    ensures g in FileFailures(path, Judge(a, timeout)) && Alike(f, g)
  {
    OneJudged(a, timeout);
    if f.TestFailure? {
      TestFailuresIn(path, TestsOf(a), f);
      g := f;
    } else {
      var o := Judge(a, timeout);
      g := FileFailure(path, o.harness, o.message);
      assert FileFailures(path, o) == [g];
    }
  }

  predicate Alike(f: Failure, g: Failure) {
    f == g || (f.FileFailure? && g.FileFailure? && f.path == g.path && f.harness == g.harness)
  }

  /** The failure list holds what happened and nothing else: each failed subtest that
      counts, and each file that was killed, fell silent or went wrong. */
  lemma FailuresTell(files: nat, skipped: seq<Skip>, paths: seq<string>, attempts: seq<Attempt>, timeout: nat, f: Failure)
    requires |paths| == |attempts|
    ensures var fs := Summary(files, skipped, paths, Outcomes(attempts, timeout)).failures;
      && (f in fs ==> exists i :: 0 <= i < |paths| && Happened(paths[i], attempts[i], f))
      && ((exists i :: 0 <= i < |paths| && Happened(paths[i], attempts[i], f)) ==> exists g :: g in fs && Alike(f, g))
  {
    var os := Outcomes(attempts, timeout);
    var fs := Gather(FileFailures, paths, os);
    GatherIn(FileFailures, paths, os, f);
    if f in fs {
      var i :| 0 <= i < |os| && f in FileFailures(paths[i], os[i]);
      ListedHappened(paths[i], attempts[i], timeout, f);
    }
    if i :| 0 <= i < |paths| && Happened(paths[i], attempts[i], f) {
      var g := HappenedListed(paths[i], attempts[i], timeout, f);
      GatherIn(FileFailures, paths, os, g);
    }
  }

  predicate Skips(path: string, a: Attempt, s: Skip) {
    Refusal(a) && s == Skip(path, "markup the strict parser refuses (D93): " + a.child.refused.value)
  }

  lemma SkipTells(path: string, a: Attempt, timeout: nat, s: Skip)
    ensures s in FileSkips(path, Judge(a, timeout)) <==> Skips(path, a, s)
  {
    OneJudged(a, timeout);
  }

  /** The skips added are the refused pages, with what the parser said. */
  lemma SkipsTell(files: nat, skipped: seq<Skip>, paths: seq<string>, attempts: seq<Attempt>, timeout: nat, s: Skip)
    requires |paths| == |attempts|
    ensures var more := Summary(files, skipped, paths, Outcomes(attempts, timeout)).skipped;
      && skipped <= more
      && (s in more[|skipped|..] <==>
            exists i :: 0 <= i < |paths| && Skips(paths[i], attempts[i], s))
  {
    var os := Outcomes(attempts, timeout);
    GatherIn(FileSkips, paths, os, s);
    forall i | 0 <= i < |paths| ensures s in FileSkips(paths[i], os[i]) <==> Skips(paths[i], attempts[i], s) {
      SkipTells(paths[i], attempts[i], timeout, s);
    }
    var more := Gather(FileSkips, paths, os);
    assert (skipped + more)[|skipped|..] == more;
  }

  // ----- Names of statuses, and the results -----

  /** Only a pass is called one, and no two statuses share a name. */
  lemma StatusNamesDiffer(s: nat, t: nat)
    ensures StatusName(s) == "PASS" <==> s == 0
    ensures StatusName(s) == StatusName(t) <==> s == t
  {
    if StatusName(s) == StatusName(t) && s >= |STATUS_NAMES| && t >= |STATUS_NAMES| {
      assert StatusName(s)[7..] == Dec(s) && StatusName(t)[7..] == Dec(t);
      DecInjective(s, t);
    }
    NumberedName(s);
    NumberedName(t);
  }

  lemma NumberedName(s: nat)
    ensures s >= |STATUS_NAMES| ==> StatusName(s)[..7] == "STATUS_"
    ensures forall i :: 0 <= i < |STATUS_NAMES| ==> |STATUS_NAMES[i]| < 7 || STATUS_NAMES[i][..7] != "STATUS_"
  {
    var name := STATUS_NAMES[4];
    assert name[0] == 'P';
    assert "STATUS_"[0] == 'S';
  }

  lemma {:induction false} SubtestNames(ts: seq<Test>, name: string)
    ensures name in Subtests(ts) <==> exists i :: 0 <= i < |ts| && ts[i].name == name
  {
    if ts != [] {
      var n := |ts| - 1;
      SubtestNames(ts[..n], name);
      assert forall i :: 0 <= i < n ==> ts[..n][i] == ts[i];
    }
  }

  /** A subtest has the name of the last status reported for it. */
  lemma {:induction false} SubtestsTell(ts: seq<Test>, i: nat)
    requires i < |ts| && forall j :: i < j < |ts| ==> ts[j].name != ts[i].name
    ensures ts[i].name in Subtests(ts) && Subtests(ts)[ts[i].name] == StatusName(ts[i].status)
    decreases |ts|
  {
    var n := |ts| - 1;
    if i < n {
      SubtestsTell(ts[..n], i);
    }
  }

  /** With distinct paths, a file that was not refused has its own entry; the subtests in
      it are those that count, under the names of their last statuses. */
  lemma ResultsTell(paths: seq<string>, attempts: seq<Attempt>, timeout: nat, i: nat, name: string)
    requires |paths| == |attempts| && i < |paths| && forall j, k :: 0 <= j < k < |paths| ==> paths[j] != paths[k]
    ensures var results := Results(paths, Outcomes(attempts, timeout));
      && (paths[i] in results <==> !Refusal(attempts[i]))
      && (paths[i] in results ==>
            && (results[paths[i]].harness == OK <==> Reported(attempts[i], 0))
            && (name in results[paths[i]].subtests <==>
                  Counts(attempts[i]) && exists k :: 0 <= k < |TestsOf(attempts[i])| && TestsOf(attempts[i])[k].name == name))
  {
    ResultOf(paths, Outcomes(attempts, timeout), i);
    OneJudged(attempts[i], timeout);
    SubtestNames(TestsOf(attempts[i]), name);
  }

  lemma ResultsLast(paths: seq<string>, attempts: seq<Attempt>, timeout: nat, i: nat, k: nat)
    requires |paths| == |attempts| && i < |paths| && forall j, k :: 0 <= j < k < |paths| ==> paths[j] != paths[k]
    requires Counts(attempts[i]) && k < |TestsOf(attempts[i])|
    requires var ts := TestsOf(attempts[i]); forall j :: k < j < |ts| ==> ts[j].name != ts[k].name
    ensures var results, t := Results(paths, Outcomes(attempts, timeout)), TestsOf(attempts[i])[k];
      && paths[i] in results && t.name in results[paths[i]].subtests
      && results[paths[i]].subtests[t.name] == StatusName(t.status)
  {
    ResultOf(paths, Outcomes(attempts, timeout), i);
    OneJudged(attempts[i], timeout);
    SubtestsTell(TestsOf(attempts[i]), k);
  }

  // ----- Which files run -----

  /** A selected file runs exactly when there is no reason against it, and is skipped for
      exactly that reason otherwise. */
  lemma {:induction false} SelectionTells(selected: seq<string>, reason: string -> string, path: string, s: Skip)
    ensures path in Runnable(selected, reason) <==> path in selected && reason(path) == ""
    ensures s in Excluded(selected, reason) <==> s.path in selected && s.reason == reason(s.path) && s.reason != ""
  {
    if selected != [] {
      SelectionTells(selected[1..], reason, path, s);
      assert selected == [selected[0]] + selected[1..];
    }
  }

  /** Both lists keep the order of the selection. */
  lemma {:induction false} RunnableInOrder(a: seq<string>, b: seq<string>, reason: string -> string)
    ensures Runnable(a + b, reason) == Runnable(a, reason) + Runnable(b, reason)
  {
    if a == [] {
      assert a + b == b;
    } else {
      RunnableInOrder(a[1..], b, reason);
      assert (a + b)[0] == a[0] && (a + b)[1..] == a[1..] + b;
      Assoc(if reason(a[0]) == "" then [a[0]] else [], Runnable(a[1..], reason), Runnable(b, reason));
    }
  }

  lemma {:induction false} ExcludedInOrder(a: seq<string>, b: seq<string>, reason: string -> string)
    ensures Excluded(a + b, reason) == Excluded(a, reason) + Excluded(b, reason)
  {
    if a == [] {
      assert a + b == b;
    } else {
      ExcludedInOrder(a[1..], b, reason);
      assert (a + b)[0] == a[0] && (a + b)[1..] == a[1..] + b;
      Assoc(if reason(a[0]) != "" then [Skip(a[0], reason(a[0]))] else [], Excluded(a[1..], reason), Excluded(b, reason));
    }
  }
}
