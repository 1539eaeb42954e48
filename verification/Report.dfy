/** What the test runner makes of its children and reports (wpt/dom-run.js:185-216 and
    256-279). */
module Report {
  import opened Common
  import opened Decimal
  import opened Pool

  // ----- One file -----

  datatype Harness = OK | TIMEOUT | ERROR | INCOMPLETE | MARKUP

  datatype Test = Test(name: string, status: nat, message: string)

  datatype Outcome = Outcome(harness: Harness, partial: bool, tests: seq<Test>, message: string)

  /** The page's own report, as the harness prints it. */
  datatype Printed = Printed(status: nat, harnessMessage: string, tests: seq<Test>)

  /** A finished child: the page's refusal or report if it printed one, whether a signal
      ended it, its exit code, and its whole output, trimmed. */
  datatype Child = Child(refused: Option<string>, report: Option<Printed>, expired: bool, code: nat, output: string)

  /** How far `run` gets with a file: its page could not be put together, or its child ran. */
  datatype Attempt = Unassembled(error: string) | Exited(child: Child)

  const STATUS_NAMES: seq<string> := ["PASS", "FAIL", "TIMEOUT", "NOTRUN", "PRECONDITION_FAILED"]

  function Below(output: string): string { if output == "" then "" else "\n" + output }

  function Judge(attempt: Attempt, timeout: nat): Outcome {
    match attempt
    case Unassembled(error) => Outcome(ERROR, false, [], "could not assemble the test: " + error)
    case Exited(child) => JudgeChild(child, timeout)
  }

  function JudgeChild(child: Child, timeout: nat): Outcome {
    if child.refused.Some? then Outcome(MARKUP, false, [], child.refused.value)
    else match child.report
      case None =>
        if !child.expired && child.code == 0 && child.output == "" then
          Outcome(INCOMPLETE, false, [], "the harness never completed: it was waiting on something that never happened")
        else if child.expired then Outcome(TIMEOUT, false, [], "no result in " + Dec(timeout) + " ms" + Below(child.output))
        else Outcome(ERROR, false, [], "exit " + Dec(child.code) + Below(child.output))
      case Some(r) =>
        if r.status == 2 then
          Outcome(TIMEOUT, true, r.tests, "the harness timed out; unfinished subtests are TIMEOUT")
        else if r.status != 0 then
          Outcome(ERROR, false, r.tests, "harness " +
            (if r.status < |STATUS_NAMES| then STATUS_NAMES[r.status] else Dec(r.status)) + ": " + r.harnessMessage)
        else Outcome(OK, false, r.tests, "")
  }

  // ----- The report -----

  datatype Failure =
    | FileFailure(path: string, harness: Harness, message: string)
    | TestFailure(path: string, test: Test)

  datatype Skip = Skip(path: string, reason: string)

  datatype FileResult = FileResult(harness: Harness, subtests: map<string, string>)

  datatype Totals = Totals(
    files: nat, runnable: int, skipped: nat, passed: nat, failed: nat, errored: nat, timeout: nat)

  datatype Report = Report(totals: Totals, skipped: seq<Skip>, failures: seq<Failure>, results: map<string, FileResult>)

  function StatusName(status: nat): string {
    if status < |STATUS_NAMES| then STATUS_NAMES[status] else "STATUS_" + Dec(status)
  }

  /** The subtests of these outcomes count. */
  predicate Counted(o: Outcome) { o.harness != MARKUP && (o.harness == OK || o.partial) }

  predicate TimedOut(o: Outcome) {
    o.harness != MARKUP && (if Counted(o) then o.partial else o.harness == TIMEOUT || o.harness == INCOMPLETE)
  }

  predicate Errored(o: Outcome) { o.harness != MARKUP && !Counted(o) && !TimedOut(o) }

  function Sum(f: Outcome -> nat, os: seq<Outcome>): nat {
    if os == [] then 0 else Sum(f, os[..|os| - 1]) + f(os[|os| - 1])
  }

  function One(p: bool): nat { if p then 1 else 0 }

  function Passes(ts: seq<Test>): (n: nat)
    ensures n <= |ts|
  {
    if ts == [] then 0 else Passes(ts[..|ts| - 1]) + One(ts[|ts| - 1].status == 0)
  }

  function Passed(o: Outcome): nat { if Counted(o) then Passes(o.tests) else 0 }

  function Failed(o: Outcome): nat { if Counted(o) then |o.tests| - Passes(o.tests) else 0 }

  function Refused(o: Outcome): nat { One(o.harness == MARKUP) }

  function Errors(o: Outcome): nat { One(Errored(o)) }

  function Timeouts(o: Outcome): nat { One(TimedOut(o)) }

  function Subtests(ts: seq<Test>): map<string, string> {
    if ts == [] then map[]
    else
      var t := ts[|ts| - 1];
      Subtests(ts[..|ts| - 1])[t.name := StatusName(t.status)]
  }

  function TestFailures(path: string, ts: seq<Test>): seq<Failure> {
    if ts == [] then []
    else
      var t := ts[|ts| - 1];
      TestFailures(path, ts[..|ts| - 1]) + if t.status == 0 then [] else [TestFailure(path, t)]
  }

  function FileFailures(path: string, o: Outcome): seq<Failure> {
    if o.harness == MARKUP then []
    else if Counted(o) then TestFailures(path, o.tests)
    else [FileFailure(path, o.harness, o.message)]
  }

  function FileSkips(path: string, o: Outcome): seq<Skip> {
    if o.harness == MARKUP then [Skip(path, "markup the strict parser refuses (D93): " + o.message)] else []
  }

  function Gather<T>(f: (string, Outcome) -> seq<T>, paths: seq<string>, os: seq<Outcome>): seq<T>
    requires |paths| == |os|
  {
    if os == [] then []
    else
      var n := |os| - 1;
      Gather(f, paths[..n], os[..n]) + f(paths[n], os[n])
  }

  function EntryOf(o: Outcome): FileResult {
    FileResult(o.harness, if Counted(o) then Subtests(o.tests) else map[])
  }

  function Results(paths: seq<string>, os: seq<Outcome>): map<string, FileResult>
    requires |paths| == |os|
  {
    if os == [] then map[]
    else
      var n, before := |os| - 1, Results(paths[..|os| - 1], os[..|os| - 1]);
      if os[n].harness == MARKUP then before
      else before[paths[n] := EntryOf(os[n])]
  }

  function TotalsOf(files: nat, runnable: int, skipped: nat, os: seq<Outcome>): Totals {
    Totals(files, runnable - Sum(Refused, os), skipped + Sum(Refused, os),
      Sum(Passed, os), Sum(Failed, os), Sum(Errors, os), Sum(Timeouts, os))
  }

  /** The report of files in path order. */
  function Summary(files: nat, skipped: seq<Skip>, paths: seq<string>, os: seq<Outcome>): Report
    requires |paths| == |os|
  {
    Report(
      TotalsOf(files, |paths|, |skipped|, os),
      skipped + Gather(FileSkips, paths, os),
      Gather(FileFailures, paths, os),
      Results(paths, os))
  }

  // ----- The loops -----

  method TallyTests(path: string, tests: seq<Test>) returns (passed: nat, failed: nat, failures: seq<Failure>, subtests: map<string, string>)
    ensures passed == Passes(tests) && failed == |tests| - Passes(tests)
    ensures failures == TestFailures(path, tests) && subtests == Subtests(tests)
  {
    passed, failed, failures, subtests := 0, 0, [], map[];
    var n := 0;
    while n < |tests|
      invariant 0 <= n <= |tests|
      invariant passed == Passes(tests[..n]) && failed == n - Passes(tests[..n])
      invariant failures == TestFailures(path, tests[..n]) && subtests == Subtests(tests[..n])
    {
      var test := tests[n];
      assert tests[..n + 1][..n] == tests[..n];
      subtests := subtests[test.name := StatusName(test.status)];
      if test.status == 0 {
        passed := passed + 1;
      } else {
        failed := failed + 1;
        failures := failures + [TestFailure(path, test)];
      }
      n := n + 1;
    }
    assert tests[..n] == tests;
  }

  /** One turn of the accounting loop: what a file adds to the totals and to each list. */
  method TallyFile(path: string, result: Outcome, before: Totals)
    returns (totals: Totals, skip: seq<Skip>, failures: seq<Failure>, entry: Option<FileResult>)
    ensures totals == Totals(before.files, before.runnable - Refused(result), before.skipped + Refused(result),
      before.passed + Passed(result), before.failed + Failed(result),
      before.errored + Errors(result), before.timeout + Timeouts(result))
    ensures skip == FileSkips(path, result) && failures == FileFailures(path, result)
    ensures entry == if result.harness == MARKUP then None else Some(EntryOf(result))
  {
    totals, skip, failures, entry := before, [], [], None;
    if result.harness == MARKUP {
      totals := totals.(skipped := totals.skipped + 1, runnable := totals.runnable - 1);
      skip := [Skip(path, "markup the strict parser refuses (D93): " + result.message)];
    } else if result.harness != OK && !result.partial {
      if result.harness == TIMEOUT || result.harness == INCOMPLETE {
        totals := totals.(timeout := totals.timeout + 1);
      } else {
        totals := totals.(errored := totals.errored + 1);
      }
      entry := Some(FileResult(result.harness, map[]));
      failures := [FileFailure(path, result.harness, result.message)];
    } else {
      if result.partial {
        totals := totals.(timeout := totals.timeout + 1);
      }
      var passed, failed, broken, subtests := TallyTests(path, result.tests);
      entry := Some(FileResult(result.harness, subtests));
      totals := totals.(passed := totals.passed + passed, failed := totals.failed + failed);
      failures := broken;
    }
  }

  method Tally(files: nat, excluded: seq<Skip>, paths: seq<string>, outcomes: seq<Outcome>) returns (report: Report)
    requires |paths| == |outcomes|
    ensures report == Summary(files, excluded, paths, outcomes)
  {
    var totals := Totals(files, |paths|, |excluded|, 0, 0, 0, 0);
    var skipped, failures, results := excluded, [], map[];
    var n := 0;
    while n < |paths|
      invariant 0 <= n <= |paths|
      invariant totals == TotalsOf(files, |paths|, |excluded|, outcomes[..n])
      invariant skipped == excluded + Gather(FileSkips, paths[..n], outcomes[..n])
      invariant failures == Gather(FileFailures, paths[..n], outcomes[..n])
      invariant results == Results(paths[..n], outcomes[..n])
    {
      Onward(paths, outcomes, n);
      var skip, broken, entry;
      totals, skip, broken, entry := TallyFile(paths[n], outcomes[n], totals);
      Assoc(excluded, Gather(FileSkips, paths[..n], outcomes[..n]), skip);
      skipped, failures := skipped + skip, failures + broken;
      if entry.Some? {
        results := results[paths[n] := entry.value];
      }
      n := n + 1;
    }
    assert paths[..n] == paths && outcomes[..n] == outcomes;
    report := Report(totals, skipped, failures, results);
  }

  lemma SumStep(f: Outcome -> nat, os: seq<Outcome>, n: nat)
    requires n < |os|
    ensures Sum(f, os[..n + 1]) == Sum(f, os[..n]) + f(os[n])
  {
    assert os[..n + 1][..n] == os[..n];
  }

  lemma Onward(paths: seq<string>, os: seq<Outcome>, n: nat)
    requires n < |os| == |paths|
    ensures forall files: nat, runnable: int, skipped: nat ::
      var t := TotalsOf(files, runnable, skipped, os[..n]);
      TotalsOf(files, runnable, skipped, os[..n + 1])
      == Totals(files, t.runnable - Refused(os[n]), t.skipped + Refused(os[n]), t.passed + Passed(os[n]),
           t.failed + Failed(os[n]), t.errored + Errors(os[n]), t.timeout + Timeouts(os[n]))
    ensures Gather(FileSkips, paths[..n + 1], os[..n + 1]) == Gather(FileSkips, paths[..n], os[..n]) + FileSkips(paths[n], os[n])
    ensures Gather(FileFailures, paths[..n + 1], os[..n + 1])
         == Gather(FileFailures, paths[..n], os[..n]) + FileFailures(paths[n], os[n])
    ensures Results(paths[..n + 1], os[..n + 1])
         == if os[n].harness == MARKUP then Results(paths[..n], os[..n])
            else Results(paths[..n], os[..n])[paths[n] := EntryOf(os[n])]
  {
    SumStep(Refused, os, n);
    SumStep(Passed, os, n);
    SumStep(Failed, os, n);
    SumStep(Errors, os, n);
    SumStep(Timeouts, os, n);
    assert os[..n + 1][..n] == os[..n] && paths[..n + 1][..n] == paths[..n];
  }

  // ----- The books balance -----

  lemma {:induction false} SumAdd(f: Outcome -> nat, g: Outcome -> nat, h: Outcome -> nat, os: seq<Outcome>)
    requires forall o :: o in os ==> h(o) == f(o) + g(o)
    ensures Sum(h, os) == Sum(f, os) + Sum(g, os)
  {
    if os != [] {
      SumAdd(f, g, h, os[..|os| - 1]);
    }
  }

  lemma {:induction false} GatherLength<T>(f: (string, Outcome) -> seq<T>, g: Outcome -> nat, paths: seq<string>, os: seq<Outcome>)
    requires |paths| == |os| && forall p, o :: |f(p, o)| == g(o)
    ensures |Gather(f, paths, os)| == Sum(g, os)
  {
    if os != [] {
      GatherLength(f, g, paths[..|os| - 1], os[..|os| - 1]);
    }
  }

  lemma {:induction false} TestFailuresLength(path: string, ts: seq<Test>)
    ensures |TestFailures(path, ts)| == |ts| - Passes(ts)
  {
    if ts != [] {
      TestFailuresLength(path, ts[..|ts| - 1]);
    }
  }

  function Tests(o: Outcome): nat { if Counted(o) then |o.tests| else 0 }

  function Completed(o: Outcome): nat { One(o.harness == OK) }

  function Failures(o: Outcome): nat { Failed(o) + Errors(o) + if !Counted(o) && TimedOut(o) then 1 else 0 }

  /** Every subtest that counts is passed or failed, and every file is refused, all
      right, timed out or errored, and only one of these. */
  lemma BooksBalance(files: nat, skipped: seq<Skip>, paths: seq<string>, os: seq<Outcome>)
    requires |paths| == |os| && (forall o :: o in os ==> o.partial ==> o.harness == TIMEOUT)
    ensures var t := Summary(files, skipped, paths, os).totals;
      && t.passed + t.failed == Sum(Tests, os)
      && t.runnable == Sum(Completed, os) + t.timeout + t.errored
      && t.runnable + t.skipped == |paths| + |skipped|
      && t.skipped == |Summary(files, skipped, paths, os).skipped|
      && |Summary(files, skipped, paths, os).failures| == Sum(Failures, os)
  {
    SumAdd(Passed, Failed, Tests, os);
    FilesBalance(os);
    GatherLength(FileSkips, Refused, paths, os);
    forall p, o ensures |FileFailures(p, o)| == Failures(o) {
      TestFailuresLength(p, o.tests);
    }
    GatherLength(FileFailures, Failures, paths, os);
  }

  function Ended(o: Outcome): nat { Timeouts(o) + Errors(o) }

  function Ran(o: Outcome): nat { Completed(o) + Ended(o) }

  function Any(o: Outcome): nat { Refused(o) + Ran(o) }

  lemma FilesBalance(os: seq<Outcome>)
    requires forall o :: o in os ==> o.partial ==> o.harness == TIMEOUT
    ensures |os| == Sum(Refused, os) + Sum(Completed, os) + Sum(Timeouts, os) + Sum(Errors, os)
  {
    SumAdd(Timeouts, Errors, Ended, os);
    SumAdd(Completed, Ended, Ran, os);
    SumAdd(Refused, Ran, Any, os);
    SumOnes(Any, os);
  }

  lemma {:induction false} SumOnes(f: Outcome -> nat, os: seq<Outcome>)
    requires forall o :: o in os ==> f(o) == 1
    ensures Sum(f, os) == |os|
  {
    if os != [] {
      SumOnes(f, os[..|os| - 1]);
    }
  }

  // ----- Which files run -----

  /** `selected.flatMap` and `selected.filter` over one table of reasons. */
  function Excluded(selected: seq<string>, reason: string -> string): seq<Skip> {
    if selected == [] then []
    else (if reason(selected[0]) != "" then [Skip(selected[0], reason(selected[0]))] else []) + Excluded(selected[1..], reason)
  }

  function Runnable(selected: seq<string>, reason: string -> string): seq<string> {
    if selected == [] then []
    else (if reason(selected[0]) == "" then [selected[0]] else []) + Runnable(selected[1..], reason)
  }

  lemma {:induction false} Partition(selected: seq<string>, reason: string -> string)
    ensures |Excluded(selected, reason)| + |Runnable(selected, reason)| == |selected|
  {
    if selected != [] {
      Partition(selected[1..], reason);
    }
  }

  // ----- The run as a whole -----

  /** What `run` makes of each file. */
  function Judged(attempt: string -> Attempt, timeout: nat, paths: seq<string>): seq<Outcome> {
    Map(path => Judge(attempt(path), timeout), paths)
  }

  function Settle(outcomes: seq<Option<Outcome>>): seq<Outcome>
    requires forall i :: 0 <= i < |outcomes| ==> outcomes[i].Some?
  {
    seq(|outcomes|, i requires 0 <= i < |outcomes| => outcomes[i].value)
  }

  lemma PoolGives(os: seq<Outcome>, jobs: int, schedule: seq<nat>)
    requires After(os, jobs, schedule).Some? && Resolved(After(os, jobs, schedule).value.s)
    ensures var outcomes := After(os, jobs, schedule).value.s.outcomes;
      (forall i :: 0 <= i < |outcomes| ==> outcomes[i].Some?) && Settle(outcomes) == os
  {
    RefinesSequential(os, jobs, schedule);
    assert Settle(After(os, jobs, schedule).value.s.outcomes) == os;
  }

  lemma JudgedShape(attempt: string -> Attempt, timeout: nat, paths: seq<string>)
    ensures var os := Judged(attempt, timeout, paths);
      |os| == |paths| && forall o :: o in os ==> o.partial ==> o.harness == TIMEOUT
  {
  }

  /** The report accounts for every selected file, and depends neither on the schedule
      nor on the number of jobs. */
  lemma ScheduleIndependent(selected: seq<string>, reason: string -> string, attempt: string -> Attempt, timeout: nat,
      jobs: int, schedule: seq<nat>)
    requires var os := Judged(attempt, timeout, Runnable(selected, reason));
      After(os, jobs, schedule).Some? && Resolved(After(os, jobs, schedule).value.s)
    ensures var paths, skipped := Runnable(selected, reason), Excluded(selected, reason);
      var os := Judged(attempt, timeout, paths);
      var outcomes := After(os, jobs, schedule).value.s.outcomes;
      && (forall i :: 0 <= i < |outcomes| ==> outcomes[i].Some?)
      && Settle(outcomes) == os && |os| == |paths|
      && var report := Summary(|selected|, skipped, paths, Settle(outcomes));
         && report.totals.files == report.totals.runnable + report.totals.skipped
         && report.totals.skipped == |report.skipped|
  {
    var paths, skipped := Runnable(selected, reason), Excluded(selected, reason);
    var os := Judged(attempt, timeout, paths);
    JudgedShape(attempt, timeout, paths);
    PoolGives(os, jobs, schedule);
    Partition(selected, reason);
    BooksBalance(|selected|, skipped, paths, os);
  }

  // ----- Results by path -----

  /** With distinct paths, each file that was not refused has its own entry. */
  lemma {:induction false} ResultOf(paths: seq<string>, os: seq<Outcome>, i: nat)
    requires |paths| == |os| && i < |os|
    requires forall j, k :: 0 <= j < k < |paths| ==> paths[j] != paths[k]
    ensures paths[i] in Results(paths, os) <==> os[i].harness != MARKUP
    ensures os[i].harness != MARKUP ==>
      Results(paths, os)[paths[i]] == EntryOf(os[i])
    decreases |os|
  {
    var n := |os| - 1;
    if i < n {
      ResultOf(paths[..n], os[..n], i);
    } else if paths[n] in Results(paths[..n], os[..n]) {
      OnlyPaths(paths[..n], os[..n], paths[n]);
    }
  }

  lemma {:induction false} OnlyPaths(paths: seq<string>, os: seq<Outcome>, p: string)
    requires |paths| == |os| && p in Results(paths, os)
    ensures p in paths
    decreases |os|
  {
    var n := |os| - 1;
    if p != paths[n] {
      OnlyPaths(paths[..n], os[..n], p);
    }
  }

  /** A clean report: no failures exactly when every file completed and every subtest
      passed. */
  lemma {:induction false} CleanIff(paths: seq<string>, os: seq<Outcome>)
    requires |paths| == |os|
    ensures Gather(FileFailures, paths, os) == [] <==> forall i :: 0 <= i < |os| ==> Clean(os[i])
    decreases |os|
  {
    if os != [] {
      var n := |os| - 1;
      CleanIff(paths[..n], os[..n]);
      CleanFile(paths[n], os[n]);
      assert forall i :: 0 <= i < n ==> os[..n][i] == os[i];
    }
  }

  /** Refused, or with nothing but passes to count. */
  predicate Clean(o: Outcome) { o.harness == MARKUP || (Counted(o) && forall t :: t in o.tests ==> t.status == 0) }

  lemma CleanFile(path: string, o: Outcome)
    ensures FileFailures(path, o) == [] <==> Clean(o)
  {
    CleanTests(path, o.tests);
  }

  lemma {:induction false} CleanTests(path: string, ts: seq<Test>)
    ensures TestFailures(path, ts) == [] <==> forall t :: t in ts ==> t.status == 0
  {
    if ts != [] {
      var n := |ts| - 1;
      CleanTests(path, ts[..n]);
      assert ts == ts[..n] + [ts[n]];
    }
  }
}
