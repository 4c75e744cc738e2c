/** What every schedule of the suite runner guarantees, and why an honest run passes the
    arithmetic of scripts/check_assurance.py. */
module StressProofs {
  import opened Wrappers
  import opened StressLanes
  import opened StressPool
  import opened StressInvariant
  import opened StressRows
  import opened StressTime

  ghost predicate Inv(plan: Plan, s: State) {
    && Shape(plan, s) && Staged(s) && OwnThreads(s)
    && Blamed(s) && Counted(s)
    && Gathered(s) && (s.stage == Alone ==> s.rows == map[])
    && Timed(plan, s) && Reported(plan, s)
  }

  lemma InitInv(plan: Plan)
    requires Sound(plan)
    ensures Inv(plan, Init(plan))
  {
  }

  lemma StepKeepsInv(plan: Plan, s: State, step: Step)
    requires Sound(plan) && Inv(plan, s) && Enabled(plan, s, step)
    ensures Inv(plan, Apply(plan, s, step))
  {
    StepKeepsShape(plan, s, step);
    StepKeepsStaged(plan, s, step);
    StepKeepsThreads(plan, s, step);
    StepKeepsBlamed(plan, s, step);
    StepKeepsCounted(plan, s, step);
    StepKeepsGathered(plan, s, step);
    StepKeepsTimed(plan, s, step);
    StepKeepsReported(plan, s, step);
  }

  lemma {:induction false} RunKeepsInv(plan: Plan, steps: seq<Step>, s: State)
    requires Sound(plan) && After(plan, steps) == Some(s)
    ensures Inv(plan, s)
    decreases |steps|
  {
    if steps == [] {
      InitInv(plan);
    } else {
      var last := |steps| - 1;
      var r := After(plan, steps[..last]).value;
      RunKeepsInv(plan, steps[..last], r);
      StepKeepsInv(plan, r, steps[last]);
    }
  }

  lemma PlanIsSound(suites: seq<Suite>, workers: nat, deadline: real, start: real)
    requires Inventory(suites) && workers >= 1
    ensures Sound(PlanOf(suites, workers, deadline, start))
  {
    LanesAreDisjoint(suites);
    SequenceLane(suites);
  }

  /** A state that some schedule of the inventory's suites reaches. */
  ghost predicate Reached(suites: seq<Suite>, plan: Plan, steps: seq<Step>, s: State) {
    && Inventory(suites) && plan.workers >= 1 && plan == PlanOf(suites, plan.workers, plan.deadline, plan.start)
    && After(plan, steps) == Some(s)
  }

  lemma ReachedInv(suites: seq<Suite>, plan: Plan, steps: seq<Step>, s: State)
    requires Reached(suites, plan, steps, s)
    ensures Sound(plan) && Inv(plan, s)
  {
    PlanIsSound(suites, plan.workers, plan.deadline, plan.start);
    RunKeepsInv(plan, steps, s);
  }

  // ---------------------------------------------------------------------------------
  // Overlaps

  /** A child of suite `r.name` ran in the lane that holds the suite. */
  lemma RunOfKind(suites: seq<Suite>, plan: Plan, s: State, r: Run, suite: Suite)
    requires Inventory(suites) && plan.lanes == Lanes(suites) && GoodRun(plan, s, r)
    requires suite in suites && suite.name == r.name
    ensures OfKind(suite, r.job)
  {
    var p :| 0 <= p < |plan.lanes[r.job]| && plan.lanes[r.job][p].name == r.name;
    LaneHolds(suites, r.job, p);
    var i :| 0 <= i < |suites| && suites[i] == suite;
    var k :| 0 <= k < |suites| && suites[k] == plan.lanes[r.job][p];
    assert i == k;
  }

  /** In every schedule the sequence is over before any other suite begins. */
  lemma SequenceRunsAlone(suites: seq<Suite>, plan: Plan, steps: seq<Step>, s: State, a: Run, b: Run)
    requires Reached(suites, plan, steps, s) && a in s.runs && b in s.runs
    requires a.name == "sequence" && b.name != "sequence"
    ensures End(a) <= b.before
  {
    ReachedInv(suites, plan, steps, s);
    assert GoodRun(plan, s, a) && GoodRun(plan, s, b);
    NamedSuite(suites, plan, s, a);
    NamedSuite(suites, plan, s, b);
  }

  /** The runs of the first lane are those of the sequence. */
  lemma NamedSuite(suites: seq<Suite>, plan: Plan, s: State, r: Run)
    requires Inventory(suites) && plan.lanes == Lanes(suites) && GoodRun(plan, s, r)
    ensures r.job == 0 <==> r.name == "sequence"
  {
    var p :| 0 <= p < |plan.lanes[r.job]| && plan.lanes[r.job][p].name == r.name;
    LaneHolds(suites, r.job, p);
  }

  /** In every schedule no two CLI suites overlap. */
  lemma CliSuitesAreSerial(suites: seq<Suite>, plan: Plan, steps: seq<Step>, s: State, i: nat, j: nat, a: Suite,
      b: Suite)
    requires Reached(suites, plan, steps, s) && i < j < |s.runs|
    requires a in suites && b in suites && a.cli && b.cli && !IsSequence(a) && !IsSequence(b)
    requires s.runs[i].name == a.name && s.runs[j].name == b.name
    ensures End(s.runs[i]) <= s.runs[j].before
  {
    ReachedInv(suites, plan, steps, s);
    RunOfKind(suites, plan, s, s.runs[i], a);
    RunOfKind(suites, plan, s, s.runs[j], b);
  }

  /** While a CLI suite's child is running, every finished CLI child had ended before it began,
      and no other CLI child is running. */
  lemma RunningCliIsAlone(suites: seq<Suite>, plan: Plan, steps: seq<Step>, s: State, j: nat, k: nat)
    requires Reached(suites, plan, steps, s) && j < |s.jobs| && k < |s.jobs| && j < |plan.lanes| && k < |plan.lanes|
    requires s.jobs[j].Running? && s.jobs[j].act.Child? && s.jobs[k].Running? && s.jobs[k].act.Child?
    requires |s.jobs[j].results| < |plan.lanes[j]| && |s.jobs[k].results| < |plan.lanes[k]|
    requires var a := plan.lanes[j][|s.jobs[j].results|]; a.cli && !IsSequence(a)
    requires var b := plan.lanes[k][|s.jobs[k].results|]; b.cli || IsSequence(b)
    ensures j == k
    ensures forall r :: r in s.runs && r.job == j ==> End(r) <= s.jobs[j].act.before
  {
    ReachedInv(suites, plan, steps, s);
    LaneHolds(suites, j, |s.jobs[j].results|);
    LaneHolds(suites, k, |s.jobs[k].results|);
    assert GoodChild(plan, s, j);
  }

  /** While the sequence is being run no other suite has been taken. */
  lemma RunningSequenceIsAlone(suites: seq<Suite>, plan: Plan, steps: seq<Step>, s: State, k: nat)
    requires Reached(suites, plan, steps, s) && |s.jobs| > 0 && s.jobs[0].Running? && 1 <= k < |s.jobs|
    ensures s.jobs[k].Queued?
  {
    ReachedInv(suites, plan, steps, s);
    assert !Settled(s.jobs[0]);
  }

  lemma {:induction false} ThreadsBound(jobs: set<nat>, thread: map<nat, nat>, n: nat)
    requires forall j :: j in jobs ==> j in thread && thread[j] < n
    requires forall j, k :: j in jobs && k in jobs && j != k ==> thread[j] != thread[k]
    ensures |jobs| <= n
  {
    if n == 0 {
      assert jobs == {};
    } else if j :| j in jobs && thread[j] == n - 1 {
      ThreadsBound(jobs - {j}, thread, n - 1);
    } else {
      ThreadsBound(jobs, thread, n - 1);
    }
  }

  /** In every schedule at most `SUITE_WORKERS` pool lanes are active at once. */
  lemma AtMostWorkers(suites: seq<Suite>, plan: Plan, steps: seq<Step>, s: State)
    requires Reached(suites, plan, steps, s)
    ensures |set j: nat | 1 <= j < |s.jobs| && s.jobs[j].Running?| <= plan.workers
  {
    ReachedInv(suites, plan, steps, s);
    var active := set j: nat | 1 <= j < |s.jobs| && s.jobs[j].Running?;
    assert forall j :: j in active ==> GoodJob(plan, j, s.jobs[j]);
    ThreadsBound(active, map j | j in active :: s.jobs[j].thread, plan.workers);
  }

  // ---------------------------------------------------------------------------------
  // Rows and admission

  function InRows(rows: map<string, Row>): Suite -> bool { (suite: Suite) => suite.name in rows }

  /** The i-th row of the list is the i-th suite's. */
  ghost predicate RowByRow(suites: seq<Suite>, rows: map<string, Row>, list: seq<Row>) {
    |list| == |suites| && forall i :: 0 <= i < |suites| ==> suites[i].name in rows && list[i] == rows[suites[i].name]
  }

  lemma OneMoreRow(suites: seq<Suite>, rows: map<string, Row>, list: seq<Row>, suite: Suite)
    requires RowByRow(suites, rows, list) && suite.name in rows
    ensures RowByRow([suite] + suites, rows, [rows[suite.name]] + list)
  {
  }

  lemma {:induction false} RowsOfMap(suites: seq<Suite>, rows: map<string, Row>)
    ensures RowByRow(Keep(suites, InRows(rows)), rows, RowsOf(suites, rows))
  {
    if suites != [] {
      var kept, list := Keep(suites[1..], InRows(rows)), RowsOf(suites[1..], rows);
      RowsOfMap(suites[1..], rows);
      if suites[0].name in rows {
        OneMoreRow(kept, rows, list, suites[0]);
      } else {
        assert [] + kept == kept && [] + list == list;
      }
    }
  }

  /** A collected lane returned this row. */
  ghost predicate Collected(s: State, row: Row) {
    exists j, p :: HasRow(s, j, p) && RowAt(s, j, p) == row
  }

  /** The suites whose row some collected lane returned. */
  ghost function Finished(s: State): Suite -> bool { (suite: Suite) => FromLane(s, suite.name) }

  /** In every reached state the rows that `run_suites` would return are exactly the rows of the
      suites that finished in a collected lane, one for each, in inventory order. */
  lemma RowsFollowInventory(suites: seq<Suite>, plan: Plan, steps: seq<Step>, s: State)
    requires Reached(suites, plan, steps, s)
    ensures var kept, list := Keep(suites, Finished(s)), RowsOf(suites, s.rows);
      && |list| == |kept|
      && forall i :: 0 <= i < |kept| ==> list[i].name == kept[i].name && Collected(s, list[i])
  {
    ReachedInv(suites, plan, steps, s);
    forall name
      ensures name in s.rows <==> FromLane(s, name)
      ensures name in s.rows ==> s.rows[name].name == name && Collected(s, s.rows[name])
    {
      CollectedRow(s, name);
    }
    KeepSame(suites, InRows(s.rows), Finished(s));
    RowsOfMap(suites, s.rows);
  }

  lemma CollectedRow(s: State, name: string)
    requires Gathered(s)
    ensures name in s.rows <==> FromLane(s, name)
    ensures name in s.rows ==> s.rows[name].name == name && Collected(s, s.rows[name])
  {
    if j, p :| HasRow(s, j, p) && RowAt(s, j, p).name == name {
      assert s.rows[name] == RowAt(s, j, p);
    }
  }

  lemma {:induction false} RowsComplete(suites: seq<Suite>, rows: map<string, Row>)
    ensures |RowsOf(suites, rows)| <= |suites|
    ensures |RowsOf(suites, rows)| == |suites| <==> forall i :: 0 <= i < |suites| ==> suites[i].name in rows
  {
    if suites != [] {
      RowsComplete(suites[1..], rows);
      assert forall i :: 1 <= i < |suites| ==> suites[i] == suites[1..][i - 1];
    }
  }

  lemma {:induction false} RowsListed(suites: seq<Suite>, rows: map<string, Row>)
    ensures forall x :: x in suites && x.name in rows ==> rows[x.name] in RowsOf(suites, rows)
    ensures forall row :: row in RowsOf(suites, rows) ==>
      exists x :: x in suites && x.name in rows && row == rows[x.name]
  {
    if suites != [] {
      RowsListed(suites[1..], rows);
      forall x | x in suites && x.name in rows
        ensures rows[x.name] in RowsOf(suites, rows)
      {
        assert x == suites[0] || x in suites[1..];
      }
      forall row | row in RowsOf(suites, rows)
        ensures exists x :: x in suites && x.name in rows && row == rows[x.name]
      {
        if row in RowsOf(suites[1..], rows) {
          var x :| x in suites[1..] && x.name in rows && row == rows[x.name];
          assert x in suites;
        } else {
          assert suites[0] in suites;
        }
      }
    }
  }

  /** What `main` requires of the rows and errors. */
  ghost predicate Admits(suites: seq<Suite>, s: State) {
    && s.errors == 0 && |RowsOf(suites, s.rows)| == |suites|
    && forall row :: row in RowsOf(suites, s.rows) ==> row.passed
  }

  lemma NeverFailedHasRow(suites: seq<Suite>, plan: Plan, s: State, x: Suite)
    requires plan.lanes == Lanes(suites) && Inv(plan, s) && s.stage == Ended && !s.failed && x in suites
    ensures x.name in s.rows && s.rows[x.name].passed
  {
    LanesCover(suites, x);
    var j, p :| InLane(plan.lanes, j, p) && plan.lanes[j][p] == x;
    assert s.jobs[j].Returned? by {
      assert Settled(s.jobs[j]);
      assert j >= 1 && s.jobs[j].Raised? ==> Raises(s, j);
    }
    assert GoodJob(plan, j, s.jobs[j]) && Passes(s.jobs[j].results);
    assert HasRow(s, j, p) && RowAt(s, j, p).passed && RowAt(s, j, p).name == x.name;
  }

  lemma FailedHasEvidence(suites: seq<Suite>, plan: Plan, s: State)
    requires plan.lanes == Lanes(suites) && Inv(plan, s) && s.stage == Ended && s.failed && s.errors == 0
    ensures exists row :: row in RowsOf(suites, s.rows) && !row.passed
  {
    var j :| 0 <= j < |s.jobs| && Bad(s.jobs[j]);
    assert j < s.collected && Settled(s.jobs[j]);
    assert s.jobs[j].Raised? && j >= 1 ==> Raises(s, j);
    assert s.jobs[j].Returned? && GoodJob(plan, j, s.jobs[j]);
    var p :| 0 <= p < |s.jobs[j].results| && s.jobs[j].results[p].Some? && !s.jobs[j].results[p].value.passed;
    assert HasRow(s, j, p);
    LaneHolds(suites, j, p);
    RowsListed(suites, s.rows);
    assert s.rows[plan.lanes[j][p].name] == RowAt(s, j, p);
  }

  lemma NeverFailedIsAdmitted(suites: seq<Suite>, plan: Plan, s: State)
    requires plan.lanes == Lanes(suites) && Inv(plan, s) && s.stage == Ended && !s.failed
    ensures Admits(suites, s)
  {
    forall x | x in suites
      ensures x.name in s.rows && s.rows[x.name].passed
    {
      NeverFailedHasRow(suites, plan, s, x);
    }
    RowsComplete(suites, s.rows);
    RowsListed(suites, s.rows);
  }

  /** `main` admits the rows exactly when the failure event was never set: then every suite has
      its passing row, and otherwise a row failed, is missing or an error was recorded. */
  lemma AdmittedIffNeverFailed(suites: seq<Suite>, plan: Plan, steps: seq<Step>, s: State)
    requires Reached(suites, plan, steps, s) && s.stage == Ended
    ensures Admits(suites, s) <==> !s.failed
  {
    ReachedInv(suites, plan, steps, s);
    if !s.failed {
      NeverFailedIsAdmitted(suites, plan, s);
    } else if s.errors == 0 {
      FailedHasEvidence(suites, plan, s);
    }
  }

  // ---------------------------------------------------------------------------------
  // Elapsed times

  function Total(runs: seq<Run>): real {
    if runs == [] then 0.0 else Total(runs[..|runs| - 1]) + runs[|runs| - 1].elapsed
  }

  /** The time thread `t` spent waiting for children. */
  function Busy(runs: seq<Run>, t: nat): real {
    if runs == [] then 0.0
    else Busy(runs[..|runs| - 1], t) + (if runs[|runs| - 1].thread == t then runs[|runs| - 1].elapsed else 0.0)
  }

  function AllBusy(runs: seq<Run>, n: nat): real {
    if n == 0 then 0.0 else AllBusy(runs, n - 1) + Busy(runs, n - 1)
  }

  /** The time spent on suite `name`. */
  function SpentOn(runs: seq<Run>, name: string): real {
    if runs == [] then 0.0
    else SpentOn(runs[..|runs| - 1], name) + (if runs[|runs| - 1].name == name then runs[|runs| - 1].elapsed else 0.0)
  }

  lemma {:induction false} BusyWithin(runs: seq<Run>, t: nat, from: real, upto: real)
    requires InOrder(runs) && from <= upto
    requires forall i :: 0 <= i < |runs| && runs[i].thread == t ==> from <= runs[i].before && End(runs[i]) <= upto
    ensures Busy(runs, t) <= upto - from
  {
    if runs != [] {
      var before, r := runs[..|runs| - 1], runs[|runs| - 1];
      assert InOrder(before);
      BusyWithin(before, t, from, if r.thread == t then r.before else upto);
    }
  }

  lemma BusyAdds(runs: seq<Run>, r: Run, t: nat)
    ensures Busy(runs + [r], t) == Busy(runs, t) + (if r.thread == t then r.elapsed else 0.0)
  {
    assert (runs + [r])[..|runs|] == runs;
  }

  lemma {:induction false} AllBusyAdds(runs: seq<Run>, r: Run, n: nat)
    ensures AllBusy(runs + [r], n) == AllBusy(runs, n) + (if r.thread < n then r.elapsed else 0.0)
  {
    if n > 0 {
      AllBusyAdds(runs, r, n - 1);
      BusyAdds(runs, r, n - 1);
    }
  }

  lemma {:induction false} NoneBusy(n: nat)
    ensures AllBusy([], n) == 0.0
  {
    if n > 0 {
      NoneBusy(n - 1);
    }
  }

  lemma {:induction false} AllBusyIsTotal(runs: seq<Run>, n: nat)
    requires forall i :: 0 <= i < |runs| ==> runs[i].thread < n
    ensures AllBusy(runs, n) == Total(runs)
  {
    if runs == [] {
      NoneBusy(n);
    } else {
      var before, r := runs[..|runs| - 1], runs[|runs| - 1];
      assert runs == before + [r];
      AllBusyIsTotal(before, n);
      AllBusyAdds(before, r, n);
    }
  }

  lemma OneMore(n: nat, d: real, sum: real, last: real)
    requires n > 0 && sum <= (n - 1) as real * d && last <= d
    ensures sum + last <= n as real * d
  {
    var m := (n - 1) as real;
    assert n as real == m + 1.0;
    assert (m + 1.0) * d == m * d + d;
  }

  lemma {:induction false} AllBusyWithin(runs: seq<Run>, n: nat, from: real, upto: real, span: real)
    requires InOrder(runs) && from <= upto && span == upto - from
    requires forall i :: 0 <= i < |runs| && runs[i].thread < n ==> from <= runs[i].before && End(runs[i]) <= upto
    ensures AllBusy(runs, n) <= n as real * span
  {
    if n == 0 {
      assert n as real * span == 0.0;
    } else {
      AllBusyWithin(runs, n - 1, from, upto, span);
      BusyWithin(runs, n - 1, from, upto);
      OneMore(n, span, AllBusy(runs, n - 1), Busy(runs, n - 1));
    }
  }

  lemma Shares(workers: nat, pool: real, alone: real, all: real, busy: real, first: real)
    requires workers >= 1 && 0.0 <= pool && 0.0 <= alone && all == pool + alone
    requires busy <= workers as real * pool && first <= alone
    ensures busy + first <= workers as real * all
  {
    var w := workers as real;
    assert w * all == w * pool + w * alone;
    assert (w - 1.0) * alone >= 0.0;
  }

  lemma TotalOfThreads(runs: seq<Run>, workers: nat, start: real, middle: real, now: real, span: real)
    requires InOrder(runs) && start <= middle <= now && workers >= 1 && span == now - start
    requires forall i :: 0 <= i < |runs| ==> runs[i].thread < workers + 1
    requires forall i :: 0 <= i < |runs| && runs[i].thread < workers ==> middle <= runs[i].before && End(runs[i]) <= now
    requires forall i :: 0 <= i < |runs| && runs[i].thread == workers ==>
      start <= runs[i].before && End(runs[i]) <= middle
    ensures Total(runs) <= workers as real * span
  {
    var pool, alone := now - middle, middle - start;
    AllBusyIsTotal(runs, workers + 1);
    AllBusyWithin(runs, workers, middle, now, pool);
    BusyWithin(runs, workers, start, middle);
    Shares(workers, pool, alone, span, AllBusy(runs, workers), Busy(runs, workers));
  }

  lemma ThreadTimes(plan: Plan, s: State)
    requires Timed(plan, s) && s.stage != Alone
    ensures forall i :: 0 <= i < |s.runs| ==> s.runs[i].thread < plan.workers + 1
    ensures forall i :: 0 <= i < |s.runs| && s.runs[i].thread < plan.workers ==>
      s.openedAt <= s.runs[i].before && End(s.runs[i]) <= s.now
    ensures forall i :: 0 <= i < |s.runs| && s.runs[i].thread == plan.workers ==>
      plan.start <= s.runs[i].before && End(s.runs[i]) <= s.openedAt
  {
    assert forall i :: 0 <= i < |s.runs| ==> GoodRun(plan, s, s.runs[i]);
  }

  /** The children's times add up to no more than the workers' share of the time so far. */
  lemma TotalWithin(plan: Plan, s: State, time: real)
    requires Sound(plan) && Timed(plan, s) && s.stage != Alone && time == s.now - plan.start
    ensures Total(s.runs) <= plan.workers as real * time
  {
    ThreadTimes(plan, s);
    TotalOfThreads(s.runs, plan.workers, plan.start, s.openedAt, s.now, time);
  }

  /** `elapsed` of scripts/check_assurance.py, on times. */
  predicate ElapsedOk(time: real, limit: int) { 0.0 <= time <= limit as real }

  /** The durations that the receipt checker adds up, in inventory order. */
  function Durations(suites: seq<Suite>, rows: map<string, Row>): seq<real> {
    if suites == [] then []
    else
      var last := suites[|suites| - 1];
      Durations(suites[..|suites| - 1], rows)
        + (if last.name in rows && ElapsedOk(rows[last.name].elapsed, last.seconds)
           then [rows[last.name].elapsed] else [])
  }

  function Sum(times: seq<real>): real {
    if times == [] then 0.0 else Sum(times[..|times| - 1]) + times[|times| - 1]
  }

  function Max(times: seq<real>): real {
    if times == [] then 0.0
    else if |times| == 1 then times[0]
    else if Max(times[..|times| - 1]) >= times[|times| - 1] then Max(times[..|times| - 1]) else times[|times| - 1]
  }

  /** Each suite has a row, and within the suite's allowance. */
  predicate RowsWithin(suites: seq<Suite>, rows: map<string, Row>) {
    forall k :: 0 <= k < |suites| ==>
      suites[k].name in rows && ElapsedOk(rows[suites[k].name].elapsed, suites[k].seconds)
  }

  /** The loop of `validate_receipt_contract` over the suites: it refuses a row that is missing or
      over its allowance, and leaves it out of the sum. */
  method SuiteElapsed(suites: seq<Suite>, rows: map<string, Row>) returns (within: bool, durations: seq<real>)
    ensures within <==> RowsWithin(suites, rows)
    ensures durations == Durations(suites, rows)
  {
    within, durations := true, [];
    for k := 0 to |suites|
      invariant within <==> RowsWithin(suites[..k], rows)
      invariant durations == Durations(suites[..k], rows)
    {
      assert suites[..k + 1] == suites[..k] + [suites[k]] && suites[..k + 1][..k] == suites[..k];
      var suite := suites[k];
      if suite.name in rows && ElapsedOk(rows[suite.name].elapsed, suite.seconds) {
        durations := durations + [rows[suite.name].elapsed];
      } else {
        assert !RowsWithin(suites[..k + 1], rows) by { assert suites[..k + 1][k] == suite; }
        within := false;
      }
    }
    assert suites[..|suites|] == suites;
  }

  function Spent(suites: seq<Suite>, runs: seq<Run>): real {
    if suites == [] then 0.0 else Spent(suites[..|suites| - 1], runs) + SpentOn(runs, suites[|suites| - 1].name)
  }

  lemma {:induction false} RanIsSpent(runs: seq<Run>, name: string, elapsed: real)
    requires forall i :: 0 <= i < |runs| ==> runs[i].elapsed >= 0.0
    ensures SpentOn(runs, name) >= 0.0
    ensures Ran(runs, name, elapsed) ==> elapsed <= SpentOn(runs, name)
  {
    if runs != [] {
      var before := runs[..|runs| - 1];
      RanIsSpent(before, name, elapsed);
      if i :| 0 <= i < |runs| && runs[i].name == name && runs[i].elapsed == elapsed {
        if i < |before| {
          assert before[i] == runs[i];
          assert Ran(before, name, elapsed);
        }
      }
    }
  }

  lemma {:induction false} SpentAdds(suites: seq<Suite>, runs: seq<Run>, r: Run)
    requires DistinctNames(suites) && r.elapsed >= 0.0
    ensures Spent(suites, runs + [r]) == Spent(suites, runs) + (if HasName(suites, r.name) then r.elapsed else 0.0)
  {
    if suites != [] {
      var before, last := suites[..|suites| - 1], suites[|suites| - 1];
      SpentAdds(before, runs, r);
      assert (runs + [r])[..|runs|] == runs;
      if p :| 0 <= p < |before| && before[p].name == r.name {
        assert suites[p].name == r.name && suites[p].name != last.name;
      } else if last.name == r.name {
        assert suites[|suites| - 1].name == r.name;
      } else {
        assert forall p :: 0 <= p < |suites| ==>
          (suites[p].name == r.name ==> p < |before| && before[p].name == r.name);
      }
    }
  }

  lemma {:induction false} SpentOnNone(suites: seq<Suite>)
    ensures Spent(suites, []) == 0.0
  {
    if suites != [] {
      SpentOnNone(suites[..|suites| - 1]);
    }
  }

  /** Each run is of one suite at most. */
  lemma {:induction false} SpentWithinTotal(suites: seq<Suite>, runs: seq<Run>)
    requires DistinctNames(suites) && forall i :: 0 <= i < |runs| ==> runs[i].elapsed >= 0.0
    ensures Spent(suites, runs) <= Total(runs)
  {
    if runs == [] {
      SpentOnNone(suites);
    } else {
      var before, r := runs[..|runs| - 1], runs[|runs| - 1];
      assert runs == before + [r];
      SpentWithinTotal(suites, before);
      SpentAdds(suites, before, r);
    }
  }

  lemma {:induction false} DurationsWithin(suites: seq<Suite>, rows: map<string, Row>, runs: seq<Run>)
    requires forall name :: name in rows ==> Ran(runs, name, rows[name].elapsed)
    requires forall i :: 0 <= i < |runs| ==> runs[i].elapsed >= 0.0
    ensures Sum(Durations(suites, rows)) <= Spent(suites, runs)
  {
    if suites != [] {
      var before, last := suites[..|suites| - 1], suites[|suites| - 1];
      DurationsWithin(before, rows, runs);
      RanIsSpent(runs, last.name, if last.name in rows then rows[last.name].elapsed else 0.0);
      var durations := Durations(before, rows);
      if last.name in rows && ElapsedOk(rows[last.name].elapsed, last.seconds) {
        assert (durations + [rows[last.name].elapsed])[..|durations|] == durations;
      } else {
        assert durations + [] == durations;
      }
    }
  }

  lemma {:induction false} DurationsAre(suites: seq<Suite>, rows: map<string, Row>, time: real)
    requires forall name :: name in rows ==> rows[name].elapsed <= time
    ensures forall i :: 0 <= i < |Durations(suites, rows)| ==> Durations(suites, rows)[i] <= time
  {
    if suites != [] {
      DurationsAre(suites[..|suites| - 1], rows, time);
    }
  }

  lemma {:induction false} MaxWithin(times: seq<real>, time: real)
    requires 0.0 <= time && forall i :: 0 <= i < |times| ==> times[i] <= time
    ensures Max(times) <= time
  {
    if |times| > 1 {
      MaxWithin(times[..|times| - 1], time);
    }
  }

  lemma RowsAreRuns(plan: Plan, s: State)
    requires Inv(plan, s)
    ensures forall name :: name in s.rows ==> Ran(s.runs, name, s.rows[name].elapsed)
  {
    forall name | name in s.rows
      ensures Ran(s.runs, name, s.rows[name].elapsed)
    {
      var j, p :| HasRow(s, j, p) && RowAt(s, j, p).name == name;
      assert Truthful(plan.lanes[j], s.runs, s.jobs[j]);
    }
  }

  predicate AggregateOk(elapsed: real, durations: seq<real>, workers: nat) {
    elapsed >= Max(durations) && elapsed * workers as real >= Sum(durations)
  }

  /** All that scripts/check_assurance.py asks of the times in a receipt. */
  predicate TimesAccepted(suites: seq<Suite>, rows: map<string, Row>, workers: nat, elapsed: real, total: int) {
    ElapsedOk(elapsed, total) && RowsWithin(suites, rows) && AggregateOk(elapsed, Durations(suites, rows), workers)
  }

  predicate AllReported(suites: seq<Suite>, rows: map<string, Row>) {
    forall k :: 0 <= k < |suites| ==> suites[k].name in rows
  }

  /** The time of all suites together, if every one has its row. */
  function TimeOfAll(suites: seq<Suite>, rows: map<string, Row>): real
    requires AllReported(suites, rows)
  {
    if suites == [] then 0.0
    else TimeOfAll(suites[..|suites| - 1], rows) + rows[suites[|suites| - 1].name].elapsed
  }

  lemma {:induction false} MaxCovers(times: seq<real>, time: real)
    requires time >= 0.0
    ensures Max(times) <= time <==> forall i :: 0 <= i < |times| ==> times[i] <= time
  {
    if |times| > 1 {
      var before, last := times[..|times| - 1], times[|times| - 1];
      MaxCovers(before, time);
      assert times == before + [last];
    }
  }

  /** With every row within its allowance nothing is left out of the durations. */
  lemma {:induction false} DurationsAreAll(suites: seq<Suite>, rows: map<string, Row>)
    requires RowsWithin(suites, rows)
    ensures |Durations(suites, rows)| == |suites|
    ensures forall i :: 0 <= i < |suites| ==> Durations(suites, rows)[i] == rows[suites[i].name].elapsed
    ensures AllReported(suites, rows) && Sum(Durations(suites, rows)) == TimeOfAll(suites, rows)
  {
    if suites != [] {
      var before, last := suites[..|suites| - 1], suites[|suites| - 1];
      DurationsAreAll(before, rows);
      var durations, elapsed := Durations(before, rows), rows[last.name].elapsed;
      assert ElapsedOk(elapsed, last.seconds);
      assert Durations(suites, rows) == durations + [elapsed] && (durations + [elapsed])[..|durations|] == durations;
    }
  }

  /** What the receipt checker's arithmetic asks for: the run and every suite within their allowances,
      no suite longer than the run, and no more work than the workers had time for. */
  lemma AcceptedMeans(suites: seq<Suite>, rows: map<string, Row>, workers: nat, elapsed: real, total: int)
    ensures TimesAccepted(suites, rows, workers, elapsed, total) <==>
      && 0.0 <= elapsed <= total as real && AllReported(suites, rows)
      && (forall k :: 0 <= k < |suites| ==>
            0.0 <= rows[suites[k].name].elapsed <= suites[k].seconds as real && rows[suites[k].name].elapsed <= elapsed)
      && TimeOfAll(suites, rows) <= elapsed * workers as real
  {
    if 0.0 <= elapsed && RowsWithin(suites, rows) {
      DurationsAreAll(suites, rows);
      MaxCovers(Durations(suites, rows), elapsed);
    }
  }

  lemma RowsFitTime(plan: Plan, s: State)
    requires Inv(plan, s)
    ensures forall i :: 0 <= i < |s.runs| ==> s.runs[i].elapsed >= 0.0
    ensures forall name :: name in s.rows ==> s.rows[name].elapsed <= s.now - plan.start
  {
    assert forall i :: 0 <= i < |s.runs| ==> GoodRun(plan, s, s.runs[i]);
    RowsAreRuns(plan, s);
    forall name | name in s.rows
      ensures s.rows[name].elapsed <= s.now - plan.start
    {
      assert Ran(s.runs, name, s.rows[name].elapsed);
    }
  }

  lemma HonestMax(suites: seq<Suite>, plan: Plan, s: State)
    requires Inv(plan, s)
    ensures Max(Durations(suites, s.rows)) <= s.now - plan.start
  {
    RowsFitTime(plan, s);
    DurationsAre(suites, s.rows, s.now - plan.start);
    MaxWithin(Durations(suites, s.rows), s.now - plan.start);
  }

  lemma HonestSum(suites: seq<Suite>, plan: Plan, s: State)
    requires Inv(plan, s) && DistinctNames(suites)
    ensures Sum(Durations(suites, s.rows)) <= Total(s.runs)
  {
    RowsFitTime(plan, s);
    RowsAreRuns(plan, s);
    DurationsWithin(suites, s.rows, s.runs);
    SpentWithinTotal(suites, s.runs);
  }

  lemma Grows(w: real, a: real, b: real, sum: real)
    requires w >= 0.0 && a <= b && sum <= w * a
    ensures b * w >= sum
  {
    assert w * (b - a) >= 0.0;
  }

  lemma Covers(workers: nat, durations: seq<real>, time: real, elapsed: real)
    requires Max(durations) <= time && Sum(durations) <= workers as real * time && time <= elapsed
    ensures AggregateOk(elapsed, durations, workers)
  {
    Grows(workers as real, time, elapsed, Sum(durations));
  }

  /** What the checker needs, for the time that the run took. */
  lemma HonestTime(suites: seq<Suite>, plan: Plan, s: State, time: real)
    requires Sound(plan) && Inv(plan, s) && s.stage != Alone && DistinctNames(suites) && time == s.now - plan.start
    ensures Max(Durations(suites, s.rows)) <= time && Sum(Durations(suites, s.rows)) <= plan.workers as real * time
  {
    HonestMax(suites, plan, s);
    HonestSum(suites, plan, s);
    TotalWithin(plan, s, time);
  }

  lemma HonestState(suites: seq<Suite>, plan: Plan, s: State, durations: seq<real>, elapsed: real)
    requires Sound(plan) && Inv(plan, s) && s.stage != Alone && DistinctNames(suites)
    requires durations == Durations(suites, s.rows) && s.now - plan.start <= elapsed
    ensures AggregateOk(elapsed, durations, plan.workers)
  {
    var time := s.now - plan.start;
    HonestTime(suites, plan, s, time);
    Covers(plan.workers, durations, time, elapsed);
  }

  lemma RowTimes(plan: Plan, s: State)
    requires Inv(plan, s)
    ensures forall name :: name in s.rows ==> s.rows[name].elapsed >= 0.0
  {
    assert forall i :: 0 <= i < |s.runs| ==> GoodRun(plan, s, s.runs[i]);
    RowsAreRuns(plan, s);
    forall name | name in s.rows
      ensures s.rows[name].elapsed >= 0.0
    {
      assert Ran(s.runs, name, s.rows[name].elapsed);
    }
  }

  /** No suite took longer than its allowance. */
  predicate NoneOverran(suites: seq<Suite>, rows: map<string, Row>) {
    forall k :: 0 <= k < |suites| && suites[k].name in rows ==>
      rows[suites[k].name].elapsed <= suites[k].seconds as real
  }

  lemma TimesDecide(suites: seq<Suite>, rows: map<string, Row>, workers: nat, elapsed: real, total: int)
    requires elapsed >= 0.0 && forall name :: name in rows ==> rows[name].elapsed >= 0.0
    requires AggregateOk(elapsed, Durations(suites, rows), workers)
    ensures TimesAccepted(suites, rows, workers, elapsed, total) <==>
      elapsed <= total as real && AllReported(suites, rows) && NoneOverran(suites, rows)
  {
  }

  /** Exactly when a receipt written any time after an honest run passes the receipt checker's
      arithmetic: the whole run and each suite kept to their allowances and no row is missing.
      The two inequalities between the total and the suites' times hold in every schedule. */
  lemma HonestRunPasses(suites: seq<Suite>, plan: Plan, steps: seq<Step>, s: State, elapsed: real, total: int)
    requires Reached(suites, plan, steps, s) && s.stage == Ended && elapsed >= s.now - plan.start
    ensures AggregateOk(elapsed, Durations(suites, s.rows), plan.workers)
    ensures TimesAccepted(suites, s.rows, plan.workers, elapsed, total) <==>
      elapsed <= total as real && AllReported(suites, s.rows) && NoneOverran(suites, s.rows)
  {
    ReachedInv(suites, plan, steps, s);
    HonestState(suites, plan, s, Durations(suites, s.rows), elapsed);
    RowTimes(plan, s);
    TimesDecide(suites, s.rows, plan.workers, elapsed, total);
  }

  lemma UnfailedReports(suites: seq<Suite>, plan: Plan, s: State)
    requires plan.lanes == Lanes(suites) && Inv(plan, s) && s.stage == Ended && !s.failed
    ensures AllReported(suites, s.rows)
  {
    forall k | 0 <= k < |suites|
      ensures suites[k].name in s.rows
    {
      NeverFailedHasRow(suites, plan, s, suites[k]);
    }
  }

  /** A run that never set the failure event reports every suite, so the allowances decide. */
  lemma UnfailedRunPasses(suites: seq<Suite>, plan: Plan, steps: seq<Step>, s: State, elapsed: real, total: int)
    requires Reached(suites, plan, steps, s) && s.stage == Ended && elapsed >= s.now - plan.start && !s.failed
    ensures TimesAccepted(suites, s.rows, plan.workers, elapsed, total) <==>
      elapsed <= total as real && NoneOverran(suites, s.rows)
  {
    HonestRunPasses(suites, plan, steps, s, elapsed, total);
    ReachedInv(suites, plan, steps, s);
    UnfailedReports(suites, plan, s);
  }
}
