/** When the children of the suite runner ran. */
module StressTime {
  import opened Wrappers
  import opened StressLanes
  import opened StressPool
  import opened StressInvariant

  function End(r: Run): real { r.before + r.elapsed }

  /** A run of a suite of its lane, within the time so far; the sequence's before the pool
      began, all others after. */
  ghost predicate GoodRun(plan: Plan, s: State, r: Run) {
    && plan.start <= r.before && 0.0 <= r.elapsed && End(r) <= s.now
    && r.job < |plan.lanes| && HasName(plan.lanes[r.job], r.name)
    && (if r.job == 0 then r.thread == plan.workers && (s.stage != Alone ==> End(r) <= s.openedAt)
        else r.thread < plan.workers && s.stage != Alone && s.openedAt <= r.before)
  }

  /** Runs of one thread, and runs of one lane, follow one another. */
  ghost predicate InOrder(runs: seq<Run>) {
    forall i, j :: 0 <= i < j < |runs| && (runs[i].thread == runs[j].thread || runs[i].job == runs[j].job) ==>
      End(runs[i]) <= runs[j].before
  }

  /** A child that is running began after every earlier one of its thread or its lane. */
  ghost predicate GoodChild(plan: Plan, s: State, j: nat)
    requires j < |s.jobs|
  {
    s.jobs[j].Running? && s.jobs[j].act.Child? ==>
      && plan.start <= s.jobs[j].act.before <= s.now
      && (j >= 1 ==> s.openedAt <= s.jobs[j].act.before)
      && forall i :: 0 <= i < |s.runs| && (s.runs[i].thread == s.jobs[j].thread || s.runs[i].job == j) ==>
           End(s.runs[i]) <= s.jobs[j].act.before
  }

  ghost predicate Timed(plan: Plan, s: State) {
    && plan.start <= s.openedAt <= s.now
    && (forall i :: 0 <= i < |s.runs| ==> GoodRun(plan, s, s.runs[i]))
    && (forall j :: 0 <= j < |s.jobs| ==> GoodChild(plan, s, j))
    && InOrder(s.runs)
  }

  lemma TickKeepsTimed(plan: Plan, s: State, d: real)
    requires Timed(plan, s) && d >= 0.0
    ensures Timed(plan, s.(now := s.now + d))
  {
    var t := s.(now := s.now + d);
    assert forall j :: 0 <= j < |t.jobs| ==> (GoodChild(plan, t, j) <== GoodChild(plan, s, j));
    assert forall i :: 0 <= i < |t.runs| ==> (GoodRun(plan, t, t.runs[i]) <== GoodRun(plan, s, s.runs[i]));
  }

  lemma SetKeepsTimed(plan: Plan, s: State, j: nat, t: State)
    requires Timed(plan, s) && j < |s.jobs| && |t.jobs| == |s.jobs| && GoodChild(plan, t, j)
    requires forall k :: 0 <= k < |s.jobs| && k != j ==> t.jobs[k] == s.jobs[k]
    requires t.now == s.now && t.openedAt == s.openedAt && t.stage == s.stage && t.runs == s.runs
    ensures Timed(plan, t)
  {
    assert forall k :: 0 <= k < |t.jobs| && k != j ==> (GoodChild(plan, t, k) <== GoodChild(plan, s, k));
    assert forall i :: 0 <= i < |t.runs| ==> (GoodRun(plan, t, t.runs[i]) <== GoodRun(plan, s, s.runs[i]));
  }

  lemma CallKeepsTimed(plan: Plan, s: State, j: nat)
    requires Shape(plan, s) && Timed(plan, s) && Enabled(plan, s, Call(j))
    ensures Timed(plan, CallSuite(plan, s, j))
  {
    var t := CallSuite(plan, s, j);
    assert forall i :: 0 <= i < |s.runs| ==> GoodRun(plan, s, s.runs[i]) && End(s.runs[i]) <= s.now;
    SetKeepsTimed(plan, s, j, t);
  }

  lemma RunIsGood(plan: Plan, s: State, j: nat)
    requires Shape(plan, s) && Staged(s) && Timed(plan, s)
    requires Enabled(plan, s, Break(j)) && s.jobs[j].act.Child?
    ensures GoodRun(plan, s, RunOf(plan, s, j)) && End(RunOf(plan, s, j)) == s.now
  {
    assert GoodChild(plan, s, j) && GoodJob(plan, j, s.jobs[j]);
    assert HasName(plan.lanes[j], plan.lanes[j][|s.jobs[j].results|].name);
    assert j == 0 ==> s.stage == Alone;
  }

  lemma LoggingKeepsTimed(plan: Plan, s: State, j: nat, t: State)
    requires Shape(plan, s) && Staged(s) && OwnThreads(s) && Timed(plan, s)
    requires Enabled(plan, s, Break(j)) && s.jobs[j].act.Child?
    requires |t.jobs| == |s.jobs| && (t.jobs[j].Running? ==> !t.jobs[j].act.Child?)
    requires forall k :: 0 <= k < |s.jobs| && k != j ==> t.jobs[k] == s.jobs[k]
    requires t.now == s.now && t.openedAt == s.openedAt && t.stage == s.stage && t.runs == s.runs + [RunOf(plan, s, j)]
    ensures Timed(plan, t)
  {
    var run := RunOf(plan, s, j);
    RunIsGood(plan, s, j);
    assert GoodChild(plan, s, j);
    forall k | 0 <= k < |t.jobs|
      ensures GoodChild(plan, t, k)
    {
      assert GoodChild(plan, s, k);
      if k != j && t.jobs[k].Running? {
        assert t.jobs[k].thread != run.thread;
      }
    }
    forall i | 0 <= i < |t.runs|
      ensures GoodRun(plan, t, t.runs[i])
    {
      assert i < |s.runs| ==> GoodRun(plan, s, s.runs[i]);
    }
  }

  /** Collecting changes no job and no run; only the sequence's result opens the pool. */
  lemma CollectKeepsTimed(plan: Plan, s: State, t: State)
    requires Shape(plan, s) && Timed(plan, s) && t.jobs == s.jobs
    requires t.runs == s.runs && t.now == s.now && t.stage != Alone
    requires t.openedAt == if s.stage == Alone then s.now else s.openedAt
    requires s.stage == Alone ==> forall k :: 0 <= k < |s.jobs| ==> !s.jobs[k].Running?
    ensures Timed(plan, t)
  {
    forall i | 0 <= i < |t.runs|
      ensures GoodRun(plan, t, t.runs[i])
    {
      assert GoodRun(plan, s, s.runs[i]);
    }
    forall j | 0 <= j < |t.jobs|
      ensures GoodChild(plan, t, j)
    {
      assert GoodChild(plan, s, j);
    }
  }

  /** Steps that neither start nor end a child. */
  lemma QuietKeepsTimed(plan: Plan, s: State, step: Step)
    requires Timed(plan, s) && Enabled(plan, s, step)
    requires step.Take? || step.Report? || step.Return? || (step.Break? && !s.jobs[step.j].act.Child?)
    ensures Timed(plan, Apply(plan, s, step))
  {
    SetKeepsTimed(plan, s, step.j, Apply(plan, s, step));
  }

  lemma CollectingKeepsTimed(plan: Plan, s: State)
    requires Shape(plan, s) && Staged(s) && Timed(plan, s) && Enabled(plan, s, Collect)
    ensures Timed(plan, Apply(plan, s, Collect))
  {
    CollectKeepsTimed(plan, s, Apply(plan, s, Collect));
  }

  lemma StepKeepsTimed(plan: Plan, s: State, step: Step)
    requires Shape(plan, s) && Staged(s) && OwnThreads(s) && Timed(plan, s) && Enabled(plan, s, step)
    ensures Timed(plan, Apply(plan, s, step))
  {
    match step
    case Tick(d) => TickKeepsTimed(plan, s, d);
    case Call(j) => CallKeepsTimed(plan, s, j);
    case Collect => CollectingKeepsTimed(plan, s);
    case Exit(j) => LoggingKeepsTimed(plan, s, j, Apply(plan, s, step));
    case Break(j) =>
      if s.jobs[j].act.Child? {
        LoggingKeepsTimed(plan, s, j, Apply(plan, s, step));
      } else {
        QuietKeepsTimed(plan, s, step);
      }
    case _ => QuietKeepsTimed(plan, s, step);
  }

  // ---------------------------------------------------------------------------------
  // Rows report runs

  ghost predicate Ran(runs: seq<Run>, name: string, elapsed: real) {
    exists i :: 0 <= i < |runs| && runs[i].name == name && runs[i].elapsed == elapsed
  }

  ghost predicate RowsRan(runs: seq<Run>, results: seq<Option<Row>>) {
    forall p :: 0 <= p < |results| && results[p].Some? ==> Ran(runs, results[p].value.name, results[p].value.elapsed)
  }

  /** What a lane has reported, and is about to report, ran. */
  ghost predicate Truthful(lane: Lane, runs: seq<Run>, job: Job) {
    && (job.Running? || job.Returned? ==> RowsRan(runs, job.results))
    && (job.Running? && job.act.Past? && |job.results| < |lane| ==>
         Ran(runs, lane[|job.results|].name, job.act.elapsed))
  }

  /** Every row has the name and time of a run. */
  ghost predicate Reported(plan: Plan, s: State) {
    |s.jobs| == |plan.lanes| && forall j :: 0 <= j < |s.jobs| ==> Truthful(plan.lanes[j], s.runs, s.jobs[j])
  }

  lemma MoreRan(runs: seq<Run>, run: Run)
    ensures forall name, elapsed :: Ran(runs, name, elapsed) ==> Ran(runs + [run], name, elapsed)
    ensures Ran(runs + [run], run.name, run.elapsed)
  {
    forall name, elapsed | Ran(runs, name, elapsed)
      ensures Ran(runs + [run], name, elapsed)
    {
      var i :| 0 <= i < |runs| && runs[i].name == name && runs[i].elapsed == elapsed;
      assert (runs + [run])[i] == runs[i];
    }
    assert (runs + [run])[|runs|] == run;
  }

  lemma MoreTruthful(lane: Lane, runs: seq<Run>, run: Run, job: Job)
    requires Truthful(lane, runs, job)
    ensures Truthful(lane, runs + [run], job)
  {
    MoreRan(runs, run);
  }

  lemma SetKeepsReported(plan: Plan, s: State, j: nat, t: State)
    requires Reported(plan, s) && j < |s.jobs| && |t.jobs| == |s.jobs| && t.runs == s.runs
    requires forall k :: 0 <= k < |s.jobs| && k != j ==> t.jobs[k] == s.jobs[k]
    requires Truthful(plan.lanes[j], t.runs, t.jobs[j])
    ensures Reported(plan, t)
  {
    assert forall k :: 0 <= k < |t.jobs| && k != j ==>
      (Truthful(plan.lanes[k], t.runs, t.jobs[k]) <== Truthful(plan.lanes[k], s.runs, s.jobs[k]));
  }

  lemma LoggingKeepsReported(plan: Plan, s: State, j: nat, run: Run, t: State)
    requires Reported(plan, s) && j < |s.jobs| && |t.jobs| == |s.jobs| && t.runs == s.runs + [run]
    requires forall k :: 0 <= k < |s.jobs| && k != j ==> t.jobs[k] == s.jobs[k]
    requires Truthful(plan.lanes[j], t.runs, t.jobs[j])
    ensures Reported(plan, t)
  {
    forall k | 0 <= k < |t.jobs|
      ensures Truthful(plan.lanes[k], t.runs, t.jobs[k])
    {
      if k != j {
        MoreTruthful(plan.lanes[k], s.runs, run, s.jobs[k]);
      }
    }
  }

  lemma ExitKeepsReported(plan: Plan, s: State, j: nat)
    requires Reported(plan, s) && Enabled(plan, s, Exit(j))
    ensures Reported(plan, ExitChild(plan, s, j))
  {
    var t := ExitChild(plan, s, j);
    MoreTruthful(plan.lanes[j], s.runs, RunOf(plan, s, j), s.jobs[j]);
    MoreRan(s.runs, RunOf(plan, s, j));
    LoggingKeepsReported(plan, s, j, RunOf(plan, s, j), t);
  }

  lemma ReportKeepsReported(plan: Plan, s: State, j: nat, ok: bool)
    requires Reported(plan, s) && Enabled(plan, s, Report(j, ok))
    ensures Reported(plan, ReportSuite(plan, s, j, ok))
  {
    assert Truthful(plan.lanes[j], s.runs, s.jobs[j]);
    SetKeepsReported(plan, s, j, ReportSuite(plan, s, j, ok));
  }

  lemma StepKeepsReported(plan: Plan, s: State, step: Step)
    requires Shape(plan, s) && Reported(plan, s) && Enabled(plan, s, step)
    ensures Reported(plan, Apply(plan, s, step))
  {
    var t := Apply(plan, s, step);
    match step
    case Tick(_) =>
    case Collect =>
    case Exit(j) => ExitKeepsReported(plan, s, j);
    case Report(j, ok) => ReportKeepsReported(plan, s, j, ok);
    case Break(j) =>
      if s.jobs[j].act.Child? {
        LoggingKeepsReported(plan, s, j, RunOf(plan, s, j), t);
      } else {
        SetKeepsReported(plan, s, j, t);
      }
    case Take(j, _) => SetKeepsReported(plan, s, j, t);
    case Call(j) => SetKeepsReported(plan, s, j, t);
    case Return(j) => SetKeepsReported(plan, s, j, t);
  }
}
