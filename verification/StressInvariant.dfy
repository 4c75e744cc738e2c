/** What every step of the suite runner keeps. */
module StressInvariant {
  import opened Wrappers
  import opened StressLanes
  import opened StressPool

  ghost predicate Sound(plan: Plan) {
    |plan.lanes| >= 2 && |plan.lanes[0]| == 1 && OnePlaceEach(plan.lanes) && plan.workers >= 1
  }

  /** Results are those of the lane's first suites. */
  ghost predicate Fits(lane: Lane, results: seq<Option<Row>>) {
    |results| <= |lane| && forall p :: 0 <= p < |results| && results[p].Some? ==> results[p].value.name == lane[p].name
  }

  ghost predicate GoodJob(plan: Plan, j: nat, job: Job)
    requires j < |plan.lanes|
  {
    && (job.Running? ==>
          && Fits(plan.lanes[j], job.results)
          && (job.act != Calling ==> |job.results| < |plan.lanes[j]|)
          && (if j == 0 then job.thread == plan.workers else job.thread < plan.workers))
    && (job.Returned? ==> Fits(plan.lanes[j], job.results) && |job.results| == |plan.lanes[j]|)
  }

  ghost predicate OwnThreads(s: State) {
    forall j, k :: 0 <= j < k < |s.jobs| && s.jobs[j].Running? && s.jobs[k].Running? ==>
      s.jobs[j].thread != s.jobs[k].thread
  }

  ghost predicate Staged(s: State) {
    && (s.stage == Alone ==>
          s.collected == 0 && |s.jobs| > 0 && !s.jobs[0].Queued? && forall k :: 1 <= k < |s.jobs| ==> s.jobs[k].Queued?)
    && (s.stage == Pooled ==> 1 <= s.collected < |s.jobs|)
    && (s.stage == Ended ==> 1 <= s.collected && (s.collected == |s.jobs| || s.failed))
    && (s.stage == Crashed ==> 1 <= s.collected)
    && ((s.stage == Ended && s.collected < |s.jobs|) || s.stage == Crashed ==>
          forall k :: 1 <= k < |s.jobs| ==> s.jobs[k].Queued?)
  }

  ghost predicate Shape(plan: Plan, s: State) {
    && |s.jobs| == |plan.lanes| && s.collected <= |s.jobs|
    && (forall j :: 0 <= j < s.collected ==> Settled(s.jobs[j]))
    && (forall j :: 0 <= j < |s.jobs| ==> GoodJob(plan, j, s.jobs[j]))
  }

  lemma ResultFits(lane: Lane, results: seq<Option<Row>>, result: Option<Row>)
    requires Fits(lane, results) && |results| < |lane|
    requires result.Some? ==> result.value.name == lane[|results|].name
    ensures Fits(lane, results + [result])
  {
  }

  lemma SetKeepsShape(plan: Plan, s: State, j: nat, job: Job)
    requires Shape(plan, s) && j < |s.jobs| && GoodJob(plan, j, job) && (Settled(job) || !Settled(s.jobs[j]))
    ensures Shape(plan, SetJob(s, j, job))
  {
  }

  lemma CallKeepsShape(plan: Plan, s: State, j: nat)
    requires Shape(plan, s) && Enabled(plan, s, Call(j))
    ensures Shape(plan, CallSuite(plan, s, j))
  {
    ResultFits(plan.lanes[j], s.jobs[j].results, None);
    SetKeepsShape(plan, s, j, CallSuite(plan, s, j).jobs[j]);
  }

  lemma ReportKeepsShape(plan: Plan, s: State, j: nat, ok: bool)
    requires Shape(plan, s) && Enabled(plan, s, Report(j, ok))
    ensures Shape(plan, ReportSuite(plan, s, j, ok))
  {
    var row := Row(plan.lanes[j][|s.jobs[j].results|].name, s.jobs[j].act.elapsed, ok && s.now <= plan.deadline);
    ResultFits(plan.lanes[j], s.jobs[j].results, Some(row));
    SetKeepsShape(plan, s, j, ReportSuite(plan, s, j, ok).jobs[j]);
  }

  lemma StepKeepsShape(plan: Plan, s: State, step: Step)
    requires Sound(plan) && Shape(plan, s) && Staged(s) && Enabled(plan, s, step)
    ensures Shape(plan, Apply(plan, s, step))
  {
    var t := Apply(plan, s, step);
    match step
    case Tick(_) =>
    case Collect =>
    case Call(j) => CallKeepsShape(plan, s, j);
    case Report(j, ok) => ReportKeepsShape(plan, s, j, ok);
    case Take(j, _) => SetKeepsShape(plan, s, j, t.jobs[j]);
    case Exit(j) => SetKeepsShape(plan, s, j, t.jobs[j]);
    case Break(j) => SetKeepsShape(plan, s, j, t.jobs[j]);
    case Return(j) => SetKeepsShape(plan, s, j, t.jobs[j]);
  }

  lemma StepKeepsStaged(plan: Plan, s: State, step: Step)
    requires Sound(plan) && Shape(plan, s) && Staged(s) && Enabled(plan, s, step)
    ensures Staged(Apply(plan, s, step))
  {
  }

  lemma StepKeepsThreads(plan: Plan, s: State, step: Step)
    requires Sound(plan) && Shape(plan, s) && OwnThreads(s) && Enabled(plan, s, step)
    ensures OwnThreads(Apply(plan, s, step))
  {
  }

  // ---------------------------------------------------------------------------------
  // The failure event and its evidence

  ghost predicate Passes(results: seq<Option<Row>>) {
    forall p :: 0 <= p < |results| ==> results[p].Some? && results[p].value.passed
  }

  ghost predicate Fails(results: seq<Option<Row>>) {
    exists p :: 0 <= p < |results| && results[p].Some? && !results[p].value.passed
  }

  ghost predicate Bad(job: Job) {
    job.Raised? || ((job.Running? || job.Returned?) && Fails(job.results))
  }

  ghost predicate SomeBad(s: State) { exists j :: 0 <= j < |s.jobs| && Bad(s.jobs[j]) }

  /** While nothing failed every result is a passing row. The event is set only over a failed
      row or a raised lane. */
  ghost predicate Blamed(s: State) {
    && (!s.failed ==> forall j :: 0 <= j < |s.jobs| && (s.jobs[j].Running? || s.jobs[j].Returned?) ==>
         Passes(s.jobs[j].results))
    && (s.failed ==> SomeBad(s))
  }

  ghost predicate Raises(s: State, j: nat) { 1 <= j < s.collected && j < |s.jobs| && s.jobs[j].Raised? }

  /** Errors are counted for the raised lanes that were collected, and set the event. */
  ghost predicate Counted(s: State) {
    && (s.errors > 0 <==> exists j: nat :: Raises(s, j))
    && (s.errors > 0 ==> s.failed)
    && (s.stage != Crashed && s.collected >= 1 && |s.jobs| > 0 ==> s.jobs[0].Returned?)
  }

  lemma SetKeepsBad(s: State, j: nat, job: Job)
    requires j < |s.jobs| && SomeBad(s) && (Bad(s.jobs[j]) ==> Bad(job))
    ensures SomeBad(SetJob(s, j, job))
  {
    var i :| 0 <= i < |s.jobs| && Bad(s.jobs[i]);
    assert i != j ==> SetJob(s, j, job).jobs[i] == s.jobs[i];
    assert Bad(SetJob(s, j, job).jobs[i]);
  }

  lemma MoreKeepsFails(results: seq<Option<Row>>, result: Option<Row>)
    ensures Fails(results) ==> Fails(results + [result])
    ensures result.Some? && !result.value.passed ==> Fails(results + [result])
    ensures Passes(results) && result.Some? && result.value.passed ==> Passes(results + [result])
  {
    if p :| 0 <= p < |results| && results[p].Some? && !results[p].value.passed {
      assert (results + [result])[p] == results[p];
    }
    assert (results + [result])[|results|] == result;
  }

  lemma CallKeepsBlamed(plan: Plan, s: State, j: nat)
    requires Blamed(s) && Enabled(plan, s, Call(j))
    ensures Blamed(CallSuite(plan, s, j))
  {
    var job, t := s.jobs[j], CallSuite(plan, s, j);
    if plan.deadline - s.now <= 0.0 {
      assert Bad(t.jobs[j]);
    } else if s.failed {
      MoreKeepsFails(job.results, None);
      SetKeepsBad(s, j, job.(results := job.results + [None]));
    }
  }

  lemma ReportKeepsBlamed(plan: Plan, s: State, j: nat, ok: bool)
    requires Blamed(s) && Enabled(plan, s, Report(j, ok))
    ensures Blamed(ReportSuite(plan, s, j, ok))
  {
    var job, t := s.jobs[j], ReportSuite(plan, s, j, ok);
    var row := Row(plan.lanes[j][|job.results|].name, job.act.elapsed, ok && s.now <= plan.deadline);
    MoreKeepsFails(job.results, Some(row));
    if !row.passed {
      assert Bad(t.jobs[j]);
    } else if s.failed {
      SetKeepsBad(s, j, t.jobs[j]);
      assert SomeBad(SetJob(s, j, t.jobs[j]));
    }
  }

  lemma PlainKeepsBlamed(plan: Plan, s: State, step: Step)
    requires Blamed(s) && Enabled(plan, s, step) && (step.Take? || step.Exit? || step.Break? || step.Return?)
    ensures Blamed(Apply(plan, s, step))
  {
    var t := Apply(plan, s, step);
    var j := match step case Take(j, _) => j case Exit(j) => j case Break(j) => j case Return(j) => j;
    if s.failed {
      SetKeepsBad(s, j, t.jobs[j]);
      assert t.jobs == SetJob(s, j, t.jobs[j]).jobs;
    }
  }

  lemma CollectKeepsBlamed(plan: Plan, s: State)
    requires Sound(plan) && Shape(plan, s) && Staged(s) && Blamed(s) && Enabled(plan, s, Collect)
    ensures Blamed(Apply(plan, s, Collect))
  {
    var t := Apply(plan, s, Collect);
    assert t.jobs == s.jobs;
    if s.failed {
      assert SomeBad(t);
    } else if s.stage == Pooled && t.failed {
      assert Bad(t.jobs[s.collected]);
    }
  }

  lemma StepKeepsBlamed(plan: Plan, s: State, step: Step)
    requires Sound(plan) && Shape(plan, s) && Staged(s) && Blamed(s) && Enabled(plan, s, step)
    ensures Blamed(Apply(plan, s, step))
  {
    match step
    case Tick(_) => assert SomeBad(Apply(plan, s, step)) <==> SomeBad(s);
    case Call(j) => CallKeepsBlamed(plan, s, j);
    case Report(j, ok) => ReportKeepsBlamed(plan, s, j, ok);
    case Collect => CollectKeepsBlamed(plan, s);
    case _ => PlainKeepsBlamed(plan, s, step);
  }
}
