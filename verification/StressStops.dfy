/** What stops the suite runner: nothing starts after a failure or past the deadline, nothing
    passes late, and the rows are admitted exactly when no step of the schedule went wrong. */
module StressStops {
  import opened Wrappers
  import opened StressLanes
  import opened StressPool
  import opened StressInvariant
  import opened StressRows
  import opened StressTime
  import opened StressProofs

  /** A child of lane `j` that began at `before` is running. */
  predicate Waits(s: State, j: nat, before: real) {
    j < |s.jobs| && s.jobs[j].Running? && s.jobs[j].act == Child(before)
  }

  /** Once the event is set or the deadline is over, no step starts a child. */
  lemma NothingStarts(plan: Plan, s: State, step: Step, j: nat, before: real)
    requires Enabled(plan, s, step) && (s.failed || s.now >= plan.deadline)
    requires Waits(Apply(plan, s, step), j, before)
    ensures Waits(s, j, before)
  {
  }

  /** All children, running or gone, began by a time. */
  ghost predicate BegunBy(s: State, time: real) {
    && (forall i :: 0 <= i < |s.runs| ==> s.runs[i].before <= time)
    && forall j: nat, before :: Waits(s, j, before) ==> before <= time
  }

  lemma StepBegins(plan: Plan, s: State, step: Step, time: real)
    requires Enabled(plan, s, step) && BegunBy(s, time)
    ensures BegunBy(Apply(plan, s, step), if s.now > time then s.now else time)
    ensures s.failed || s.now >= plan.deadline ==> BegunBy(Apply(plan, s, step), time)
  {
    var t := Apply(plan, s, step);
    forall i | 0 <= i < |t.runs|
      ensures t.runs[i].before <= time
    {
      if i >= |s.runs| {
        assert Waits(s, t.runs[i].job, t.runs[i].before);
      }
    }
    forall j: nat, before | Waits(t, j, before)
      ensures Waits(s, j, before) || (before == s.now && !s.failed && s.now < plan.deadline)
    {
    }
  }

  lemma {:induction false} BegunByNow(plan: Plan, steps: seq<Step>, s: State)
    requires After(plan, steps) == Some(s)
    ensures BegunBy(s, s.now)
    decreases |steps|
  {
    if steps != [] {
      var last := |steps| - 1;
      var r := After(plan, steps[..last]).value;
      BegunByNow(plan, steps[..last], r);
      StepBegins(plan, r, steps[last], r.now);
      assert s.now >= r.now;
    }
  }

  /** The last of some more steps. */
  lemma LastOf(plan: Plan, steps: seq<Step>, more: seq<Step>, last: State) returns (r: State)
    requires more != [] && After(plan, steps + more) == Some(last)
    ensures After(plan, steps + more[..|more| - 1]) == Some(r)
    ensures Enabled(plan, r, more[|more| - 1]) && last == Apply(plan, r, more[|more| - 1])
  {
    var all, n := steps + more, |more| - 1;
    assert all[..|all| - 1] == steps + more[..n] && all[|all| - 1] == more[n];
    r := After(plan, all[..|all| - 1]).value;
  }

  /** Main result: in every schedule, every child there ever is began no later than the moment
      the failure event was set, and the event stays set. */
  lemma {:induction false} NoneBeginsAfterFailure(plan: Plan, steps: seq<Step>, more: seq<Step>, s: State, last: State)
    requires After(plan, steps) == Some(s) && After(plan, steps + more) == Some(last) && s.failed
    ensures BegunBy(last, s.now) && last.failed
    decreases |more|
  {
    if more == [] {
      assert steps + more == steps;
      BegunByNow(plan, steps, s);
    } else {
      var r := LastOf(plan, steps, more, last);
      NoneBeginsAfterFailure(plan, steps, more[..|more| - 1], s, r);
      StepBegins(plan, r, more[|more| - 1], s.now);
    }
  }

  ghost predicate BegunBefore(s: State, time: real) {
    && (forall i :: 0 <= i < |s.runs| ==> s.runs[i].before < time)
    && forall j: nat, before :: Waits(s, j, before) ==> before < time
  }

  lemma StepBeginsInTime(plan: Plan, s: State, step: Step)
    requires Enabled(plan, s, step) && BegunBefore(s, plan.deadline)
    ensures BegunBefore(Apply(plan, s, step), plan.deadline)
  {
    var t := Apply(plan, s, step);
    forall i | 0 <= i < |t.runs|
      ensures t.runs[i].before < plan.deadline
    {
      if i >= |s.runs| {
        assert Waits(s, t.runs[i].job, t.runs[i].before);
      }
    }
    forall j: nat, before | Waits(t, j, before)
      ensures before < plan.deadline
    {
      assert Waits(s, j, before) || (before == s.now && s.now < plan.deadline);
    }
  }

  /** ...and strictly before the deadline. */
  lemma {:induction false} NoneBeginsLate(plan: Plan, steps: seq<Step>, s: State)
    requires After(plan, steps) == Some(s)
    ensures BegunBefore(s, plan.deadline)
    decreases |steps|
  {
    if steps != [] {
      var last := |steps| - 1;
      NoneBeginsLate(plan, steps[..last], After(plan, steps[..last]).value);
      StepBeginsInTime(plan, After(plan, steps[..last]).value, steps[last]);
    }
  }

  // ---------------------------------------------------------------------------------
  // What goes wrong

  /** A suite reported as failed or too late, one called too late, or one that raises. */
  predicate Faulty(plan: Plan, s: State, step: Step) {
    match step
    case Report(_, ok) => !ok || s.now > plan.deadline
    case Call(_) => s.now >= plan.deadline
    case Break(_) => true
    case _ => false
  }

  ghost predicate FaultAt(plan: Plan, steps: seq<Step>, k: nat) {
    k < |steps| && After(plan, steps[..k]).Some? && Faulty(plan, After(plan, steps[..k]).value, steps[k])
  }

  ghost predicate SomeFault(plan: Plan, steps: seq<Step>) { exists k: nat :: FaultAt(plan, steps, k) }

  ghost predicate SomeRaised(s: State) { exists j :: 0 <= j < |s.jobs| && s.jobs[j].Raised? }

  lemma RaisedStays(plan: Plan, s: State, step: Step)
    requires Inv(plan, s) && Enabled(plan, s, step) && SomeRaised(s)
    ensures SomeRaised(Apply(plan, s, step))
  {
    var j :| 0 <= j < |s.jobs| && s.jobs[j].Raised?;
    SettledStays(plan, s, step);
    assert Apply(plan, s, step).jobs[j].Raised?;
  }

  lemma FaultyFails(plan: Plan, s: State, step: Step)
    requires Enabled(plan, s, step) && Faulty(plan, s, step)
    ensures Apply(plan, s, step).failed || SomeRaised(Apply(plan, s, step))
  {
    assert step.Break? ==> Apply(plan, s, step).jobs[step.j].Raised?;
  }

  lemma SoundGoesOn(plan: Plan, s: State, step: Step)
    requires Sound(plan) && Inv(plan, s) && Enabled(plan, s, step) && !Faulty(plan, s, step)
    requires !s.failed && !SomeRaised(s)
    ensures !Apply(plan, s, step).failed && !SomeRaised(Apply(plan, s, step))
  {
    if step.Collect? {
      var job := s.jobs[s.collected];
      assert job.Returned? && GoodJob(plan, s.collected, job) && Passes(job.results);
    }
  }

  lemma {:induction false} FailedIffFault(plan: Plan, steps: seq<Step>, s: State)
    requires Sound(plan) && After(plan, steps) == Some(s)
    ensures s.failed || SomeRaised(s) <==> SomeFault(plan, steps)
    decreases |steps|
  {
    if steps != [] {
      var n := |steps| - 1;
      var r, step := After(plan, steps[..n]).value, steps[n];
      FailedIffFault(plan, steps[..n], r);
      RunKeepsInv(plan, steps[..n], r);
      FaultsAdd(plan, steps, n);
      if SomeRaised(r) {
        RaisedStays(plan, r, step);
      } else if Faulty(plan, r, step) {
        FaultyFails(plan, r, step);
      } else if !r.failed {
        SoundGoesOn(plan, r, step);
      }
    }
  }

  lemma FaultsAdd(plan: Plan, steps: seq<Step>, n: nat)
    requires n == |steps| - 1 && After(plan, steps[..n]).Some?
    ensures SomeFault(plan, steps) <==>
      SomeFault(plan, steps[..n]) || Faulty(plan, After(plan, steps[..n]).value, steps[n])
  {
    assert forall k: nat :: k < n ==> steps[..n][..k] == steps[..k];
    if k: nat :| FaultAt(plan, steps[..n], k) {
      assert FaultAt(plan, steps, k);
    }
    if k: nat :| FaultAt(plan, steps, k) {
      assert k < n ==> FaultAt(plan, steps[..n], k);
    }
    assert Faulty(plan, After(plan, steps[..n]).value, steps[n]) ==> FaultAt(plan, steps, n);
  }

  /** Main result: a finished run admits its rows exactly when, in its schedule, every suite was
      called before the deadline, reported good by it, and raised nothing. */
  lemma AdmittedIffNoFault(suites: seq<Suite>, plan: Plan, steps: seq<Step>, s: State)
    requires Reached(suites, plan, steps, s) && s.stage == Ended
    ensures Admits(suites, s) <==> !SomeFault(plan, steps)
  {
    ReachedInv(suites, plan, steps, s);
    AdmittedIffNeverFailed(suites, plan, steps, s);
    FailedIffFault(plan, steps, s);
    if !s.failed && SomeRaised(s) {
      var j: nat :| j < |s.jobs| && s.jobs[j].Raised?;
      assert Raises(s, j);
    }
  }

  // ---------------------------------------------------------------------------------
  // Who goes first

  ghost predicate SequencePassed(s: State) {
    && |s.jobs| > 0 && s.jobs[0].Returned? && |s.jobs[0].results| > 0
    && s.jobs[0].results[0].Some? && s.jobs[0].results[0].value.passed
  }

  ghost predicate TakenInOrder(s: State) {
    forall j, k :: 0 <= j < k < |s.jobs| && s.jobs[j].Queued? ==> s.jobs[k].Queued?
  }

  ghost predicate PoolOpen(s: State) {
    s.stage == Pooled || exists k :: 1 <= k < |s.jobs| && !s.jobs[k].Queued?
  }

  lemma StepKeepsOrder(plan: Plan, s: State, step: Step)
    requires TakenInOrder(s) && Enabled(plan, s, step)
    ensures TakenInOrder(Apply(plan, s, step))
  {
  }

  lemma StepKeepsPass(plan: Plan, s: State, step: Step)
    requires Inv(plan, s) && (PoolOpen(s) ==> SequencePassed(s)) && Enabled(plan, s, step)
    ensures PoolOpen(Apply(plan, s, step)) ==> SequencePassed(Apply(plan, s, step))
  {
    var t := Apply(plan, s, step);
    SettledStays(plan, s, step);
    if PoolOpen(s) {
      assert t.jobs[0] == s.jobs[0];
    } else if PoolOpen(t) {
      assert step == Collect;
    }
  }

  /** In every schedule the lanes are handed out in order, longest shared suite first, and no
      suite but the sequence is taken unless the sequence passed. */
  lemma {:induction false} PoolOpensAfterPass(plan: Plan, steps: seq<Step>, s: State)
    requires Sound(plan) && After(plan, steps) == Some(s)
    ensures TakenInOrder(s) && (PoolOpen(s) ==> SequencePassed(s))
    decreases |steps|
  {
    if steps != [] {
      var n := |steps| - 1;
      var r := After(plan, steps[..n]).value;
      RunKeepsInv(plan, steps[..n], r);
      PoolOpensAfterPass(plan, steps[..n], r);
      StepKeepsOrder(plan, r, steps[n]);
      StepKeepsPass(plan, r, steps[n]);
    }
  }
}
