/** What holds over whole runs of the render lock. */
module LockRuns {
  import opened Wrappers
  import opened RenderLock
  import opened LockInvariant

  /** The state after some steps from the start, if each is enabled in its turn and every state
      on the way meets what the protocol relies on. */
  ghost function After(steps: seq<Step>): Option<State>
    decreases |steps|
  {
    if steps == [] then Some(Init)
    else
      var last := |steps| - 1;
      match After(steps[..last])
      case None => None
      case Some(s) => if Assumed(s) && Enabled(s, steps[last]) then Some(Apply(s, steps[last])) else None
  }

  lemma {:induction false} RunKeepsInv(steps: seq<Step>, s: State)
    requires After(steps) == Some(s)
    ensures Inv(s)
    decreases |steps|
  {
    if steps != [] {
      var last := |steps| - 1;
      var before := After(steps[..last]).value;
      RunKeepsInv(steps[..last], before);
      StepKeepsInv(before, steps[last]);
    }
  }

  /** Main result: in every reachable state the lock has one owner at most, and its file
      names that owner. */
  lemma MutualExclusion(steps: seq<Step>, s: State)
    requires After(steps) == Some(s)
    ensures Exclusive(s)
  {
    RunKeepsInv(steps, s);
    InvMeansExclusive(s);
  }

  predicate ReleasesToken(s: State, step: Step, t: Token) {
    && step.Call? && s.At(step.p, Dropping(t))
    && s.procs[step.p].role == Release(Some(t), false)
  }

  /** A release command given the session's token took its lock after the first steps. */
  ghost predicate ReleasedAfter(steps: seq<Step>, more: seq<Step>, t: Token) {
    exists k :: 0 <= k < |more| && ReleasesAt(steps, more, k, t)
  }

  ghost predicate ReleasesAt(steps: seq<Step>, more: seq<Step>, k: nat, t: Token)
    requires k < |more|
  {
    After(steps + more[..k]).Some? && ReleasesToken(After(steps + more[..k]).value, more[k], t)
  }

  lemma SessionHasFile(s: State, t: Token)
    requires Inv(s) && SessionOpen(s, t)
    ensures s.entry == Some(t)
  {
  }

  lemma SessionStep(s: State, step: Step, t: Token)
    requires Inv(s) && Assumed(s) && Enabled(s, step) && SessionOpen(s, t)
    ensures (SessionOpen(Apply(s, step), t) && Apply(s, step).entry == Some(t)) || ReleasesToken(s, step, t)
  {
    StepKeepsInv(s, step);
    if SessionOpen(Apply(s, step), t) {
      SessionHasFile(Apply(s, step), t);
    } else {
      SessionCloses(s, step, t);
    }
  }

  /** The last of some more steps. */
  lemma LastStep(steps: seq<Step>, more: seq<Step>, last: State) returns (s: State)
    requires more != [] && After(steps + more) == Some(last)
    ensures var n := |more| - 1;
      After(steps + more[..n]) == Some(s) && Assumed(s) && Enabled(s, more[n]) && last == Apply(s, more[n])
  {
    var all, n := steps + more, |more| - 1;
    assert all[..|all| - 1] == steps + more[..n] && all[|all| - 1] == more[n];
    s := After(all[..|all| - 1]).value;
  }

  lemma ReleasedEarlier(steps: seq<Step>, more: seq<Step>, t: Token)
    requires more != [] && ReleasedAfter(steps, more[..|more| - 1], t)
    ensures ReleasedAfter(steps, more, t)
  {
    var front := more[..|more| - 1];
    var k :| 0 <= k < |front| && ReleasesAt(steps, front, k, t);
    assert front[..k] == more[..k];
    assert ReleasesAt(steps, more, k, t);
  }

  /** A session lock outlives everything but a release command given its token: kills,
      reclaims, joined runs, other tokens and `--force-stale` all leave it in place. */
  lemma {:induction false} SessionLeavesOnlyByItsToken(steps: seq<Step>, more: seq<Step>, s: State, last: State,
      t: Token)
    requires After(steps) == Some(s) && After(steps + more) == Some(last)
    requires SessionOpen(s, t)
    ensures s.entry == Some(t)
    ensures (SessionOpen(last, t) && last.entry == Some(t)) || ReleasedAfter(steps, more, t)
    decreases |more|
  {
    RunKeepsInv(steps, s);
    SessionHasFile(s, t);
    if more == [] {
      assert steps + more == steps;
    } else {
      var front := more[..|more| - 1];
      var before := LastStep(steps, more, last);
      SessionLeavesOnlyByItsToken(steps, front, s, before, t);
      if ReleasedAfter(steps, front, t) {
        ReleasedEarlier(steps, more, t);
      } else {
        RunKeepsInv(steps + front, before);
        SessionStep(before, more[|more| - 1], t);
        assert ReleasesToken(before, more[|more| - 1], t) ==> ReleasesAt(steps, more, |more| - 1, t);
      }
    }
  }

  lemma SessionCloses(s: State, step: Step, t: Token)
    requires Inv(s) && Enabled(s, step)
    requires SessionOpen(s, t) && !SessionOpen(Apply(s, step), t)
    ensures ReleasesToken(s, step, t)
  {
    assert step.Call? && s.Alive(step.p) && ProcessOk(s, step.p);
  }

  /** While a session is open, nobody owns the lock but the session. Runs handed its token join it
      and own nothing. */
  lemma SessionExcludesRuns(steps: seq<Step>, s: State, t: Token, p: Pid, u: Token)
    requires After(steps) == Some(s) && SessionOpen(s, t)
    ensures !HoldsLock(s, p, u)
    ensures u != t ==> !SessionOpen(s, u)
  {
    MutualExclusion(steps, s);
    assert Owns(s, t);
    if SessionOpen(s, u) { assert Owns(s, u); }
  }
}
