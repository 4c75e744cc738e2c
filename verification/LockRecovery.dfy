/** When the render lock of an owner that is gone can be taken again. */
module LockRecovery {
  import opened Wrappers
  import opened RenderLock
  import opened LockInvariant
  import opened LockRuns
  import opened LockHypotheses

  /** A creator killed between opening the file and writing its record. */
  predicate Wedged(s: State, t: Token) {
    s.entry == Some(t) && t !in s.records && t in s.issued && !s.At(s.issued[t], Writing(t))
  }

  /** A lock file that no run or session owns and that nobody is about to write. */
  ghost predicate Orphaned(s: State, t: Token) {
    && s.entry == Some(t) && !Owns(s, t) && (t in s.records ==> !s.records[t].held)
    && forall p :: !s.At(p, Writing(t))
  }

  /** Some steps, within the assumptions if asked, free the lock. */
  ghost predicate CanComeFree(within: bool, s: State) {
    exists steps, last :: Leads(within, s, steps, last) && last.entry.None?
  }

  lemma WedgedIsCalm(s: State, t: Token)
    requires Inv(s) && Wedged(s, t)
    ensures Calm(s) && Assumed(s)
  {
    forall p | s.Alive(p)
      ensures Window(s.procs[p].pc).None?
    {
      assert ProcessOk(s, p);
    }
    CalmIsAssumed(s);
  }

  lemma WedgedStays(s: State, step: Step, t: Token)
    requires Inv(s) && Wedged(s, t) && Enabled(s, step)
    ensures Wedged(Apply(s, step), t)
  {
    assert step.Call? ==> ProcessOk(s, step.p);
  }

  lemma WedgedHasNoOwner(s: State, t: Token, u: Token)
    requires Inv(s) && Wedged(s, t)
    ensures !Owns(s, u)
  {
    InvMeansExclusive(s);
  }

  /** Nobody can parse the empty file, so nobody removes it and nobody owns the lock again,
      whatever steps are taken. */
  lemma {:induction false} WedgedForGood(s: State, more: seq<Step>, last: State, t: Token, u: Token)
    requires Inv(s) && Wedged(s, t) && Leads(false, s, more, last)
    ensures Wedged(last, t) && !Owns(last, u)
    decreases |more|
  {
    if more == [] {
      WedgedHasNoOwner(s, t, u);
    } else {
      WedgedIsCalm(s, t);
      WedgedStays(s, more[0], t);
      StepKeepsInv(s, more[0]);
      WedgedForGood(Apply(s, more[0]), more[1..], last, t, u);
    }
  }

  /** The protocol reaches such a state: a run is killed between its create and its write. */
  lemma WedgeReached() returns (steps: seq<Step>, last: State, t: Token)
    ensures After(steps) == Some(last) && Wedged(last, t)
  {
    var p := 0;
    t := 0;
    var lent := Init.(issued := map[t := p]);
    var made := lent.(entry := Some(t));
    CalmIsAssumed(Init);
    CalmWithRun(Init, p, Reading);
    CalmWithRun(lent, p, Opening(t));
    CalmWithRun(made, p, Writing(t));
    RunSpawns(Init, p);
    steps, last := Extend(true, Init, [], Init, Spawn(p, Run(None)));
    RunDraws(Init, p, t);
    steps, last := Extend(true, Init, steps, last, Call(p, t, false));
    RunOpens(lent, p, t, t + 1);
    steps, last := Extend(true, Init, steps, last, Call(p, t + 1, false));
    steps, last := Extend(true, Init, steps, last, Die(p));
    LeadingIsRunning([], Init, steps, last);
    assert [] + steps == steps;
  }

  /** A process already about to unlink the lock only has to go on. */
  lemma RemoverFrees(within: bool, s: State, p: Pid) returns (steps: seq<Step>, last: State)
    requires s.Alive(p) && Window(s.procs[p].pc).Some? && (within ==> Assumed(s))
    ensures Leads(within, s, steps, last) && last.entry.None?
  {
    var n := NewName(s.issued.Keys);
    steps, last := Extend(within, s, [], s, Call(p, n, false));
  }

  lemma RunWindowIsAssumed(s: State, p: Pid, r: Record)
    requires Calm(s)
    ensures Assumed(WithRun(s, p, Reclaiming(r)))
  {
    var s' := WithRun(s, p, Reclaiming(r));
    forall q, t
      ensures (InWindow(s', q, t) ==> q == p) && !s'.At(q, Dropping(t))
    {
      assert q != p && s'.Alive(q) ==> s.Alive(q) && Window(s.procs[q].pc).None?;
    }
  }

  /** A new run takes a dead run's written lock out of the way. */
  lemma NewRunFrees(within: bool, s: State, r: Record) returns (steps: seq<Step>, last: State)
    requires s.entry == Some(r.token) && SeenOk(s, r) && r.pid in s.procs && !s.Alive(r.pid) && Calm(s)
    ensures Leads(within, s, steps, last) && last.entry.None?
  {
    var middle, p, more;
    steps, middle, p := NewRunReclaims(within, s, r);
    RunWindowIsAssumed(s, p, r);
    more, last := RemoverFrees(within, middle, p);
    LeadsThenLeads(within, s, steps, middle, more, last);
    steps := steps + more;
  }

  /** A stranger under the dead owner's pid only delays this: once it is gone the lock is stale. */
  lemma WrittenLockComesFree(within: bool, s: State, t: Token) returns (steps: seq<Step>, last: State)
    requires Inv(s) && Orphaned(s, t) && t in s.records && (within ==> Assumed(s))
    ensures Leads(within, s, steps, last) && last.entry.None?
  {
    var r := s.records[t];
    if p :| s.Alive(p) && Window(s.procs[p].pc).Some? {
      steps, last := RemoverFrees(within, s, p);
    } else if s.Alive(r.pid) {
      var gone, more;
      steps, gone := Extend(within, s, [], s, Die(r.pid));
      assert Calm(gone);
      more, last := NewRunFrees(within, gone, r);
      LeadsThenLeads(within, s, steps, gone, more, last);
      steps := steps + more;
    } else {
      steps, last := NewRunFrees(within, s, r);
    }
  }

  lemma OrphanComesFree(within: bool, s: State, t: Token)
    requires Inv(s) && Orphaned(s, t) && (within ==> Assumed(s))
    ensures CanComeFree(within, s) <==> t in s.records
  {
    if t in s.records {
      var steps, last := WrittenLockComesFree(within, s, t);
    } else {
      forall steps, last | Leads(within, s, steps, last)
        ensures last.entry.Some?
      {
        if within {
          LeadsAnyway(s, steps, last);
        }
        WedgedForGood(s, steps, last, t, t);
      }
    }
  }

  /** Main result: in every reachable state, a lock that its run or its creator left behind can
      come free again exactly if its record was written, and then it can do so within the
      assumptions. */
  lemma ComesFreeIffWritten(steps: seq<Step>, s: State, t: Token)
    requires After(steps) == Some(s) && Orphaned(s, t)
    ensures CanComeFree(false, s) <==> t in s.records
    ensures Assumed(s) ==> (CanComeFree(true, s) <==> t in s.records)
  {
    RunKeepsInv(steps, s);
    OrphanComesFree(false, s, t);
    if Assumed(s) {
      OrphanComesFree(true, s, t);
    }
  }
}
