/** How a lock is given back: a run that lives on unlinks its own lock, by its own calls, and a
    forced release takes a dead run's lock out of the way. */
module LockProgress {
  import opened Wrappers
  import opened RenderLock
  import opened LockInvariant
  import opened LockRuns
  import opened LockHypotheses
  import opened LockJoins

  /** The step is the unlink of `p`'s own lock. */
  predicate UnlinksOwn(s: State, step: Step, p: Pid, t: Token)
    requires Enabled(s, step)
  {
    && step.Call? && step.p == p && s.entry == Some(t)
    && Apply(s, step).entry.None? && Apply(s, step).At(p, Idle)
  }

  /** How many more calls a run that holds the lock makes before it is given back. */
  function CallsLeft(s: State, p: Pid): nat
    requires p in s.procs
  {
    match s.procs[p].pc case Owning(_) => 3 case Checking(_) => 2 case Removing(_) => 1 case _ => 0
  }

  lemma OthersLeaveHold(s: State, step: Step, p: Pid, t: Token)
    requires Inv(s) && Enabled(s, step) && HoldsLock(s, p, t)
    requires step != Die(p) && !(step.Call? && step.p == p)
    ensures HoldsLock(Apply(s, step), p, t) && CallsLeft(Apply(s, step), p) == CallsLeft(s, p)
  {
    assert ProcessOk(s, p) && HeldBy(s, p, t);
  }

  lemma OwnStepProceeds(s: State, step: Step, p: Pid, t: Token)
    requires Inv(s) && Enabled(s, step) && HoldsLock(s, p, t) && step.Call? && step.p == p
    ensures UnlinksOwn(s, step, p, t) ||
      (HoldsLock(Apply(s, step), p, t) && CallsLeft(Apply(s, step), p) == CallsLeft(s, p) - 1)
  {
    assert ProcessOk(s, p) && HeldBy(s, p, t);
  }

  /** Each call of its own brings the run nearer to the unlink; nobody else's step matters to it. */
  lemma HoldProceeds(s: State, step: Step, p: Pid, t: Token)
    requires Inv(s) && Enabled(s, step) && HoldsLock(s, p, t) && step != Die(p)
    ensures UnlinksOwn(s, step, p, t) ||
      (HoldsLock(Apply(s, step), p, t)
       && CallsLeft(Apply(s, step), p) == CallsLeft(s, p) - if step.Call? && step.p == p then 1 else 0)
  {
    if step.Call? && step.p == p {
      OwnStepProceeds(s, step, p, t);
    } else {
      OthersLeaveHold(s, step, p, t);
    }
  }

  /** A run that lives on stops holding the lock only by unlinking it. */
  lemma HoldEndsByUnlink(s: State, step: Step, p: Pid, t: Token)
    requires Inv(s) && Enabled(s, step) && HoldsLock(s, p, t)
    requires !HoldsLock(Apply(s, step), p, t) && Apply(s, step).Alive(p)
    ensures UnlinksOwn(s, step, p, t)
  {
    HoldProceeds(s, step, p, t);
  }

  function CallsOf(steps: seq<Step>, p: Pid): nat {
    if steps == [] then 0 else (if steps[0].Call? && steps[0].p == p then 1 else 0) + CallsOf(steps[1..], p)
  }

  /** The step that some steps from `s` lead to is the unlink of `p`'s own lock. */
  ghost predicate UnlinksAt(s: State, more: seq<Step>, k: nat, before: State, p: Pid, t: Token) {
    && k < |more| && Leads(true, s, more[..k], before)
    && Enabled(before, more[k]) && UnlinksOwn(before, more[k], p, t)
  }

  lemma OneStepEarlier(s: State, more: seq<Step>, j: nat, before: State, p: Pid, t: Token)
    requires more != [] && Assumed(s) && Enabled(s, more[0])
    requires UnlinksAt(Apply(s, more[0]), more[1..], j, before, p, t)
    ensures UnlinksAt(s, more, j + 1, before, p, t)
    ensures CallsOf(more[..j + 1], p) == CallsOf(more[1..][..j], p) + if more[0].Call? && more[0].p == p then 1 else 0
  {
    assert more[..j + 1][1..] == more[1..][..j] && more[..j + 1][0] == more[0] && more[j + 1] == more[1..][j];
  }

  /** Main result: however the steps of others fall between, a run that holds the lock and is not
      killed unlinks it itself with the last of at most three more calls. */
  lemma {:induction false} LivingRunGivesBack(s: State, more: seq<Step>, last: State, p: Pid, t: Token)
    returns (k: nat, before: State)
    requires Inv(s) && Leads(true, s, more, last) && HoldsLock(s, p, t)
    requires Die(p) !in more && CallsOf(more, p) >= CallsLeft(s, p)
    ensures UnlinksAt(s, more, k, before, p, t) && CallsOf(more[..k], p) < CallsLeft(s, p)
    decreases |more|
  {
    assert more != [] && more[0] in more;
    if UnlinksOwn(s, more[0], p, t) {
      k, before := 0, s;
    } else {
      HoldProceeds(s, more[0], p, t);
      StepKeepsInv(s, more[0]);
      k, before := LivingRunGivesBack(Apply(s, more[0]), more[1..], last, p, t);
      OneStepEarlier(s, more, k, before, p, t);
      k := k + 1;
    }
  }

  lemma OwnCall(s: State, p: Pid, t: Token, drawn: Token)
    requires Inv(s) && HoldsLock(s, p, t) && drawn !in s.issued
    ensures Enabled(s, Call(p, drawn, false))
    ensures var next := Apply(s, Call(p, drawn, false));
      && next.Alive(p) && next.issued == s.issued && (Calm(s) ==> Calm(next))
      && if CallsLeft(s, p) == 1 then UnlinksOwn(s, Call(p, drawn, false), p, t)
         else HoldsLock(next, p, t) && CallsLeft(next, p) == CallsLeft(s, p) - 1
  {
    assert ProcessOk(s, p) && HeldBy(s, p, t);
    var next := Apply(s, Call(p, drawn, false));
    if Calm(s) {
      forall q | next.Alive(q)
        ensures Window(next.procs[q].pc).None?
      {
        assert s.Alive(q);
      }
    }
  }

  /** Its own calls are enough: three of them, at most, free the lock. */
  lemma {:induction false} OwnCallsFree(s: State, p: Pid, t: Token) returns (steps: seq<Step>, last: State)
    requires Inv(s) && HoldsLock(s, p, t) && Calm(s)
    ensures Leads(true, s, steps, last) && |steps| == CallsLeft(s, p)
    ensures forall step :: step in steps ==> step.Call? && step.p == p
    ensures last.entry.None? && last.At(p, Idle)
    decreases CallsLeft(s, p)
  {
    var n := NewName(s.issued.Keys);
    var step := Call(p, n, false);
    OwnCall(s, p, t, n);
    CalmIsAssumed(s);
    StepKeepsInv(s, step);
    var rest := [];
    last := Apply(s, step);
    if CallsLeft(s, p) > 1 {
      rest, last := OwnCallsFree(last, p, t);
    }
    steps := [step] + rest;
    assert steps[1..] == rest;
  }

  /** A process that finds no file, and has not waited too long, takes the lock with its next three calls:
      a run owns it, and a hold leaves a session behind. */
  lemma FreeLockIsTaken(s: State, p: Pid, role: Role, drawn: Token, later: Token)
    requires !s.Alive(p) && s.entry.None? && drawn !in s.issued && later !in s.issued && later != drawn
    requires !role.Release?
    ensures var t := if role.Hold? then role.mine else drawn;
      var read := Apply(With(s, p, role, Reading), Call(p, drawn, false));
      && read.At(p, Opening(t)) && read.entry.None? && Enabled(read, Call(p, later, false))
      && var made := Apply(read, Call(p, later, false));
      && made.entry == Some(t) && made.records == s.records && made.At(p, Writing(t))
      && Enabled(made, Call(p, later, false))
      && var last := Apply(made, Call(p, later, false));
      && last.entry == Some(t) && last.records == s.records[t := Record(p, t, role.Hold?)]
      && (role.Run? ==> last.At(p, Owning(t))) && (role.Hold? ==> !last.Alive(p))
  {
  }

  // ---------------------------------------------------------------------------------
  // A process that seeks the lock gives up only when its deadline has passed

  predicate Seeks(pc: Pc) {
    pc == Reading || pc.Opening? || pc.Probing? || pc.Rereading? || pc.Reclaiming?
  }

  /** Before its deadline a run or a hold goes on, whatever it finds, until it has created the file or joined
      a lock. Only a file that does not parse stops it. */
  lemma SeekerGoesOn(s: State, p: Pid, drawn: Token)
    requires s.Alive(p) && !s.procs[p].role.Release? && Seeks(s.procs[p].pc) && drawn !in s.issued
    ensures var next := Apply(s, Call(p, drawn, false));
      if next.Alive(p) then Seeks(next.procs[p].pc) || next.procs[p].pc.Writing? || next.procs[p].pc.Joined?
      else ReadLock(s) == Unparsable && (s.At(p, Reading) || s.procs[p].pc.Rereading?)
  {
  }

  // ---------------------------------------------------------------------------------
  // Taking a dead run's lock out of the way

  /** A process that looks at the lock it finds with a view to removing it. */
  predicate Considers(role: Role, r: Record) {
    match role
    case Run(handed) => handed != Some(r.token)
    case Hold(_) => true
    case Release(_, force) => force
  }

  lemma ReclaimCalls(s: State, p: Pid, role: Role, r: Record, drawn: Token)
    requires s.entry == Some(r.token) && SeenOk(s, r) && !s.Alive(r.pid) && r.pid != p && drawn !in s.issued
    requires Considers(role, r)
    ensures Apply(With(s, p, role, Reading), Call(p, drawn, false)) == With(s, p, role, Probing(r))
    ensures Apply(With(s, p, role, Probing(r)), Call(p, drawn, false)) == With(s, p, role, Rereading(r))
    ensures Apply(With(s, p, role, Rereading(r)), Call(p, drawn, false)) == With(s, p, role, Reclaiming(r))
    ensures Apply(With(s, p, role, Reclaiming(r)), Call(p, drawn, false)).entry.None?
  {
    GoesOn(s, p, role, Reading, Probing(r));
    GoesOn(s, p, role, Probing(r), Rereading(r));
    GoesOn(s, p, role, Rereading(r), Reclaiming(r));
  }

  lemma GoesOn(s: State, p: Pid, role: Role, a: Pc, b: Pc)
    ensures With(s, p, role, a).Goto(p, b) == With(s, p, role, b)
  {
    assert s.procs[p := Process(role, a, true)][p := Process(role, b, true)] == s.procs[p := Process(role, b, true)];
  }

  /** `lock hold`, `lock release --force-stale` and a run, each alone, free the lock of a run
      that is gone. */
  lemma DeadRunIsReclaimed(s: State, p: Pid, role: Role, r: Record) returns (steps: seq<Step>, last: State)
    requires s.entry == Some(r.token) && SeenOk(s, r) && !s.Alive(r.pid) && r.pid != p && Considers(role, r)
    ensures Leads(false, With(s, p, role, Reading), steps, last) && last.entry.None? && |steps| == 4
    ensures forall step :: step in steps ==> step.Call? && step.p == p
  {
    var n := NewName(s.issued.Keys);
    var step := Call(p, n, false);
    ReclaimCalls(s, p, role, r, n);
    var d := With(s, p, role, Reclaiming(r));
    last := Apply(d, step);
    assert Leads(false, d, [step], last);
    FourSteps(With(s, p, role, Reading), With(s, p, role, Probing(r)), With(s, p, role, Rereading(r)), d, last, step);
    steps := [step, step, step, step];
  }

  lemma FourSteps(a: State, b: State, c: State, d: State, e: State, step: Step)
    requires Enabled(a, step) && Enabled(b, step) && Enabled(c, step) && Enabled(d, step)
    requires Apply(a, step) == b && Apply(b, step) == c && Apply(c, step) == d && Apply(d, step) == e
    ensures Leads(false, a, [step, step, step, step], e)
  {
    assert [step][1..] == [] && [step, step][1..] == [step];
    assert [step, step, step][1..] == [step, step] && [step, step, step, step][1..] == [step, step, step];
    assert Leads(false, d, [step], e);
    assert Leads(false, c, [step, step], e);
    assert Leads(false, b, [step, step, step], e);
  }

  /** The state after the calls that look at a lock which must be left alone. */
  function Looked(s: State, p: Pid, role: Role, r: Record, drawn: Token, expired: bool): State
    requires !s.Alive(p) && drawn !in s.issued
  {
    var read := Tick(With(s, p, role, Reading), p, drawn, expired);
    if r.held then read else Tick(read, p, drawn, expired)
  }

  /** A session's lock and a living run's lock are left alone: who finds one goes round again,
      or ends if its deadline has passed or it is a forced release. */
  lemma LiveLockIsLeft(s: State, p: Pid, role: Role, r: Record, drawn: Token, expired: bool)
    requires !s.Alive(p) && drawn !in s.issued && ReadLock(s) == Holds(r) && Considers(role, r)
    requires r.held || (s.Alive(r.pid) && r.pid != p)
    ensures var last := Looked(s, p, role, r, drawn, expired);
      && last.entry == s.entry && last.records == s.records && last.issued == s.issued
      && (expired || role.Release? ==> !last.Alive(p))
      && (!expired && role.Run? ==> last == With(s, p, role, Reading))
      && (!expired && role.Hold? ==> last == With(s, p, role, Opening(role.mine)))
  {
    GoesOn(s, p, role, Reading, Probing(r));
    GoesOn(s, p, role, Probing(r), Reading);
    GoesOn(s, p, role, Reading, Reading);
    if role.Hold? {
      GoesOn(s, p, role, Probing(r), Opening(role.mine));
      GoesOn(s, p, role, Reading, Opening(role.mine));
    }
  }
}
