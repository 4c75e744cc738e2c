/** Why the render lock needs what it assumes: without it steps lead to two runs that hold it at
    once, and the protocol can get there. */
module LockHypotheses {
  import opened Wrappers
  import opened RenderLock
  import opened LockInvariant
  import opened LockRuns

  /** Taking the steps in order leads from `s` to `last`; `within`: and every state that a step is
      taken in meets what the protocol relies on. */
  ghost predicate Leads(within: bool, s: State, steps: seq<Step>, last: State)
    decreases |steps|
  {
    if steps == [] then s == last
    else (within ==> Assumed(s)) && Enabled(s, steps[0]) && Leads(within, Apply(s, steps[0]), steps[1..], last)
  }

  lemma {:induction false} LeadsThenLeads(within: bool, s: State, a: seq<Step>, middle: State, b: seq<Step>,
      last: State)
    requires Leads(within, s, a, middle) && Leads(within, middle, b, last)
    ensures Leads(within, s, a + b, last)
    decreases |a|
  {
    if a == [] {
      assert a + b == b;
    } else {
      LeadsThenLeads(within, Apply(s, a[0]), a[1..], middle, b, last);
      assert (a + b)[1..] == a[1..] + b;
    }
  }

  lemma Extend(within: bool, s: State, steps: seq<Step>, middle: State, step: Step)
    returns (longer: seq<Step>, last: State)
    requires Leads(within, s, steps, middle) && Enabled(middle, step) && (within ==> Assumed(middle))
    ensures last == Apply(middle, step) && Leads(within, s, longer, last)
  {
    last := Apply(middle, step);
    longer := steps + [step];
    LeadsThenLeads(within, s, steps, middle, [step], last);
  }

  /** The runs from the start are those steps that lead somewhere within the assumptions. */
  lemma {:induction false} RunsLead(steps: seq<Step>, last: State)
    requires After(steps) == Some(last)
    ensures Leads(true, Init, steps, last)
    decreases |steps|
  {
    if steps != [] {
      var n := |steps| - 1;
      var s := After(steps[..n]).value;
      RunsLead(steps[..n], s);
      LeadsThenLeads(true, Init, steps[..n], s, [steps[n]], last);
      assert steps[..n] + [steps[n]] == steps;
    }
  }

  /** ...and the other way round, from any state that a run has reached. */
  lemma {:induction false} LeadingIsRunning(steps: seq<Step>, s: State, more: seq<Step>, last: State)
    requires After(steps) == Some(s) && Leads(true, s, more, last)
    ensures After(steps + more) == Some(last)
    decreases |more|
  {
    if more == [] {
      assert steps + more == steps;
    } else {
      var one := steps + [more[0]];
      assert one[..|one| - 1] == steps;
      LeadingIsRunning(one, Apply(s, more[0]), more[1..], last);
      assert one + more[1..] == steps + more;
    }
  }

  lemma NewName(used: set<nat>) returns (n: nat)
    ensures n !in used
    ensures forall u :: u in used ==> u < n
  {
    n := 0;
    var left := used;
    while left != {}
      invariant left <= used
      invariant forall u :: u in used && u !in left ==> u < n
      decreases left
    {
      var u :| u in left;
      n := if u < n then n else u + 1;
      left := left - {u};
    }
  }

  /** The same state with another process at `p`. */
  function WithRun(s: State, p: Pid, pc: Pc): State {
    s.(procs := s.procs[p := Process(Run(None), pc, true)])
  }

  lemma RunSpawns(s: State, p: Pid)
    requires !s.Alive(p)
    ensures Enabled(s, Spawn(p, Run(None))) && Apply(s, Spawn(p, Run(None))) == WithRun(s, p, Reading)
  {
  }

  lemma RunDraws(s: State, p: Pid, t: Token)
    requires s.entry.None? && t !in s.issued
    ensures var r := WithRun(s, p, Reading);
      && Enabled(r, Call(p, t, false))
      && Apply(r, Call(p, t, false)) == WithRun(s.(issued := s.issued[t := p]), p, Opening(t))
  {
    var procs := s.procs[p := Process(Run(None), Reading, true)];
    assert procs[p := Process(Run(None), Opening(t), true)] == s.procs[p := Process(Run(None), Opening(t), true)];
  }

  lemma RunOpens(s: State, p: Pid, t: Token, drawn: Token)
    requires s.entry.None? && drawn !in s.issued
    ensures var r := WithRun(s, p, Opening(t));
      && Enabled(r, Call(p, drawn, false))
      && Apply(r, Call(p, drawn, false)) == WithRun(s.(entry := Some(t)), p, Writing(t))
  {
    var procs := s.procs[p := Process(Run(None), Opening(t), true)];
    assert procs[p := Process(Run(None), Writing(t), true)] == s.procs[p := Process(Run(None), Writing(t), true)];
  }

  lemma RunWrites(s: State, p: Pid, t: Token, drawn: Token)
    requires drawn !in s.issued
    ensures var r := WithRun(s, p, Writing(t));
      Enabled(r, Call(p, drawn, false))
      && Apply(r, Call(p, drawn, false)) == WithRun(s.(records := s.records[t := Record(p, t, false)]), p, Owning(t))
  {
    var procs := s.procs[p := Process(Run(None), Writing(t), true)];
    assert procs[p := Process(Run(None), Owning(t), true)] == s.procs[p := Process(Run(None), Owning(t), true)];
  }

  /** The lock file, its record and its issued token, as a run that takes the lock leaves them. */
  function Taken(s: State, p: Pid, t: Token): State {
    s.(entry := Some(t), records := s.records[t := Record(p, t, false)], issued := s.issued[t := p])
  }

  /** Nobody else is about to unlink anything. */
  ghost predicate Calm(s: State) {
    forall p :: s.Alive(p) ==> Window(s.procs[p].pc).None?
  }

  lemma CalmIsAssumed(s: State)
    requires Calm(s)
    ensures Assumed(s)
  {
    forall p, t
      ensures !InWindow(s, p, t) && !s.At(p, Dropping(t))
    {
      assert s.Alive(p) ==> Window(s.procs[p].pc).None?;
    }
  }

  lemma CalmWithRun(s: State, p: Pid, pc: Pc)
    requires Calm(s) && Window(pc).None?
    ensures Calm(WithRun(s, p, pc)) && Assumed(WithRun(s, p, pc))
  {
    var s' := WithRun(s, p, pc);
    forall q | s'.Alive(q)
      ensures Window(s'.procs[q].pc).None?
    {
      assert q != p ==> s.Alive(q);
    }
    CalmIsAssumed(s');
  }

  /** A new run finds no file and takes the lock, within the assumptions where all is calm. */
  lemma NewRunTakesFreeLock(within: bool, s: State) returns (steps: seq<Step>, last: State, p: Pid, t: Token)
    requires s.entry.None? && s.records.Keys <= s.issued.Keys && (within ==> Calm(s))
    ensures Leads(within, s, steps, last)
    ensures p !in s.procs && t !in s.issued
    ensures last == WithRun(Taken(s, p, t), p, Owning(t))
  {
    p := NewName(s.procs.Keys);
    t := NewName(s.issued.Keys);
    var lent := s.(issued := s.issued[t := p]);
    var made := lent.(entry := Some(t));
    if within {
      CalmIsAssumed(s);
      CalmWithRun(s, p, Reading);
      CalmWithRun(lent, p, Opening(t));
      CalmWithRun(made, p, Writing(t));
    }
    RunSpawns(s, p);
    steps, last := Extend(within, s, [], s, Spawn(p, Run(None)));
    RunDraws(s, p, t);
    steps, last := Extend(within, s, steps, last, Call(p, t, false));
    RunOpens(lent, p, t, t + 1);
    steps, last := Extend(within, s, steps, last, Call(p, t + 1, false));
    RunWrites(made, p, t, t + 1);
    steps, last := Extend(within, s, steps, last, Call(p, t + 1, false));
  }

  lemma RunFinds(s: State, p: Pid, r: Record, drawn: Token)
    requires s.entry == Some(r.token) && SeenOk(s, r) && drawn !in s.issued
    ensures var b := WithRun(s, p, Reading);
      Enabled(b, Call(p, drawn, false)) && Apply(b, Call(p, drawn, false)) == WithRun(s, p, Probing(r))
  {
    var procs := s.procs[p := Process(Run(None), Reading, true)];
    assert procs[p := Process(Run(None), Probing(r), true)] == s.procs[p := Process(Run(None), Probing(r), true)];
  }

  lemma RunProbes(s: State, p: Pid, r: Record, drawn: Token)
    requires !s.Alive(r.pid) && r.pid != p && drawn !in s.issued
    ensures var b := WithRun(s, p, Probing(r));
      Enabled(b, Call(p, drawn, false)) && Apply(b, Call(p, drawn, false)) == WithRun(s, p, Rereading(r))
  {
    var procs := s.procs[p := Process(Run(None), Probing(r), true)];
    assert procs[p := Process(Run(None), Rereading(r), true)] == s.procs[p := Process(Run(None), Rereading(r), true)];
  }

  lemma RunRereads(s: State, p: Pid, r: Record, drawn: Token)
    requires s.entry == Some(r.token) && SeenOk(s, r) && drawn !in s.issued
    ensures var b := WithRun(s, p, Rereading(r));
      Enabled(b, Call(p, drawn, false)) && Apply(b, Call(p, drawn, false)) == WithRun(s, p, Reclaiming(r))
  {
    var procs := s.procs[p := Process(Run(None), Rereading(r), true)];
    assert procs[p := Process(Run(None), Reclaiming(r), true)] == s.procs[p := Process(Run(None), Reclaiming(r), true)];
  }

  /** A new run finds the lock of a dead run and is about to unlink it. */
  lemma NewRunReclaims(within: bool, s: State, r: Record) returns (steps: seq<Step>, last: State, p: Pid)
    requires s.entry == Some(r.token) && SeenOk(s, r) && !s.Alive(r.pid) && r.pid in s.procs
    requires within ==> Calm(s)
    ensures Leads(within, s, steps, last) && p !in s.procs
    ensures last == WithRun(s, p, Reclaiming(r))
  {
    p := NewName(s.procs.Keys);
    var t := NewName(s.issued.Keys);
    if within {
      CalmIsAssumed(s);
      CalmWithRun(s, p, Reading);
      CalmWithRun(s, p, Probing(r));
      CalmWithRun(s, p, Rereading(r));
    }
    RunSpawns(s, p);
    steps, last := Extend(within, s, [], s, Spawn(p, Run(None)));
    RunFinds(s, p, r, t);
    steps, last := Extend(within, s, steps, last, Call(p, t, false));
    RunProbes(s, p, r, t);
    steps, last := Extend(within, s, steps, last, Call(p, t, false));
    RunRereads(s, p, r, t);
    steps, last := Extend(within, s, steps, last, Call(p, t, false));
  }

  /** Two different processes hold the lock. */
  ghost predicate TwoHold(s: State) {
    exists a, b, u, v :: a != b && HoldsLock(s, a, u) && HoldsLock(s, b, v)
  }

  /** Whatever the state, one process too many in the window is enough: the second unlink
      removes the lock of a run that took it after the first, and two runs hold it at once. */
  lemma TwoRemoversBreakIt(s: State, p: Pid, q: Pid, t: Token) returns (steps: seq<Step>, last: State)
    requires Inv(s) && p != q && InWindow(s, p, t) && InWindow(s, q, t)
    ensures Leads(false, s, steps, last) && TwoHold(last)
  {
    var n := NewName(s.issued.Keys);
    var first := Apply(s, Call(p, n, false));
    steps, last := Extend(false, s, [], s, Call(p, n, false));
    var more, after, a, u := NewRunTakesFreeLock(false, first);
    LeadsThenLeads(false, s, steps, first, more, after);
    n := NewName(after.issued.Keys);
    assert after.procs[q] == s.procs[q];
    steps, last := Extend(false, s, steps + more, after, Call(q, n, false));
    assert last.entry.None? && HoldsLock(last, a, u);
    var end, final, b, v := NewRunTakesFreeLock(false, last);
    LeadsThenLeads(false, s, steps, last, end, final);
    steps, last := steps + end, final;
    assert HoldsLock(last, a, u) && HoldsLock(last, b, v);
  }

  /** So is a release command given the token of a run that still holds the lock. */
  lemma ReleasingARunBreaksIt(s: State, p: Pid, q: Pid, t: Token) returns (steps: seq<Step>, last: State)
    requires Inv(s) && s.At(p, Dropping(t)) && HoldsLock(s, q, t)
    ensures Leads(false, s, steps, last) && TwoHold(last)
  {
    var n := NewName(s.issued.Keys);
    var first := Apply(s, Call(p, n, false));
    steps, last := Extend(false, s, [], s, Call(p, n, false));
    var more, after, a, u := NewRunTakesFreeLock(false, first);
    LeadsThenLeads(false, s, steps, first, more, after);
    steps, last := steps + more, after;
    assert HoldsLock(last, a, u) && HoldsLock(last, q, t);
  }

  /** What the protocol relies on is exactly what it needs: from a state that keeps the invariant
      but not the assumptions, steps lead to two runs that hold the lock at once. */
  lemma AssumptionsAreNeeded(s: State) returns (steps: seq<Step>, last: State)
    requires Inv(s) && !Assumed(s)
    ensures Leads(false, s, steps, last) && TwoHold(last) && !Exclusive(last)
  {
    if !LoneRemover(s) {
      var p, q, t :| InWindow(s, p, t) && InWindow(s, q, t) && p != q;
      steps, last := TwoRemoversBreakIt(s, p, q, t);
    } else {
      var p, q, t :| s.At(p, Dropping(t)) && HoldsLock(s, q, t);
      steps, last := ReleasingARunBreaksIt(s, p, q, t);
    }
  }

  /** A run that took the lock and died, with nobody after its lock yet and nobody else alive. */
  ghost predicate DeadOwner(s: State, r: Record) {
    && s.entry == Some(r.token) && SeenOk(s, r) && r.pid in s.procs && Calm(s)
    && forall p :: !s.Alive(p)
  }

  lemma OwnerReached() returns (steps: seq<Step>, last: State, p: Pid, t: Token)
    ensures Leads(true, Init, steps, last) && last == WithRun(Taken(Init, p, t), p, Owning(t)) && Calm(last)
  {
    steps, last, p, t := NewRunTakesFreeLock(true, Init);
  }

  lemma DeadOwnerReached() returns (steps: seq<Step>, last: State, r: Record)
    ensures Leads(true, Init, steps, last) && DeadOwner(last, r)
  {
    var owner, t;
    steps, last, owner, t := OwnerReached();
    r := last.records[t];
    CalmIsAssumed(last);
    steps, last := Extend(true, Init, steps, last, Die(owner));
  }

  /** The protocol does reach such a state: a run dies rendering and two others find its lock. */
  lemma TwoRemoversDoMeet() returns (steps: seq<Step>, last: State, p: Pid, q: Pid, t: Token)
    ensures Leads(false, Init, steps, last) && NoReleaseOfARun(last)
    ensures p != q && InWindow(last, p, t) && InWindow(last, q, t)
  {
    var first, r;
    steps, first, r := DeadOwnerReached();
    LeadsAnyway(Init, steps, first);
    t := r.token;
    var more, next, end;
    more, next, p := NewRunReclaims(false, first, r);
    LeadsThenLeads(false, Init, steps, first, more, next);
    end, last, q := NewRunReclaims(false, next, r);
    LeadsThenLeads(false, Init, steps + more, next, end, last);
    steps := steps + more + end;
    forall u, v
      ensures !last.At(u, Dropping(v))
    {
      assert last.Alive(u) ==> u == p || u == q;
    }
  }

  lemma {:induction false} LeadsAnyway(s: State, steps: seq<Step>, last: State)
    requires Leads(true, s, steps, last)
    ensures Leads(false, s, steps, last)
    decreases |steps|
  {
    if steps != [] {
      LeadsAnyway(Apply(s, steps[0]), steps[1..], last);
    }
  }

  lemma ReleaseSpawnsAndReads(s: State, p: Pid, r: Record, drawn: Token)
    requires !s.Alive(p) && ReadLock(s) == Holds(r) && drawn !in s.issued
    ensures var role := Release(Some(r.token), false);
      && Enabled(s, Spawn(p, role)) && Enabled(Apply(s, Spawn(p, role)), Call(p, drawn, false))
      && Apply(Apply(s, Spawn(p, role)), Call(p, drawn, false))
         == s.(procs := s.procs[p := Process(role, Dropping(r.token), true)])
  {
    var role := Release(Some(r.token), false);
    var procs := s.procs[p := Process(role, Reading, true)];
    assert procs[p := Process(role, Dropping(r.token), true)] == s.procs[p := Process(role, Dropping(r.token), true)];
  }

  /** A release command may also name the token of a run that holds the lock: nothing in the lock file
      keeps it from that. */
  lemma ReleaseDoesMeetARun() returns (steps: seq<Step>, last: State, p: Pid, q: Pid, t: Token)
    ensures Leads(false, Init, steps, last) && LoneRemover(last)
    ensures last.At(p, Dropping(t)) && HoldsLock(last, q, t)
  {
    var first;
    steps, first, q, t := OwnerReached();
    LeadsAnyway(Init, steps, first);
    var r := first.records[t];
    p := NewName(first.procs.Keys);
    var n := NewName(first.issued.Keys);
    ReleaseSpawnsAndReads(first, p, r, n);
    steps, last := Extend(false, Init, steps, first, Spawn(p, Release(Some(t), false)));
    steps, last := Extend(false, Init, steps, last, Call(p, n, false));
    forall u, v
      ensures InWindow(last, u, v) ==> u == p
    {
      assert u != p && last.Alive(u) ==> first.Alive(u) && Window(first.procs[u].pc).None?;
    }
  }

  /** Pids are reused freely: a stranger may live under the pid that the lock in place names, and
      the lock has no owner all the same. */
  lemma StrangerUnderOwnersPid() returns (steps: seq<Step>, last: State, p: Pid, t: Token)
    ensures After(steps) == Some(last)
    ensures last.entry == Some(t) && t in last.records && last.records[t].pid == p && last.Alive(p)
    ensures forall u :: !Owns(last, u)
  {
    var s, r;
    steps, s, r := DeadOwnerReached();
    p, t := r.pid, r.token;
    CalmIsAssumed(s);
    RunSpawns(s, p);
    steps, last := Extend(true, Init, steps, s, Spawn(p, Run(None)));
    LeadingIsRunning([], Init, steps, last);
    assert [] + steps == steps;
    MutualExclusion(steps, last);
    forall u
      ensures !Owns(last, u)
    {
      assert SessionOpen(last, u) ==> Owns(last, u);
      assert forall q :: last.Alive(q) ==> q == p;
    }
  }
}
