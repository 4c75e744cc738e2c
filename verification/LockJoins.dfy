/** Why one render at a time needs the rules of joining: without each of them steps lead to two
    runs rendering at once, and the protocol can get there. */
module LockJoins {
  import opened Wrappers
  import opened RenderLock
  import opened LockInvariant
  import opened LockRuns
  import opened LockHypotheses
  import opened LockRendering

  /** The same state with a process at `p`. */
  function With(s: State, p: Pid, role: Role, pc: Pc): State {
    s.(procs := s.procs[p := Process(role, pc, true)])
  }

  /** Some other run than `p` has come to hold the lock while `p` renders under the one it joined. */
  ghost predicate Overlaps(s: State, p: Pid, t: Token) {
    s.At(p, Joined(t)) && exists q, u :: q != p && HoldsLock(s, q, u)
  }

  lemma OverlapIsTwo(s: State, p: Pid, t: Token)
    requires Overlaps(s, p, t)
    ensures TwoRender(s)
  {
    assert Renders(s, p, t);
    var q, u :| q != p && HoldsLock(s, q, u);
    assert Renders(s, q, u);
  }

  /** Once the file is gone, a new run takes the lock under a joined one. */
  lemma FreeLockOverlaps(s: State, p: Pid, t: Token) returns (steps: seq<Step>, last: State)
    requires s.entry.None? && s.records.Keys <= s.issued.Keys && s.At(p, Joined(t))
    ensures Leads(false, s, steps, last) && Overlaps(last, p, t)
  {
    var q, u;
    steps, last, q, u := NewRunTakesFreeLock(false, s);
    assert HoldsLock(last, q, u) && q != p;
  }

  lemma UnlinkOverlaps(s: State, q: Pid, p: Pid, t: Token) returns (steps: seq<Step>, last: State)
    requires Inv(s) && s.Alive(q) && Window(s.procs[q].pc).Some? && s.At(p, Joined(t))
    ensures Leads(false, s, steps, last) && Overlaps(last, p, t)
  {
    var n := NewName(s.issued.Keys);
    var first := Apply(s, Call(q, n, false));
    var more;
    steps, first := Extend(false, s, [], s, Call(q, n, false));
    assert first.entry.None? && first.At(p, Joined(t));
    more, last := FreeLockOverlaps(first, p, t);
    LeadsThenLeads(false, s, steps, first, more, last);
    steps := steps + more;
  }

  /** Releasing a session under a run that joined it lets the next run in beside it. */
  lemma ReleasingUnderAJoinBreaksIt(s: State, q: Pid, p: Pid, t: Token) returns (steps: seq<Step>, last: State)
    requires Inv(s) && s.At(q, Dropping(t)) && s.At(p, Joined(t))
    ensures Leads(false, s, steps, last) && Overlaps(last, p, t)
  {
    steps, last := UnlinkOverlaps(s, q, p, t);
  }

  lemma StaleJoinOverlaps(s: State, p: Pid, r: Record) returns (steps: seq<Step>, last: State)
    requires Inv(s) && s.At(p, Joined(r.token)) && s.entry == Some(r.token) && SeenOk(s, r)
    requires r.pid in s.procs && !s.Alive(r.pid)
    ensures Leads(false, s, steps, last) && Overlaps(last, p, r.token)
  {
    var first, q, more;
    steps, first, q := NewRunReclaims(false, s, r);
    assert first.At(p, Joined(r.token));
    var n := NewName(first.issued.Keys);
    var gone, end;
    more, gone := Extend(false, first, [], first, Call(q, n, false));
    LeadsThenLeads(false, s, steps, first, more, gone);
    end, last := FreeLockOverlaps(gone, p, r.token);
    LeadsThenLeads(false, s, steps + more, gone, end, last);
    steps := steps + more + end;
  }

  /** A run that joined the lock of another run renders beside that run, or, once that run is
      gone, beside whoever reclaims its lock. */
  lemma JoiningARunBreaksIt(s: State, p: Pid, t: Token) returns (steps: seq<Step>, last: State)
    requires Inv(s) && s.At(p, Joined(t)) && s.entry == Some(t)
    requires t in s.records && !s.records[t].held && s.records[t].pid != p
    ensures Leads(false, s, steps, last) && Overlaps(last, p, t)
  {
    var r := s.records[t];
    if HoldsLock(s, r.pid, t) {
      steps, last := [], s;
    } else if q :| s.Alive(q) && Window(s.procs[q].pc).Some? {
      steps, last := UnlinkOverlaps(s, q, p, t);
    } else if s.Alive(r.pid) {
      var gone, more;
      steps, gone := Extend(false, s, [], s, Die(r.pid));
      ExitKeepsInv(s, r.pid);
      assert gone.At(p, Joined(t));
      more, last := StaleJoinOverlaps(gone, p, r);
      LeadsThenLeads(false, s, steps, gone, more, last);
      steps := steps + more;
    } else {
      steps, last := StaleJoinOverlaps(s, p, r);
    }
  }

  lemma RunJoins(s: State, p: Pid, t: Token, drawn: Token)
    requires !s.Alive(p) && ReadLock(s).Holds? && ReadLock(s).record.token == t && drawn !in s.issued
    ensures var role := Run(Some(t));
      && Enabled(s, Spawn(p, role)) && Apply(s, Spawn(p, role)) == With(s, p, role, Reading)
      && Enabled(With(s, p, role, Reading), Call(p, drawn, false))
      && Apply(With(s, p, role, Reading), Call(p, drawn, false)) == With(s, p, role, Joined(t))
  {
    var role := Run(Some(t));
    var procs := s.procs[p := Process(role, Reading, true)];
    assert procs[p := Process(role, Joined(t), true)] == s.procs[p := Process(role, Joined(t), true)];
  }

  /** A second run handed the same token joins beside the first. */
  lemma AnotherJoins(within: bool, s: State, t: Token) returns (steps: seq<Step>, last: State, p: Pid)
    requires ReadLock(s).Holds? && ReadLock(s).record.token == t && (within ==> Calm(s))
    ensures Leads(within, s, steps, last) && p !in s.procs && last == With(s, p, Run(Some(t)), Joined(t))
    ensures within ==> Calm(last)
  {
    p := NewName(s.procs.Keys);
    var n := NewName(s.issued.Keys);
    RunJoins(s, p, t, n);
    if within {
      CalmIsAssumed(s);
      CalmWith(s, p, Run(Some(t)), Reading);
      CalmWith(s, p, Run(Some(t)), Joined(t));
    }
    steps, last := Extend(within, s, [], s, Spawn(p, Run(Some(t))));
    steps, last := Extend(within, s, steps, last, Call(p, n, false));
  }

  lemma CalmWith(s: State, p: Pid, role: Role, pc: Pc)
    requires Calm(s) && Window(pc).None?
    ensures Calm(With(s, p, role, pc)) && Assumed(With(s, p, role, pc))
  {
    var s' := With(s, p, role, pc);
    forall q | s'.Alive(q)
      ensures Window(s'.procs[q].pc).None?
    {
      assert q != p ==> s.Alive(q);
    }
    CalmIsAssumed(s');
  }

  /** The rules of joining are what one render at a time needs: from a state that breaks one of
      them, steps lead to two runs rendering at once. */
  lemma JoinRulesAreNeeded(s: State) returns (steps: seq<Step>, last: State)
    requires Inv(s) && JoinsOk(s) && !JoinsAssumed(s)
    ensures Leads(false, s, steps, last) && TwoRender(last)
  {
    if !LoneJoin(s) {
      var p, q, t: Token :| s.At(p, Joined(t)) && s.At(q, Joined(t)) && p != q;
      assert Renders(s, p, t) && Renders(s, q, t);
      steps, last := [], s;
    } else if !NoReleaseUnderAJoin(s) {
      var q, p, t: Token :| s.At(q, Dropping(t)) && s.At(p, Joined(t));
      steps, last := ReleasingUnderAJoinBreaksIt(s, q, p, t);
      OverlapIsTwo(last, p, t);
    } else {
      var p, t: Token :| s.At(p, Joined(t)) && t in s.records && !s.records[t].held;
      if s.records[t].pid != p {
        steps, last := JoiningARunBreaksIt(s, p, t);
        OverlapIsTwo(last, p, t);
      } else {
        var q;
        steps, last, q := AnotherJoins(false, s, t);
        assert Renders(last, p, t) && Renders(last, q, t);
      }
    }
  }

  // ---------------------------------------------------------------------------------
  // The protocol gets there

  /** A session held by a process that is gone, as `lock hold` leaves it. */
  function SessionState(h: Pid, t: Token): State {
    State(Some(t), map[t := Record(h, t, true)], map[t := h], map[h := Process(Hold(t), Writing(t), false)], {})
  }

  lemma HoldSpawnsAndOpens(s: State, h: Pid, t: Token, drawn: Token)
    requires !s.Alive(h) && t !in s.issued && s.entry.None? && drawn !in s.issued && drawn != t
    ensures var lent := s.(issued := s.issued[t := h]);
      var b := With(lent, h, Hold(t), Opening(t));
      && Enabled(s, Spawn(h, Hold(t))) && Apply(s, Spawn(h, Hold(t))) == b
      && Enabled(b, Call(h, drawn, false))
      && Apply(b, Call(h, drawn, false)) == With(lent.(entry := Some(t)), h, Hold(t), Writing(t))
  {
    var procs := s.procs[h := Process(Hold(t), Opening(t), true)];
    assert procs[h := Process(Hold(t), Writing(t), true)] == s.procs[h := Process(Hold(t), Writing(t), true)];
  }

  lemma SessionReached(h: Pid, t: Token) returns (steps: seq<Step>, last: State)
    ensures Leads(true, Init, steps, last) && last == SessionState(h, t) && Calm(last)
  {
    var lent := Init.(issued := map[t := h]);
    CalmIsAssumed(Init);
    CalmWith(lent, h, Hold(t), Opening(t));
    CalmWith(lent.(entry := Some(t)), h, Hold(t), Writing(t));
    HoldSpawnsAndOpens(Init, h, t, t + 1);
    steps, last := Extend(true, Init, [], Init, Spawn(h, Hold(t)));
    steps, last := Extend(true, Init, steps, last, Call(h, t + 1, false));
    steps, last := Extend(true, Init, steps, last, Call(h, t + 1, false));
  }

  lemma JoinReached() returns (steps: seq<Step>, last: State, p: Pid, t: Token)
    ensures Leads(true, Init, steps, last) && Calm(last) && SessionOpen(last, t) && last.At(p, Joined(t))
    ensures last.entry == Some(t) && last.records[t].token == t && last.records.Keys <= last.issued.Keys
    ensures forall q :: last.Alive(q) ==> q == p
  {
    var s, more;
    t := 0;
    steps, s := SessionReached(0, t);
    more, last, p := AnotherJoins(true, s, t);
    LeadsThenLeads(true, Init, steps, s, more, last);
    steps := steps + more;
  }

  /** Nothing keeps two runs that were handed one session's token from rendering together. */
  lemma TwoJoinsMeet() returns (steps: seq<Step>, last: State, p: Pid, q: Pid, t: Token)
    ensures After(steps) == Some(last) && SessionOpen(last, t)
    ensures p != q && last.At(p, Joined(t)) && last.At(q, Joined(t))
  {
    var s, more;
    steps, s, p, t := JoinReached();
    more, last, q := AnotherJoins(true, s, t);
    LeadsThenLeads(true, Init, steps, s, more, last);
    steps := steps + more;
    LeadingIsRunning([], Init, steps, last);
    assert [] + steps == steps;
  }

  /** A run may also be handed the token of a run and join that one's lock. */
  lemma JoinDoesMeetARun() returns (steps: seq<Step>, last: State, p: Pid, q: Pid, t: Token)
    ensures After(steps) == Some(last) && last.At(p, Joined(t)) && HoldsLock(last, q, t) && Overlaps(last, p, t)
  {
    var s, more;
    steps, s, q, t := OwnerReached();
    more, last, p := AnotherJoins(true, s, t);
    LeadsThenLeads(true, Init, steps, s, more, last);
    steps := steps + more;
    LeadingIsRunning([], Init, steps, last);
    assert [] + steps == steps;
    assert HoldsLock(last, q, t);
  }

  /** One release among calm processes, none of which holds the lock, breaks no assumption. */
  lemma LoneReleaseIsAssumed(s: State, q: Pid, t: Token)
    requires Calm(s) && forall p: Pid, u: Token :: !HoldsLock(s, p, u)
    ensures Assumed(With(s, q, Release(Some(t), false), Dropping(t)))
  {
    var s' := With(s, q, Release(Some(t), false), Dropping(t));
    forall p, u: Token
      ensures (InWindow(s', p, u) ==> p == q) && !HoldsLock(s', p, u)
    {
      assert p != q && s'.Alive(p) ==> s.Alive(p) && Window(s.procs[p].pc).None?;
      assert HoldsLock(s', p, u) ==> HoldsLock(s, p, u);
    }
  }

  /** A release command takes a session's lock away, whoever has joined it. */
  lemma SessionReleased(s: State, t: Token) returns (steps: seq<Step>, last: State)
    requires ReadLock(s).Holds? && ReadLock(s).record.token == t && Calm(s)
    requires forall p: Pid, u: Token :: !HoldsLock(s, p, u)
    ensures Leads(true, s, steps, last) && last.entry.None? && Calm(last)
    ensures last.records == s.records && last.issued == s.issued
    ensures forall p :: s.Alive(p) ==> last.Alive(p) && last.procs[p] == s.procs[p]
  {
    var q := NewName(s.procs.Keys);
    var n := NewName(s.issued.Keys);
    var role := Release(Some(t), false);
    ReleaseSpawnsAndReads(s, q, ReadLock(s).record, n);
    CalmIsAssumed(s);
    CalmWith(s, q, role, Reading);
    steps, last := Extend(true, s, [], s, Spawn(q, role));
    steps, last := Extend(true, s, steps, last, Call(q, n, false));
    assert last == With(s, q, role, Dropping(t));
    LoneReleaseIsAssumed(s, q, t);
    steps, last := Extend(true, s, steps, last, Call(q, n, false));
    forall p | last.Alive(p)
      ensures Window(last.procs[p].pc).None?
    {
      assert p != q && s.Alive(p);
    }
  }

  /** Nor is a session kept from being released under a run that joined it: within all that an
      exclusive lock relies on, the next run takes the lock and renders beside it. */
  lemma ReleaseUnderAJoinOverlaps() returns (steps: seq<Step>, last: State, p: Pid, t: Token)
    ensures After(steps) == Some(last) && Overlaps(last, p, t) && TwoRender(last)
  {
    var s, more, free, end, b, u;
    steps, s, p, t := JoinReached();
    more, free := SessionReleased(s, t);
    LeadsThenLeads(true, Init, steps, s, more, free);
    end, last, b, u := NewRunTakesFreeLock(true, free);
    LeadsThenLeads(true, Init, steps + more, free, end, last);
    steps := steps + more + end;
    assert HoldsLock(last, b, u) && b != p && last.At(p, Joined(t));
    OverlapIsTwo(last, p, t);
    LeadingIsRunning([], Init, steps, last);
    assert [] + steps == steps;
  }
}
