/** What every call on the render lock keeps, under the assumptions of the protocol. */
module LockInvariant {
  import opened Wrappers
  import opened RenderLock

  ghost predicate RecordsOk(s: State) {
    && (s.entry.Some? ==> s.entry.value in s.issued)
    && forall t :: t in s.records ==>
        && t in s.issued && s.issued[t] in s.procs
        && s.records[t].token == t && s.records[t].pid == s.issued[t]
        && (s.records[t].held && t !in s.released ==> s.entry == Some(t))
  }

  ghost predicate SeenOk(s: State, r: Record) {
    r.token in s.records && s.records[r.token] == r && !r.held
  }

  ghost predicate HeldBy(s: State, p: Pid, t: Token) {
    t in s.records && s.records[t] == Record(p, t, false) && s.entry == Some(t)
  }

  ghost predicate ProcessOk(s: State, p: Pid)
    requires p in s.procs
  {
    match s.procs[p].pc
    case Idle => true
    case Reading => true
    case Joined(_) => true
    case Probing(r) => SeenOk(s, r)
    case Rereading(r) => SeenOk(s, r) && !HoldsLock(s, r.pid, r.token)
    case Reclaiming(r) => SeenOk(s, r) && !HoldsLock(s, r.pid, r.token) && s.entry == Some(r.token)
    case Opening(t) => t in s.issued && s.issued[t] == p && t !in s.records && s.entry != Some(t)
    case Writing(t) => t in s.issued && s.issued[t] == p && t !in s.records && s.entry == Some(t)
    case Owning(t) => HeldBy(s, p, t)
    case Checking(t) => HeldBy(s, p, t)
    case Removing(t) => HeldBy(s, p, t)
    case Dropping(t) => t in s.records && s.entry == Some(t) && s.procs[p].role == Release(Some(t), false)
  }

  ghost predicate HoldOk(s: State, p: Pid)
    requires p in s.procs
  {
    match s.procs[p].role
    case Hold(mine) =>
      && mine in s.issued && s.issued[mine] == p && mine !in s.records && s.entry != Some(mine)
    case _ => true
  }

  /** A dead process promises nothing. A hold that has not opened its file still owns its
      unused token. */
  ghost predicate Inv(s: State) {
    && RecordsOk(s)
    && (forall p :: s.Alive(p) ==> ProcessOk(s, p))
    && (forall p :: s.Alive(p) && !s.procs[p].pc.Writing? ==> HoldOk(s, p))
  }

  lemma InvMeansExclusive(s: State)
    requires Inv(s)
    ensures Exclusive(s)
  {
  }

  /** A step that leaves the file alone disturbs nobody but the process that takes it. */
  lemma QuietKeepsInv(s: State, s': State, p: Pid)
    requires Inv(s)
    requires s'.entry == s.entry && s'.records == s.records && s'.released == s.released
    requires forall t :: t in s.issued ==> t in s'.issued && s'.issued[t] == s.issued[t]
    requires forall t :: HoldsLock(s', p, t) ==> HoldsLock(s, p, t)
    requires s'.procs.Keys == s.procs.Keys + {p}
    requires forall q :: q in s.procs && q != p ==> s'.procs[q] == s.procs[q]
    requires s'.Alive(p) ==> ProcessOk(s', p) && (!s'.procs[p].pc.Writing? ==> HoldOk(s', p))
    ensures Inv(s')
  {
    forall q | s'.Alive(q)
      ensures ProcessOk(s', q) && (!s'.procs[q].pc.Writing? ==> HoldOk(s', q))
    {
      if q != p {
        assert s.Alive(q) && ProcessOk(s, q);
        assert !s.procs[q].pc.Writing? ==> HoldOk(s, q);
        match s.procs[q].pc {
          case Rereading(r) => assert !HoldsLock(s', r.pid, r.token);
          case Reclaiming(r) => assert !HoldsLock(s', r.pid, r.token);
          case _ =>
        }
      }
    }
  }

  lemma {:induction false} StepKeepsInv(s: State, step: Step)
    requires Inv(s) && Assumed(s) && Enabled(s, step)
    ensures Inv(Apply(s, step))
  {
    match step
    case Spawn(p, role) => QuietKeepsInv(s, Apply(s, step), p);
    case Die(p) => QuietKeepsInv(s, Apply(s, step), p);
    case Call(p, drawn, expired) => CallKeepsInv(s, p, drawn, expired);
  }

  lemma CallKeepsInv(s: State, p: Pid, drawn: Token, expired: bool)
    requires Inv(s) && Assumed(s) && s.Alive(p) && drawn !in s.issued
    ensures Inv(Tick(s, p, drawn, expired))
  {
    var pc := s.procs[p].pc;
    if pc.Reading? || pc.Probing? || pc.Rereading? {
      LookKeepsInv(s, p, drawn, expired);
    } else if pc.Idle? || pc.Joined? || pc.Owning? || pc.Checking? {
      OwnerKeepsInv(s, p, drawn, expired);
    } else {
      FileKeepsInv(s, p, drawn, expired);
    }
  }

  /** Calls that look at the file or at a pid before anything is taken or removed. */
  lemma LookKeepsInv(s: State, p: Pid, drawn: Token, expired: bool)
    requires Inv(s) && s.Alive(p) && drawn !in s.issued
    requires var pc := s.procs[p].pc; pc.Reading? || pc.Probing? || pc.Rereading?
    ensures Inv(Tick(s, p, drawn, expired))
  {
    match s.procs[p].pc
    case Reading => ReadKeepsInv(s, p, drawn, expired);
    case Rereading(r) => RereadKeepsInv(s, p, r, expired);
    case Probing(r) => ProbeKeepsInv(s, p, r, expired);
  }

  lemma OwnerKeepsInv(s: State, p: Pid, drawn: Token, expired: bool)
    requires Inv(s) && s.Alive(p)
    requires var pc := s.procs[p].pc; pc.Idle? || pc.Joined? || pc.Owning? || pc.Checking?
    ensures Inv(Tick(s, p, drawn, expired))
  {
    match s.procs[p].pc
    case Checking(t) => CheckKeepsInv(s, p, t);
    case Idle => GotoKeepsInv(s, p, Reading);
    case Owning(t) => GotoKeepsInv(s, p, Checking(t));
    case Joined(_) => GotoKeepsInv(s, p, Idle);
  }

  /** Calls that create, write or unlink the file. */
  lemma FileKeepsInv(s: State, p: Pid, drawn: Token, expired: bool)
    requires Inv(s) && Assumed(s) && s.Alive(p)
    requires var pc := s.procs[p].pc; pc.Opening? || pc.Writing? || pc.Removing? || Window(pc).Some?
    ensures Inv(Tick(s, p, drawn, expired))
  {
    match s.procs[p].pc
    case Reclaiming(r) => ReclaimKeepsInv(s, p, r);
    case Opening(t) => OpeningKeepsInv(s, p, t);
    case Writing(t) => WriteKeepsInv(s, p, t);
    case Removing(t) => RemovingKeepsInv(s, p, t);
    case Dropping(t) => DropKeepsInv(s, p, t);
  }

  /** A process may move on to any call whose promise it can make. */
  lemma GotoKeepsInv(s: State, p: Pid, pc: Pc)
    requires Inv(s) && s.Alive(p) && !s.procs[p].pc.Writing? && !pc.Writing? && ProcessOk(s.Goto(p, pc), p)
    requires forall t :: HoldsLock(s.Goto(p, pc), p, t) ==> HoldsLock(s, p, t)
    ensures Inv(s.Goto(p, pc))
  {
    assert HoldOk(s, p);
    QuietKeepsInv(s, s.Goto(p, pc), p);
  }

  lemma ExitKeepsInv(s: State, p: Pid)
    requires Inv(s) && s.Alive(p)
    ensures Inv(s.Exit(p))
  {
    QuietKeepsInv(s, s.Exit(p), p);
  }

  lemma OpeningKeepsInv(s: State, p: Pid, t: Token)
    requires Inv(s) && s.At(p, Opening(t))
    ensures Inv(if s.entry.Some? then s.Goto(p, Reading) else s.(entry := Some(t)).Goto(p, Writing(t)))
  {
    if s.entry.None? {
      OpenKeepsInv(s, p, t);
    } else {
      GotoKeepsInv(s, p, Reading);
    }
  }

  lemma RemovingKeepsInv(s: State, p: Pid, t: Token)
    requires Inv(s) && Assumed(s) && s.At(p, Removing(t))
    ensures Inv(if s.entry.None? then s.Exit(p) else s.(entry := None).Goto(p, Idle))
  {
    RemoveKeepsInv(s, p, t);
    ExitKeepsInv(s, p);
  }

  lemma CheckKeepsInv(s: State, p: Pid, t: Token)
    requires Inv(s) && s.At(p, Checking(t))
    ensures Inv(s.Exit(p)) && Inv(s.Goto(p, Idle)) && Inv(s.Goto(p, Removing(t)))
  {
    assert ProcessOk(s, p);
    ExitKeepsInv(s, p);
    GotoKeepsInv(s, p, Idle);
    GotoKeepsInv(s, p, Removing(t));
  }

  lemma ProbeKeepsInv(s: State, p: Pid, r: Record, expired: bool)
    requires Inv(s) && s.At(p, Probing(r))
    ensures Inv(if s.Alive(r.pid) then Wait(s, p, expired) else s.Goto(p, Rereading(r)))
  {
    assert ProcessOk(s, p);
    WaitKeepsInv(s, p, expired);
    if !s.Alive(r.pid) {
      GotoKeepsInv(s, p, Rereading(r));
    }
  }

  lemma RereadKeepsInv(s: State, p: Pid, r: Record, expired: bool)
    requires Inv(s) && s.At(p, Rereading(r))
    ensures Inv(s.Exit(p)) && Inv(Wait(s, p, expired))
    ensures ReadLock(s).Holds? && ReadLock(s).record.token == r.token ==> Inv(s.Goto(p, Reclaiming(r)))
  {
    assert ProcessOk(s, p);
    ExitKeepsInv(s, p);
    WaitKeepsInv(s, p, expired);
    if ReadLock(s).Holds? && ReadLock(s).record.token == r.token {
      assert s.entry == Some(r.token);
      GotoKeepsInv(s, p, Reclaiming(r));
    }
  }

  lemma RetryKeepsInv(s: State, p: Pid)
    requires Inv(s) && s.Alive(p) && !s.procs[p].pc.Writing?
    ensures Inv(Retry(s, p))
  {
    assert HoldOk(s, p);
    match s.procs[p].role
    case Run(_) => GotoKeepsInv(s, p, Reading);
    case Hold(mine) => GotoKeepsInv(s, p, Opening(mine));
    case Release(_, _) => ExitKeepsInv(s, p);
  }

  lemma WaitKeepsInv(s: State, p: Pid, expired: bool)
    requires Inv(s) && s.Alive(p) && !s.procs[p].pc.Writing?
    ensures Inv(Wait(s, p, expired)) && Inv(s.Exit(p))
  {
    RetryKeepsInv(s, p);
    ExitKeepsInv(s, p);
  }

  lemma FirstReadKeepsInv(s: State, p: Pid, drawn: Token)
    requires Inv(s) && s.At(p, Reading) && drawn !in s.issued && s.procs[p].role.Run?
    ensures Inv(s.(issued := s.issued[drawn := p]).Goto(p, Opening(drawn)))
  {
    assert drawn !in s.records && s.entry != Some(drawn);
    QuietKeepsInv(s, s.(issued := s.issued[drawn := p]).Goto(p, Opening(drawn)), p);
  }

  lemma ConsiderKeepsInv(s: State, p: Pid, seen: Record, expired: bool)
    requires Inv(s) && s.At(p, Reading) && seen.token in s.records && s.records[seen.token] == seen
    ensures Inv(Consider(s, p, seen, expired))
  {
    WaitKeepsInv(s, p, expired);
    if !seen.held {
      GotoKeepsInv(s, p, Probing(seen));
    }
  }

  lemma FoundKeepsInv(s: State, p: Pid, seen: Record, expired: bool)
    requires Inv(s) && s.At(p, Reading) && ReadLock(s) == Holds(seen)
    ensures Inv(Consider(s, p, seen, expired)) && Inv(s.Goto(p, Joined(seen.token))) && Inv(s.Exit(p))
    ensures s.procs[p].role == Release(Some(seen.token), false) ==> Inv(s.Goto(p, Dropping(seen.token)))
  {
    assert s.entry == Some(seen.token) && s.records[seen.token] == seen;
    ConsiderKeepsInv(s, p, seen, expired);
    GotoKeepsInv(s, p, Joined(seen.token));
    ExitKeepsInv(s, p);
    if s.procs[p].role == Release(Some(seen.token), false) {
      GotoKeepsInv(s, p, Dropping(seen.token));
    }
  }

  lemma ReadKeepsInv(s: State, p: Pid, drawn: Token, expired: bool)
    requires Inv(s) && s.At(p, Reading) && drawn !in s.issued
    ensures Inv(AfterRead(s, p, drawn, expired))
  {
    WaitKeepsInv(s, p, expired);
    match ReadLock(s)
    case Unparsable =>
    case NoFile => if s.procs[p].role.Run? { FirstReadKeepsInv(s, p, drawn); }
    case Holds(r) =>
      FoundKeepsInv(s, p, r, expired);
      FoundKeepsInv(s, p, r, true);
  }

  lemma ReclaimKeepsInv(s: State, p: Pid, r: Record)
    requires Inv(s) && Assumed(s) && s.At(p, Reclaiming(r))
    ensures Inv(Retry(s.(entry := None), p))
  {
    var s' := Retry(s.(entry := None), p);
    assert InWindow(s, p, r.token);
    forall q | s'.Alive(q)
      ensures ProcessOk(s', q) && (!s'.procs[q].pc.Writing? ==> HoldOk(s', q))
    {
      assert s.Alive(q) && ProcessOk(s, q);
      assert q != p && Window(s.procs[q].pc).Some? ==> !InWindow(s, q, r.token);
    }
  }

  lemma OpenKeepsInv(s: State, p: Pid, t: Token)
    requires Inv(s) && s.At(p, Opening(t)) && s.entry.None?
    ensures Inv(s.(entry := Some(t)).Goto(p, Writing(t)))
  {
    var s' := s.(entry := Some(t)).Goto(p, Writing(t));
    forall q | s'.Alive(q)
      ensures ProcessOk(s', q) && (!s'.procs[q].pc.Writing? ==> HoldOk(s', q))
    {
      assert s.Alive(q) && ProcessOk(s, q);
    }
  }

  /** The record of `p` written into its file. */
  function Written(s: State, p: Pid, t: Token): State
    requires p in s.procs
  {
    s.(records := s.records[t := Record(p, t, s.procs[p].role.Hold?)])
  }

  lemma WriteDisturbsNobody(s: State, p: Pid, t: Token, q: Pid)
    requires Inv(s) && s.At(p, Writing(t)) && s.Alive(q) && q != p
    ensures ProcessOk(Written(s, p, t), q) && (!s.procs[q].pc.Writing? ==> HoldOk(Written(s, p, t), q))
  {
    assert ProcessOk(s, q) && ProcessOk(s, p);
  }

  /** A process that comes to own a lock nobody has seen disturbs nobody. */
  lemma MovesLeaveOthers(s: State, s': State, p: Pid, t: Token, q: Pid)
    requires s.Alive(p) && s'.procs.Keys == s.procs.Keys && s' == s.(procs := s.procs[p := s'.procs[p]])
    requires s.Alive(q) && q != p && ProcessOk(s, q)
    requires forall u :: HoldsLock(s', p, u) ==> u == t
    requires s.procs[q].pc.Rereading? || s.procs[q].pc.Reclaiming? ==> s.procs[q].pc.seen.token != t
    ensures ProcessOk(s', q) && (HoldOk(s, q) ==> HoldOk(s', q))
  {
    match s.procs[q].pc
    case Rereading(r) => assert HoldsLock(s', r.pid, r.token) ==> HoldsLock(s, r.pid, r.token);
    case Reclaiming(r) => assert HoldsLock(s', r.pid, r.token) ==> HoldsLock(s, r.pid, r.token);
    case _ =>
  }

  lemma WriteKeepsInv(s: State, p: Pid, t: Token)
    requires Inv(s) && s.At(p, Writing(t))
    ensures Inv(if s.procs[p].role.Hold? then Written(s, p, t).Exit(p) else Written(s, p, t).Goto(p, Owning(t)))
  {
    var w := Written(s, p, t);
    var s' := if s.procs[p].role.Hold? then w.Exit(p) else w.Goto(p, Owning(t));
    assert ProcessOk(s, p);
    forall q | s'.Alive(q)
      ensures ProcessOk(s', q) && (!s'.procs[q].pc.Writing? ==> HoldOk(s', q))
    {
      if q != p {
        assert ProcessOk(s, q);
        WriteDisturbsNobody(s, p, t, q);
        MovesLeaveOthers(w, s', p, t, q);
      }
    }
  }

  lemma RemoveKeepsInv(s: State, p: Pid, t: Token)
    requires Inv(s) && Assumed(s) && s.At(p, Removing(t))
    ensures Inv(s.(entry := None).Goto(p, Idle))
  {
    var s' := s.(entry := None).Goto(p, Idle);
    forall q | s'.Alive(q)
      ensures ProcessOk(s', q) && (!s'.procs[q].pc.Writing? ==> HoldOk(s', q))
    {
      assert s.Alive(q) && ProcessOk(s, q);
      assert HoldsLock(s, p, t);
      assert !s.At(q, Dropping(t));
    }
  }

  lemma DropKeepsInv(s: State, p: Pid, t: Token)
    requires Inv(s) && Assumed(s) && s.At(p, Dropping(t))
    ensures Inv(s.(entry := None, released := s.released + {t}).Exit(p))
  {
    var s' := s.(entry := None, released := s.released + {t}).Exit(p);
    assert InWindow(s, p, t);
    forall q | s'.Alive(q)
      ensures ProcessOk(s', q) && (!s'.procs[q].pc.Writing? ==> HoldOk(s', q))
    {
      assert s.Alive(q) && ProcessOk(s, q) && !HoldsLock(s, q, t);
      assert q != p && Window(s.procs[q].pc).Some? ==> !InWindow(s, q, t);
    }
  }
}
