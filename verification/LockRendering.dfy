/** One render at a time: the runs that hold the render lock and those that joined a session's. */
module LockRendering {
  import opened Wrappers
  import opened RenderLock
  import opened LockInvariant
  import opened LockRuns
  import opened LockHypotheses

  /** A run that joined a lock found its record in the file, and the file is still that one. What
      was released is not in place again. */
  ghost predicate JoinsOk(s: State) {
    && s.released <= s.records.Keys
    && (s.entry.Some? ==> s.entry.value !in s.released)
    && forall p, t: Token :: s.At(p, Joined(t)) ==> s.entry == Some(t) && t in s.records
  }

  /** What one render at a time needs beside an exclusive lock, and the code does not enforce: no
      release is about to unlink a lock that a run has joined... */
  ghost predicate NoReleaseUnderAJoin(s: State) {
    forall p, q, t: Token :: s.At(p, Dropping(t)) ==> !s.At(q, Joined(t))
  }

  /** ...the runs that are handed one token render one after another... */
  ghost predicate LoneJoin(s: State) {
    forall p, q, t: Token :: s.At(p, Joined(t)) && s.At(q, Joined(t)) ==> p == q
  }

  /** ...and the tokens handed to runs are those of sessions. */
  ghost predicate JoinsNameSessions(s: State) {
    forall p, t: Token :: s.At(p, Joined(t)) && t in s.records ==> s.records[t].held
  }

  ghost predicate JoinsAssumed(s: State) {
    NoReleaseUnderAJoin(s) && LoneJoin(s) && JoinsNameSessions(s)
  }

  /** One process renders at most, and the file in place is the one it renders under. */
  ghost predicate RendersAlone(s: State) {
    && (forall p, q, t, u :: Renders(s, p, t) && Renders(s, q, u) ==> p == q)
    && forall p, t: Token :: Renders(s, p, t) ==> s.entry == Some(t)
  }

  ghost predicate TwoRender(s: State) {
    exists a, b, u, v :: a != b && Renders(s, a, u) && Renders(s, b, v)
  }

  /** A step that leaves the file alone lets nobody join but the process that takes it. */
  lemma QuietKeepsJoins(s: State, s': State, p: Pid)
    requires JoinsOk(s) && s'.entry == s.entry && s'.released == s.released && s.records.Keys <= s'.records.Keys
    requires forall q, t: Token :: q != p && s'.At(q, Joined(t)) ==> s.At(q, Joined(t))
    requires forall t: Token :: s'.At(p, Joined(t)) ==> s.entry == Some(t) && t in s.records
    ensures JoinsOk(s')
  {
  }

  /** Nobody has joined a lock that is being unlinked. */
  lemma UnlinkMeetsNoJoin(s: State, p: Pid, t: Token, q: Pid, u: Token)
    requires Inv(s) && JoinsOk(s) && JoinsAssumed(s)
    requires s.At(p, Removing(t)) || (s.Alive(p) && Window(s.procs[p].pc) == Some(t))
    ensures !s.At(q, Joined(u))
  {
    assert ProcessOk(s, p);
    assert s.At(q, Joined(u)) ==> u == t && s.records[u].held;
    assert s.At(p, Dropping(t)) ==> !s.At(q, Joined(t));
  }

  lemma UnlinkKeepsJoins(s: State, s': State, p: Pid, t: Token)
    requires Inv(s) && JoinsOk(s) && JoinsAssumed(s)
    requires s.At(p, Removing(t)) || (s.Alive(p) && Window(s.procs[p].pc) == Some(t))
    requires s'.entry.None? && s'.records == s.records && s'.released <= s'.records.Keys
    requires forall q, u: Token :: s'.At(q, Joined(u)) ==> s.At(q, Joined(u))
    ensures JoinsOk(s')
  {
    forall q, u: Token
      ensures !s'.At(q, Joined(u))
    {
      UnlinkMeetsNoJoin(s, p, t, q, u);
    }
  }

  lemma OpenKeepsJoins(s: State, p: Pid, t: Token)
    requires Inv(s) && JoinsOk(s) && s.At(p, Opening(t)) && s.entry.None?
    ensures JoinsOk(s.(entry := Some(t)).Goto(p, Writing(t)))
  {
    var s' := s.(entry := Some(t)).Goto(p, Writing(t));
    assert ProcessOk(s, p);
    forall q, u: Token
      ensures !s'.At(q, Joined(u))
    {
      assert !s.At(q, Joined(u));
    }
  }

  lemma ReadKeepsJoins(s: State, p: Pid, drawn: Token, expired: bool)
    requires Inv(s) && JoinsOk(s) && s.At(p, Reading)
    ensures JoinsOk(AfterRead(s, p, drawn, expired))
  {
    QuietKeepsJoins(s, AfterRead(s, p, drawn, expired), p);
  }

  /** Moving on, going round again and ending join nobody. */
  lemma MovesKeepJoins(s: State, p: Pid, pc: Pc, expired: bool)
    requires JoinsOk(s) && s.Alive(p) && !pc.Joined?
    ensures JoinsOk(s.Goto(p, pc)) && JoinsOk(s.Exit(p)) && JoinsOk(Wait(s, p, expired))
  {
    QuietKeepsJoins(s, s.Goto(p, pc), p);
    QuietKeepsJoins(s, s.Exit(p), p);
    QuietKeepsJoins(s, Wait(s, p, expired), p);
  }

  lemma WriteKeepsJoins(s: State, p: Pid, t: Token)
    requires JoinsOk(s) && s.At(p, Writing(t))
    ensures JoinsOk(if s.procs[p].role.Hold? then Written(s, p, t).Exit(p) else Written(s, p, t).Goto(p, Owning(t)))
  {
    QuietKeepsJoins(s, Written(s, p, t).Exit(p), p);
    QuietKeepsJoins(s, Written(s, p, t).Goto(p, Owning(t)), p);
  }

  lemma LooksKeepJoins(s: State, p: Pid, drawn: Token, expired: bool)
    requires JoinsOk(s) && s.Alive(p) && (s.procs[p].pc.Probing? || s.procs[p].pc.Rereading?)
    ensures JoinsOk(Tick(s, p, drawn, expired))
  {
    match s.procs[p].pc
    case Probing(r) => MovesKeepJoins(s, p, Rereading(r), expired);
    case Rereading(r) => MovesKeepJoins(s, p, Reclaiming(r), expired);
  }

  lemma OwnerKeepsJoins(s: State, p: Pid, drawn: Token, expired: bool)
    requires JoinsOk(s) && s.Alive(p)
    requires var pc := s.procs[p].pc; pc.Idle? || pc.Owning? || pc.Checking? || pc.Joined? || pc.Writing?
    ensures JoinsOk(Tick(s, p, drawn, expired))
  {
    MovesKeepJoins(s, p, Idle, expired);
    match s.procs[p].pc
    case Owning(t) => MovesKeepJoins(s, p, Checking(t), expired);
    case Checking(t) => MovesKeepJoins(s, p, Removing(t), expired);
    case Writing(t) => WriteKeepsJoins(s, p, t);
    case Idle => MovesKeepJoins(s, p, Reading, expired);
    case Joined(_) =>
  }

  lemma FileKeepsJoins(s: State, p: Pid, drawn: Token, expired: bool)
    requires Inv(s) && JoinsOk(s) && JoinsAssumed(s) && s.Alive(p)
    requires var pc := s.procs[p].pc; pc.Removing? || pc.Opening? || Window(pc).Some?
    ensures JoinsOk(Tick(s, p, drawn, expired))
  {
    var s' := Tick(s, p, drawn, expired);
    assert ProcessOk(s, p);
    match s.procs[p].pc
    case Reclaiming(r) => UnlinkKeepsJoins(s, s', p, r.token);
    case Dropping(t) => UnlinkKeepsJoins(s, s', p, t);
    case Removing(t) => UnlinkKeepsJoins(s, s', p, t);
    case Opening(t) => if s.entry.None? { OpenKeepsJoins(s, p, t); } else { MovesKeepJoins(s, p, Reading, expired); }
  }

  lemma CallKeepsJoins(s: State, p: Pid, drawn: Token, expired: bool)
    requires Inv(s) && JoinsOk(s) && JoinsAssumed(s) && s.Alive(p)
    ensures JoinsOk(Tick(s, p, drawn, expired))
  {
    var pc := s.procs[p].pc;
    if pc.Removing? || pc.Opening? || Window(pc).Some? {
      FileKeepsJoins(s, p, drawn, expired);
    } else if pc.Reading? {
      ReadKeepsJoins(s, p, drawn, expired);
    } else if pc.Probing? || pc.Rereading? {
      LooksKeepJoins(s, p, drawn, expired);
    } else {
      OwnerKeepsJoins(s, p, drawn, expired);
    }
  }

  lemma StepKeepsJoins(s: State, step: Step)
    requires Inv(s) && JoinsOk(s) && JoinsAssumed(s) && Enabled(s, step)
    ensures JoinsOk(Apply(s, step))
  {
    match step
    case Call(p, drawn, expired) => CallKeepsJoins(s, p, drawn, expired);
    case Spawn(p, _) => QuietKeepsJoins(s, Apply(s, step), p);
    case Die(p) => QuietKeepsJoins(s, Apply(s, step), p);
  }

  /** The lock's owner and a joined run are never both there, and there are not two of either. */
  lemma JoinsAreAlone(s: State)
    requires Inv(s) && JoinsOk(s) && JoinsAssumed(s)
    ensures RendersAlone(s)
  {
    InvMeansExclusive(s);
    forall p: Pid, t: Token | HoldsLock(s, p, t)
      ensures s.entry == Some(t) && forall q, u: Token :: !s.At(q, Joined(u))
    {
      assert ProcessOk(s, p) && HeldBy(s, p, t);
    }
  }

  /** In every state that the steps are taken in, joining keeps to the rules. */
  ghost predicate JoinsKept(steps: seq<Step>)
    decreases |steps|
  {
    steps == [] ||
    (var before := steps[..|steps| - 1];
     JoinsKept(before) && After(before).Some? && JoinsAssumed(After(before).value))
  }

  lemma {:induction false} RunKeepsJoins(steps: seq<Step>, s: State)
    requires After(steps) == Some(s) && JoinsKept(steps)
    ensures JoinsOk(s)
    decreases |steps|
  {
    if steps != [] {
      var last := |steps| - 1;
      var before := After(steps[..last]).value;
      RunKeepsInv(steps[..last], before);
      RunKeepsJoins(steps[..last], before);
      StepKeepsJoins(before, steps[last]);
    }
  }

  /** Main result: as long as joining keeps to the rules, at most one process renders in every
      reachable state, be it under a lock of its own or under a session's. */
  lemma OneRenderAtATime(steps: seq<Step>, s: State)
    requires After(steps) == Some(s) && JoinsKept(steps) && JoinsAssumed(s)
    ensures RendersAlone(s)
  {
    RunKeepsInv(steps, s);
    RunKeepsJoins(steps, s);
    JoinsAreAlone(s);
  }

  /** While a session is open nobody renders but a run that joined it. */
  lemma SessionRendersJoinedRuns(steps: seq<Step>, s: State, t: Token, p: Pid, u: Token)
    requires After(steps) == Some(s) && JoinsKept(steps) && JoinsAssumed(s)
    requires SessionOpen(s, t) && Renders(s, p, u)
    ensures u == t && s.At(p, Joined(t))
  {
    SessionExcludesRuns(steps, s, t, p, u);
    RunKeepsInv(steps, s);
    SessionHasFile(s, t);
    OneRenderAtATime(steps, s);
  }
}
