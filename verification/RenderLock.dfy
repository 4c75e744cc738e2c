/** The render lock of media/render.ts: one lock file shared by any number of processes.
    Each step of the state machine is one call that touches the file or a process table, so
    opening the file and writing its record are separate steps, and so are the read that
    decides to unlink and the unlink itself. */
module RenderLock {
  import opened Wrappers

  type Pid = nat
  type Token = nat

  datatype Record = Record(pid: Pid, token: Token, held: bool)

  /** What a process was started to do: render (perhaps handed a session token through the
      environment), `lock hold`, or `lock release`. */
  datatype Role =
    | Run(handed: Option<Token>)
    | Hold(mine: Token)
    | Release(named: Option<Token>, force: bool)

  /** The next call a process will make. */
  datatype Pc =
    | Idle
    | Reading
    | Probing(seen: Record)
    | Rereading(seen: Record)
    | Reclaiming(seen: Record)
    | Opening(token: Token)
    | Writing(token: Token)
    | Owning(token: Token)
    | Checking(token: Token)
    | Removing(token: Token)
    | Joined(token: Token)
    | Dropping(token: Token)

  datatype Process = Process(role: Role, pc: Pc, alive: bool)

  /** `entry` is the directory entry. A created file is known by the token its creator drew
      for it, so a write through an old handle reaches the old file even when the directory
      entry has moved on. `released` records what release commands removed, by the token
      they named. */
  datatype State = State(
    entry: Option<Token>,
    records: map<Token, Record>,
    issued: map<Token, Pid>,
    procs: map<Pid, Process>,
    released: set<Token>)
  {
    predicate Alive(p: Pid) { p in procs && procs[p].alive }

    predicate At(p: Pid, pc: Pc) { Alive(p) && procs[p].pc == pc }

    function Goto(p: Pid, pc: Pc): State
      requires p in procs
    {
      this.(procs := procs[p := procs[p].(pc := pc)])
    }

    /** A process that returned, threw or was killed: its pid no longer exists. */
    function Exit(p: Pid): State
      requires p in procs
    {
      this.(procs := procs[p := procs[p].(alive := false)])
    }
  }

  datatype Seen = NoFile | Unparsable | Holds(record: Record)

  /** A file without its record is empty, and parsing the empty string throws. */
  function ReadLock(s: State): Seen {
    match s.entry
    case None => NoFile
    case Some(t) => if t in s.records then Holds(s.records[t]) else Unparsable
  }

  /** Around the loop again: a run reads first, a hold tries to create first. */
  function Retry(s: State, p: Pid): State
    requires p in s.procs
  {
    match s.procs[p].role
    case Run(_) => s.Goto(p, Reading)
    case Hold(mine) => s.Goto(p, Opening(mine))
    case Release(_, _) => s.Exit(p)
  }

  /** `reclaimStale` said no: wait for the next poll, or throw once the deadline passed. */
  function Wait(s: State, p: Pid, expired: bool): State
    requires p in s.procs
  {
    if expired then s.Exit(p) else Retry(s, p)
  }

  function Consider(s: State, p: Pid, seen: Record, expired: bool): State
    requires p in s.procs
  {
    if seen.held then Wait(s, p, expired) else s.Goto(p, Probing(seen))
  }

  function AfterRead(s: State, p: Pid, drawn: Token, expired: bool): State
    requires p in s.procs
  {
    match (ReadLock(s), s.procs[p].role)
    case (Unparsable, _) => s.Exit(p)
    case (NoFile, Run(_)) => s.(issued := s.issued[drawn := p]).Goto(p, Opening(drawn))
    case (NoFile, Hold(_)) => Wait(s, p, expired)
    case (NoFile, Release(_, _)) => s.Exit(p)
    case (Holds(r), Run(handed)) =>
      if handed == Some(r.token) then s.Goto(p, Joined(r.token)) else Consider(s, p, r, expired)
    case (Holds(r), Hold(_)) => Consider(s, p, r, expired)
    case (Holds(r), Release(named, force)) =>
      if force then Consider(s, p, r, true)
      else if named == Some(r.token) then s.Goto(p, Dropping(r.token))
      else s.Exit(p)
  }

  /** One call of process `p`. `drawn` is the random token drawn if it needs one, `expired`
      whether its deadline has passed. */
  function Tick(s: State, p: Pid, drawn: Token, expired: bool): State
    requires p in s.procs
  {
    match s.procs[p].pc
    case Idle => s.Goto(p, Reading)
    case Reading => AfterRead(s, p, drawn, expired)
    case Probing(r) => if s.Alive(r.pid) then Wait(s, p, expired) else s.Goto(p, Rereading(r))
    case Rereading(r) =>
      (match ReadLock(s)
       case Unparsable => s.Exit(p)
       case NoFile => Wait(s, p, expired)
       case Holds(now) => if now.token == r.token then s.Goto(p, Reclaiming(r)) else Wait(s, p, expired))
    case Reclaiming(_) => Retry(s.(entry := None), p)
    case Opening(t) =>
      if s.entry.Some? then s.Goto(p, Reading) else s.(entry := Some(t)).Goto(p, Writing(t))
    case Writing(t) =>
      var written := s.(records := s.records[t := Record(p, t, s.procs[p].role.Hold?)]);
      if s.procs[p].role.Hold? then written.Exit(p) else written.Goto(p, Owning(t))
    case Owning(t) => s.Goto(p, Checking(t))
    case Checking(t) =>
      (match ReadLock(s)
       case Unparsable => s.Exit(p)
       case NoFile => s.Goto(p, Idle)
       case Holds(now) => if now.token == t then s.Goto(p, Removing(t)) else s.Goto(p, Idle))
    case Removing(_) => if s.entry.None? then s.Exit(p) else s.(entry := None).Goto(p, Idle)
    case Joined(_) => s.Goto(p, Idle)
    case Dropping(t) => s.(entry := None, released := s.released + {t}).Exit(p)
  }

  datatype Step =
    | Spawn(p: Pid, role: Role)
    | Call(p: Pid, drawn: Token, expired: bool)
    | Die(p: Pid)

  /** Random tokens never repeat. A pid is free again as soon as its process is gone, even
      while the lock still names it. */
  predicate Enabled(s: State, step: Step) {
    match step
    case Spawn(p, role) => !s.Alive(p) && (role.Hold? ==> role.mine !in s.issued)
    case Call(p, drawn, _) => s.Alive(p) && drawn !in s.issued
    case Die(p) => s.Alive(p)
  }

  function Apply(s: State, step: Step): State
    requires Enabled(s, step)
  {
    match step
    case Spawn(p, role) =>
      var start := if role.Hold? then Opening(role.mine) else Reading;
      var issued := if role.Hold? then s.issued[role.mine := p] else s.issued;
      s.(issued := issued, procs := s.procs[p := Process(role, start, true)])
    case Call(p, drawn, expired) => Tick(s, p, drawn, expired)
    case Die(p) => s.Exit(p)
  }

  const Init := State(None, map[], map[], map[], {})

  /** The lock a process is about to unlink without owning it. */
  function Window(pc: Pc): Option<Token> {
    match pc
    case Reclaiming(r) => Some(r.token)
    case Dropping(t) => Some(t)
    case _ => None
  }

  predicate InWindow(s: State, p: Pid, t: Token) {
    s.Alive(p) && Window(s.procs[p].pc) == Some(t)
  }

  /** What the protocol relies on and does not enforce: for each lock, at most one process is
      between the read that let it unlink and that unlink... */
  ghost predicate LoneRemover(s: State) {
    forall p, q, t :: InWindow(s, p, t) && InWindow(s, q, t) ==> p == q
  }

  /** A run that took the lock itself and has not given it back. */
  predicate HoldsLock(s: State, p: Pid, t: Token) {
    s.Alive(p) && s.procs[p].pc in {Owning(t), Checking(t), Removing(t)}
  }

  /** A run renders under a lock of its own or under the one it has joined. */
  predicate Renders(s: State, p: Pid, t: Token) {
    HoldsLock(s, p, t) || s.At(p, Joined(t))
  }

  /** ...and no release command is about to unlink the lock of a run that still holds it. */
  ghost predicate NoReleaseOfARun(s: State) {
    forall p, q, t :: s.At(p, Dropping(t)) ==> !HoldsLock(s, q, t)
  }

  ghost predicate Assumed(s: State) {
    LoneRemover(s) && NoReleaseOfARun(s)
  }

  predicate SessionOpen(s: State, t: Token) {
    t in s.records && s.records[t].held && t !in s.released
  }

  /** The owners of the lock: runs between taking it and unlinking it, and sessions between
      their record and the release that names them. */
  ghost predicate Owns(s: State, t: Token) {
    SessionOpen(s, t) || exists p :: HoldsLock(s, p, t)
  }

  /** One owner at most, run or session, and the file is that owner's. */
  ghost predicate Exclusive(s: State) {
    && (forall t :: Owns(s, t) ==> s.entry == Some(t) && ReadLock(s).Holds? && ReadLock(s).record.token == t)
    && (forall p, q, t, u :: HoldsLock(s, p, t) && HoldsLock(s, q, u) ==> p == q)
    && (forall p, t, u :: HoldsLock(s, p, t) ==> !SessionOpen(s, u))
  }
}
