/** The suite runner of verify/stress/check.py as a state machine over the steps of its threads:
    `run_suites` on the main thread, its pool of workers, and the `run_suite` calls of `main`. */
module StressPool {
  import opened Wrappers
  import opened StressLanes

  datatype Row = Row(name: string, elapsed: real, passed: bool)

  /** Where a thread is: about to call `run_suite` (or to return its lane), waiting for a child,
      or past the child with its elapsed time taken. */
  datatype Act = Calling | Child(before: real) | Past(before: real, elapsed: real)

  datatype Job =
    | Queued
    | Running(thread: nat, results: seq<Option<Row>>, act: Act)
    | Returned(results: seq<Option<Row>>)
    | Raised

  /** A child process that ran, from `before` for `elapsed`. */
  datatype Run = Run(name: string, job: nat, thread: nat, before: real, elapsed: real)

  datatype Stage = Alone | Pooled | Ended | Crashed

  /** `failed` is the shared event; `rows` is `finished`; `collected` counts the futures that the
      main thread has read, the sequence's own result first; `openedAt` is when the pool began. */
  datatype State = State(now: real, failed: bool, jobs: seq<Job>, collected: nat, rows: map<string, Row>,
    errors: nat, stage: Stage, openedAt: real, runs: seq<Run>)

  datatype Plan = Plan(lanes: seq<Lane>, workers: nat, deadline: real, start: real)

  datatype Step =
    | Tick(d: real)
    | Take(j: nat, t: nat)
    | Call(j: nat)
    | Exit(j: nat)
    | Report(j: nat, ok: bool)
    | Break(j: nat)
    | Return(j: nat)
    | Collect

  /** The main thread is numbered after the workers. */
  function Init(plan: Plan): State {
    State(plan.start, false, seq(|plan.lanes|, j => if j == 0 then Running(plan.workers, [], Calling) else Queued),
      0, map[], 0, Alone, plan.start, [])
  }

  predicate Settled(job: Job) { job.Returned? || job.Raised? }

  /** Lane `j` is running and has a suite still to run. */
  predicate AtSuite(plan: Plan, s: State, j: nat) {
    j < |s.jobs| && j < |plan.lanes| && s.jobs[j].Running? && |s.jobs[j].results| < |plan.lanes[j]|
  }

  predicate Enabled(plan: Plan, s: State, step: Step) {
    match step
    case Tick(d) => d >= 0.0
    case Take(j, t) =>
      && s.stage == Pooled && j < |s.jobs| && s.jobs[j].Queued? && t < plan.workers
      && (forall k :: 0 <= k < j ==> !s.jobs[k].Queued?)
      && forall k :: 0 <= k < |s.jobs| && s.jobs[k].Running? ==> s.jobs[k].thread != t
    case Call(j) => AtSuite(plan, s, j) && s.jobs[j].act == Calling
    case Exit(j) => AtSuite(plan, s, j) && s.jobs[j].act.Child?
    case Report(j, _) => AtSuite(plan, s, j) && s.jobs[j].act.Past?
    case Break(j) => AtSuite(plan, s, j) && s.jobs[j].act != Calling
    case Return(j) =>
      && j < |s.jobs| && j < |plan.lanes| && s.jobs[j].Running? && s.jobs[j].act == Calling
      && |s.jobs[j].results| == |plan.lanes[j]|
    case Collect => (s.stage == Alone || s.stage == Pooled) && s.collected < |s.jobs| && Settled(s.jobs[s.collected])
  }

  function SetJob(s: State, j: nat, job: Job): State
    requires j < |s.jobs|
  {
    s.(jobs := s.jobs[j := job])
  }

  /** `run_suite` at its start: past the deadline it raises, after a failure it returns None,
      and otherwise it starts the child. */
  function CallSuite(plan: Plan, s: State, j: nat): State
    requires j < |s.jobs| && s.jobs[j].Running?
  {
    var job := s.jobs[j];
    if plan.deadline - s.now <= 0.0 then SetJob(s, j, Raised).(failed := true)
    else if s.failed then SetJob(s, j, job.(results := job.results + [None]))
    else SetJob(s, j, job.(act := Child(s.now)))
  }

  /** The child of lane `j` is gone. */
  function RunOf(plan: Plan, s: State, j: nat): Run
    requires AtSuite(plan, s, j) && s.jobs[j].act.Child?
  {
    var job := s.jobs[j];
    Run(plan.lanes[j][|job.results|].name, j, job.thread, job.act.before, s.now - job.act.before)
  }

  function ExitChild(plan: Plan, s: State, j: nat): State
    requires AtSuite(plan, s, j) && s.jobs[j].act.Child?
  {
    var job, run := s.jobs[j], RunOf(plan, s, j);
    SetJob(s, j, job.(act := Past(run.before, run.elapsed))).(runs := s.runs + [run])
  }

  /** The suite's row: passed only if it did and the deadline has not. */
  function ReportSuite(plan: Plan, s: State, j: nat, ok: bool): State
    requires AtSuite(plan, s, j) && s.jobs[j].act.Past?
  {
    var job := s.jobs[j];
    var row := Row(plan.lanes[j][|job.results|].name, job.act.elapsed, ok && s.now <= plan.deadline);
    SetJob(s, j, job.(results := job.results + [Some(row)], act := Calling)).(failed := s.failed || !row.passed)
  }

  /** A call that raises in or after its child ends the lane and loses the lane's rows. */
  function BreakSuite(plan: Plan, s: State, j: nat): State
    requires AtSuite(plan, s, j)
  {
    SetJob(s, j, Raised).(runs := if s.jobs[j].act.Child? then s.runs + [RunOf(plan, s, j)] else s.runs)
  }

  function Merge(rows: map<string, Row>, results: seq<Option<Row>>): map<string, Row> {
    if results == [] then rows
    else
      var before := Merge(rows, results[..|results| - 1]);
      match results[|results| - 1]
      case None => before
      case Some(row) => before[row.name := row]
  }

  /** The sequence's result decides whether there is a pool at all. */
  function CollectFirst(s: State): State
    requires s.collected < |s.jobs| && Settled(s.jobs[s.collected])
  {
    match s.jobs[s.collected]
    case Returned(results) =>
      var rows := Merge(map[], results);
      if results != [] && results[0].Some? && results[0].value.passed
      then s.(rows := rows, collected := s.collected + 1, stage := Pooled, openedAt := s.now)
      else s.(rows := rows, collected := s.collected + 1, stage := Ended, failed := true, openedAt := s.now)
    case _ => s.(collected := s.collected + 1, stage := Crashed, openedAt := s.now)
  }

  function CollectNext(s: State): State
    requires s.collected < |s.jobs| && Settled(s.jobs[s.collected])
  {
    var stage := if s.collected + 1 == |s.jobs| then Ended else Pooled;
    match s.jobs[s.collected]
    case Returned(results) => s.(rows := Merge(s.rows, results), collected := s.collected + 1, stage := stage)
    case _ => s.(errors := s.errors + 1, failed := true, collected := s.collected + 1, stage := stage)
  }

  function Apply(plan: Plan, s: State, step: Step): State
    requires Enabled(plan, s, step)
  {
    match step
    case Tick(d) => s.(now := s.now + d)
    case Take(j, t) => SetJob(s, j, Running(t, [], Calling))
    case Call(j) => CallSuite(plan, s, j)
    case Exit(j) => ExitChild(plan, s, j)
    case Report(j, ok) => ReportSuite(plan, s, j, ok)
    case Break(j) => BreakSuite(plan, s, j)
    case Return(j) => SetJob(s, j, Returned(s.jobs[j].results))
    case Collect => if s.stage == Alone then CollectFirst(s) else CollectNext(s)
  }

  /** The state after a run of steps, if each is enabled in its turn. */
  function After(plan: Plan, steps: seq<Step>): Option<State>
    decreases |steps|
  {
    if steps == [] then Some(Init(plan))
    else
      var last := |steps| - 1;
      match After(plan, steps[..last])
      case None => None
      case Some(r) => if Enabled(plan, r, steps[last]) then Some(Apply(plan, r, steps[last])) else None
  }

  /** The rows of `run_suites`, in inventory order. */
  function RowsOf(suites: seq<Suite>, rows: map<string, Row>): seq<Row> {
    if suites == [] then []
    else (if suites[0].name in rows then [rows[suites[0].name]] else []) + RowsOf(suites[1..], rows)
  }

  function PlanOf(suites: seq<Suite>, workers: nat, deadline: real, start: real): Plan {
    Plan(Lanes(suites), workers, deadline, start)
  }
}
