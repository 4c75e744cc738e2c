/** The run of scripts/compare_proxy_tails.py that fills a receipt: `verify_binding`,
    `verify_all`, `experiment` and the failure handling of `main`. */
module Experiment {
  import opened Wrappers
  import opened Receipt

  function ChangedCode(k: nat): Code { if k == 0 then "binary_changed" else "source_changed" }

  const SNAPSHOT: Code := "snapshot_changed"
  const ARMS_DIFFER: Code := "replay_arms_not_comparable"
  const INTERRUPTED: Code := "interrupted"
  const INTERNAL: Code := "internal_error"

  ghost predicate Untouched(sources: seq<Source>) {
    forall i :: 0 <= i < |sources| ==> sources[i].arms == [FreshArm(), FreshArm()]
  }

  ghost predicate AllDone(sources: seq<Source>) {
    forall i :: 0 <= i < |sources| ==> SourceDone(sources[i])
  }

  /** The first `n` sources are done, and no arm of the others has run. */
  ghost predicate DoneBefore(sources: seq<Source>, n: nat) {
    && n <= |sources| && (forall i :: 0 <= i < n ==> SourceDone(sources[i]))
    && forall i :: n <= i < |sources| ==> sources[i].arms == [FreshArm(), FreshArm()]
  }

  lemma OneMoreDone(before: seq<Source>, after: seq<Source>, i: nat)
    requires i < |after| == |before| && DoneBefore(before, i) && SourceDone(after[i])
    requires forall j :: 0 <= j < |after| && j != i ==> after[j] == before[j]
    ensures DoneBefore(after, i + 1)
  {
  }

  ghost predicate AllStable(rows: seq<Row>) {
    forall k :: 0 <= k < |rows| ==>
      rows[k].stable == Some(true) && rows[k].fault.None? && rows[k].after == rows[k].before
  }

  /** A receipt that claims no more than the run saw. */
  ghost predicate Honest(w: Written) {
    if w.complete then AllDone(w.sources) && AllStable(w.rows) && w.error.None?
    else NoComparison(w.sources) && w.error.Some?
  }

  /** Only arm `k` of source `i` differs. */
  ghost predicate OnlyArm(before: seq<Source>, after: seq<Source>, i: nat, k: nat) {
    && |after| == |before| && i < |after| && k < TAILS && |before[i].arms| == TAILS && |after[i].arms| == TAILS
    && (forall j :: 0 <= j < |after| && j != i ==> after[j] == before[j])
    && after[i].dialect == before[i].dialect && after[i].comparison == before[i].comparison
    && after[i].arms[1 - k] == before[i].arms[1 - k]
  }

  /** An arm's status tells whether it has a report, and whether that is to be trusted. */
  ghost predicate Labelled(arm: Arm) {
    match arm.status
    case NotRun => arm == FreshArm()
    case ArmFailed => arm.report.None?
    case ArmComplete => arm.report.Some?
    case Invalidated => arm.report.Some? && arm.error.Some?
  }

  ghost predicate AllChecked(times: nat, before: seq<Event>, after: seq<Event>, files: nat) {
    forall k: nat :: k < files ==> Checks(after, k) == Checks(before, k) + times
  }

  ghost predicate NoFault(rows: seq<Row>, n: nat)
    requires n <= |rows|
  {
    forall k :: 0 <= k < n ==> rows[k].fault.None?
  }

  /** The error of the first of `n` rows that has one. */
  ghost predicate FirstFault(rows: seq<Row>, n: nat, fault: Option<Code>)
    requires n <= |rows|
  {
    if fault.None? then NoFault(rows, n)
    else exists k: nat :: k < n && NoFault(rows, k) && rows[k].fault == fault
  }

  lemma FirstMore(before: seq<Row>, rows: seq<Row>, n: nat, fault: Option<Code>)
    requires n < |rows| == |before| && FirstFault(before, n, fault)
    requires forall k :: 0 <= k < n ==> rows[k] == before[k]
    ensures FirstFault(rows, n + 1, if fault.Some? then fault else rows[n].fault)
  {
    if fault.Some? {
      var k: nat :| k < n && NoFault(before, k) && before[k].fault == fault;
      assert NoFault(rows, k) && rows[k].fault == fault;
    } else {
      assert NoFault(rows, n);
    }
  }

  /** The last event is how a call ended. */
  ghost predicate EndsWith(log: seq<Event>, exc: Option<Exc>) {
    log != [] && log[|log| - 1] == Called(exc)
  }

  /** `complete`, `error`, `rows` and `sources` are the receipt; `bindings` holds what the bound
      files were, the binary first. */
  class Run {
    var complete: bool
    var error: Option<Code>
    var rows: seq<Row>
    var sources: seq<Source>
    var bindings: seq<Identity>
    ghost var log: seq<Event>

    ghost predicate Valid()
      reads this
    {
      && |rows| == |sources| + 1 && |bindings| <= |rows|
      && (forall i :: 0 <= i < |sources| ==> |sources[i].arms| == TAILS)
      && (forall k :: 0 <= k < |bindings| ==> rows[k].before == Some(bindings[k].sha))
      && (Clean(log) ==> forall k :: 0 <= k < |bindings| ==> rows[k].fault.None? && rows[k].stable != Some(false))
    }

    /** `new_receipt` for a number of sessions. */
    constructor (sessions: nat)
      ensures Valid() && Clean(log) && log == [] && bindings == [] && |sources| == sessions
      ensures !complete && error.None? && Untouched(sources) && NoComparison(sources)
    {
      complete, error, bindings, log := false, None, [], [];
      rows := seq(sessions + 1, _ => FreshRow());
      sources := seq(sessions, _ => FreshSource());
    }

    /** A call that yields nothing, or the moment a signal may arrive. */
    method Attempt() returns (exc: Option<Exc>)
      requires Valid()
      modifies `log
      ensures log == old(log) + [Called(exc)]
      ensures Valid() && (Clean(log) <==> old(Clean(log)) && exc.None?)
      ensures forall k: nat :: Checks(log, k) == old(Checks(log, k))
    {
      exc := *;
      LogAdds(log, Called(exc));
      log := log + [Called(exc)];
    }

    /** A call that yields a value. */
    method Ask<T(0)>() returns (r: Call<T>)
      requires Valid()
      modifies `log
      ensures Valid() && (Clean(log) <==> old(Clean(log)) && r.Fine?)
      ensures forall k: nat :: Checks(log, k) == old(Checks(log, k))
    {
      r := *;
      LogAdds(log, Called(ExcOf(r)));
      log := log + [Called(ExcOf(r))];
    }

    /** The program compares two things itself, and raises ComparisonError if they differ. */
    ghost method Weigh(same: bool)
      requires Valid()
      modifies `log
      ensures Valid() && (Clean(log) <==> old(Clean(log)) && same)
      ensures forall k: nat :: Checks(log, k) == old(Checks(log, k))
    {
      LogAdds(log, Compared(same));
      log := log + [Compared(same)];
    }

    ghost method Note(k: nat, same: bool)
      modifies `log
      ensures Clean(log) <==> old(Clean(log)) && same
      ensures forall j: nat :: Checks(log, j) == old(Checks(log, j)) + (if j == k then 1 else 0)
    {
      LogAdds(log, Checked(k, same));
      log := log + [Checked(k, same)];
    }

    /** `verify_binding`: the error is the row's, which an earlier check may have left there. `seen` is
        what reading the file gave. */
    method VerifyBinding(k: nat) returns (fault: Option<Code>, exc: Option<Exc>, ghost seen: Call<Identity>)
      requires Valid() && k < |bindings|
      modifies `rows, `log
      ensures Valid() && |rows| == old(|rows|)
      ensures forall j :: 0 <= j < |rows| && j != k ==> rows[j] == old(rows[j])
      ensures Clean(log) <==> old(Clean(log)) && exc.None? && fault.None?
      ensures Clean(log) <==> old(Clean(log)) && seen == Fine(bindings[k])
      ensures exc.Some? <==> seen.Raises? && !seen.exc.Failure?
      ensures exc.None? ==> rows[k].after == if seen.Fine? then Some(seen.value.sha) else None
      ensures exc.None? ==>
        (rows[k].stable == Some(true) <==> seen == Fine(bindings[k]) && old(rows[k].stable) != Some(false))
      ensures exc.Some? ==> exc == Some(seen.exc)
      ensures exc.None? ==> fault == rows[k].fault
      ensures exc.None? && seen.Raises? ==> fault == Some(seen.exc.code)
      ensures seen == Fine(bindings[k]) ==> fault == old(rows[k].fault)
      ensures seen.Fine? && seen.value != bindings[k] ==>
        fault == Some(if k == 0 then "binary_changed" else "source_changed")
      ensures Clean(log) ==> rows[k].stable == Some(true) && rows[k].after == rows[k].before
      ensures exc.None? ==> forall j: nat :: Checks(log, j) == old(Checks(log, j)) + (if j == k then 1 else 0)
    {
      fault, exc := None, None;
      var row := rows[k];
      var r: Call<Identity> := *;
      seen := r;
      match r
      case Fine(observed) =>
        var same := observed == bindings[k];
        var stable := if row.stable.None? then same else row.stable.value && same;
        Note(k, same);
        rows := rows[k := Row(row.before, Some(observed.sha), Some(stable),
          if same then row.fault else Some(ChangedCode(k)))];
        fault := rows[k].fault;
      case Raises(Failure(code)) =>
        Note(k, false);
        rows := rows[k := Row(row.before, None, Some(false), Some(code))];
        fault := rows[k].fault;
      case Raises(other) =>
        LogAdds(log, Called(Some(other)));
        log := log + [Called(Some(other))];
        exc := Some(other);
    }

    /** `verify_all`: every bound file is read again, and the first error is returned. */
    method VerifyAll() returns (changed: Option<Code>, exc: Option<Exc>)
      requires Valid()
      modifies `rows, `log
      ensures Valid() && |rows| == old(|rows|)
      ensures Clean(log) <==> old(Clean(log)) && exc.None? && changed.None?
      ensures exc.Some? ==> !exc.value.Failure?
      ensures exc.None? ==> FirstFault(rows, |bindings|, changed)
      ensures Clean(log) ==> forall k :: 0 <= k < |bindings| ==>
        rows[k].stable == Some(true) && rows[k].after == rows[k].before
      ensures exc.None? ==> forall k: nat :: Checks(log, k) == old(Checks(log, k)) + (if k < |bindings| then 1 else 0)
    {
      changed, exc := None, None;
      for k := 0 to |bindings|
        invariant Valid() && |rows| == old(|rows|) && exc.None?
        invariant Clean(log) <==> old(Clean(log)) && changed.None?
        invariant FirstFault(rows, k, changed)
        invariant Clean(log) ==> forall j :: 0 <= j < k ==>
          rows[j].stable == Some(true) && rows[j].after == rows[j].before
        invariant forall j: nat :: Checks(log, j) == old(Checks(log, j)) + (if j < k then 1 else 0)
      {
        var fault;
        ghost var seen;
        ghost var before := rows;
        fault, exc, seen := VerifyBinding(k);
        if exc.Some? {
          return;
        }
        FirstMore(before, rows, k, changed);
        if changed.None? {
          changed := fault;
        }
      }
    }

    /** `verify_snapshot`. */
    method VerifySnapshot(expected: Identity) returns (exc: Option<Exc>, ghost seen: Call<Identity>)
      requires Valid()
      modifies `log
      ensures Valid() && (Clean(log) <==> old(Clean(log)) && exc.None?)
      ensures exc.None? <==> seen == Fine(expected)
      ensures exc.Some? ==> exc.value == if seen.Raises? then seen.exc else Failure(SNAPSHOT)
      ensures forall k: nat :: Checks(log, k) == old(Checks(log, k))
    {
      var observed := Ask<Identity>();
      seen := observed;
      match observed
      case Raises(e) => exc := Some(e);
      case Fine(identity) =>
        Weigh(identity == expected);
        exc := if identity != expected then Some(Failure(SNAPSHOT)) else None;
    }

    /** A copy or its reading, which must have the digest it was made from. */
    method Copy(sha: string) returns (r: Call<Identity>, ghost seen: Call<Identity>)
      requires Valid()
      modifies `log
      ensures Valid() && (Clean(log) <==> old(Clean(log)) && r.Fine?)
      ensures r == if seen.Fine? && seen.value.sha != sha then Raises(Failure(SNAPSHOT)) else seen
      ensures forall k: nat :: Checks(log, k) == old(Checks(log, k))
    {
      r := Ask<Identity>();
      seen := r;
      if r.Fine? {
        Weigh(r.value.sha == sha);
        if r.value.sha != sha {
          r := Raises(Failure(SNAPSHOT));
        }
      }
    }

    /** Bind the next file: its row's digest is filled in first. */
    method Bind(before: Identity)
      requires Valid() && |bindings| < |rows| && rows[|bindings|] == FreshRow()
      modifies `rows, `bindings
      ensures Valid() && |rows| == old(|rows|) && bindings == old(bindings) + [before]
      ensures forall j :: 0 <= j < |rows| && j != old(|bindings|) ==> rows[j] == old(rows[j])
    {
      var k := |bindings|;
      rows := rows[k := rows[k].(before := Some(before.sha))];
      bindings := bindings + [before];
    }

    /** One session: copied, bound, read for its shape, and its copy read again. */
    method PrepareSource(i: nat) returns (r: Call<Identity>)
      requires Valid() && i < |sources| && |bindings| == i + 1 && rows[i + 1] == FreshRow()
      modifies `rows, `sources, `bindings, `log
      ensures Valid() && |sources| == old(|sources|)
      ensures forall j :: 0 <= j < |sources| ==>
        sources[j].arms == old(sources[j].arms) && sources[j].comparison == old(sources[j].comparison)
      ensures forall j :: 0 <= j < |rows| && j != i + 1 ==> rows[j] == old(rows[j])
      ensures forall j :: 0 <= j < |sources| && j != i ==> sources[j] == old(sources[j])
      ensures Clean(log) <==> old(Clean(log)) && r.Fine?
      ensures r.Fine? ==> |bindings| == i + 2 && sources[i].dialect.Some?
      ensures forall k: nat :: Checks(log, k) == old(Checks(log, k))
    {
      r := Ask<Identity>();
      if r.Raises? {
        return;
      }
      var sha := r.value.sha;
      Bind(r.value);
      var shape := Ask<string>();
      if shape.Raises? {
        return Raises(shape.exc);
      }
      sources := sources[i := sources[i].(dialect := Some(shape.value))];
      ghost var seen;
      r, seen := Copy(sha);
    }

    /** The copies of the binary and of every session, bound in this order. */
    method Prepare() returns (exc: Option<Exc>, executable: Identity, frozen: seq<Identity>)
      requires Valid() && bindings == [] && Untouched(sources)
      requires (forall k :: 0 <= k < |rows| ==> rows[k] == FreshRow())
      modifies `rows, `sources, `bindings, `log
      ensures Valid() && |sources| == old(|sources|) && Untouched(sources)
      ensures NoComparison(old(sources)) ==> NoComparison(sources)
      ensures Clean(log) <==> old(Clean(log)) && exc.None?
      ensures exc.None? ==> |bindings| == |rows| && |frozen| == |sources|
      ensures exc.None? ==> forall i :: 0 <= i < |sources| ==> sources[i].dialect.Some?
      ensures forall k: nat :: Checks(log, k) == old(Checks(log, k))
    {
      executable, frozen := Identity("", 0, []), [];
      exc := Attempt();
      if exc.Some? {
        return;
      }
      var tool := Ask<Identity>();
      if tool.Raises? {
        exc := Some(tool.exc);
        return;
      }
      Bind(tool.value);
      ghost var seen;
      var copied;
      copied, seen := Copy(tool.value.sha);
      if copied.Raises? {
        exc := Some(copied.exc);
        return;
      }
      executable := copied.value;
      for i := 0 to |sources|
        invariant Valid() && |sources| == old(|sources|) && Untouched(sources) && |frozen| == i && |bindings| == i + 1
        invariant NoComparison(old(sources)) ==> NoComparison(sources)
        invariant exc.None? && (Clean(log) <==> old(Clean(log)))
        invariant forall k :: i < k < |rows| ==> rows[k] == FreshRow()
        invariant forall j :: 0 <= j < i ==> sources[j].dialect.Some?
        invariant forall k: nat :: Checks(log, k) == old(Checks(log, k))
      {
        var kept := PrepareSource(i);
        if kept.Raises? {
          exc := Some(kept.exc);
          return;
        }
        frozen := frozen + [kept.value];
      }
    }

    method SetArm(i: nat, k: nat, arm: Arm)
      requires Valid() && i < |sources| && k < TAILS
      modifies `sources
      ensures Valid() && |sources| == old(|sources|)
      ensures sources == old(sources)[i := old(sources)[i].(arms := old(sources)[i].arms[k := arm])]
    {
      sources := sources[i := sources[i].(arms := sources[i].arms[k := arm])];
    }

    /** Before an arm runs: every bound file as it was, and fresh private copies. */
    method ReadyArm(i: nat, k: nat, frozen: Identity, executable: Identity) returns (r: Call<Identity>)
      requires Valid() && i < |sources| && k < TAILS && |bindings| == |rows| && sources[i].arms[k] == FreshArm()
      modifies `rows, `sources, `log
      ensures Valid() && |rows| == old(|rows|) && |sources| == old(|sources|)
      ensures OnlyArm(old(sources), sources, i, k)
      ensures r.Fine? ==> sources[i].arms[k] == Arm(ArmFailed, None, None)
      ensures sources[i].arms[k].status == ArmFailed && sources[i].arms[k].report.None?
      ensures r.Raises? && r.exc.Failure? ==> FirstFault(rows, |rows|, sources[i].arms[k].error)
      ensures sources[i].arms[k].error.Some? ==> r == Raises(Failure(sources[i].arms[k].error.value))
      ensures Clean(log) <==> old(Clean(log)) && r.Fine?
      ensures r.Fine? ==> forall j: nat :: Checks(log, j) == old(Checks(log, j)) + (if j < |bindings| then 1 else 0)
    {
      SetArm(i, k, Arm(ArmFailed, None, None));
      var changed, exc := VerifyAll();
      if exc.Some? {
        return Raises(exc.value);
      }
      if changed.Some? {
        SetArm(i, k, Arm(ArmFailed, changed, None));
        return Raises(Failure(changed.value));
      }
      ghost var seen;
      exc, seen := VerifySnapshot(frozen);
      if exc.None? {
        exc, seen := VerifySnapshot(executable);
      }
      if exc.None? {
        exc := Attempt();
      }
      if exc.Some? {
        return Raises(exc.value);
      }
      r, seen := Copy(frozen.sha);
      if r.Fine? {
        r := Ask<Identity>();
      }
    }

    /** The replay itself: its report, or the error an arm is left with and what is still to be
        raised once the checks after it are done. */
    method Replay() returns (report: Option<Report>, error: Option<Code>, pending: Option<Exc>)
      requires Valid()
      modifies `log
      ensures Valid() && (Clean(log) <==> old(Clean(log)) && error.None?)
      ensures report.Some? <==> error.None?
      ensures pending.Some? ==> error == Some(INTERRUPTED) && !pending.value.Failure?
      ensures forall k: nat :: Checks(log, k) == old(Checks(log, k))
    {
      report, error, pending := None, None, None;
      var ran := Ask<Option<Code>>();
      var exc := ExcOf(ran);
      if ran.Fine? {
        Weigh(ran.value.None?);
        if ran.value.Some? {
          exc := Some(Failure(ran.value.value));
        }
      }
      if exc.None? {
        var read := Ask<Report>();
        exc := ExcOf(read);
        if read.Fine? {
          report := Some(read.value);
        }
      }
      match exc
      case None =>
      case Some(Failure(code)) => error := Some(code);
      case Some(other) => error, pending := Some(INTERRUPTED), Some(other);
    }

    /** The checks after a replay: the arm's copy, the executable, every bound file. The latest
        failure is the arm's error. */
    method CheckArm(copy: Identity, executable: Identity, before: Option<Code>)
      returns (error: Option<Code>, exc: Option<Exc>)
      requires Valid()
      modifies `rows, `log
      ensures Valid() && |rows| == old(|rows|)
      ensures Clean(log) ==> old(Clean(log)) && exc.None? && error == before
      ensures old(Clean(log)) && exc.None? && error.None? ==> Clean(log)
      ensures before.Some? ==> error.Some?
      ensures exc.Some? ==> !exc.value.Failure?
      ensures exc.None? ==> forall j: nat :: Checks(log, j) == old(Checks(log, j)) + (if j < |bindings| then 1 else 0)
    {
      error := before;
      ghost var seen;
      exc, seen := VerifySnapshot(copy);
      if exc.None? {
        exc, seen := VerifySnapshot(executable);
      }
      match exc {
        case None =>
        case Some(Failure(code)) => error := Some(code);
        case Some(_) => return;
      }
      var changed;
      changed, exc := VerifyAll();
      if exc.None? && changed.Some? {
        error := changed;
      }
    }

    /** One arm of `experiment`, with the checks that follow it whether it raised or not. */
    method RunArm(i: nat, k: nat, frozen: Identity, executable: Identity) returns (exc: Option<Exc>)
      requires Valid() && i < |sources| && k < TAILS && |bindings| == |rows| && sources[i].arms[k] == FreshArm()
      modifies `rows, `sources, `log
      ensures Valid() && |rows| == old(|rows|) && |sources| == old(|sources|)
      ensures OnlyArm(old(sources), sources, i, k)
      ensures Clean(log) <==> old(Clean(log)) && exc.None?
      ensures exc.None? ==> ArmDone(sources[i].arms[k])
      ensures Labelled(sources[i].arms[k])
      ensures exc.Some? && exc.value.Failure? ==> sources[i].arms[k].status != ArmComplete
      ensures exc.Some? && exc.value.Failure? && sources[i].arms[k].error.Some? ==>
        exc.value.code == sources[i].arms[k].error.value
      ensures exc.None? ==> forall j: nat :: Checks(log, j) == old(Checks(log, j)) + (if j < |bindings| then 2 else 0)
    {
      var ready := ReadyArm(i, k, frozen, executable);
      if ready.Raises? {
        return Some(ready.exc);
      }
      var report, error, pending := Replay();
      var status := if report.Some? then ArmComplete else ArmFailed;
      error, exc := CheckArm(ready.value, executable, error);
      if exc.None? && error.Some? {
        status := if report.Some? then Invalidated else ArmFailed;
      }
      SetArm(i, k, Arm(status, error, report));
      if exc.None? {
        exc := if pending.Some? then pending else if error.Some? then Some(Failure(error.value)) else None;
      }
    }

    /** The comparison of one session, whose arms are done. */
    method CompareArms(i: nat) returns (exc: Option<Exc>)
      requires Valid() && i < |sources| && ArmDone(sources[i].arms[0]) && ArmDone(sources[i].arms[1])
      modifies `sources, `log
      ensures Valid() && |sources| == old(|sources|)
      ensures forall j :: 0 <= j < |sources| && j != i ==> sources[j] == old(sources[j])
      ensures sources[i].arms == old(sources[i].arms) && sources[i].dialect == old(sources[i].dialect)
      ensures Clean(log) <==> old(Clean(log)) && exc.None?
      ensures forall k: nat :: Checks(log, k) == old(Checks(log, k))
      ensures exc.None? <==> SameReplay(sources[i].arms[0].report.value, sources[i].arms[1].report.value)
      ensures exc.None? ==> SourceDone(sources[i])
      ensures exc.Some? ==> exc == Some(Failure(ARMS_DIFFER)) && sources == old(sources)
    {
      var first, second := sources[i].arms[0].report.value, sources[i].arms[1].report.value;
      var comparison := Comparison(first, second);
      Weigh(SameReplay(first, second));
      if comparison.None? {
        return Some(Failure(ARMS_DIFFER));
      }
      sources := sources[i := sources[i].(comparison := comparison)];
      exc := None;
    }

    /** Both arms of one session, then their comparison. */
    method RunSource(i: nat, frozen: Identity, executable: Identity) returns (exc: Option<Exc>)
      requires Valid() && i < |sources| && |bindings| == |rows| && sources[i].arms == [FreshArm(), FreshArm()]
      modifies `rows, `sources, `log
      ensures Valid() && |rows| == old(|rows|) && |sources| == old(|sources|)
      ensures forall j :: 0 <= j < |sources| && j != i ==> sources[j] == old(sources[j])
      ensures Clean(log) <==> old(Clean(log)) && exc.None?
      ensures exc.None? ==> SourceDone(sources[i])
      ensures exc.None? ==> forall j: nat :: Checks(log, j) == old(Checks(log, j)) + (if j < |bindings| then 4 else 0)
    {
      exc := RunArm(i, 0, frozen, executable);
      if exc.None? {
        exc := RunArm(i, 1, frozen, executable);
      }
      if exc.Some? {
        return;
      }
      exc := CompareArms(i);
    }

    /** Every session in turn. */
    method RunSources(frozen: seq<Identity>, executable: Identity) returns (exc: Option<Exc>)
      requires Valid() && |bindings| == |rows| && |frozen| == |sources| && Untouched(sources)
      modifies `rows, `sources, `log
      ensures Valid() && |rows| == old(|rows|) && |sources| == old(|sources|)
      ensures Clean(log) <==> old(Clean(log)) && exc.None?
      ensures exc.None? ==> AllDone(sources)
      ensures exc.None? ==> forall j: nat ::
        Checks(log, j) == old(Checks(log, j)) + (if j < |bindings| then 4 * |sources| else 0)
    {
      exc := None;
      for i := 0 to |sources|
        invariant Valid() && |rows| == old(|rows|) && |sources| == old(|sources|)
        invariant exc.None? && (Clean(log) <==> old(Clean(log)))
        invariant DoneBefore(sources, i)
        invariant forall j: nat :: Checks(log, j) == old(Checks(log, j)) + (if j < |bindings| then 4 * i else 0)
      {
        ghost var before := sources;
        exc := RunSource(i, frozen[i], executable);
        if exc.Some? {
          return;
        }
        OneMoreDone(before, sources, i);
      }
    }

    /** The body of `experiment` inside its `try`, without the directory's removal. */
    method RunAll() returns (exc: Option<Exc>)
      requires Valid() && bindings == [] && Untouched(sources)
      requires (forall k :: 0 <= k < |rows| ==> rows[k] == FreshRow())
      requires !complete && error.None?
      modifies this
      ensures Valid() && |sources| == old(|sources|) && error.None?
      ensures Clean(log) <==> old(Clean(log)) && exc.None?
      ensures complete <==> exc.None?
      ensures complete ==> AllDone(sources) && |bindings| == |rows|
      ensures complete ==>
        forall j: nat :: Checks(log, j) == old(Checks(log, j)) + (if j < |rows| then 4 * |sources| + 1 else 0)
    {
      var executable, frozen;
      exc, executable, frozen := Prepare();
      if exc.Some? {
        return;
      }
      exc := Attempt();
      if exc.Some? {
        return;
      }
      var changed;
      changed, exc := VerifyAll();
      if exc.Some? {
        return;
      }
      if changed.Some? {
        return Some(Failure(changed.value));
      }
      exc := RunSources(frozen, executable);
      complete := exc.None?;
    }

    /** Take every comparison out again; a signal may stop it halfway. */
    method Clear() returns (exc: Option<Exc>)
      requires Valid()
      modifies `sources, `log
      ensures Valid() && |sources| == old(|sources|)
      ensures Clean(log) <==> old(Clean(log)) && exc.None?
      ensures exc.None? ==> NoComparison(sources)
      ensures exc.Some? ==> EndsWith(log, exc)
      ensures forall k: nat :: Checks(log, k) == old(Checks(log, k))
    {
      exc := None;
      for i := 0 to |sources|
        invariant Valid() && |sources| == old(|sources|) && exc.None? && (Clean(log) <==> old(Clean(log)))
        invariant forall j :: 0 <= j < i ==> sources[j].comparison.None?
        invariant forall k: nat :: Checks(log, k) == old(Checks(log, k))
      {
        exc := Attempt();
        if exc.Some? {
          return;
        }
        sources := sources[i := sources[i].(comparison := None)];
      }
    }

    /** `experiment`: the directory is removed and the bound files are checked once more, however
        the run ended. */
    method Experiment() returns (exc: Option<Exc>)
      requires Valid() && bindings == [] && Untouched(sources)
      requires (forall k :: 0 <= k < |rows| ==> rows[k] == FreshRow())
      requires !complete && error.None?
      modifies this
      ensures Valid() && |sources| == old(|sources|)
      ensures exc.None? ==> (complete <==> Clean(log)) || !old(Clean(log))
      ensures exc.Some? ==> !Clean(log)
      ensures exc.None? && complete ==>
        AllDone(sources) && AllChecked(4 * |sources| + 2, old(log), log, |rows|) && error.None?
      ensures exc.None? && complete && Clean(log) ==> AllStable(rows)
      ensures exc.None? && !complete ==> NoComparison(sources) && error.Some?
      ensures exc.None? ==> FirstFault(rows, |bindings|, error)
    {
      exc := RunAll();
      var removed := Attempt();
      if removed.Some? {
        exc := removed;
      }
      var changed, stopped := VerifyAll();
      if stopped.Some? {
        return stopped;
      }
      if changed.Some? {
        complete := false;
        error := changed;
      }
      if !complete {
        stopped := Clear();
        if stopped.Some? {
          return stopped;
        }
      }
    }

    ghost predicate Fresh()
      reads this
    {
      && Valid() && bindings == [] && log == [] && !complete && error.None?
      && Untouched(sources) && NoComparison(sources)
      && forall k :: 0 <= k < |rows| ==> rows[k] == FreshRow()
    }

    /** `main` up to its `finally`: the exit code, and the error to put in the receipt. */
    method Attend() returns (code: int, failure: Option<Code>, ghost raised: Option<Exc>)
      requires Fresh()
      modifies this
      ensures Valid() && |sources| == old(|sources|)
      ensures failure.None? ==> code == (if complete then 0 else 1)
      ensures failure.None? ==> Honest(Written(complete, error, rows, sources)) && (complete <==> Clean(log))
      ensures failure.None? && complete ==> AllChecked(4 * |sources| + 2, [], log, |rows|)
      ensures failure.Some? ==> code != 0 && !Clean(log)
      ensures failure.None? <==> raised.None?
      ensures code == 130 <==> raised == Some(Interrupt)
      ensures raised == Some(Interrupt) ==> failure == Some("interrupted")
      ensures raised == Some(Internal) ==> code == 1 && failure == Some("internal_error")
      ensures raised.Some? && raised.value.Failure? ==> failure == Some(raised.value.code)
      ensures code == 2 ==> EndsWith(log, raised) && |log| == 1
    {
      code, failure := 2, None;
      var exc := Attempt();
      if exc.None? {
        code := 1;
        assert forall k: nat :: Checks(log, k) == 0;
        ghost var before := log;
        exc := RunExperiment(before);
        if exc.None? {
          code := if complete then 0 else 1;
        }
      }
      raised := exc;
      match exc
      case None =>
      case Some(Failure(c)) => failure := Some(c);
      case Some(Interrupt) => code, failure := 130, Some(INTERRUPTED);
      case Some(Internal) => code, failure := 1, Some(INTERNAL);
    }

    /** `experiment`, and the moment after it in which a signal may still arrive. */
    method RunExperiment(ghost before: seq<Event>) returns (exc: Option<Exc>)
      requires Valid() && bindings == [] && Untouched(sources) && NoComparison(sources)
      requires forall k :: 0 <= k < |rows| ==> rows[k] == FreshRow()
      requires !complete && error.None? && log == before && Clean(log) && forall k: nat :: Checks(before, k) == 0
      modifies this
      ensures Valid() && |sources| == old(|sources|)
      ensures exc.None? ==> Honest(Written(complete, error, rows, sources)) && (complete <==> Clean(log))
      ensures exc.None? && complete ==> AllChecked(4 * |sources| + 2, [], log, |rows|)
      ensures exc.Some? ==> !Clean(log)
    {
      exc := Experiment();
      if exc.None? {
        exc := Attempt();
      }
    }

    /** The `finally` of `main`: the receipt is made to agree with the failure, and written. An
        interrupt escapes it; any other exception only fails the run. */
    method Publish(code: int, failure: Option<Code>)
      returns (final: int, written: Option<Written>, escaped: bool, ghost upTo: nat)
      requires Valid()
      requires failure.None? ==> Honest(Written(complete, error, rows, sources)) && (complete <==> Clean(log))
      requires failure.None? ==> code == (if complete then 0 else 1)
      requires failure.Some? ==> code != 0 && !Clean(log)
      modifies this
      ensures upTo <= |log| && (written.Some? && written.value.complete ==> log[..upTo] == old(log))
      ensures written.Some? ==>
        Honest(written.value) && (written.value.complete <==> Clean(log[..upTo])) && |log| == upTo + 1
      ensures written.Some? ==>
        written.value.sources == sources && written.value.rows == rows && |sources| == old(|sources|)
      ensures written.None? || escaped ==> !Clean(log)
      ensures !escaped ==> (final == 0 <==> Clean(log)) && (complete <==> Clean(log))
      ensures written.Some? ==> written.value.error == if failure.None? || old(error).Some? then old(error) else failure
      ensures escaped <==> EndsWith(log, Some(Interrupt))
      ensures final == if EndsWith(log, None) || escaped then code else 1
    {
      final, written, escaped, upTo := code, None, false, |log|;
      var stopped: Option<Exc> := None;
      if failure.Some? {
        error := if error.Some? then error else failure;
        complete := false;
        stopped := Clear();
        upTo := |log|;
      }
      if stopped.None? {
        written := Some(Written(complete, error, rows, sources));
        ghost var before := log;
        stopped := Attempt();
        assert log[..upTo] == before;
      }
      if stopped.Some? {
        if stopped.value.Interrupt? {
          escaped := true;
        } else {
          final, complete := 1, false;
        }
      }
    }

    /** `main` after the receipt exists. `written` is the receipt handed to `write_receipt`, and
        `upTo` the part of the log before that. `raised` is what ended the run, if anything. */
    method RunMain()
      returns (code: int, written: Option<Written>, escaped: bool, ghost upTo: nat, ghost raised: Option<Exc>)
      requires Fresh()
      modifies this
      ensures upTo <= |log|
      ensures written.Some? ==>
        Honest(written.value) && (written.value.complete <==> Clean(log[..upTo])) && |log| == upTo + 1
      ensures written.Some? && written.value.complete ==>
        |written.value.sources| == old(|sources|) && AllChecked(4 * old(|sources|) + 2, [], log[..upTo], old(|rows|))
      ensures written.None? || escaped ==> !Clean(log)
      ensures !escaped ==> (code == 0 <==> Clean(log))
      ensures EndsWith(log, None) ==> (code == 130 <==> raised == Some(Interrupt))
      ensures escaped <==> EndsWith(log, Some(Interrupt))
    {
      var failure;
      code, failure, raised := Attend();
      code, written, escaped, upTo := Publish(code, failure);
    }
  }
}
