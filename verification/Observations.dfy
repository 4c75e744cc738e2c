/** `save_observation` of scripts/monitor.py: an append-only log in two generations and the
    latest observation beside it. A save is a series of file calls, and a crash or an error
    can come between any two of them. */
module Observations {
  import opened Wrappers
  import opened Json
  import Lines

  const LOG_BYTES := 10 * 1024 * 1024
  const LINE_BYTES := 1024 * 1024

  /** latest.json, observations.jsonl and observations.1.jsonl. `appended` is the history of
      lines that reached the log, `shown` how many there were when latest.json was last replaced. */
  datatype Disk = Disk(latest: Option<Bytes>, log: Option<Bytes>, previous: Option<Bytes>, appended: seq<Bytes>,
    shown: nat)

  const EmptyDisk := Disk(None, None, None, [], 0)

  datatype Outcome = Done | Crashed | ObservationLimit | ExistingLogLimit

  function Size(file: Option<Bytes>): nat { if file.Some? then |file.value| else 0 }

  function Content(file: Option<Bytes>): Bytes { if file.Some? then file.value else [] }

  predicate Rotates(d: Disk, line: Bytes) { Size(d.log) + |line| > LOG_BYTES }

  function Rotated(d: Disk, line: Bytes): Disk {
    if Rotates(d, line) then d.(log := None, previous := d.log) else d
  }

  function Opened(d: Disk): Disk { d.(log := Some(Content(d.log))) }

  function Appended(d: Disk, line: Bytes): Disk {
    d.(log := Some(Content(d.log) + line), appended := d.appended + [line])
  }

  function Renamed(d: Disk, line: Bytes): Disk { d.(latest := Some(line), shown := |d.appended|) }

  /** The disk before and after each call of a save: rotate, open, append, make the temporary
      file, write it, rename it over latest.json, flush the directory. A call that raises leaves
      the disk as it was before it. */
  function Trace(d: Disk, line: Bytes): seq<Disk> {
    var ready := Opened(Rotated(d, line));
    var written := Appended(ready, line);
    (if Rotates(d, line) then [d, Rotated(d, line)] else [d])
    + [ready, written, written, written, Renamed(written, line), Renamed(written, line)]
  }

  /** The disk and the outcome of a save cut off after `calls` calls. */
  function Saved(d: Disk, line: Bytes, calls: nat): (Disk, Outcome) {
    if |line| > LINE_BYTES then (d, ObservationLimit)
    else if Size(d.previous) > LOG_BYTES || Size(d.log) > LOG_BYTES then (d, ExistingLogLimit)
    else
      var trace := Trace(d, line);
      if calls < |trace| - 1 then (trace[calls], Crashed) else (trace[|trace| - 1], Done)
  }

  /** The output directory. */
  class Directory {
    var disk: Disk

    constructor ()
      ensures disk == EmptyDisk
    {
      disk := EmptyDisk;
    }

    method Save(line: Bytes, calls: nat) returns (outcome: Outcome)
      modifies this
      ensures (disk, outcome) == Saved(old(disk), line, calls)
    {
      if |line| > LINE_BYTES {
        return ObservationLimit;
      }
      if disk.previous.Some? && |disk.previous.value| > LOG_BYTES {
        return ExistingLogLimit;
      }
      var size := Size(disk.log);
      if size > LOG_BYTES {
        return ExistingLogLimit;
      }
      var left := calls;
      if size + |line| > LOG_BYTES {
        if left == 0 {
          return Crashed;
        }
        disk := disk.(log := None, previous := disk.log);
        left := left - 1;
      }
      if left == 0 {
        return Crashed;
      }
      if disk.log.None? {
        disk := disk.(log := Some([]));
      }
      if left == 1 {
        return Crashed;
      }
      disk := disk.(log := Some(disk.log.value + line), appended := disk.appended + [line]);
      if left <= 4 {
        return Crashed;
      }
      disk := disk.(latest := Some(line), shown := |disk.appended|);
      if left == 5 {
        return Crashed;
      }
      return Done;
    }
  }

  /** Whatever is on the disk, a line that is too long is refused before anything else, then a generation
      that is over the limit; and what is refused changes nothing. */
  lemma RefusalMeans(d: Disk, line: Bytes, calls: nat)
    ensures var (after, outcome) := Saved(d, line, calls);
      && (outcome == ObservationLimit <==> |line| > LINE_BYTES)
      && (outcome == ExistingLogLimit <==>
            |line| <= LINE_BYTES && ((d.log.Some? && |d.log.value| > LOG_BYTES)
                                     || (d.previous.Some? && |d.previous.value| > LOG_BYTES)))
      && (outcome == ObservationLimit || outcome == ExistingLogLimit ==> after == d)
  {
  }

  // ---------------------------------------------------------------------------------
  // What every run of saves keeps

  /** The old generation is the lines from the a-th to the b-th, the new one the rest. */
  ghost predicate Generations(d: Disk, a: nat, b: nat) {
    && a <= b <= |d.appended|
    && Content(d.previous) == Lines.Concat(d.appended[a..b]) && Content(d.log) == Lines.Concat(d.appended[b..])
  }

  ghost predicate Kept(d: Disk) {
    && (exists a: nat, b: nat :: Generations(d, a, b))
    && Size(d.previous) <= LOG_BYTES && Size(d.log) <= LOG_BYTES
    && (d.previous.Some? ==> Size(d.previous) > LOG_BYTES - LINE_BYTES)
    && d.shown <= |d.appended|
    && d.latest == (if d.shown == 0 then None else Some(d.appended[d.shown - 1]))
  }

  lemma AppendGenerations(d: Disk, line: Bytes, a: nat, b: nat)
    requires Generations(d, a, b)
    ensures Generations(Appended(d, line), a, b)
  {
    var more := d.appended + [line];
    Lines.ConcatMore(d.appended[b..], line);
    assert more[b..] == d.appended[b..] + [line] && more[a..b] == d.appended[a..b];
  }

  lemma AppendKeeps(d: Disk, line: Bytes)
    requires Kept(d) && Size(d.log) + |line| <= LOG_BYTES
    ensures Kept(Appended(d, line))
  {
    var a: nat, b: nat :| Generations(d, a, b);
    AppendGenerations(d, line, a, b);
  }

  lemma RotateKeeps(d: Disk, line: Bytes)
    requires Kept(d) && Rotates(d, line) && |line| <= LINE_BYTES
    ensures Kept(Rotated(d, line))
  {
    var a: nat, b: nat :| Generations(d, a, b);
    var n := |d.appended|;
    assert d.appended[n..] == [] && d.appended[b..n] == d.appended[b..];
    assert Generations(Rotated(d, line), b, n);
  }

  /** A disk that a save cut off before its end leaves behind. */
  predicate Partway(d: Disk, line: Bytes, e: Disk) {
    var ready := Opened(Rotated(d, line));
    || e == d || e == Rotated(d, line) || e == ready || e == Appended(ready, line)
    || e == Renamed(Appended(ready, line), line)
  }

  lemma ReadyKeeps(d: Disk, line: Bytes)
    requires Kept(d) && |line| <= LINE_BYTES
    ensures Kept(Rotated(d, line)) && Kept(Opened(Rotated(d, line)))
    ensures Size(Opened(Rotated(d, line)).log) + |line| <= LOG_BYTES
  {
    if Rotates(d, line) {
      RotateKeeps(d, line);
    }
    SameContentKeeps(Rotated(d, line), Opened(Rotated(d, line)));
  }

  lemma RenamedKeeps(d: Disk, line: Bytes)
    requires Kept(d) && |line| <= LINE_BYTES
    ensures Kept(Renamed(Appended(Opened(Rotated(d, line)), line), line))
  {
    var written := Appended(Opened(Rotated(d, line)), line);
    ReadyKeeps(d, line);
    AppendKeeps(Opened(Rotated(d, line)), line);
    assert written.appended[|written.appended| - 1] == line;
    SameContentKeeps(written, Renamed(written, line));
  }

  lemma PartwayKeeps(d: Disk, line: Bytes, e: Disk)
    requires Kept(d) && |line| <= LINE_BYTES && Partway(d, line, e)
    ensures Kept(e)
  {
    ReadyKeeps(d, line);
    AppendKeeps(Opened(Rotated(d, line)), line);
    RenamedKeeps(d, line);
  }

  /** Where a save can stop, and where it ends. */
  lemma SavedStates(d: Disk, line: Bytes, calls: nat)
    ensures var (e, outcome) := Saved(d, line, calls);
      && (outcome == Crashed ==> Partway(d, line, e))
      && (outcome == Done ==> e == Renamed(Appended(Opened(Rotated(d, line)), line), line))
      && (outcome != Crashed && outcome != Done ==> e == d)
  {
  }

  lemma SameContentKeeps(d: Disk, d': Disk)
    requires Kept(d) && d'.appended == d.appended && d'.previous == d.previous && Content(d'.log) == Content(d.log)
    requires d'.shown <= |d.appended|
    requires d'.latest == (if d'.shown == 0 then None else Some(d.appended[d'.shown - 1]))
    ensures Kept(d')
  {
    var a: nat, b: nat :| Generations(d, a, b);
    assert Generations(d', a, b);
  }

  lemma SaveKeeps(d: Disk, line: Bytes, calls: nat)
    requires Kept(d)
    ensures Kept(Saved(d, line, calls).0)
  {
    var (e, outcome) := Saved(d, line, calls);
    SavedStates(d, line, calls);
    if outcome == Crashed {
      PartwayKeeps(d, line, e);
    } else if outcome == Done {
      RenamedKeeps(d, line);
    }
  }

  datatype Attempt = Attempt(line: Bytes, calls: nat)

  /** The disk after attempts to save, each of which may be cut off. */
  function After(attempts: seq<Attempt>): Disk {
    if attempts == [] then EmptyDisk
    else
      var last := attempts[|attempts| - 1];
      Saved(After(attempts[..|attempts| - 1]), last.line, last.calls).0
  }

  /** Main result: over any run of saves and crashes both generations stay within the limit;
      the old one followed by the new one is a run of whole lines that ends with the last line
      saved; once there is an old generation it is fuller than the limit less one line;
      latest.json is a whole line, the one of the last save that renamed it. */
  lemma {:induction false} RunsKeep(attempts: seq<Attempt>)
    ensures Kept(After(attempts))
  {
    if attempts == [] {
      assert Generations(EmptyDisk, 0, 0);
    } else {
      var d, last := After(attempts[..|attempts| - 1]), attempts[|attempts| - 1];
      RunsKeep(attempts[..|attempts| - 1]);
      SaveKeeps(d, last.line, last.calls);
    }
  }

  /** A save refuses only a line that is too long: it never meets a log it left too long
      itself. One that returns leaves its line last in the log and in latest.json. One that is
      cut off or fails has appended its line whole or not at all, and leaves latest.json alone or,
      when only the directory was still to be flushed, with this line. */
  lemma {:induction false} SaveAfterRun(attempts: seq<Attempt>, line: Bytes, calls: nat)
    ensures var (d, outcome) := Saved(After(attempts), line, calls);
            && outcome != ExistingLogLimit
            && (outcome == ObservationLimit <==> |line| > LINE_BYTES)
            && (outcome == ObservationLimit ==> d == After(attempts))
            && (outcome == Done ==>
                  && d.latest == Some(line) && d.shown == |d.appended|
                  && d.appended == After(attempts).appended + [line])
            && (outcome == Crashed ==>
                  || (d.latest == After(attempts).latest && d.appended == After(attempts).appended)
                  || (d.latest == After(attempts).latest && d.appended == After(attempts).appended + [line])
                  || (d.latest == Some(line) && d.appended == After(attempts).appended + [line]))
  {
    RunsKeep(attempts);
    SavedStates(After(attempts), line, calls);
  }
}
