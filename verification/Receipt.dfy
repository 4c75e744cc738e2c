/** The experiment receipt of scripts/compare_proxy_tails.py. Exceptions are returned, and every
    call out of the program has an arbitrary outcome: its value, a ComparisonError, any other
    exception, or an interrupt. The ghost log keeps them. */
module Receipt {
  import opened Wrappers

  type Code = s: string | s != "" witness "internal_error"

  /** ComparisonError, an interrupt (which no `except Exception` catches), anything else. */
  datatype Exc = Failure(code: Code) | Interrupt | Internal

  datatype Call<T> = Fine(value: T) | Raises(exc: Exc)

  datatype Identity = Identity(sha: string, bytes: nat, fingerprint: seq<int>)

  datatype Metric =
    | Requests | Compacted | ReusedPrefix | OverThresholdAfter | RaisedThreshold | PairingViolations
    | SourcePairingViolations | RepeatedReads | RepeatedReadsCovered | BackToBackCompactions | UsageRequests
    | CalibrationSamples | PeakEstTokensIn | PeakEstTokensOut | LastEstTokensIn | LastEstTokensOut
    | TotalEstTokensIn | TotalEstTokensOut | EstCacheReadTokens | EstCacheWriteTokens | PeakReportedTokensOut
    | ReportedOverThreshold | LastRatioPermille | FirstViolation | MinCompactionGap | ReportedRatioMinPermille
    | ReportedRatioMedianPermille | ReportedRatioMaxPermille

  const METRIC_FIELDS: seq<Metric> := [
    Requests, Compacted, ReusedPrefix, OverThresholdAfter, RaisedThreshold, PairingViolations,
    SourcePairingViolations, RepeatedReads, RepeatedReadsCovered, BackToBackCompactions, UsageRequests,
    CalibrationSamples, PeakEstTokensIn, PeakEstTokensOut, LastEstTokensIn, LastEstTokensOut,
    TotalEstTokensIn, TotalEstTokensOut, EstCacheReadTokens, EstCacheWriteTokens, PeakReportedTokensOut,
    ReportedOverThreshold, LastRatioPermille, FirstViolation, MinCompactionGap, ReportedRatioMinPermille,
    ReportedRatioMedianPermille, ReportedRatioMaxPermille]

  const INVARIANT_FIELDS: seq<Metric> := [
    Requests, PeakEstTokensIn, LastEstTokensIn, TotalEstTokensIn, SourcePairingViolations, RepeatedReads,
    UsageRequests, CalibrationSamples, LastRatioPermille, ReportedRatioMinPermille, ReportedRatioMedianPermille,
    ReportedRatioMaxPermille]

  datatype CompactionTotal = HeadTokens | SummaryTokens | TailTokens | CarryChars

  type Metrics = m: map<Metric, Option<int>> | forall f: Metric :: f in m witness map f: Metric :: None
  type Totals = m: map<CompactionTotal, int> | forall t: CompactionTotal :: t in m witness map t: CompactionTotal :: 0

  /** The replay's metrics, some of them not available, and its four compaction totals. */
  datatype Report = Report(dialect: string, metrics: Metrics, totals: Totals)

  /** The differences, and the metrics that have none. */
  datatype Deltas = Deltas(metrics: Metrics, unavailable: seq<Metric>, totals: Totals)

  datatype ArmStatus = NotRun | ArmFailed | ArmComplete | Invalidated

  datatype Arm = Arm(status: ArmStatus, error: Option<Code>, report: Option<Report>)

  /** What a receipt says of one bound file. */
  datatype Row = Row(before: Option<string>, after: Option<string>, stable: Option<bool>, fault: Option<Code>)

  /** One session: its dialect, its arms for tail 0 and tail 40, and their comparison. */
  datatype Source = Source(dialect: Option<string>, arms: seq<Arm>, comparison: Option<Deltas>)

  /** The receipt as written: rows are the binary's and then one for each source. */
  datatype Written = Written(complete: bool, error: Option<Code>, rows: seq<Row>, sources: seq<Source>)

  /** A call that raised or not, a check of bound file `k` that found it unchanged or not, or
      something else that the program compared and found as it should be or not. */
  datatype Event = Called(exc: Option<Exc>) | Checked(k: nat, same: bool) | Compared(same: bool)

  const TAILS := 2

  predicate Good(e: Event) {
    match e
    case Called(exc) => exc.None?
    case Checked(_, same) => same
    case Compared(same) => same
  }

  ghost predicate Clean(log: seq<Event>) { forall i :: 0 <= i < |log| ==> Good(log[i]) }

  /** The checks made of file `k`. */
  ghost function Checks(log: seq<Event>, k: nat): nat {
    if log == [] then 0
    else Checks(log[..|log| - 1], k) + (if log[|log| - 1].Checked? && log[|log| - 1].k == k then 1 else 0)
  }

  lemma LogAdds(log: seq<Event>, e: Event)
    ensures Clean(log + [e]) <==> Clean(log) && Good(e)
    ensures forall k: nat :: Checks(log + [e], k) == Checks(log, k) + (if e.Checked? && e.k == k then 1 else 0)
  {
    assert (log + [e])[..|log|] == log;
    assert forall i :: 0 <= i < |log| ==> (log + [e])[i] == log[i];
    assert (log + [e])[|log|] == e;
  }

  function ExcOf<T>(r: Call<T>): Option<Exc> {
    match r case Fine(_) => None case Raises(exc) => Some(exc)
  }

  /** The metrics that no strategy can change. */
  predicate IsInvariant(f: Metric) {
    || f == Requests || f == UsageRequests || f == SourcePairingViolations || f == RepeatedReads
    || f == PeakEstTokensIn || f == LastEstTokensIn || f == TotalEstTokensIn || f == CalibrationSamples
    || f == LastRatioPermille || f == ReportedRatioMinPermille || f == ReportedRatioMedianPermille
    || f == ReportedRatioMaxPermille
  }

  ghost predicate SameReplay(a: Report, b: Report) {
    a.dialect == b.dialect && forall f: Metric :: IsInvariant(f) ==> a.metrics[f] == b.metrics[f]
  }

  /** Added to the first report the differences give the second, wherever both have a value. */
  ghost predicate LeadsTo(first: Report, d: Deltas, second: Report) {
    && (forall f: Metric :: d.metrics[f].Some? <==> first.metrics[f].Some? && second.metrics[f].Some?)
    && (forall f: Metric :: d.metrics[f].Some? ==>
          first.metrics[f].value + d.metrics[f].value == second.metrics[f].value)
    && (forall f: Metric :: f in d.unavailable <==> d.metrics[f].None?)
    && (forall t: CompactionTotal :: first.totals[t] + d.totals[t] == second.totals[t])
  }

  lemma EveryMetric(f: Metric)
    ensures f in METRIC_FIELDS
  {
  }

  lemma InvariantField(f: Metric)
    ensures f in INVARIANT_FIELDS <==> IsInvariant(f)
  {
  }

  /** `any` over the fields that must not differ. */
  method ArmsDiffer(first: Report, second: Report, fields: seq<Metric>) returns (differ: bool)
    ensures differ <==>
      first.dialect != second.dialect || exists f :: f in fields && first.metrics[f] != second.metrics[f]
  {
    if first.dialect != second.dialect {
      return true;
    }
    for k := 0 to |fields|
      invariant forall i :: 0 <= i < k ==> first.metrics[fields[i]] == second.metrics[fields[i]]
    {
      if first.metrics[fields[k]] != second.metrics[fields[k]] {
        return true;
      }
    }
    return false;
  }

  /** The loop over the fields: the differences, and the fields that have none. */
  method Differences(first: Metrics, second: Metrics, fields: seq<Metric>)
    returns (deltas: map<Metric, Option<int>>, missing: seq<Metric>)
    ensures forall f :: f in fields <==> f in deltas
    ensures forall f :: f in deltas ==>
      && (deltas[f].Some? <==> first[f].Some? && second[f].Some?)
      && (deltas[f].Some? ==> first[f].value + deltas[f].value == second[f].value)
    ensures forall f :: f in missing <==> f in deltas && deltas[f].None?
  {
    deltas, missing := map[], [];
    for k := 0 to |fields|
      invariant forall f :: f in fields[..k] <==> f in deltas
      invariant forall f :: f in deltas ==>
        && (deltas[f].Some? <==> first[f].Some? && second[f].Some?)
        && (deltas[f].Some? ==> first[f].value + deltas[f].value == second[f].value)
      invariant forall f :: f in missing <==> f in deltas && deltas[f].None?
    {
      var field := fields[k];
      var left, right := first[field], second[field];
      deltas := deltas[field := if left.Some? && right.Some? then Some(right.value - left.value) else None];
      if deltas[field].None? {
        missing := missing + [field];
      }
      assert fields[..k + 1] == fields[..k] + [field];
    }
    assert fields[..|fields|] == fields;
  }

  function TotalDeltas(first: Totals, second: Totals): (d: Totals)
    ensures forall t: CompactionTotal :: first[t] + d[t] == second[t]
  {
    map t: CompactionTotal :: second[t] - first[t]
  }

  method CompareFields(first: Report, second: Report, invariants: seq<Metric>, fields: seq<Metric>)
    returns (r: Option<Deltas>)
    requires forall f: Metric :: f in fields && (f in invariants <==> IsInvariant(f))
    ensures r.Some? <==> SameReplay(first, second)
    ensures r.Some? ==> LeadsTo(first, r.value, second)
  {
    var differ := ArmsDiffer(first, second, invariants);
    if differ {
      return None;
    }
    var deltas, missing := Differences(first.metrics, second.metrics, fields);
    r := Some(Deltas(deltas, missing, TotalDeltas(first.totals, second.totals)));
  }

  lemma FieldLists()
    ensures forall f: Metric :: f in METRIC_FIELDS && (f in INVARIANT_FIELDS <==> IsInvariant(f))
  {
    forall f: Metric ensures f in METRIC_FIELDS && (f in INVARIANT_FIELDS <==> IsInvariant(f)) {
      EveryMetric(f);
      InvariantField(f);
    }
  }

  /** `comparison`: the second report minus the first, when the arms replayed the same thing. */
  method Comparison(first: Report, second: Report) returns (r: Option<Deltas>)
    ensures r.Some? <==> SameReplay(first, second)
    ensures r.Some? ==> LeadsTo(first, r.value, second)
  {
    FieldLists();
    r := CompareFields(first, second, INVARIANT_FIELDS, METRIC_FIELDS);
  }

  function FreshArm(): Arm { Arm(NotRun, None, None) }

  function FreshSource(): Source { Source(None, [FreshArm(), FreshArm()], None) }

  function FreshRow(): Row { Row(None, None, None, None) }

  /** A completed arm: it has its report and no error. */
  predicate ArmDone(arm: Arm) { arm.status == ArmComplete && arm.error.None? && arm.report.Some? }

  /** A compared source: both arms done, and the difference between their reports. */
  ghost predicate SourceDone(source: Source) {
    && |source.arms| == TAILS && ArmDone(source.arms[0]) && ArmDone(source.arms[1])
    && source.comparison.Some? && SameReplay(source.arms[0].report.value, source.arms[1].report.value)
    && LeadsTo(source.arms[0].report.value, source.comparison.value, source.arms[1].report.value)
  }

  predicate NoComparison(sources: seq<Source>) {
    forall i :: 0 <= i < |sources| ==> sources[i].comparison.None?
  }
}
