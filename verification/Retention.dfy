/** `retention_summary` of scripts/monitor.py: what the event log proves about how much text
    survived each compaction of the selected sources. */
module Retention {
  import opened Wrappers
  import opened Json
  import opened EventLog
  import Lines

  datatype Claim = Claim(evidence: Evidence, values: Values)

  predicate IsOversized(line: Bytes) { |line| > RECORD_LIMIT }

  predicate IsInvalid(w: World, line: Bytes) {
    && !IsOversized(line) && !IsBlank(line)
    && (w.parse(line).None? || !w.rules.valid(w.parse(line).value))
  }

  /** The tally a line adds for a selected source, if it adds one. */
  function ClaimOf(w: World, selected: set<Identity>, line: Bytes): Option<Claim> {
    if IsOversized(line) || IsBlank(line) || IsInvalid(w, line) then None
    else
      var event := w.parse(line).value;
      var evidence := w.rules.evidence(event);
      if evidence.None? || evidence.value.identity !in selected || w.rules.tally(event).None? then None
      else Some(Claim(evidence.value, w.rules.tally(event).value))
  }

  /** A dictionary in insertion order; None marks a pair whose tallies conflict. */
  datatype Tallies = Tallies(order: seq<Evidence>, values: map<Evidence, Option<Values>>)

  function Add(t: Tallies, c: Claim): Tallies {
    if c.evidence !in t.values then Tallies(t.order + [c.evidence], t.values[c.evidence := Some(c.values)])
    else if t.values[c.evidence] != Some(c.values) then t.(values := t.values[c.evidence := None])
    else t
  }

  function AddLine(w: World, selected: set<Identity>, t: Tallies, line: Bytes): Tallies {
    match ClaimOf(w, selected, line)
    case None => t
    case Some(c) => Add(t, c)
  }

  function Collected(w: World, selected: set<Identity>, lines: seq<Bytes>): Tallies {
    if lines == [] then Tallies([], map[])
    else AddLine(w, selected, Collected(w, selected, lines[..|lines| - 1]), lines[|lines| - 1])
  }

  function OversizedCount(lines: seq<Bytes>): nat {
    if lines == [] then 0 else OversizedCount(lines[..|lines| - 1]) + if IsOversized(lines[|lines| - 1]) then 1 else 0
  }

  function InvalidCount(w: World, lines: seq<Bytes>): nat {
    if lines == [] then 0 else InvalidCount(w, lines[..|lines| - 1]) + if IsInvalid(w, lines[|lines| - 1]) then 1 else 0
  }

  // ---------------------------------------------------------------------------------
  // Adding up

  datatype Totals = Totals(measured: nat, conflicting: nat, checks: nat, literal: nat, lexical: nat, lossy: seq<string>)

  function Saturating(n: nat): nat { if n > U64_MAX then U64_MAX else n }

  predicate IsLossy(v: Values) { v.total > 0 && v.lexical * 2 < v.total }

  function Count(sum: Totals, e: Evidence, v: Option<Values>): Totals {
    match v
    case None => sum.(conflicting := sum.conflicting + 1)
    case Some(v) =>
      var session := e.identity.session;
      sum.(measured := sum.measured + 1,
           checks := Saturating(sum.checks + v.total),
           literal := Saturating(sum.literal + v.literal),
           lexical := Saturating(sum.lexical + v.lexical),
           lossy := if IsLossy(v) && session !in sum.lossy then sum.lossy + [session] else sum.lossy)
  }

  function AddUp(values: map<Evidence, Option<Values>>, keys: seq<Evidence>): Totals
    requires forall e :: e in keys ==> e in values
  {
    if keys == [] then Totals(0, 0, 0, 0, 0, [])
    else Count(AddUp(values, keys[..|keys| - 1]), keys[|keys| - 1], values[keys[|keys| - 1]])
  }

  // ---------------------------------------------------------------------------------
  // The summary

  datatype LogFile = Absent | NotRegular | Unreadable | Contents(size: nat, data: Bytes)

  datatype LogError = LogAbsent | LogNotRegular | LogUnavailable | LogLimit | LogIncomplete | LogInvalid

  datatype Summary = Summary(error: Option<LogError>, invalid: nat, oversized: nat, totals: Totals)
  {
    predicate Available() { error.None? }
  }

  const NoTotals := Totals(0, 0, 0, 0, 0, [])

  function Failed(error: LogError): Summary { Summary(Some(error), 0, 0, NoTotals) }

  ghost predicate WellFormed(t: Tallies) {
    && (forall e :: e in t.order <==> e in t.values)
    && (forall i, j :: 0 <= i < j < |t.order| ==> t.order[i] != t.order[j])
  }

  lemma {:induction false} CollectedWellFormed(w: World, selected: set<Identity>, lines: seq<Bytes>)
    ensures WellFormed(Collected(w, selected, lines))
  {
    if lines != [] { CollectedWellFormed(w, selected, lines[..|lines| - 1]); }
  }

  function Summarized(w: World, selected: set<Identity>, lines: seq<Bytes>): Summary {
    var t := Collected(w, selected, lines);
    CollectedWellFormed(w, selected, lines);
    if InvalidCount(w, lines) > 0 || OversizedCount(lines) > 0
    then Summary(Some(LogInvalid), InvalidCount(w, lines), OversizedCount(lines), NoTotals)
    else Summary(None, 0, 0, AddUp(t.values, t.order))
  }

  /** The summary, and the diagnostics of the same read where there was one. */
  function Retained(w: World, selected: set<Identity>, file: LogFile): (Summary, Option<Diagnostics>) {
    match file
    case Absent => (Failed(LogAbsent), None)
    case NotRegular => (Failed(LogNotRegular), None)
    case Unreadable => (Failed(LogUnavailable), None)
    case Contents(size, data) =>
      if size > LOG_LIMIT then (Failed(LogLimit), None)
      else if |data| > LOG_LIMIT then (Failed(LogLimit), Some(Diagnose(w, data[..LOG_LIMIT], true)))
      else if !EndsLine(data) then (Failed(LogIncomplete), Some(Diagnose(w, data, false)))
      else (Summarized(w, selected, Lines.Split(data, NEWLINE)), Some(Diagnose(w, data, false)))
  }

  method CollectLines(w: World, selected: set<Identity>, lines: seq<Bytes>)
    returns (invalid: nat, oversized: nat, order: seq<Evidence>, pairs: map<Evidence, Option<Values>>)
    ensures invalid == InvalidCount(w, lines) && oversized == OversizedCount(lines)
    ensures Tallies(order, pairs) == Collected(w, selected, lines)
  {
    invalid, oversized, order, pairs := 0, 0, [], map[];
    for i := 0 to |lines|
      invariant invalid == InvalidCount(w, lines[..i]) && oversized == OversizedCount(lines[..i])
      invariant Tallies(order, pairs) == Collected(w, selected, lines[..i])
    {
      var line := lines[i];
      assert lines[..i + 1][..i] == lines[..i];
      if IsOversized(line) {
        oversized := oversized + 1;
        continue;
      }
      if IsBlank(line) {
        continue;
      }
      if IsInvalid(w, line) {
        invalid := invalid + 1;
        continue;
      }
      var claim := ClaimOf(w, selected, line);
      if claim.None? {
        continue;
      }
      var evidence, values := claim.value.evidence, claim.value.values;
      if evidence !in pairs {
        order := order + [evidence];
      }
      if evidence in pairs && pairs[evidence] != Some(values) {
        pairs := pairs[evidence := None];
      } else {
        pairs := pairs[evidence := Some(values)];
      }
    }
    assert lines[..|lines|] == lines;
  }

  /** The counters and the totals of a log that was read whole. */
  method SumLines(w: World, selected: set<Identity>, lines: seq<Bytes>) returns (out: Summary)
    ensures out == Summarized(w, selected, lines)
  {
    var invalid, oversized, order, pairs := CollectLines(w, selected, lines);
    if invalid > 0 || oversized > 0 {
      return Summary(Some(LogInvalid), invalid, oversized, NoTotals);
    }
    CollectedWellFormed(w, selected, lines);
    var totals := NoTotals;
    for i := 0 to |order|
      invariant totals == AddUp(pairs, order[..i])
    {
      assert order[..i + 1][..i] == order[..i];
      totals := Count(totals, order[i], pairs[order[i]]);
    }
    assert order[..|order|] == order;
    out := Summary(None, 0, 0, totals);
  }

  /** `retention_summary`. */
  method RetentionSummary(w: World, selected: set<Identity>, file: LogFile)
    returns (out: Summary, diagnostics: Option<Diagnostics>)
    ensures (out, diagnostics) == Retained(w, selected, file)
  {
    diagnostics := None;
    match file {
      case Absent => return Failed(LogAbsent), None;
      case NotRegular => return Failed(LogNotRegular), None;
      case Unreadable => return Failed(LogUnavailable), None;
      case Contents(_, _) =>
    }
    if file.size > LOG_LIMIT {
      return Failed(LogLimit), None;
    }
    var data := file.data;
    var seen := DiagnosticsSummary(w, if |data| > LOG_LIMIT then data[..LOG_LIMIT] else data, |data| > LOG_LIMIT);
    diagnostics := Some(seen);
    if |data| > LOG_LIMIT {
      return Failed(LogLimit), diagnostics;
    }
    if data != [] && data[|data| - 1] != NEWLINE {
      return Failed(LogIncomplete), diagnostics;
    }
    var lines := Lines.Split(data, NEWLINE);
    out := SumLines(w, selected, lines);
  }
}
