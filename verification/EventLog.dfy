/** The event log as scripts/monitor.py reads it: what the diagnostics make of one generation,
    line by line. Which objects are valid events, and what they are evidence of, is given by
    rules; EventSchema has the actual ones. */
module EventLog {
  import opened Wrappers
  import opened Json
  import Lines

  const LOG_LIMIT := 16 * 1024 * 1024
  const RECORD_LIMIT := 16 * 1024
  const U64_MAX := 0xFFFF_FFFF_FFFF_FFFF

  datatype Identity = Identity(provider: string, session: string, source: string)

  /** One compaction of one source: its snapshots before and after. */
  datatype Evidence = Evidence(identity: Identity, before: string, after: string)

  /** One tally of one compaction, and the sources it was taken from. */
  datatype Values = Values(total: nat, literal: nat, lexical: nat, before: string, after: string)

  /** What an object says about itself: whether it names another schema or another provider,
      whether it is a valid event, what it is evidence of, and its tally if it has one. */
  datatype Rules = Rules(
    otherSchema: Json -> bool,
    otherProvider: Json -> bool,
    valid: Json -> bool,
    evidence: Json -> Option<Evidence>,
    tally: Json -> Option<Values>)

  ghost predicate Sound(r: Rules) {
    && (forall event :: r.valid(event) ==> event.Obj? && !r.otherSchema(event) && !r.otherProvider(event))
    && (forall event :: r.evidence(event).Some? && r.tally(event).Some? ==>
          r.tally(event).value.literal <= r.tally(event).value.total
          && r.tally(event).value.lexical <= r.tally(event).value.total)
  }

  /** `parse` is the strict decoder of UTF-8 JSON; None where it raises. */
  datatype World = World(parse: Bytes -> Option<Json>, rules: Rules)

  predicate IsBlankByte(b: Byte) { b in {32, 9, 10, 13, 12} }

  /** `not line.strip(b" \t\n\r\f")`. */
  predicate IsBlank(line: Bytes) { forall i :: 0 <= i < |line| ==> IsBlankByte(line[i]) }

  // ---------------------------------------------------------------------------------
  // Diagnostics

  datatype Reason = Oversized | InvalidJson | UnsupportedSchema | UnsupportedProvider | InvalidFields

  datatype Diagnostics = Diagnostics(
    scanned: nat, readable: nat, valid: nat, invalid: nat, oversized: nat,
    reasons: map<Reason, nat>, readLimit: bool, unterminated: bool)
  {
    /** `partial`: some reason to doubt the generation. */
    predicate Partial() { reasons != map[] || readLimit || unterminated }
  }

  function Start(readLimit: bool, unterminated: bool): Diagnostics {
    Diagnostics(0, 0, 0, 0, 0, map[], readLimit, unterminated)
  }

  /** How many lines were rejected for a reason. */
  function Rejections(reasons: map<Reason, nat>, reason: Reason): nat {
    if reason in reasons then reasons[reason] else 0
  }

  /** What the diagnostics make of one line that is not skipped: None is a valid event. */
  function Verdict(w: World, line: Bytes): Option<Reason> {
    if |line| > RECORD_LIMIT then Some(Oversized)
    else match w.parse(line)
      case None => Some(InvalidJson)
      case Some(event) =>
        if !event.Obj? then Some(InvalidFields)
        else if w.rules.otherSchema(event) then Some(UnsupportedSchema)
        else if w.rules.otherProvider(event) then Some(UnsupportedProvider)
        else if !w.rules.valid(event) then Some(InvalidFields)
        else None
  }

  predicate Skipped(line: Bytes) { |line| <= RECORD_LIMIT && IsBlank(line) }

  predicate Readable(w: World, line: Bytes) {
    |line| <= RECORD_LIMIT && w.parse(line).Some? && w.parse(line).value.Obj?
  }

  function More(reasons: map<Reason, nat>, reason: Reason): map<Reason, nat> {
    reasons[reason := Rejections(reasons, reason) + 1]
  }

  function Tally(out: Diagnostics, readable: bool, verdict: Option<Reason>): Diagnostics {
    var next := out.(scanned := out.scanned + 1, readable := out.readable + if readable then 1 else 0);
    match verdict
    case None => next.(valid := out.valid + 1)
    case Some(reason) =>
      var counted := next.(reasons := More(out.reasons, reason));
      if reason == Oversized then counted.(oversized := out.oversized + 1) else counted.(invalid := out.invalid + 1)
  }

  function Diagnosed(w: World, out: Diagnostics, line: Bytes): Diagnostics {
    if Skipped(line) then out else Tally(out, Readable(w, line), Verdict(w, line))
  }

  function DiagnoseLines(w: World, start: Diagnostics, lines: seq<Bytes>): Diagnostics {
    if lines == [] then start
    else Diagnosed(w, DiagnoseLines(w, start, lines[..|lines| - 1]), lines[|lines| - 1])
  }

  lemma DiagnoseOneMore(w: World, start: Diagnostics, lines: seq<Bytes>, i: nat)
    requires i < |lines|
    ensures DiagnoseLines(w, start, lines[..i + 1]) == Diagnosed(w, DiagnoseLines(w, start, lines[..i]), lines[i])
  {
    assert lines[..i + 1][..i] == lines[..i];
  }

  /** `rfind` of a newline, plus one. */
  function AfterLastNewline(data: Bytes): (n: nat)
    ensures n <= |data|
  {
    if data == [] then 0 else if data[|data| - 1] == NEWLINE then |data| else AfterLastNewline(data[..|data| - 1])
  }

  predicate EndsLine(data: Bytes) { data == [] || data[|data| - 1] == NEWLINE }

  function Diagnose(w: World, data: Bytes, readLimit: bool): Diagnostics {
    DiagnoseLines(w, Start(readLimit, !readLimit && !EndsLine(data)),
                  Lines.Split(if readLimit then data[..AfterLastNewline(data)] else data, NEWLINE))
  }

  /** Why a line is rejected, if it is, and whether it held an object at all. */
  method Inspect(w: World, line: Bytes) returns (readable: bool, reason: Option<Reason>)
    ensures readable == Readable(w, line) && reason == Verdict(w, line)
  {
    readable, reason := false, None;
    if |line| > RECORD_LIMIT {
      reason := Some(Oversized);
    } else {
      var parsed := w.parse(line);
      if parsed.None? {
        reason := Some(InvalidJson);
      } else if parsed.value.Obj? {
        var event := parsed.value;
        readable := true;
        if w.rules.otherSchema(event) {
          reason := Some(UnsupportedSchema);
        } else if w.rules.otherProvider(event) {
          reason := Some(UnsupportedProvider);
        } else if !w.rules.valid(event) {
          reason := Some(InvalidFields);
        }
      } else {
        reason := Some(InvalidFields);
      }
    }
  }

  /** The counters after one more line. */
  method Enter(before: Diagnostics, readable: bool, reason: Option<Reason>) returns (out: Diagnostics)
    ensures out == Tally(before, readable, reason)
  {
    out := before.(scanned := before.scanned + 1);
    if readable {
      out := out.(readable := out.readable + 1);
    }
    if reason.None? {
      out := out.(valid := out.valid + 1);
    } else {
      if reason.value == Oversized {
        out := out.(oversized := out.oversized + 1);
      } else {
        out := out.(invalid := out.invalid + 1);
      }
      out := out.(reasons := More(out.reasons, reason.value));
    }
  }

  /** `events_diagnostics_summary` of a generation that could be read. */
  method DiagnosticsSummary(w: World, data: Bytes, readLimit: bool) returns (out: Diagnostics)
    ensures out == Diagnose(w, data, readLimit)
  {
    out := Start(readLimit, data != [] && !readLimit && data[|data| - 1] != NEWLINE);
    ghost var start := out;
    var lines := Lines.Split(if readLimit then data[..AfterLastNewline(data)] else data, NEWLINE);
    for i := 0 to |lines|
      invariant out == DiagnoseLines(w, start, lines[..i])
    {
      var line := lines[i];
      DiagnoseOneMore(w, start, lines, i);
      if |line| <= RECORD_LIMIT && IsBlank(line) {
        continue;
      }
      var readable, reason := Inspect(w, line);
      out := Enter(out, readable, reason);
    }
    assert lines[..|lines|] == lines;
  }
}
