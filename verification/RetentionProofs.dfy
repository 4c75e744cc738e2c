/** What the retention summary depends on, and its agreement with the diagnostics. */
module RetentionProofs {
  import opened Wrappers
  import opened Json
  import opened EventLog
  import Lines
  import opened Retention

  // ---------------------------------------------------------------------------------
  // The dictionary is a function of the claims made

  /** A tab, a newline, a form feed, a carriage return or a space. */
  predicate IsSpace(b: Byte) { 9 <= b <= 10 || 12 <= b <= 13 || b == 32 }

  /** A line of the log gives a pair a tally: it is within the limit, not blank, a valid event,
      evidence of a compaction of a selected source, and has the tally. */
  ghost predicate Gives(w: World, selected: set<Identity>, line: Bytes, e: Evidence, v: Values) {
    && |line| <= RECORD_LIMIT && (exists i :: 0 <= i < |line| && !IsSpace(line[i]))
    && w.parse(line).Some? && w.rules.valid(w.parse(line).value)
    && w.rules.evidence(w.parse(line).value) == Some(e) && e.identity in selected
    && w.rules.tally(w.parse(line).value) == Some(v)
  }

  ghost predicate Given(w: World, selected: set<Identity>, lines: seq<Bytes>, e: Evidence, v: Values) {
    exists line :: line in lines && Gives(w, selected, line, e, v)
  }

  /** The different tallies that lines of the log claim for one pair. */
  ghost function Claims(w: World, selected: set<Identity>, lines: seq<Bytes>, e: Evidence): set<Values> {
    if lines == [] then {}
    else
      var c := ClaimOf(w, selected, lines[|lines| - 1]);
      Claims(w, selected, lines[..|lines| - 1], e) + if c.Some? && c.value.evidence == e then {c.value.values} else {}
  }

  lemma ClaimIsGiven(w: World, selected: set<Identity>, line: Bytes, e: Evidence, v: Values)
    ensures ClaimOf(w, selected, line) == Some(Claim(e, v)) <==> Gives(w, selected, line, e, v)
  {
  }

  lemma {:induction false} ClaimsAreGiven(w: World, selected: set<Identity>, lines: seq<Bytes>, e: Evidence, v: Values)
    ensures v in Claims(w, selected, lines, e) <==> Given(w, selected, lines, e, v)
  {
    if lines != [] {
      var front, last := lines[..|lines| - 1], lines[|lines| - 1];
      ClaimsAreGiven(w, selected, front, e, v);
      ClaimIsGiven(w, selected, last, e, v);
      assert lines == front + [last];
    }
  }

  /** A pair is absent if nothing claims it, keeps its tally if all claims agree, and is in
      conflict if two differ. */
  ghost predicate Means(claims: set<Values>, e: Evidence, values: map<Evidence, Option<Values>>) {
    if e !in values then claims == {}
    else match values[e]
      case Some(v) => claims == {v}
      case None => exists u, v :: u in claims && v in claims && u != v
  }

  lemma AddMeans(t: Tallies, c: Claim, claims: set<Values>, e: Evidence)
    requires Means(claims, e, t.values)
    ensures Means(claims + if c.evidence == e then {c.values} else {}, e, Add(t, c).values)
  {
    if c.evidence == e && e in t.values && t.values[e].Some? {
      assert t.values[e].value in claims;
    }
  }

  lemma {:induction false} ClaimsDecide(w: World, selected: set<Identity>, lines: seq<Bytes>, e: Evidence)
    ensures Means(Claims(w, selected, lines, e), e, Collected(w, selected, lines).values)
  {
    if lines != [] {
      var front := lines[..|lines| - 1];
      ClaimsDecide(w, selected, front, e);
      match ClaimOf(w, selected, lines[|lines| - 1])
      case None =>
      case Some(c) => AddMeans(Collected(w, selected, front), c, Claims(w, selected, front, e), e);
    }
  }

  /** Main result: what the dictionary holds for a pair. It is a key if and only if some line
      gives it a tally; it has a tally if and only if all lines that give it one give that one; and
      it is in conflict if and only if two lines differ. */
  lemma CollectedMeans(w: World, selected: set<Identity>, lines: seq<Bytes>, e: Evidence)
    ensures var values := Collected(w, selected, lines).values;
      && (e in values <==> exists v :: Given(w, selected, lines, e, v))
      && (forall v :: e in values && values[e] == Some(v) <==>
            Given(w, selected, lines, e, v) && forall u :: Given(w, selected, lines, e, u) ==> u == v)
      && (e in values && values[e].None? <==>
            exists u, v :: Given(w, selected, lines, e, u) && Given(w, selected, lines, e, v) && u != v)
  {
    ClaimsDecide(w, selected, lines, e);
    var claims := Claims(w, selected, lines, e);
    forall v ensures v in claims <==> Given(w, selected, lines, e, v) { ClaimsAreGiven(w, selected, lines, e, v); }
    MeansSpelledOut(claims, e, Collected(w, selected, lines).values);
  }

  lemma MeansSpelledOut(claims: set<Values>, e: Evidence, values: map<Evidence, Option<Values>>)
    requires Means(claims, e, values)
    ensures e in values <==> exists v :: v in claims
    ensures forall v :: e in values && values[e] == Some(v) <==> v in claims && forall u :: u in claims ==> u == v
    ensures e in values && values[e].None? <==> exists u, v :: u in claims && v in claims && u != v
  {
    if e in values && values[e].Some? { assert values[e].value in claims; }
  }

  /** The two logs give the same pairs the same tallies. */
  ghost predicate SameGiven(w: World, selected: set<Identity>, a: seq<Bytes>, b: seq<Bytes>) {
    forall e, v :: Given(w, selected, a, e, v) <==> Given(w, selected, b, e, v)
  }

  ghost predicate SameLines(a: seq<Bytes>, b: seq<Bytes>) {
    forall line :: line in a <==> line in b
  }

  lemma SameClaims(w: World, selected: set<Identity>, a: seq<Bytes>, b: seq<Bytes>)
    requires SameGiven(w, selected, a, b)
    ensures Collected(w, selected, a).values == Collected(w, selected, b).values
  {
    var x, y := Collected(w, selected, a).values, Collected(w, selected, b).values;
    forall e
      ensures e in x <==> e in y
      ensures e in x && e in y ==> x[e] == y[e]
    {
      ClaimsDecide(w, selected, a, e);
      ClaimsDecide(w, selected, b, e);
      forall v
        ensures v in Claims(w, selected, a, e) <==> v in Claims(w, selected, b, e)
      {
        ClaimsAreGiven(w, selected, a, e, v);
        ClaimsAreGiven(w, selected, b, e, v);
      }
      assert Claims(w, selected, a, e) == Claims(w, selected, b, e);
      SameMeaning(Claims(w, selected, a, e), e, x, y);
    }
  }

  lemma SameMeaning(claims: set<Values>, e: Evidence, x: map<Evidence, Option<Values>>,
      y: map<Evidence, Option<Values>>)
    requires Means(claims, e, x) && Means(claims, e, y)
    ensures e in x <==> e in y
    ensures e in x && e in y ==> x[e] == y[e]
  {
    if e in x && x[e].Some? { assert x[e].value in claims; }
    if e in y && y[e].Some? { assert y[e].value in claims; }
  }

  // ---------------------------------------------------------------------------------
  // The totals are sums over the dictionary, in any order

  datatype Column = Measured | Conflicting | Checks | Literal | Lexical

  function Weight(v: Option<Values>, column: Column): nat {
    match (v, column)
    case (None, Conflicting) => 1
    case (None, _) => 0
    case (Some(_), Conflicting) => 0
    case (Some(_), Measured) => 1
    case (Some(v), Checks) => v.total
    case (Some(v), Literal) => v.literal
    case (Some(v), Lexical) => v.lexical
  }

  function Sum(values: map<Evidence, Option<Values>>, keys: seq<Evidence>, column: Column): nat
    requires forall e :: e in keys ==> e in values
  {
    if keys == [] then 0
    else Sum(values, keys[..|keys| - 1], column) + Weight(values[keys[|keys| - 1]], column)
  }

  /** Saturating step by step is saturating the sum. */
  lemma {:induction false} AddUpSums(values: map<Evidence, Option<Values>>, keys: seq<Evidence>)
    requires forall e :: e in keys ==> e in values
    ensures var sum := AddUp(values, keys);
            && sum.measured == Sum(values, keys, Measured) && sum.conflicting == Sum(values, keys, Conflicting)
            && sum.checks == Saturating(Sum(values, keys, Checks))
            && sum.literal == Saturating(Sum(values, keys, Literal))
            && sum.lexical == Saturating(Sum(values, keys, Lexical))
            && forall session :: session in sum.lossy <==>
                 exists e :: e in keys && values[e].Some? && e.identity.session == session
                   && values[e].value.lexical + values[e].value.lexical < values[e].value.total
  {
    if keys != [] {
      var front, last := keys[..|keys| - 1], keys[|keys| - 1];
      AddUpSums(values, front);
      assert keys == front + [last];
      assert forall e :: e in keys <==> e in front || e == last;
    }
  }

  ghost predicate NoRepeats(keys: seq<Evidence>) {
    forall i, j :: 0 <= i < j < |keys| ==> keys[i] != keys[j]
  }

  lemma {:induction false} SumAppend(values: map<Evidence, Option<Values>>, a: seq<Evidence>, b: seq<Evidence>,
      column: Column)
    requires forall e :: e in a + b ==> e in values
    ensures (forall e :: e in a ==> e in values) && (forall e :: e in b ==> e in values)
    ensures Sum(values, a + b, column) == Sum(values, a, column) + Sum(values, b, column)
  {
    assert forall e :: e in a || e in b ==> e in a + b;
    if b == [] {
      assert a + b == a;
    } else {
      assert (a + b)[..|a + b| - 1] == a + b[..|b| - 1];
      SumAppend(values, a, b[..|b| - 1], column);
    }
  }

  ghost predicate SameKeys(a: seq<Evidence>, b: seq<Evidence>) {
    forall e :: e in a <==> e in b
  }

  lemma FirstIsIn(keys: seq<Evidence>)
    ensures keys == [] || keys[0] in keys
  {
  }

  lemma {:induction false} SumAnyOrder(values: map<Evidence, Option<Values>>, a: seq<Evidence>, b: seq<Evidence>,
      column: Column)
    requires NoRepeats(a) && NoRepeats(b) && SameKeys(a, b) && forall e :: e in a ==> e in values
    ensures forall e :: e in b ==> e in values
    ensures Sum(values, a, column) == Sum(values, b, column)
    decreases |a|
  {
    if a == [] {
      FirstIsIn(b);
    } else {
      var n := |a| - 1;
      assert a[n] in b;
      var i :| 0 <= i < |b| && b[i] == a[n];
      WithoutKeepsOthers(a, b, i);
      SumAnyOrder(values, a[..n], Without(b, i), column);
      SumWithout(values, b, i, column);
    }
  }

  function Without(keys: seq<Evidence>, i: nat): seq<Evidence>
    requires i < |keys|
  {
    keys[..i] + keys[i + 1..]
  }

  lemma SumWithout(values: map<Evidence, Option<Values>>, keys: seq<Evidence>, i: nat, column: Column)
    requires i < |keys| && forall e :: e in keys ==> e in values
    ensures forall e :: e in Without(keys, i) ==> e in values
    ensures Sum(values, keys, column) == Sum(values, Without(keys, i), column) + Weight(values[keys[i]], column)
  {
    assert keys == keys[..i] + ([keys[i]] + keys[i + 1..]);
    SumAppend(values, keys[..i], [keys[i]] + keys[i + 1..], column);
    SumAppend(values, [keys[i]], keys[i + 1..], column);
    SumAppend(values, keys[..i], keys[i + 1..], column);
    assert [keys[i]][..0] == [];
  }

  lemma WithoutKeepsOthers(a: seq<Evidence>, b: seq<Evidence>, i: nat)
    requires a != [] && i < |b| && NoRepeats(a) && NoRepeats(b) && SameKeys(a, b) && b[i] == a[|a| - 1]
    ensures NoRepeats(Without(b, i)) && SameKeys(a[..|a| - 1], Without(b, i))
  {
    var rest := Without(b, i);
    forall e ensures e in a[..|a| - 1] <==> e in rest {
      if e in a[..|a| - 1] {
        assert e in b && e != b[i];
        var j :| 0 <= j < |b| && b[j] == e;
        assert e == rest[if j < i then j else j - 1];
      }
      if e in rest {
        assert e in b && e != b[i];
        var j :| 0 <= j < |a| && a[j] == e;
      }
    }
  }

  lemma SameTotals(w: World, selected: set<Identity>, a: seq<Bytes>, b: seq<Bytes>)
    requires SameGiven(w, selected, a, b)
    ensures var x, y := Collected(w, selected, a), Collected(w, selected, b);
            WellFormed(x) && WellFormed(y) &&
            var s, t := AddUp(x.values, x.order), AddUp(y.values, y.order);
            && s.(lossy := []) == t.(lossy := [])
            && forall session :: session in s.lossy <==> session in t.lossy
  {
    SameClaims(w, selected, a, b);
    CollectedWellFormed(w, selected, a);
    CollectedWellFormed(w, selected, b);
    var x, y := Collected(w, selected, a), Collected(w, selected, b);
    AddUpSums(x.values, x.order);
    AddUpSums(y.values, y.order);
    SumAnyOrder(x.values, x.order, y.order, Measured);
    SumAnyOrder(x.values, x.order, y.order, Conflicting);
    SumAnyOrder(x.values, x.order, y.order, Checks);
    SumAnyOrder(x.values, x.order, y.order, Literal);
    SumAnyOrder(x.values, x.order, y.order, Lexical);
  }

  lemma {:induction false} BadMeansSomeBad(w: World, lines: seq<Bytes>)
    ensures OversizedCount(lines) > 0 <==> exists line :: line in lines && IsOversized(line)
    ensures InvalidCount(w, lines) > 0 <==> exists line :: line in lines && IsInvalid(w, line)
  {
    if lines != [] {
      BadMeansSomeBad(w, lines[..|lines| - 1]);
      assert lines == lines[..|lines| - 1] + [lines[|lines| - 1]];
    }
  }

  /** The same answer, but for the order in which lossy sessions are listed. */
  ghost predicate SameAnswer(s: Summary, t: Summary) {
    && s.error == t.error && s.totals.(lossy := []) == t.totals.(lossy := [])
    && forall session :: session in s.totals.lossy <==> session in t.totals.lossy
  }

  /** Main result: what the summary says depends only on which lines the log holds. Any
      reordering or repetition of lines leaves the availability, every total and the set of
      lossy sessions as they are. */
  lemma OnlyDistinctLinesCount(w: World, selected: set<Identity>, a: seq<Bytes>, b: seq<Bytes>)
    requires SameLines(a, b)
    ensures SameAnswer(Summarized(w, selected, a), Summarized(w, selected, b))
  {
    SameTotals(w, selected, a, b);
    BadMeansSomeBad(w, a);
    BadMeansSomeBad(w, b);
  }

  /** A valid event that is not evidence of any selected source. */
  ghost predicate Unselected(w: World, selected: set<Identity>, line: Bytes) {
    && |line| <= RECORD_LIMIT && w.parse(line).Some? && w.rules.valid(w.parse(line).value)
    && (w.rules.evidence(w.parse(line).value).Some? ==>
          w.rules.evidence(w.parse(line).value).value.identity !in selected)
  }

  /** Events of sources that were not selected can be taken out of the log. */
  lemma UnselectedDoNotCount(w: World, selected: set<Identity>, a: seq<Bytes>, b: seq<Bytes>)
    requires forall line :: line in b ==> line in a
    requires forall line :: line in a && line !in b ==> Unselected(w, selected, line)
    ensures SameAnswer(Summarized(w, selected, a), Summarized(w, selected, b))
  {
    forall e, v
      ensures Given(w, selected, a, e, v) <==> Given(w, selected, b, e, v)
    {
      if Given(w, selected, a, e, v) {
        var line :| line in a && Gives(w, selected, line, e, v);
        assert line in b;
      }
    }
    SameTotals(w, selected, a, b);
    BadMeansSomeBad(w, a);
    BadMeansSomeBad(w, b);
  }

  /** A pair once in conflict stays in conflict, whatever is logged later. */
  lemma ConflictsNeverRecover(w: World, selected: set<Identity>, lines: seq<Bytes>, more: seq<Bytes>, e: Evidence)
    requires e in Collected(w, selected, lines).values && Collected(w, selected, lines).values[e].None?
    ensures e in Collected(w, selected, lines + more).values && Collected(w, selected, lines + more).values[e].None?
  {
    CollectedMeans(w, selected, lines, e);
    CollectedMeans(w, selected, lines + more, e);
    var u, v :| Given(w, selected, lines, e, u) && Given(w, selected, lines, e, v) && u != v;
    MoreIsGiven(w, selected, lines, more, e, u);
    MoreIsGiven(w, selected, lines, more, e, v);
  }

  lemma MoreIsGiven(w: World, selected: set<Identity>, lines: seq<Bytes>, more: seq<Bytes>, e: Evidence, v: Values)
    requires Given(w, selected, lines, e, v)
    ensures Given(w, selected, lines + more, e, v)
  {
    var line :| line in lines && Gives(w, selected, line, e, v);
    assert line in lines + more;
  }

  lemma {:induction false} SumOrders(values: map<Evidence, Option<Values>>, keys: seq<Evidence>)
    requires forall e :: e in keys ==> e in values
    requires Bounded(values)
    ensures Sum(values, keys, Measured) + Sum(values, keys, Conflicting) == |keys|
    ensures Sum(values, keys, Literal) <= Sum(values, keys, Checks)
    ensures Sum(values, keys, Lexical) <= Sum(values, keys, Checks)
  {
    if keys != [] { SumOrders(values, keys[..|keys| - 1]); }
  }

  ghost predicate Bounded(values: map<Evidence, Option<Values>>) {
    forall e :: e in values && values[e].Some? ==>
      values[e].value.literal <= values[e].value.total && values[e].value.lexical <= values[e].value.total
  }

  lemma {:induction false} TalliesBounded(w: World, selected: set<Identity>, lines: seq<Bytes>)
    requires Sound(w.rules)
    ensures Bounded(Collected(w, selected, lines).values)
  {
    if lines != [] { TalliesBounded(w, selected, lines[..|lines| - 1]); }
  }

  /** Every pair is either measured or in conflict, and no more text survives than was checked
      for, even where the totals saturate. */
  lemma TotalsAreConsistent(w: World, selected: set<Identity>, lines: seq<Bytes>)
    requires Sound(w.rules)
    ensures var t := Collected(w, selected, lines);
            WellFormed(t) &&
            var sum := AddUp(t.values, t.order);
            && sum.measured + sum.conflicting == |t.values|
            && sum.literal <= sum.checks <= U64_MAX && sum.lexical <= sum.checks
  {
    var t := Collected(w, selected, lines);
    CollectedWellFormed(w, selected, lines);
    TalliesBounded(w, selected, lines);
    SumOrders(t.values, t.order);
    AddUpSums(t.values, t.order);
    OrderCountsKeys(t);
  }

  lemma {:induction false} OrderCountsKeys(t: Tallies)
    requires WellFormed(t)
    ensures |t.order| == |t.values|
    decreases |t.order|
  {
    assert t.values.Keys == (set e | e in t.order);
    DistinctCount(t.order);
  }

  lemma {:induction false} DistinctCount(keys: seq<Evidence>)
    requires NoRepeats(keys)
    ensures |set e | e in keys| == |keys|
  {
    if keys != [] {
      var front, last := keys[..|keys| - 1], keys[|keys| - 1];
      DistinctCount(front);
      assert (set e | e in keys) == (set e | e in front) + {last};
    }
  }

  // ---------------------------------------------------------------------------------
  // The two scanners agree

  function ReasonTotal(d: Diagnostics): nat {
    Rejections(d.reasons, Oversized) + Rejections(d.reasons, InvalidJson)
    + Rejections(d.reasons, UnsupportedSchema) + Rejections(d.reasons, UnsupportedProvider)
    + Rejections(d.reasons, InvalidFields)
  }

  ghost predicate Consistent(d: Diagnostics) {
    && d.scanned == d.valid + d.invalid + d.oversized
    && d.valid <= d.readable <= d.scanned
    && Rejections(d.reasons, Oversized) == d.oversized
    && ReasonTotal(d) == d.invalid + d.oversized
    && Positive(d.reasons)
  }

  ghost predicate Positive(reasons: map<Reason, nat>) {
    forall reason :: reason in reasons ==> reasons[reason] > 0
  }

  lemma VerdictMatches(w: World, line: Bytes)
    requires Sound(w.rules)
    requires !Skipped(line)
    ensures Verdict(w, line) == Some(Oversized) <==> IsOversized(line)
    ensures Verdict(w, line).Some? && Verdict(w, line) != Some(Oversized) <==> IsInvalid(w, line)
    ensures Verdict(w, line).None? ==> Readable(w, line)
  {
  }

  lemma MoreCounts(d: Diagnostics, reason: Reason)
    ensures var next := d.(reasons := More(d.reasons, reason));
            && ReasonTotal(next) == ReasonTotal(d) + 1
            && Rejections(next.reasons, Oversized)
                 == Rejections(d.reasons, Oversized) + if reason == Oversized then 1 else 0
  {
    var next := d.(reasons := More(d.reasons, reason));
    assert forall other ::
      Rejections(next.reasons, other) == Rejections(d.reasons, other) + if other == reason then 1 else 0;
  }

  lemma TallyConsistent(d: Diagnostics, readable: bool, verdict: Option<Reason>)
    requires Consistent(d) && (verdict.None? ==> readable)
    ensures var next := Tally(d, readable, verdict);
            && Consistent(next) && next.readLimit == d.readLimit && next.unterminated == d.unterminated
            && next.oversized == d.oversized + (if verdict == Some(Oversized) then 1 else 0)
            && next.invalid == d.invalid + if verdict.Some? && verdict != Some(Oversized) then 1 else 0
  {
    if verdict.Some? {
      MoreCounts(d, verdict.value);
      assert ReasonTotal(Tally(d, readable, verdict)) == ReasonTotal(d.(reasons := More(d.reasons, verdict.value)));
    } else {
      assert ReasonTotal(Tally(d, readable, verdict)) == ReasonTotal(d);
    }
  }

  lemma DiagnoseStep(w: World, d: Diagnostics, line: Bytes) returns (next: Diagnostics)
    requires Sound(w.rules)
    requires Consistent(d)
    ensures next == Diagnosed(w, d, line)
    ensures && Consistent(next) && next.readLimit == d.readLimit && next.unterminated == d.unterminated
            && next.oversized == d.oversized + (if IsOversized(line) then 1 else 0)
            && next.invalid == d.invalid + if IsInvalid(w, line) then 1 else 0
  {
    next := Diagnosed(w, d, line);
    if Skipped(line) {
      SkippedIsNeither(w, line);
    } else {
      VerdictMatches(w, line);
      TallyConsistent(d, Readable(w, line), Verdict(w, line));
    }
  }

  lemma NothingCounted(readLimit: bool, unterminated: bool)
    ensures Consistent(Start(readLimit, unterminated))
  {
  }

  lemma {:induction false} DiagnosticsCount(w: World, readLimit: bool, unterminated: bool, lines: seq<Bytes>)
    returns (d: Diagnostics)
    requires Sound(w.rules)
    ensures d == DiagnoseLines(w, Start(readLimit, unterminated), lines)
    ensures Consistent(d) && d.oversized == OversizedCount(lines) && d.invalid == InvalidCount(w, lines)
    ensures d.readLimit == readLimit && d.unterminated == unterminated
  {
    if lines == [] {
      d := Start(readLimit, unterminated);
      NothingCounted(readLimit, unterminated);
    } else {
      d := DiagnosticsCount(w, readLimit, unterminated, lines[..|lines| - 1]);
      d := DiagnoseStep(w, d, lines[|lines| - 1]);
    }
  }

  /** What the diagnostics call a line, tested in this order. */
  ghost predicate Rejected(w: World, line: Bytes, reason: Reason) {
    if |line| > RECORD_LIMIT then reason == Oversized
    else if forall i :: 0 <= i < |line| ==> IsSpace(line[i]) then false
    else match w.parse(line)
      case None => reason == InvalidJson
      case Some(event) =>
        match reason
        case Oversized => false
        case InvalidJson => false
        case UnsupportedSchema => event.Obj? && w.rules.otherSchema(event)
        case UnsupportedProvider => event.Obj? && !w.rules.otherSchema(event) && w.rules.otherProvider(event)
        case InvalidFields =>
          !(event.Obj? && (w.rules.otherSchema(event) || w.rules.otherProvider(event) || w.rules.valid(event)))
  }

  ghost predicate Scanned(line: Bytes) {
    |line| > RECORD_LIMIT || exists i :: 0 <= i < |line| && !IsSpace(line[i])
  }

  ghost predicate HasObject(w: World, line: Bytes) {
    |line| <= RECORD_LIMIT && Scanned(line) && w.parse(line).Some? && w.parse(line).value.Obj?
  }

  ghost predicate Accepted(w: World, line: Bytes) {
    Scanned(line) && forall reason :: !Rejected(w, line, reason)
  }

  /** How many lines are so. */
  ghost function LineCount(lines: seq<Bytes>, so: Bytes -> bool): nat {
    if lines == [] then 0 else LineCount(lines[..|lines| - 1], so) + if so(lines[|lines| - 1]) then 1 else 0
  }

  lemma MoreCountsOne(d: Diagnostics, readable: bool, verdict: Option<Reason>, reason: Reason)
    ensures Rejections(Tally(d, readable, verdict).reasons, reason)
      == Rejections(d.reasons, reason) + if verdict == Some(reason) then 1 else 0
  {
  }

  lemma VerdictIsReason(w: World, line: Bytes, reason: Reason)
    ensures Rejected(w, line, reason) <==> !Skipped(line) && Verdict(w, line) == Some(reason)
  {
  }

  lemma LineIsCounted(w: World, line: Bytes)
    ensures Scanned(line) <==> !Skipped(line)
    ensures !Skipped(line) ==> (HasObject(w, line) <==> Readable(w, line))
    ensures Accepted(w, line) <==> !Skipped(line) && Verdict(w, line).None?
  {
    forall reason ensures Rejected(w, line, reason) <==> !Skipped(line) && Verdict(w, line) == Some(reason) {
      VerdictIsReason(w, line, reason);
    }
    if Verdict(w, line).Some? { assert !Skipped(line) ==> Rejected(w, line, Verdict(w, line).value); }
  }

  /** Each reason is counted once for every line that is rejected for it. */
  lemma {:induction false} ReasonsCountLines(w: World, start: Diagnostics, lines: seq<Bytes>, reason: Reason)
    requires start.reasons == map[]
    ensures Rejections(DiagnoseLines(w, start, lines).reasons, reason)
      == LineCount(lines, (line: Bytes) => Rejected(w, line, reason))
  {
    if lines != [] {
      var d, last := DiagnoseLines(w, start, lines[..|lines| - 1]), lines[|lines| - 1];
      ReasonsCountLines(w, start, lines[..|lines| - 1], reason);
      VerdictIsReason(w, last, reason);
      MoreCountsOne(d, Readable(w, last), Verdict(w, last), reason);
    }
  }

  /** The counters count the lines that are not skipped, those that hold an object and those that are
      accepted. */
  lemma {:induction false} CountersCountLines(w: World, start: Diagnostics, lines: seq<Bytes>)
    requires start.scanned == start.readable == start.valid == 0
    ensures var d := DiagnoseLines(w, start, lines);
      && d.scanned == LineCount(lines, (line: Bytes) => Scanned(line))
      && d.readable == LineCount(lines, (line: Bytes) => HasObject(w, line))
      && d.valid == LineCount(lines, (line: Bytes) => Accepted(w, line))
  {
    if lines != [] {
      CountersCountLines(w, start, lines[..|lines| - 1]);
      LineIsCounted(w, lines[|lines| - 1]);
    }
  }

  /** With the read limit reached, the diagnostics read up to the last newline. */
  lemma {:induction false} LastNewlineMeans(data: Bytes)
    ensures var n := AfterLastNewline(data);
      (n == 0 || data[n - 1] == NEWLINE) && forall i :: n <= i < |data| ==> data[i] != NEWLINE
  {
    if data != [] && data[|data| - 1] != NEWLINE { LastNewlineMeans(data[..|data| - 1]); }
  }

  lemma SkippedIsNeither(w: World, line: Bytes)
    requires Skipped(line)
    ensures !IsInvalid(w, line) && !IsOversized(line)
  {
  }

  lemma ReasonsMeanBad(d: Diagnostics)
    requires Consistent(d)
    ensures d.reasons == map[] <==> d.invalid + d.oversized == 0
  {
    if forall reason :: reason !in d.reasons {
      assert d.reasons == map[];
      assert ReasonTotal(d) == 0;
    } else {
      var reason :| reason in d.reasons;
      assert Rejections(d.reasons, reason) > 0;
      match reason { case Oversized => case _ => }
    }
  }

  /** Which error a log that cannot be used gives, tested in this order: it is counted only when it was read
      whole, and measured only when every line is valid. */
  lemma ErrorMeans(w: World, selected: set<Identity>, file: LogFile, error: LogError)
    ensures var (summary, diagnostics) := Retained(w, selected, file);
      && (summary.error == Some(error) <==>
            match file
            case Absent => error == LogAbsent
            case NotRegular => error == LogNotRegular
            case Unreadable => error == LogUnavailable
            case Contents(size, data) =>
              if size > LOG_LIMIT || |data| > LOG_LIMIT then error == LogLimit
              else if data != [] && data[|data| - 1] != NEWLINE then error == LogIncomplete
              else error == LogInvalid && exists line :: line in Lines.Split(data, NEWLINE) && Refused(w, line))
      && (summary.error == Some(error) ==> summary.totals == Totals(0, 0, 0, 0, 0, []))
      && (diagnostics.Some? <==> file.Contents? && file.size <= LOG_LIMIT)
  {
    if file.Contents? {
      RefusedAreCounted(w, Lines.Split(file.data, NEWLINE));
    }
  }

  /** A line that is too long, or that is neither blank nor a valid event. */
  ghost predicate Refused(w: World, line: Bytes) {
    || |line| > RECORD_LIMIT
    || ((exists i :: 0 <= i < |line| && !IsSpace(line[i]))
        && (w.parse(line).None? || !w.rules.valid(w.parse(line).value)))
  }

  lemma {:induction false} RefusedAreCounted(w: World, lines: seq<Bytes>)
    ensures InvalidCount(w, lines) > 0 || OversizedCount(lines) > 0 <==>
      exists line :: line in lines && Refused(w, line)
  {
    if lines != [] {
      var n := |lines| - 1;
      RefusedAreCounted(w, lines[..n]);
      assert lines == lines[..n] + [lines[n]];
      assert lines[n] in lines;
    }
  }

  lemma DiagnoseCounts(w: World, data: Bytes, readLimit: bool) returns (d: Diagnostics)
    requires Sound(w.rules)
    ensures d == Diagnose(w, data, readLimit) && Consistent(d)
    ensures d.Partial() <==> d.invalid + d.oversized > 0 || readLimit || !EndsLine(data)
    ensures !readLimit ==> d.oversized == OversizedCount(Lines.Split(data, NEWLINE))
    ensures !readLimit ==> d.invalid == InvalidCount(w, Lines.Split(data, NEWLINE))
  {
    d := DiagnosticsCount(w, readLimit, !readLimit && !EndsLine(data),
                          Lines.Split(if readLimit then data[..AfterLastNewline(data)] else data, NEWLINE));
    ReasonsMeanBad(d);
  }

  /** Main result: whatever the log holds, the two scans of one read agree. Retention is
      available exactly when the diagnostics have no reason for doubt; on a log of whole lines
      within the limit both count the same invalid and oversized records; and the diagnostics
      account for every record they scanned. */
  lemma ScannersAgree(w: World, selected: set<Identity>, size: nat, data: Bytes)
    requires Sound(w.rules) && size <= LOG_LIMIT
    ensures var (summary, diagnostics) := Retained(w, selected, Contents(size, data));
            && diagnostics.Some?
            && (summary.Available() <==> !diagnostics.value.Partial())
            && Consistent(diagnostics.value)
            && (|data| <= LOG_LIMIT && EndsLine(data) ==>
                  summary.invalid == diagnostics.value.invalid && summary.oversized == diagnostics.value.oversized)
  {
    if |data| > LOG_LIMIT {
      var d := DiagnoseCounts(w, data[..LOG_LIMIT], true);
    } else {
      var d := DiagnoseCounts(w, data, false);
    }
  }
}
