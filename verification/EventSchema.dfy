/** Valid compaction events and paired evidence, as scripts/monitor.py checks them field by field. */
module EventSchema {
  import opened Wrappers
  import opened Json
  import opened EventLog

  const SCHEMA := "gobstopper/compaction-events-v1"

  /** `dict.get`: None where the key is absent reads the same as null. */
  function Get(fields: map<string, Json>, key: string): Json {
    if key in fields then fields[key] else Null
  }

  predicate IsNumber(v: Json) { v.Int? && 0 <= v.n <= U64_MAX }

  predicate HasDigest(v: Json) { v.Str? && IsLowerDigest(v.s) }

  predicate IsWordChar(c: char) {
    'A' <= c <= 'Z' || 'a' <= c <= 'z' || '0' <= c <= '9' || c == '_' || c == '.' || c == '-'
  }

  predicate IsSessionId(v: Json) {
    v.Str? && 1 <= |v.s| <= 256 && forall i :: 0 <= i < |v.s| ==> IsWordChar(v.s[i])
  }

  predicate IsStrategy(v: Json) {
    v.Str? && 1 <= |v.s| <= 128 && forall i :: 0 <= i < |v.s| ==> IsWordChar(v.s[i]) || v.s[i] == ':'
  }

  predicate OneOf(v: Json, names: set<string>) { v.Str? && v.s in names }

  const OBSERVATION_KEYS := {
    "source_sha256", "source_identity_sha256", "snapshot_manifest_sha256", "context_state",
    "context_tokens", "estimated_context_tokens", "lifetime_scope", "lifetime_input_tokens",
    "lifetime_cached_tokens"}

  predicate ValidObservation(value: Json) {
    && value.Obj? && value.fields.Keys <= OBSERVATION_KEYS
    && HasDigest(Get(value.fields, "source_sha256")) && HasDigest(Get(value.fields, "source_identity_sha256"))
    && IsNumber(Get(value.fields, "estimated_context_tokens"))
    && OneOf(Get(value.fields, "context_state"), {"absent", "unknown", "reported", "reset"})
    && OneOf(Get(value.fields, "lifetime_scope"), {"absent", "partial", "full"})
    && var manifest := Get(value.fields, "snapshot_manifest_sha256");
       var context := Get(value.fields, "context_tokens");
       var lifetime := Get(value.fields, "lifetime_input_tokens");
       var cached := Get(value.fields, "lifetime_cached_tokens");
    && (manifest != Null ==> HasDigest(manifest))
    && (context != Null ==> IsNumber(context))
    && (Get(value.fields, "context_state") == Str("reported") <==> context != Null)
    && (if Get(value.fields, "lifetime_scope") == Str("full")
        then IsNumber(lifetime) && IsNumber(cached) && cached.n <= lifetime.n
        else lifetime == Null && cached == Null)
  }

  const ERROR_CODES := {
    "io", "provider_rejected", "apply_failed", "verification_failed", "custody_unavailable",
    "unattributed_provider_hook", "unresolved_context", "native_unqualified", "spawn_failed",
    "parent_thread", "provider_noop", "quota_limited"}
  const NUMBER_KEYS := {
    "ts", "trigger_tokens", "context_tokens_before", "context_tokens_after",
    "est_reclaimed_tokens", "items_covered", "duration_ms"}
  const DIGEST_KEYS := {
    "source_identity_sha256", "binary_sha256", "config_sha256", "experiment_sha256",
    "snapshot_before_sha256", "snapshot_after_sha256"}

  predicate ValidCohort(cohort: Json, percent: Json) {
    || ((cohort == Null || cohort == Str("ungated")) && percent == Null)
    || (OneOf(cohort, {"treatment", "control"}) && percent.Int? && 0 <= percent.n <= 100)
  }

  predicate ValidTally(total: Json, literal: Json, lexical: Json) {
    || (total == Null && literal == Null && lexical == Null)
    || (IsNumber(total) && IsNumber(literal) && IsNumber(lexical) && literal.n <= total.n && lexical.n <= total.n)
  }

  /** `valid_compaction_event`. */
  predicate ValidEvent(event: Json) {
    && event.Obj?
    && var e := event.fields;
    && Get(e, "schema") == Str(SCHEMA)
    && OneOf(Get(e, "provider"), {"codex", "claude_code"})
    && OneOf(Get(e, "action"), {"provider_compact", "transcript_compact", "none"})
    && OneOf(Get(e, "outcome"), {"applied", "planned", "failed", "skipped", "blocked"})
    && IsSessionId(Get(e, "session_id")) && IsStrategy(Get(e, "strategy"))
    && (forall key :: key in NUMBER_KEYS ==> IsNumber(Get(e, key)))
    && IsNumber(Get(e, "context_tokens_before")) && IsNumber(Get(e, "context_tokens_after"))
    && var change := Get(e, "context_tokens_before").n - Get(e, "context_tokens_after").n;
    && Get(e, "est_reclaimed_tokens") == Int(if change > 0 then change else 0)
    && (Get(e, "error_code") == Null || OneOf(Get(e, "error_code"), ERROR_CODES))
    && (forall key :: key in DIGEST_KEYS && Get(e, key) != Null ==> HasDigest(Get(e, key)))
    && ValidCohort(Get(e, "decision_cohort"), Get(e, "rollout_percent"))
    && (Get(e, "before_observation") != Null ==> ValidObservation(Get(e, "before_observation")))
    && (Get(e, "after_observation") != Null ==> ValidObservation(Get(e, "after_observation")))
    && ValidTally(Get(e, "retention_total"), Get(e, "retention_retained"), Get(e, "retention_lexical"))
  }

  predicate Pairs(e: map<string, Json>, snapshot: Json, observation: Json) {
    && HasDigest(snapshot) && ValidObservation(observation)
    && Get(observation.fields, "source_identity_sha256") == Get(e, "source_identity_sha256")
    && Get(observation.fields, "snapshot_manifest_sha256") == snapshot
  }

  /** `paired_evidence`. */
  function PairedEvidence(event: Json): Option<Evidence> {
    if !ValidEvent(event) then None
    else
      var e := event.fields;
      if Get(e, "source_identity_sha256") == Null || Get(e, "outcome") != Str("applied")
         || !OneOf(Get(e, "action"), {"provider_compact", "transcript_compact"}) || Get(e, "error_code") != Null
         || !Pairs(e, Get(e, "snapshot_before_sha256"), Get(e, "before_observation"))
         || !Pairs(e, Get(e, "snapshot_after_sha256"), Get(e, "after_observation"))
      then None
      else
        assert "source_identity_sha256" in DIGEST_KEYS;
        Some(Evidence(
          Identity(Get(e, "provider").s, Get(e, "session_id").s, Get(e, "source_identity_sha256").s),
          Get(e, "snapshot_before_sha256").s, Get(e, "snapshot_after_sha256").s))
  }

  /** The tally of an event that is paired evidence, unless it took none. */
  function TallyOf(event: Json): (r: Option<Values>)
    ensures r.Some? ==> r.value.literal <= r.value.total && r.value.lexical <= r.value.total
  {
    if PairedEvidence(event).None? || Get(event.fields, "retention_total") == Null then None
    else
      var e := event.fields;
      assert ValidTally(Get(e, "retention_total"), Get(e, "retention_retained"), Get(e, "retention_lexical"));
      Some(Values(Get(e, "retention_total").n, Get(e, "retention_retained").n, Get(e, "retention_lexical").n,
                  Get(Get(e, "before_observation").fields, "source_sha256").s,
                  Get(Get(e, "after_observation").fields, "source_sha256").s))
  }

  predicate OtherSchema(event: Json) {
    event.Obj? && Get(event.fields, "schema").Str? && Get(event.fields, "schema").s != SCHEMA
  }

  predicate OtherProvider(event: Json) {
    event.Obj? && Get(event.fields, "provider").Str? && Get(event.fields, "provider").s !in {"codex", "claude_code"}
  }

  const EVENT_RULES := Rules(OtherSchema, OtherProvider, ValidEvent, PairedEvidence, TallyOf)

  lemma ValidIsSupported(event: Json)
    requires ValidEvent(event)
    ensures event.Obj? && !OtherSchema(event) && !OtherProvider(event)
  {
  }

  /** The diagnostics name two reasons before they check all fields: neither rejects a valid
      event, and every tally counts no more than was checked for. */
  lemma EventRulesSound()
    ensures Sound(EVENT_RULES)
  {
    forall event | EVENT_RULES.valid(event)
      ensures event.Obj? && !EVENT_RULES.otherSchema(event) && !EVENT_RULES.otherProvider(event)
    {
      ValidIsSupported(event);
    }
  }

  /** The two reasons that the diagnostics name before they check all fields. */
  lemma UnsupportedMeans(fields: map<string, Json>)
    ensures OtherSchema(Obj(fields)) <==>
      "schema" in fields && exists s :: fields["schema"] == Str(s) && s != "gobstopper/compaction-events-v1"
    ensures OtherProvider(Obj(fields)) <==>
      "provider" in fields && exists s :: fields["provider"] == Str(s) && s != "codex" && s != "claude_code"
  {
  }

  // ---------------------------------------------------------------------------------
  // Which events are valid

  /** The strings of `[A-Za-z0-9` and the marks `]{1,limit}`. */
  ghost predicate IsName(s: string, limit: nat, marks: set<char>) {
    0 < |s| <= limit && forall i :: 0 <= i < |s| ==>
      'a' <= s[i] <= 'z' || 'A' <= s[i] <= 'Z' || '0' <= s[i] <= '9' || s[i] in marks
  }

  lemma NamesMean(s: string)
    ensures IsSessionId(Str(s)) <==> IsName(s, 256, {'_', '.', '-'})
    ensures IsStrategy(Str(s)) <==> IsName(s, 128, {'_', '.', '-', ':'})
  {
  }

  datatype Numbers = Numbers(ts: int, trigger: int, items: int, ms: int, before: int, after: int, reclaimed: int)

  ghost predicate HasNumbers(e: map<string, Json>, n: Numbers) {
    && Get(e, "ts") == Int(n.ts) && Get(e, "trigger_tokens") == Int(n.trigger)
    && Get(e, "items_covered") == Int(n.items) && Get(e, "duration_ms") == Int(n.ms)
    && Get(e, "context_tokens_before") == Int(n.before) && Get(e, "context_tokens_after") == Int(n.after)
    && Get(e, "est_reclaimed_tokens") == Int(n.reclaimed)
  }

  function IntOr(n: Option<int>): Json { match n case None => Null case Some(k) => Int(k) }

  function StrOr(s: Option<string>): Json { match s case None => Null case Some(t) => Str(t) }

  /** The fields that may be absent or null: the error, the six digests, the cohort and its share, the two
      observations and the tally. */
  datatype Extra = Extra(error: Option<string>, source: Option<string>, binary: Option<string>,
    config: Option<string>, experiment: Option<string>, before: Option<string>, after: Option<string>,
    cohort: Option<string>, percent: Option<int>, prior: Json, later: Json,
    total: Option<int>, literal: Option<int>, lexical: Option<int>)

  ghost predicate HasDigests(e: map<string, Json>, x: Extra) {
    && Get(e, "source_identity_sha256") == StrOr(x.source) && Get(e, "binary_sha256") == StrOr(x.binary)
    && Get(e, "config_sha256") == StrOr(x.config) && Get(e, "experiment_sha256") == StrOr(x.experiment)
    && Get(e, "snapshot_before_sha256") == StrOr(x.before) && Get(e, "snapshot_after_sha256") == StrOr(x.after)
  }

  ghost predicate HasExtra(e: map<string, Json>, x: Extra) {
    && HasDigests(e, x) && Get(e, "error_code") == StrOr(x.error)
    && Get(e, "decision_cohort") == StrOr(x.cohort) && Get(e, "rollout_percent") == IntOr(x.percent)
    && Get(e, "before_observation") == x.prior && Get(e, "after_observation") == x.later
    && Get(e, "retention_total") == IntOr(x.total) && Get(e, "retention_retained") == IntOr(x.literal)
    && Get(e, "retention_lexical") == IntOr(x.lexical)
  }

  ghost predicate ErrorKnown(code: string) {
    || code == "io" || code == "provider_rejected" || code == "apply_failed" || code == "verification_failed"
    || code == "custody_unavailable" || code == "unattributed_provider_hook" || code == "unresolved_context"
    || code == "native_unqualified" || code == "spawn_failed" || code == "parent_thread" || code == "provider_noop"
    || code == "quota_limited"
  }

  ghost predicate DigestOrNone(d: Option<string>) { d.Some? ==> IsLowerDigest(d.value) }

  ghost predicate DigestsFit(x: Extra) {
    && DigestOrNone(x.source) && DigestOrNone(x.binary) && DigestOrNone(x.config) && DigestOrNone(x.experiment)
    && DigestOrNone(x.before) && DigestOrNone(x.after)
  }

  /** Only a cohort that was drawn has a share, of a hundred; a tally has all of its counts or none, and no
      more retained than there was. */
  ghost predicate ExtraFits(x: Extra) {
    && (x.error.Some? ==> ErrorKnown(x.error.value)) && DigestsFit(x)
    && (match x.percent
        case None => x.cohort == None || x.cohort == Some("ungated")
        case Some(n) => (x.cohort == Some("treatment") || x.cohort == Some("control")) && 0 <= n <= 100)
    && (x.prior == Null || ValidObservation(x.prior)) && (x.later == Null || ValidObservation(x.later))
    && (match (x.total, x.literal, x.lexical)
        case (None, None, None) => true
        case (Some(n), Some(l), Some(m)) => 0 <= l <= n <= U64_MAX && 0 <= m <= n
        case _ => false)
  }

  /** An event of the schema's types in the schema's required fields, whatever else it holds. */
  ghost predicate IsEvent(e: map<string, Json>, provider: string, action: string, outcome: string, session: string,
      strategy: string, n: Numbers)
  {
    && Get(e, "schema") == Str("gobstopper/compaction-events-v1")
    && Get(e, "provider") == Str(provider) && Get(e, "action") == Str(action) && Get(e, "outcome") == Str(outcome)
    && Get(e, "session_id") == Str(session) && Get(e, "strategy") == Str(strategy)
    && HasNumbers(e, n)
  }

  ghost predicate NamesKnown(provider: string, action: string, outcome: string) {
    && (provider == "codex" || provider == "claude_code")
    && (action == "none" || action == "provider_compact" || action == "transcript_compact")
    && (outcome == "applied" || outcome == "planned" || outcome == "failed" || outcome == "skipped"
        || outcome == "blocked")
  }

  /** Numbers of 64 bits, and the estimate of what was reclaimed is the fall in tokens, if any. */
  ghost predicate NumbersFit(n: Numbers) {
    && 0 <= n.ts <= U64_MAX && 0 <= n.trigger <= U64_MAX && 0 <= n.items <= U64_MAX && 0 <= n.ms <= U64_MAX
    && 0 <= n.before <= U64_MAX && 0 <= n.after <= U64_MAX
    && n.reclaimed == if n.before > n.after then n.before - n.after else 0
  }

  lemma NumbersMean(e: map<string, Json>, n: Numbers)
    requires HasNumbers(e, n) && n.reclaimed == if n.before > n.after then n.before - n.after else 0
    ensures (forall key :: key in NUMBER_KEYS ==> IsNumber(Get(e, key))) <==> NumbersFit(n)
  {
    if forall key :: key in NUMBER_KEYS ==> IsNumber(Get(e, key)) {
      assert "ts" in NUMBER_KEYS && "trigger_tokens" in NUMBER_KEYS && "items_covered" in NUMBER_KEYS;
      assert "duration_ms" in NUMBER_KEYS && "context_tokens_before" in NUMBER_KEYS;
      assert "context_tokens_after" in NUMBER_KEYS;
    }
  }

  lemma NamesKnownMean(provider: string, action: string, outcome: string)
    ensures NamesKnown(provider, action, outcome) <==>
      && OneOf(Str(provider), {"codex", "claude_code"})
      && OneOf(Str(action), {"provider_compact", "transcript_compact", "none"})
      && OneOf(Str(outcome), {"applied", "planned", "failed", "skipped", "blocked"})
  {
  }

  ghost predicate RequiredFit(e: map<string, Json>, provider: string, action: string, outcome: string,
      session: string, strategy: string, n: Numbers)
  {
    && OneOf(Str(provider), {"codex", "claude_code"})
    && OneOf(Str(action), {"provider_compact", "transcript_compact", "none"})
    && OneOf(Str(outcome), {"applied", "planned", "failed", "skipped", "blocked"})
    && IsSessionId(Str(session)) && IsStrategy(Str(strategy))
    && (forall key :: key in NUMBER_KEYS ==> IsNumber(Get(e, key)))
    && n.reclaimed == if n.before > n.after then n.before - n.after else 0
  }

  lemma RequiredMean(e: map<string, Json>, provider: string, action: string, outcome: string, session: string,
      strategy: string, n: Numbers)
    requires HasNumbers(e, n)
    ensures RequiredFit(e, provider, action, outcome, session, strategy, n) <==>
      && NamesKnown(provider, action, outcome) && NumbersFit(n)
      && IsName(session, 256, {'_', '.', '-'}) && IsName(strategy, 128, {'_', '.', '-', ':'})
  {
    NamesMean(session);
    NamesMean(strategy);
    NamesKnownMean(provider, action, outcome);
    if n.reclaimed == if n.before > n.after then n.before - n.after else 0 {
      NumbersMean(e, n);
    }
  }

  ghost predicate ExtraFit(e: map<string, Json>) {
    && (Get(e, "error_code") == Null || OneOf(Get(e, "error_code"), ERROR_CODES))
    && (forall key :: key in DIGEST_KEYS && Get(e, key) != Null ==> HasDigest(Get(e, key)))
    && ValidCohort(Get(e, "decision_cohort"), Get(e, "rollout_percent"))
    && (Get(e, "before_observation") != Null ==> ValidObservation(Get(e, "before_observation")))
    && (Get(e, "after_observation") != Null ==> ValidObservation(Get(e, "after_observation")))
    && ValidTally(Get(e, "retention_total"), Get(e, "retention_retained"), Get(e, "retention_lexical"))
  }

  lemma DigestsMean(e: map<string, Json>, x: Extra)
    requires HasDigests(e, x)
    ensures (forall key :: key in DIGEST_KEYS && Get(e, key) != Null ==> HasDigest(Get(e, key))) <==> DigestsFit(x)
  {
    if forall key :: key in DIGEST_KEYS && Get(e, key) != Null ==> HasDigest(Get(e, key)) {
      assert "source_identity_sha256" in DIGEST_KEYS && "binary_sha256" in DIGEST_KEYS;
      assert "config_sha256" in DIGEST_KEYS && "experiment_sha256" in DIGEST_KEYS;
      assert "snapshot_before_sha256" in DIGEST_KEYS && "snapshot_after_sha256" in DIGEST_KEYS;
    }
  }

  lemma ErrorsMean(error: Option<string>)
    ensures StrOr(error) == Null || OneOf(StrOr(error), ERROR_CODES) <==> (error.Some? ==> ErrorKnown(error.value))
  {
  }

  lemma ExtraMeans(e: map<string, Json>, x: Extra)
    requires HasExtra(e, x)
    ensures ExtraFit(e) <==> ExtraFits(x)
  {
    DigestsMean(e, x);
    ErrorsMean(x.error);
  }

  /** What is checked of an event, in two parts. */
  lemma TwoParts(e: map<string, Json>, provider: string, action: string, outcome: string, session: string,
      strategy: string, n: Numbers)
    requires IsEvent(e, provider, action, outcome, session, strategy, n)
    ensures ValidEvent(Obj(e)) <==> RequiredFit(e, provider, action, outcome, session, strategy, n) && ExtraFit(e)
  {
  }

  /** Main result: which events are valid. */
  lemma ValidMeans(e: map<string, Json>, provider: string, action: string, outcome: string, session: string,
      strategy: string, n: Numbers, x: Extra)
    requires IsEvent(e, provider, action, outcome, session, strategy, n) && HasExtra(e, x)
    ensures ValidEvent(Obj(e)) <==>
      && NamesKnown(provider, action, outcome) && NumbersFit(n) && ExtraFits(x)
      && IsName(session, 256, {'_', '.', '-'}) && IsName(strategy, 128, {'_', '.', '-', ':'})
  {
    TwoParts(e, provider, action, outcome, session, strategy, n);
    RequiredMean(e, provider, action, outcome, session, strategy, n);
    ExtraMeans(e, x);
  }

  datatype Side = Side(source: string, bytes: string, manifest: Option<string>, state: string, scope: string,
    estimated: int, context: Option<int>, lifetime: Option<int>, cached: Option<int>)

  /** An observation of the schema's fields, some of them absent or null. */
  ghost predicate IsSide(o: map<string, Json>, x: Side) {
    && o.Keys <= OBSERVATION_KEYS && Get(o, "source_sha256") == Str(x.bytes)
    && Get(o, "source_identity_sha256") == Str(x.source) && Get(o, "snapshot_manifest_sha256") == StrOr(x.manifest)
    && Get(o, "context_state") == Str(x.state) && Get(o, "lifetime_scope") == Str(x.scope)
    && Get(o, "estimated_context_tokens") == Int(x.estimated) && Get(o, "context_tokens") == IntOr(x.context)
    && Get(o, "lifetime_input_tokens") == IntOr(x.lifetime) && Get(o, "lifetime_cached_tokens") == IntOr(x.cached)
  }

  /** A context is reported with its tokens and otherwise without; a full lifetime has both totals, no more
      of them cached than there are, and another has neither. */
  ghost predicate SideFits(x: Side) {
    && IsLowerDigest(x.source) && IsLowerDigest(x.bytes) && (x.manifest.Some? ==> IsLowerDigest(x.manifest.value))
    && 0 <= x.estimated <= U64_MAX
    && (if x.state == "reported" then x.context.Some? && 0 <= x.context.value <= U64_MAX
        else x.context.None? && (x.state == "absent" || x.state == "unknown" || x.state == "reset"))
    && (if x.scope == "full"
        then x.lifetime.Some? && x.cached.Some? && 0 <= x.cached.value <= x.lifetime.value <= U64_MAX
        else x.lifetime.None? && x.cached.None? && (x.scope == "absent" || x.scope == "partial"))
  }

  lemma SideMeans(o: map<string, Json>, x: Side)
    requires IsSide(o, x)
    ensures ValidObservation(Obj(o)) <==> SideFits(x)
  {
  }

  // ---------------------------------------------------------------------------------
  // A compaction that was applied is evidence of its two snapshots

  /** One side of a compaction: the bytes of the source and the manifest of its snapshot. */
  function ObservationOf(source: string, bytes: string, manifest: string, tokens: nat): Json {
    Obj(map["source_sha256" := Str(bytes), "source_identity_sha256" := Str(source),
            "snapshot_manifest_sha256" := Str(manifest), "context_state" := Str("absent"),
            "estimated_context_tokens" := Int(tokens), "lifetime_scope" := Str("absent")])
  }

  lemma ObservationIsValid(source: string, bytes: string, manifest: string, tokens: nat)
    requires IsLowerDigest(source) && IsLowerDigest(bytes) && IsLowerDigest(manifest) && tokens <= U64_MAX
    ensures ValidObservation(ObservationOf(source, bytes, manifest, tokens))
    ensures Get(ObservationOf(source, bytes, manifest, tokens).fields, "source_sha256") == Str(bytes)
    ensures Get(ObservationOf(source, bytes, manifest, tokens).fields, "source_identity_sha256") == Str(source)
    ensures Get(ObservationOf(source, bytes, manifest, tokens).fields, "snapshot_manifest_sha256") == Str(manifest)
  {
  }

  /** An event with these fields and whatever others: `v` was kept of a compaction of `id` between
      two snapshots. */
  ghost predicate Tells(e: map<string, Json>, id: Identity, before: string, after: string, v: Values, action: string,
      m: nat, n: nat) {
    && Get(e, "provider") == Str(id.provider) && Get(e, "session_id") == Str(id.session)
    && Get(e, "source_identity_sha256") == Str(id.source)
    && Get(e, "outcome") == Str("applied") && Get(e, "action") == Str(action) && Get(e, "error_code") == Null
    && Get(e, "snapshot_before_sha256") == Str(before) && Get(e, "snapshot_after_sha256") == Str(after)
    && Get(e, "before_observation") == ObservationOf(id.source, v.before, before, m)
    && Get(e, "after_observation") == ObservationOf(id.source, v.after, after, n)
    && Get(e, "retention_total") == Int(v.total) && Get(e, "retention_retained") == Int(v.literal)
    && Get(e, "retention_lexical") == Int(v.lexical)
  }

  /** A side of an event says of itself what the event says of it. */
  lemma SidePairs(e: map<string, Json>, source: string, bytes: string, manifest: string, tokens: nat)
    requires Get(e, "source_identity_sha256") == Str(source)
    requires IsLowerDigest(source) && IsLowerDigest(manifest) && IsLowerDigest(bytes) && tokens <= U64_MAX
    ensures Pairs(e, Str(manifest), ObservationOf(source, bytes, manifest, tokens))
  {
    ObservationIsValid(source, bytes, manifest, tokens);
  }

  lemma ToldDigests(e: map<string, Json>, id: Identity, before: string, after: string, v: Values, action: string,
      m: nat, n: nat)
    requires ValidEvent(Obj(e)) && Tells(e, id, before, after, v, action, m, n)
    ensures IsLowerDigest(id.source) && IsLowerDigest(before) && IsLowerDigest(after)
    ensures IsLowerDigest(v.before) && IsLowerDigest(v.after) && m <= U64_MAX && n <= U64_MAX
  {
    assert "source_identity_sha256" in DIGEST_KEYS && "snapshot_before_sha256" in DIGEST_KEYS;
    assert "snapshot_after_sha256" in DIGEST_KEYS;
    assert ValidObservation(ObservationOf(id.source, v.before, before, m));
    assert ValidObservation(ObservationOf(id.source, v.after, after, n));
  }

  /** A valid event that tells of an applied compaction is evidence of that pair of snapshots and
      has that tally. */
  lemma AppliedIsEvidence(e: map<string, Json>, id: Identity, before: string, after: string, v: Values, action: string,
      m: nat, n: nat)
    requires ValidEvent(Obj(e)) && Tells(e, id, before, after, v, action, m, n)
    requires action == "provider_compact" || action == "transcript_compact"
    ensures PairedEvidence(Obj(e)) == Some(Evidence(id, before, after))
    ensures TallyOf(Obj(e)) == Some(v)
  {
    ToldDigests(e, id, before, after, v, action, m, n);
    SidePairs(e, id.source, v.before, before, m);
    SidePairs(e, id.source, v.after, after, n);
  }

  /** Nothing but an applied compaction without an error is evidence, and only of what both of its
      observations say. */
  lemma EvidenceIsApplied(e: map<string, Json>)
    requires PairedEvidence(Obj(e)).Some?
    ensures Get(e, "outcome") == Str("applied") && Get(e, "error_code") == Null
    ensures Get(e, "action") == Str("provider_compact") || Get(e, "action") == Str("transcript_compact")
    ensures Get(e, "before_observation").Obj? && Get(e, "after_observation").Obj?
    ensures var x := PairedEvidence(Obj(e)).value;
      && Get(Get(e, "before_observation").fields, "snapshot_manifest_sha256") == Str(x.before)
      && Get(Get(e, "after_observation").fields, "snapshot_manifest_sha256") == Str(x.after)
      && Get(Get(e, "before_observation").fields, "source_identity_sha256") == Str(x.identity.source)
      && Get(Get(e, "after_observation").fields, "source_identity_sha256") == Str(x.identity.source)
  {
    assert "source_identity_sha256" in DIGEST_KEYS;
  }
}
