/** The release page of scripts/release_notes.py: a visible page and an identity record after
    it, rendered from the release and checked against it. */
module ReleasePage {
  import opened Wrappers
  import opened Json
  import Lines

  const MARKER := "<!-- gobstopper-release "
  const CLOSE := " -->"
  const ARROW := "-->"
  const SCHEMA := 1

  datatype Error =
    | BadTag | BadCommit | BadNotes | BadLine | Twice | Missing | Extra
    | NoEnding | NoIdentity | Malformed | NotJson | UnknownSchema | OtherIdentity | OtherNotes

  datatype Release = Release(changelog: string, tag: string, commit: string, digests: map<string, string>,
    guide: Option<string>)

  /** The JSON encoder and decoder, the visible page without its commit check (None where the
      changelog has no proper section), Python's `== 1`, `\d` and `\s`. */
  datatype World = World(
    dump: Json -> string,
    parse: string -> Option<Json>,
    page: Release -> Option<string>,
    isOne: Json -> bool,
    digit: char -> bool,
    space: char -> bool)

  predicate Plain(s: string) { forall c :: c in s ==> c != '<' && c != '>' }

  // ---------------------------------------------------------------------------------
  // Tags, commits and SHA256SUMS

  predicate IsCommit(s: string) { |s| == 40 && forall i :: 0 <= i < |s| ==> IsLowerHex(s[i]) }

  predicate IsNumber(w: World, s: string) { s != "" && forall c :: c in s ==> w.digit(c) }

  /** `v(\d+\.\d+\.\d+)`, matched in full. */
  function VersionOf(w: World, tag: string): Option<string> {
    if tag == "" || tag[0] != 'v' then None
    else
      var numbers := Lines.Split(tag[1..], '.');
      if |numbers| == 3 && IsNumber(w, numbers[0]) && IsNumber(w, numbers[1]) && IsNumber(w, numbers[2])
      then Some(tag[1..]) else None
  }

  function ArchiveNames(version: string): seq<string> {
    ["gobstopper-" + version + "-darwin-aarch64.tar.gz", "gobstopper-" + version + "-linux-x86_64.tar.gz",
     "gobstopper-" + version + "-linux-aarch64.tar.gz", "gobstopper-" + version + "-windows-x86_64.zip"]
  }

  predicate IsBlank(w: World, line: string) { forall i :: 0 <= i < |line| ==> w.space(line[i]) }

  /** `([0-9a-f]{64}) [ *](\S+)`. */
  predicate IsSum(w: World, line: string) {
    && |line| > 66 && (forall i :: 0 <= i < 64 ==> IsLowerHex(line[i]))
    && line[64] == ' ' && (line[65] == ' ' || line[65] == '*')
    && forall i :: 66 <= i < |line| ==> !w.space(line[i])
  }

  function SumName(line: string): string { if |line| > 66 then line[66..] else "" }

  function SumDigest(line: string): string { if |line| > 66 then line[..64] else "" }

  predicate Entry(w: World, lines: seq<string>, i: int) { 0 <= i < |lines| && !IsBlank(w, lines[i]) }

  function NameAt(lines: seq<string>, i: nat): string requires i < |lines| { SumName(lines[i]) }

  /** Every entry is well formed and no two name the same file. */
  ghost predicate Distinct(w: World, lines: seq<string>) {
    && (forall i :: Entry(w, lines, i) ==> IsSum(w, lines[i]))
    && forall i, j :: Entry(w, lines, i) && Entry(w, lines, j) && i < j ==> NameAt(lines, i) != NameAt(lines, j)
  }

  ghost predicate Names(w: World, lines: seq<string>, name: string) {
    exists i :: Entry(w, lines, i) && NameAt(lines, i) == name
  }

  /** The map holds exactly the entries. */
  ghost predicate Holds(w: World, lines: seq<string>, digests: map<string, string>) {
    && (forall name :: name in digests <==> Names(w, lines, name))
    && forall i :: Entry(w, lines, i) ==>
         NameAt(lines, i) in digests && digests[NameAt(lines, i)] == SumDigest(lines[i])
  }

  ghost predicate GoodSums(w: World, lines: seq<string>, expected: seq<string>) {
    Distinct(w, lines) && forall name :: Names(w, lines, name) <==> name in expected
  }

  lemma BlankAdds(w: World, lines: seq<string>, line: string, digests: map<string, string>)
    requires Distinct(w, lines) && Holds(w, lines, digests) && IsBlank(w, line)
    ensures Distinct(w, lines + [line]) && Holds(w, lines + [line], digests)
  {
    var more := lines + [line];
    assert forall i :: Entry(w, more, i) ==>
      Entry(w, lines, i) && NameAt(more, i) == NameAt(lines, i) && more[i] == lines[i];
    forall name
      ensures Names(w, more, name) <==> Names(w, lines, name)
    {
      if i :| Entry(w, lines, i) && NameAt(lines, i) == name {
        assert Entry(w, more, i) && NameAt(more, i) == name;
      }
    }
  }

  lemma NamesAdd(w: World, lines: seq<string>, line: string, name: string)
    requires !IsBlank(w, line)
    ensures Names(w, lines + [line], name) <==> Names(w, lines, name) || name == SumName(line)
  {
    var more, k := lines + [line], |lines|;
    assert Entry(w, more, k) && NameAt(more, k) == SumName(line);
    assert forall i :: Entry(w, more, i) && i != k ==> Entry(w, lines, i) && NameAt(more, i) == NameAt(lines, i);
    if i :| Entry(w, lines, i) && NameAt(lines, i) == name {
      assert Entry(w, more, i) && NameAt(more, i) == name;
    }
  }

  lemma EntryAdds(w: World, lines: seq<string>, line: string, digests: map<string, string>)
    requires Distinct(w, lines) && Holds(w, lines, digests) && !IsBlank(w, line) && IsSum(w, line)
    requires SumName(line) !in digests
    ensures Distinct(w, lines + [line]) && Holds(w, lines + [line], digests[SumName(line) := SumDigest(line)])
  {
    var more, k := lines + [line], |lines|;
    assert forall i :: Entry(w, more, i) && i != k ==>
      Entry(w, lines, i) && NameAt(more, i) == NameAt(lines, i) && more[i] == lines[i];
    forall name
      ensures Names(w, more, name) <==> Names(w, lines, name) || name == SumName(line)
    {
      NamesAdd(w, lines, line, name);
    }
  }

  lemma EntryRepeats(w: World, lines: seq<string>, line: string, digests: map<string, string>)
    requires Holds(w, lines, digests) && !IsBlank(w, line) && SumName(line) in digests
    ensures !Distinct(w, lines + [line])
  {
    var more, k := lines + [line], |lines|;
    var i :| Entry(w, lines, i) && NameAt(lines, i) == SumName(line);
    assert Entry(w, more, i) && Entry(w, more, k) && NameAt(more, i) == NameAt(more, k);
  }

  /** A bad prefix is never made good by what follows. */
  lemma DistinctPrefix(w: World, lines: seq<string>, k: nat)
    requires k <= |lines| && Distinct(w, lines)
    ensures Distinct(w, lines[..k])
  {
    assert forall i :: Entry(w, lines[..k], i) ==> Entry(w, lines, i) && NameAt(lines[..k], i) == NameAt(lines, i);
  }

  /** `parse_sha256sums`, over the lines of the file. */
  method ParseSums(w: World, lines: seq<string>, tag: string) returns (r: Result<map<string, string>, Error>)
    ensures r.Ok? <==> VersionOf(w, tag).Some? && GoodSums(w, lines, ArchiveNames(VersionOf(w, tag).value))
    ensures r.Ok? ==> Holds(w, lines, r.value)
  {
    var digests: map<string, string> := map[];
    for k := 0 to |lines|
      invariant Distinct(w, lines[..k]) && Holds(w, lines[..k], digests)
    {
      var line := lines[k];
      assert lines[..k] + [line] == lines[..k + 1];
      if IsBlank(w, line) {
        BlankAdds(w, lines[..k], line, digests);
        continue;
      }
      if !IsSum(w, line) {
        assert Entry(w, lines, k);
        return Err(BadLine);
      }
      var name := SumName(line);
      if name in digests {
        EntryRepeats(w, lines[..k], line, digests);
        if Distinct(w, lines) {
          DistinctPrefix(w, lines, k + 1);
          assert false;
        }
        return Err(Twice);
      }
      EntryAdds(w, lines[..k], line, digests);
      digests := digests[name := SumDigest(line)];
    }
    assert lines[..|lines|] == lines;
    if VersionOf(w, tag).None? {
      return Err(BadTag);
    }
    var expected := ArchiveNames(VersionOf(w, tag).value);
    if exists name :: name in expected && name !in digests {
      return Err(Missing);
    }
    if exists name :: name in digests && name !in expected {
      return Err(Extra);
    }
    return Ok(digests);
  }

  // ---------------------------------------------------------------------------------
  // Rendering and checking

  function Digests(digests: map<string, string>): map<string, Json> {
    map name | name in digests :: Str(digests[name])
  }

  function RecordOf(release: Release): Json {
    Obj(map["assets" := Obj(Digests(release.digests)), "commit" := Str(release.commit),
            "schema" := Int(SCHEMA), "tag" := Str(release.tag)])
  }

  function Wrapped(payload: string): string { MARKER + payload + CLOSE }

  /** `identity`. */
  function Identity(w: World, release: Release): Result<string, Error> {
    if VersionOf(w, release.tag).None? then Err(BadTag)
    else if !IsCommit(release.commit) then Err(BadCommit)
    else Ok(Wrapped(w.dump(RecordOf(release))))
  }

  /** `render_notes`: the page, with the commit checked. */
  function RenderNotes(w: World, release: Release): Result<string, Error> {
    if w.page(release).None? then Err(BadNotes)
    else if !IsCommit(release.commit) then Err(BadCommit)
    else Ok(w.page(release).value)
  }

  function RenderBody(w: World, release: Release): Result<string, Error> {
    match RenderNotes(w, release)
    case Err(e) => Err(e)
    case Ok(notes) => (match Identity(w, release) case Err(e) => Err(e) case Ok(id) => Ok(notes + id))
  }

  predicate Contains(s: string, pattern: string) {
    exists i :: 0 <= i <= |s| && Lines.OccursAt(s, pattern, i)
  }

  /** `rfind`, among the first `n` places. */
  function FindLast(s: string, pattern: string, n: nat): (r: Option<nat>)
    ensures r.Some? ==> r.value < n && Lines.OccursAt(s, pattern, r.value)
    ensures r.Some? ==> forall i :: r.value < i < n ==> !Lines.OccursAt(s, pattern, i)
    ensures r.None? ==> forall i :: 0 <= i < n ==> !Lines.OccursAt(s, pattern, i)
  {
    if n == 0 then None else if Lines.OccursAt(s, pattern, n - 1) then Some(n - 1) else FindLast(s, pattern, n - 1)
  }

  predicate EndsWith(s: string, suffix: string) {
    |suffix| <= |s| && s[|s| - |suffix|..] == suffix
  }

  /** `s[from:to]`, empty when the bounds cross. */
  function Slice(s: string, from: nat, to: int): string
    requires from <= |s| && to <= |s|
  {
    if from <= to then s[from..to] else ""
  }

  predicate KnownSchema(w: World, record: Json) {
    record.Obj? && "schema" in record.fields && w.isOne(record.fields["schema"])
  }

  /** `split_body`: the notes and the record after them. */
  function SplitBody(w: World, body: string): Result<(string, Json), Error> {
    if !EndsWith(body, ARROW) then Err(NoEnding)
    else match FindLast(body, MARKER, |body|)
      case None => Err(NoIdentity)
      case Some(start) =>
        var payload := Slice(body, start + |MARKER|, |body| - |CLOSE|);
        if !EndsWith(body, CLOSE) || Contains(payload, ARROW) then Err(Malformed)
        else match w.parse(payload)
          case None => Err(NotJson)
          case Some(record) => if !KnownSchema(w, record) then Err(UnknownSchema) else Ok((body[..start], record))
  }

  /** `check_body`. */
  function CheckBody(w: World, body: string, release: Release): Result<Json, Error> {
    match SplitBody(w, body)
    case Err(e) => Err(e)
    case Ok((notes, record)) =>
      match Identity(w, release)
      case Err(e) => Err(e)
      case Ok(expected) =>
        if |notes| > |body| || body[|notes|..] != expected then Err(OtherIdentity)
        else match RenderNotes(w, release)
          case Err(e) => Err(e)
          case Ok(rendered) => if notes != rendered then Err(OtherNotes) else Ok(record)
  }

  // ---------------------------------------------------------------------------------
  // What a body reads as

  /** Decoding undoes encoding on records, 1 equals 1, and no digit is an angle bracket. */
  ghost predicate Faithful(w: World) {
    && (forall release: Release :: w.parse(w.dump(RecordOf(release))) == Some(RecordOf(release)))
    && w.isOne(Int(SCHEMA))
    && !w.digit('<') && !w.digit('>')
  }

  /** JSON text has angle brackets only inside strings that have them. */
  ghost predicate BracketsOnlyInStrings(w: World) {
    forall release: Release :: PlainRelease(release) ==> Plain(w.dump(RecordOf(release)))
  }

  predicate PlainRelease(release: Release) {
    && Plain(release.commit) && Plain(release.tag)
    && forall name :: name in release.digests ==> Plain(name) && Plain(release.digests[name])
  }

  /** The encoded record hides neither its own end nor a second start. */
  ghost predicate Legible(payload: string) {
    && !Contains(payload, ARROW)
    && forall i :: 0 < i ==> !Lines.OccursAt(Wrapped(payload), MARKER, i)
  }

  /** An occurrence past a prefix is one of the rest. */
  lemma OccursPast(a: string, b: string, pattern: string, i: nat)
    requires |a| <= i
    ensures Lines.OccursAt(a + b, pattern, i) <==> Lines.OccursAt(b, pattern, i - |a|)
  {
    if i + |pattern| <= |a + b| {
      assert (a + b)[i..i + |pattern|] == b[i - |a|..i - |a| + |pattern|];
    }
  }

  lemma StartsWithMarker(payload: string)
    ensures Lines.OccursAt(Wrapped(payload), MARKER, 0)
  {
    assert Wrapped(payload)[..|MARKER|] == MARKER;
  }

  /** A later occurrence past the prefix is one inside the rest, and the other way round. */
  lemma LaterMarkers(notes: string, tail: string)
    ensures (forall i :: |notes| < i < |notes + tail| ==> !Lines.OccursAt(notes + tail, MARKER, i))
      <==> (forall i :: 0 < i ==> !Lines.OccursAt(tail, MARKER, i))
  {
    if forall i :: |notes| < i < |notes + tail| ==> !Lines.OccursAt(notes + tail, MARKER, i) {
      forall i | 0 < i
        ensures !Lines.OccursAt(tail, MARKER, i)
      {
        OccursPast(notes, tail, MARKER, |notes| + i);
      }
    }
    if forall i :: 0 < i ==> !Lines.OccursAt(tail, MARKER, i) {
      forall i | |notes| < i < |notes + tail|
        ensures !Lines.OccursAt(notes + tail, MARKER, i)
      {
        OccursPast(notes, tail, MARKER, i);
      }
    }
  }

  /** The last marker of a page with a wrapped payload is the payload's own, exactly when the
      wrapped payload has no other. */
  lemma LastMarker(notes: string, payload: string)
    ensures FindLast(notes + Wrapped(payload), MARKER, |notes + Wrapped(payload)|) == Some(|notes|)
      <==> (forall i :: 0 < i ==> !Lines.OccursAt(Wrapped(payload), MARKER, i))
  {
    StartsWithMarker(payload);
    LastIsFound(notes, Wrapped(payload));
  }

  lemma LastIsFound(notes: string, tail: string)
    requires Lines.OccursAt(tail, MARKER, 0)
    ensures FindLast(notes + tail, MARKER, |notes + tail|) == Some(|notes|)
      <==> (forall i :: 0 < i ==> !Lines.OccursAt(tail, MARKER, i))
  {
    OccursPast(notes, tail, MARKER, |notes|);
    LaterMarkers(notes, tail);
  }

  /** What `split_body` makes of a page with a wrapped payload after it. */
  lemma SplitWrapped(w: World, notes: string, payload: string)
    requires Legible(payload)
    ensures SplitBody(w, notes + Wrapped(payload)) ==
      (match w.parse(payload)
       case None => Err(NotJson)
       case Some(record) => if KnownSchema(w, record) then Ok((notes, record)) else Err(UnknownSchema))
  {
    var body := notes + Wrapped(payload);
    LastMarker(notes, payload);
    WrappedEnds(notes, payload);
    assert body[..|notes|] == notes;
    assert Slice(body, |notes| + |MARKER|, |body| - |CLOSE|) == payload;
  }

  lemma WrappedEnds(notes: string, payload: string)
    ensures EndsWith(notes + Wrapped(payload), CLOSE) && EndsWith(notes + Wrapped(payload), ARROW)
  {
    var body := notes + Wrapped(payload);
    assert body[|body| - |CLOSE|..] == CLOSE;
    assert body[|body| - |ARROW|..] == CLOSE[1..];
  }

  /** A page splits at its notes only if its record is legible. */
  lemma SplitNeedsLegible(w: World, notes: string, payload: string)
    requires SplitBody(w, notes + Wrapped(payload)).Ok? && SplitBody(w, notes + Wrapped(payload)).value.0 == notes
    ensures Legible(payload)
  {
    var body := notes + Wrapped(payload);
    LastMarker(notes, payload);
    assert FindLast(body, MARKER, |body|) == Some(|notes|);
    assert Slice(body, |notes| + |MARKER|, |body| - |CLOSE|) == payload;
  }

  /** The identity record names the release: its tag, its commit, its schema and the digest of each
      archive, and nothing else. */
  lemma RecordNames(release: Release)
    ensures var record := RecordOf(release);
      && record.Obj? && record.fields.Keys == {"assets", "commit", "schema", "tag"}
      && record.fields["tag"] == Str(release.tag) && record.fields["commit"] == Str(release.commit)
      && record.fields["schema"] == Int(1) && record.fields["assets"].Obj?
      && record.fields["assets"].fields.Keys == release.digests.Keys
      && forall name :: name in release.digests ==>
           record.fields["assets"].fields[name] == Str(release.digests[name])
  {
  }

  /** What is split off any body: the text before the last marker, and the object with schema 1 that
      the rest encodes. */
  ghost predicate SplitsAt(w: World, body: string, notes: string, payload: string, record: Json) {
    && body == notes + "<!-- gobstopper-release " + payload + " -->" && !Contains(payload, "-->")
    && (forall i :: |notes| < i ==> !Lines.OccursAt(body, "<!-- gobstopper-release ", i))
    && w.parse(payload) == Some(record)
    && record.Obj? && "schema" in record.fields && w.isOne(record.fields["schema"])
  }

  lemma SplitAtMarker(w: World, body: string, notes: string, record: Json) returns (payload: string)
    requires w.parse("").None? && SplitBody(w, body) == Ok((notes, record))
    ensures SplitsAt(w, body, notes, payload, record)
  {
    payload := Slice(body, |notes| + |MARKER|, |body| - |CLOSE|);
    assert body == notes + MARKER + payload + CLOSE;
  }

  lemma SplitMeans(w: World, body: string, notes: string, record: Json)
    requires w.parse("").None?
    ensures SplitBody(w, body) == Ok((notes, record)) <==> exists payload :: SplitsAt(w, body, notes, payload, record)
  {
    if SplitBody(w, body) == Ok((notes, record)) {
      var _ := SplitAtMarker(w, body, notes, record);
    }
    if payload :| SplitsAt(w, body, notes, payload, record) {
      SplitOfParts(w, body, notes, payload, record);
    }
  }

  lemma SplitOfParts(w: World, body: string, notes: string, payload: string, record: Json)
    requires SplitsAt(w, body, notes, payload, record)
    ensures SplitBody(w, body) == Ok((notes, record))
  {
    assert body == notes + Wrapped(payload);
    StartsWithMarker(payload);
    OccursPast(notes, Wrapped(payload), MARKER, |notes|);
    WrappedEnds(notes, payload);
    assert FindLast(body, MARKER, |body|) == Some(|notes|);
    assert Slice(body, |notes| + |MARKER|, |body| - |CLOSE|) == payload;
  }

  ghost predicate IsVersion(w: World, version: string, a: string, b: string, c: string) {
    IsNumber(w, a) && IsNumber(w, b) && IsNumber(w, c) && version == a + "." + b + "." + c
  }

  /** A line of SHA256SUMS, in its parts. */
  ghost predicate SumParts(w: World, line: string, digest: string, mark: string, name: string) {
    && IsLowerDigest(digest) && (mark == " " || mark == "*")
    && name != "" && (forall i :: 0 <= i < |name| ==> !w.space(name[i])) && line == digest + " " + mark + name
  }

  lemma SumMeans(w: World, line: string, digest: string, name: string)
    ensures IsSum(w, line) && SumDigest(line) == digest && SumName(line) == name <==>
      exists mark :: SumParts(w, line, digest, mark, name)
  {
    if IsSum(w, line) && SumDigest(line) == digest && SumName(line) == name {
      assert line == line[..64] + " " + [line[65]] + line[66..];
      assert SumParts(w, line, digest, [line[65]], name);
    }
    if mark :| SumParts(w, line, digest, mark, name) {
      assert line[..64] == digest && line[64] == ' ' && line[65] == mark[0] && line[66..] == name;
      assert forall i :: 0 <= i < 64 ==> line[i] == digest[i];
      assert forall i :: 66 <= i < |line| ==> line[i] == name[i - 66];
    }
  }

  /** The four archives of a release. */
  lemma ArchivesMean(version: string, name: string)
    ensures name in ArchiveNames(version) <==>
      || name == "gobstopper-" + version + "-darwin-aarch64.tar.gz"
      || name == "gobstopper-" + version + "-linux-x86_64.tar.gz"
      || name == "gobstopper-" + version + "-linux-aarch64.tar.gz"
      || name == "gobstopper-" + version + "-windows-x86_64.zip"
  {
  }

  lemma NotesMean(w: World, release: Release, notes: string)
    ensures RenderNotes(w, release) == Ok(notes) <==>
      && w.page(release) == Some(notes)
      && |release.commit| == 40 && forall i :: 0 <= i < 40 ==> IsLowerHex(release.commit[i])
  {
  }

  /** The identity comment is made for a proper tag and a full commit, and for nothing else. */
  lemma IdentityMeans(w: World, release: Release, id: string)
    ensures Identity(w, release) == Ok(id) <==>
      && VersionOf(w, release.tag).Some? && |release.commit| == 40
      && (forall i :: 0 <= i < 40 ==> IsLowerHex(release.commit[i]))
      && id == "<!-- gobstopper-release " + w.dump(RecordOf(release)) + " -->"
  {
  }

  /** A tag is v and three numbers with dots between them. */
  lemma VersionMeans(w: World, tag: string, version: string)
    requires !w.digit('.')
    ensures VersionOf(w, tag) == Some(version) <==>
      tag == "v" + version && exists a, b, c :: IsVersion(w, version, a, b, c)
  {
    if VersionOf(w, tag) == Some(version) {
      var numbers := Lines.Split(version, '.');
      Lines.JoinSplit(version, '.');
      JoinThree(numbers);
      assert tag == "v" + version && IsVersion(w, version, numbers[0], numbers[1], numbers[2]);
    }
    if a, b, c :| tag == "v" + version && IsVersion(w, version, a, b, c) {
      SplitThree(a, b, c);
      assert tag[1..] == version;
    }
  }

  lemma JoinThree(pieces: seq<string>)
    requires |pieces| == 3
    ensures Lines.Join(pieces, ".") == pieces[0] + "." + pieces[1] + "." + pieces[2]
  {
    assert pieces[1..][1..] == [pieces[2]] && pieces[1..][0] == pieces[1];
    assert Lines.Join(pieces[1..], ".") == pieces[1] + "." + pieces[2];
  }

  lemma SplitThree(a: string, b: string, c: string)
    requires '.' !in a && '.' !in b && '.' !in c
    ensures Lines.Split(a + "." + b + "." + c, '.') == [a, b, c]
  {
    Lines.SplitAppend(a + "." + b, '.', c);
    Lines.SplitAppend(a, '.', b);
    Lines.SplitNoSep(a, '.');
    Lines.SplitNoSep(b, '.');
    Lines.SplitNoSep(c, '.');
    assert a + "." + b + "." + c == (a + "." + b) + ['.'] + c && a + "." + b == a + ['.'] + b;
  }

  lemma RecordSchema(w: World, release: Release)
    requires w.isOne(Int(SCHEMA))
    ensures KnownSchema(w, RecordOf(release))
  {
    assert "schema" in RecordOf(release).fields && RecordOf(release).fields["schema"] == Int(SCHEMA);
  }

  /** A release renders a body that splits back into its notes and its record. */
  lemma SplitUndoesRender(w: World, release: Release)
    requires Faithful(w) && RenderBody(w, release).Ok? && Legible(w.dump(RecordOf(release)))
    ensures SplitBody(w, RenderBody(w, release).value) == Ok((RenderNotes(w, release).value, RecordOf(release)))
  {
    RecordSchema(w, release);
    SplitWrapped(w, RenderNotes(w, release).value, w.dump(RecordOf(release)));
  }

  lemma RenderedIsAccepted(w: World, release: Release)
    requires Faithful(w) && RenderBody(w, release).Ok? && Legible(w.dump(RecordOf(release)))
    ensures CheckBody(w, RenderBody(w, release).value, release) == Ok(RecordOf(release))
  {
    SplitUndoesRender(w, release);
    var notes, body := RenderNotes(w, release).value, RenderBody(w, release).value;
    assert body[|notes|..] == Wrapped(w.dump(RecordOf(release)));
  }

  /** `check_body` accepts exactly the rendered body, provided the record is legible; and never
      any body of a release whose record is not. */
  lemma CheckAcceptsExactlyRendered(w: World, body: string, release: Release)
    requires Faithful(w)
    ensures CheckBody(w, body, release).Ok? <==>
      RenderBody(w, release) == Ok(body) && Legible(w.dump(RecordOf(release)))
    ensures CheckBody(w, body, release).Ok? ==> CheckBody(w, body, release).value == RecordOf(release)
  {
    var payload := w.dump(RecordOf(release));
    if CheckBody(w, body, release).Ok? {
      var notes := SplitBody(w, body).value.0;
      assert body == body[..|notes|] + body[|notes|..];
      SplitPrefix(w, body);
      assert body == notes + Wrapped(payload);
      SplitNeedsLegible(w, notes, payload);
      SplitUndoesRender(w, release);
    } else if RenderBody(w, release) == Ok(body) && Legible(payload) {
      RenderedIsAccepted(w, release);
      assert false;
    }
  }

  lemma SplitPrefix(w: World, body: string)
    requires SplitBody(w, body).Ok?
    ensures SplitBody(w, body).value.0 <= body
  {
  }

  // ---------------------------------------------------------------------------------
  // Release records are legible

  lemma MarkerHasOneBracket()
    ensures MARKER[0] == '<' && forall i :: 0 < i < |MARKER| ==> MARKER[i] != '<'
    ensures forall i :: 0 <= i < |CLOSE| ==> CLOSE[i] != '<'
  {
  }

  lemma DiffersAt(s: string, pattern: string, i: nat, k: nat)
    requires k < |pattern| && i + k < |s| && s[i + k] != pattern[k]
    ensures !Lines.OccursAt(s, pattern, i)
  {
    if i + |pattern| <= |s| {
      assert s[i..i + |pattern|][k] == s[i + k];
    }
  }

  lemma OneBracket(payload: string, i: nat)
    requires Plain(payload) && 0 < i < |Wrapped(payload)|
    ensures Wrapped(payload)[i] != '<'
  {
    MarkerHasOneBracket();
    if i < |MARKER| {
      assert Wrapped(payload)[i] == MARKER[i];
    } else if i < |MARKER| + |payload| {
      assert Wrapped(payload)[i] == payload[i - |MARKER|] && payload[i - |MARKER|] in payload;
    } else {
      assert Wrapped(payload)[i] == CLOSE[i - |MARKER| - |payload|];
    }
  }

  lemma PlainIsLegible(payload: string)
    requires Plain(payload)
    ensures Legible(payload)
  {
    forall i | 0 <= i <= |payload|
      ensures !Lines.OccursAt(payload, ARROW, i)
    {
      if i + 2 < |payload| {
        assert payload[i + 2] in payload;
        DiffersAt(payload, ARROW, i, 2);
      }
    }
    forall i | 0 < i
      ensures !Lines.OccursAt(Wrapped(payload), MARKER, i)
    {
      if i < |Wrapped(payload)| {
        OneBracket(payload, i);
        MarkerHasOneBracket();
        DiffersAt(Wrapped(payload), MARKER, i, 0);
      }
    }
  }

  ghost predicate InPiece(pieces: seq<string>, c: char) { exists i :: 0 <= i < |pieces| && c in pieces[i] }

  lemma {:induction false} SplitCovers(s: string, c: char)
    requires c in s
    ensures c == '.' || InPiece(Lines.Split(s, '.'), c)
  {
    var pieces := Lines.Split(s, '.');
    var rest := Lines.Split(s[1..], '.');
    if c == '.' {
    } else if s[0] == c {
      assert c in pieces[0];
    } else {
      assert c in s[1..];
      SplitCovers(s[1..], c);
      var i :| 0 <= i < |rest| && c in rest[i];
      if s[0] == '.' {
        assert pieces[i + 1] == rest[i];
      } else {
        assert c in pieces[i];
      }
    }
  }

  lemma TagsArePlain(w: World, tag: string)
    requires Faithful(w) && VersionOf(w, tag).Some?
    ensures Plain(tag) && Plain(VersionOf(w, tag).value)
  {
    forall c | c in tag[1..]
      ensures c != '<' && c != '>'
    {
      SplitCovers(tag[1..], c);
    }
    assert tag == [tag[0]] + tag[1..];
  }

  lemma ArchiveNamesArePlain(version: string)
    requires Plain(version)
    ensures forall name :: name in ArchiveNames(version) ==> Plain(name)
  {
  }

  /** The digests that `parse_sha256sums` reads, a full commit and a version tag make a record
      that is legible. */
  lemma SumsAreLegible(w: World, lines: seq<string>, release: Release)
    requires Faithful(w) && BracketsOnlyInStrings(w)
    requires VersionOf(w, release.tag).Some? && GoodSums(w, lines, ArchiveNames(VersionOf(w, release.tag).value))
    requires Holds(w, lines, release.digests) && IsCommit(release.commit)
    ensures Legible(w.dump(RecordOf(release)))
  {
    TagsArePlain(w, release.tag);
    ArchiveNamesArePlain(VersionOf(w, release.tag).value);
    forall name | name in release.digests
      ensures Plain(name) && Plain(release.digests[name])
    {
      assert Names(w, lines, name);
      var i :| Entry(w, lines, i) && NameAt(lines, i) == name;
      assert IsSum(w, lines[i]) && release.digests[name] == SumDigest(lines[i]);
    }
    assert PlainRelease(release);
    PlainIsLegible(w.dump(RecordOf(release)));
  }

  /** For digests read from SHA256SUMS, the check accepts a body exactly when it is the rendered
      one, whatever identity markers the changelog holds. */
  lemma CheckOfSums(w: World, lines: seq<string>, release: Release, body: string)
    requires Faithful(w) && BracketsOnlyInStrings(w)
    requires VersionOf(w, release.tag).Some? && GoodSums(w, lines, ArchiveNames(VersionOf(w, release.tag).value))
    requires Holds(w, lines, release.digests)
    ensures CheckBody(w, body, release).Ok? <==> RenderBody(w, release) == Ok(body)
    ensures CheckBody(w, body, release).Ok? ==> CheckBody(w, body, release).value == RecordOf(release)
  {
    CheckAcceptsExactlyRendered(w, body, release);
    if IsCommit(release.commit) {
      SumsAreLegible(w, lines, release);
    }
  }
}
