/** The content-addressed snapshot store: scripts/recovery-study/prepare.py installs
    snapshots, scripts/retention-audit.py reads them back. SHA-256, the JSON encoder and the
    JSON decoder are parameters. */
module Vault {
  import opened Wrappers
  import opened Json
  import Lines

  const CHUNK_BYTES := 1024 * 1024
  const MAX_TRANSIT_BYTES := 512 * 1024 * 1024
  const MAX_MANIFEST_BYTES := 16 * 1024 * 1024
  const MAX_RECORDS := 100_000
  const FIRST_TIMESTAMP := 1_900_000_000

  datatype Manifest = Manifest(source: string, bytes: nat, chunks: seq<string>)

  /** `parse` is the strict decoder: None where it raises. */
  datatype World = World(sha: Bytes -> string, encode: Manifest -> Bytes, parse: Bytes -> Option<Json>)

  /** The references of a manifest, by the digests of what they name. */
  function References(names: seq<string>): seq<Json> {
    seq(|names|, i requires 0 <= i < |names| => Str(names[i]))
  }

  function ManifestJson(m: Manifest): Json {
    Obj(map["schema_version" := Int(3), "source_sha256" := Str(m.source), "bytes" := Int(m.bytes),
            "chunks" := Arr(References(m.chunks))])
  }

  ghost predicate Faithful(w: World) {
    && (forall data :: IsDigest(w.sha(data)))
    && (forall m :: w.parse(w.encode(m)) == Some(ManifestJson(m)))
  }

  /** No two of these byte strings share a digest. */
  ghost predicate CollisionFree(w: World, blobs: set<Bytes>) {
    forall x, y :: x in blobs && y in blobs && w.sha(x) == w.sha(y) ==> x == y
  }

  datatype Entry = Entry(ts: int, sha256: string, source: string, path: string, session: string, provider: string,
    bytes: nat)

  /** The files of a vault by directory and name. */
  datatype Store = Store(
    manifests: map<string, Bytes>,
    chunks: map<string, Bytes>,
    records: map<string, Bytes>,
    objects: map<string, Bytes>)
  {
    ghost function Blobs(): set<Bytes> {
      manifests.Values + chunks.Values + records.Values + objects.Values
    }
  }

  const EmptyStore := Store(map[], map[], map[], map[])

  // ---------------------------------------------------------------------------------
  // Reading

  /** What a manifest asks for: its references, where they live and how they are joined. */
  datatype Plan = Plan(references: seq<Json>, chunked: bool, trailing: bool)
  {
    function Cap(): nat { if chunked then CHUNK_BYTES else MAX_TRANSIT_BYTES }

    function Folder(st: Store): map<string, Bytes> { if chunked then st.chunks else st.records }

    predicate NewlineAfter(i: nat) { !chunked && (trailing || i + 1 < |references|) }
  }

  function PlanOf(meta: map<string, Json>): Option<Plan> {
    if "schema_version" in meta && meta["schema_version"] !in {Int(2), Int(3)} then None
    else if "schema_version" in meta && meta["schema_version"] == Int(3) then
      if "chunks" in meta && "bytes" in meta
         && meta["bytes"].Int? && 0 <= meta["bytes"].n <= MAX_TRANSIT_BYTES
         && meta["chunks"].Arr? && |meta["chunks"].items| <= (MAX_TRANSIT_BYTES + CHUNK_BYTES - 1) / CHUNK_BYTES
      then Some(Plan(meta["chunks"].items, true, false)) else None
    else if "records" in meta && ("trailing_newline" in meta ==> meta["trailing_newline"].Bool?)
         && meta["records"].Arr? && |meta["records"].items| <= MAX_RECORDS
    then Some(Plan(meta["records"].items, false, "trailing_newline" in meta && meta["trailing_newline"].b))
    else None
  }

  /** One referenced object with its newline, if it is there and is what its name says. */
  function Part(w: World, st: Store, plan: Plan, i: nat): Option<Bytes>
    requires i < |plan.references|
  {
    match plan.references[i]
    case Str(name) =>
      var folder := plan.Folder(st);
      if IsDigest(name) && name in folder && |folder[name]| <= plan.Cap() && w.sha(folder[name]) == name
      then Some(folder[name] + if plan.NewlineAfter(i) then [10] else [])
      else None
    case _ => None
  }

  /** The objects from the i-th on appended to what is already there. */
  function Gather(w: World, st: Store, plan: Plan, i: nat, data: Bytes): Option<Bytes>
    requires i <= |plan.references|
    decreases |plan.references| - i
  {
    if i == |plan.references| then Some(data)
    else
      match Part(w, st, plan, i)
      case None => None
      case Some(part) =>
        if |data| + |part| > MAX_TRANSIT_BYTES then None else Gather(w, st, plan, i + 1, data + part)
  }

  predicate Checks(w: World, meta: map<string, Json>, chunked: bool, data: Bytes) {
    && ("bytes" in meta ==> meta["bytes"] == Int(|data|))
    && (chunked || "source_sha256" in meta ==>
          "source_sha256" in meta && meta["source_sha256"].Str?
          && IsDigest(meta["source_sha256"].s) && w.sha(data) == meta["source_sha256"].s)
  }

  function FromManifest(w: World, st: Store, raw: Bytes): Option<Bytes> {
    match w.parse(raw)
    case Some(Obj(meta)) =>
      (match PlanOf(meta)
       case None => None
       case Some(plan) =>
         match Gather(w, st, plan, 0, [])
         case Some(data) => if Checks(w, meta, plan.chunked, data) then Some(data) else None
         case None => None)
    case _ => None
  }

  /** The reader's answer; None for everything it refuses. */
  function Reading(w: World, st: Store, sha: string): Option<Bytes> {
    if !IsDigest(sha) then None
    else if sha !in st.manifests then
      if sha in st.objects && |st.objects[sha]| <= MAX_TRANSIT_BYTES && w.sha(st.objects[sha]) == sha
      then Some(st.objects[sha]) else None
    else
      var raw := st.manifests[sha];
      if |raw| <= MAX_MANIFEST_BYTES && w.sha(raw) == sha then FromManifest(w, st, raw) else None
  }

  /** `_read`: the loop that grows the snapshot under its running bound. */
  method Read(w: World, st: Store, sha: string) returns (r: Option<Bytes>)
    ensures r == Reading(w, st, sha)
  {
    if !IsDigest(sha) {
      return None;
    }
    if sha !in st.manifests {
      if sha in st.objects && |st.objects[sha]| <= MAX_TRANSIT_BYTES && w.sha(st.objects[sha]) == sha {
        return Some(st.objects[sha]);
      }
      return None;
    }
    var raw := st.manifests[sha];
    if |raw| > MAX_MANIFEST_BYTES || w.sha(raw) != sha {
      return None;
    }
    var parsed := w.parse(raw);
    if !(parsed.Some? && parsed.value.Obj?) {
      return None;
    }
    var meta := parsed.value.fields;
    var planned := PlanOf(meta);
    if planned.None? {
      return None;
    }
    var plan := planned.value;
    var data: Bytes := [];
    var i := 0;
    while i < |plan.references|
      invariant i <= |plan.references|
      invariant Gather(w, st, plan, i, data) == Gather(w, st, plan, 0, [])
    {
      var part := Part(w, st, plan, i);
      if part.None? || |data| + |part.value| > MAX_TRANSIT_BYTES {
        return None;
      }
      data := data + part.value;
      i := i + 1;
    }
    return if Checks(w, meta, plan.chunked, data) then Some(data) else None;
  }

  lemma {:induction false} SamePlanSameBytes(w: World, a: Store, b: Store, plan: Plan, i: nat, data: Bytes)
    requires CollisionFree(w, a.Blobs() + b.Blobs()) && i <= |plan.references|
    requires Gather(w, a, plan, i, data).Some? && Gather(w, b, plan, i, data).Some?
    ensures Gather(w, a, plan, i, data) == Gather(w, b, plan, i, data)
    decreases |plan.references| - i
  {
    if i < |plan.references| {
      var name := plan.references[i].s;
      assert plan.Folder(a)[name] in plan.Folder(a).Values && plan.Folder(b)[name] in plan.Folder(b).Values;
      assert Part(w, a, plan, i) == Part(w, b, plan, i);
      SamePlanSameBytes(w, a, b, plan, i + 1, data + Part(w, a, plan, i).value);
    }
  }

  /** Main result: the digest alone fixes the bytes. Two stores with whatever contents,
      damaged or not, never answer one digest with different snapshots. */
  lemma DigestFixesBytes(w: World, a: Store, b: Store, sha: string)
    requires CollisionFree(w, a.Blobs() + b.Blobs())
    requires sha in a.manifests <==> sha in b.manifests
    requires Reading(w, a, sha).Some? && Reading(w, b, sha).Some?
    ensures Reading(w, a, sha) == Reading(w, b, sha)
  {
    if sha in a.manifests {
      assert a.manifests[sha] in a.manifests.Values && b.manifests[sha] in b.manifests.Values;
      var raw := a.manifests[sha];
      assert raw == b.manifests[sha];
      SamePlanSameBytes(w, a, b, PlanOf(w.parse(raw).value.fields).value, 0, []);
    } else {
      assert a.objects[sha] in a.objects.Values && b.objects[sha] in b.objects.Values;
    }
  }

  /** Where only a legacy object is left under a digest that another store has as a manifest, the
      reader answers with the manifest itself as the snapshot. */
  lemma LegacyObjectIsTheManifest(w: World, a: Store, b: Store, sha: string)
    requires CollisionFree(w, a.Blobs() + b.Blobs())
    requires sha in a.manifests && sha !in b.manifests
    requires Reading(w, a, sha).Some? && Reading(w, b, sha).Some?
    ensures Reading(w, b, sha) == Some(a.manifests[sha])
  {
    assert a.manifests[sha] in a.manifests.Values && b.objects[sha] in b.objects.Values;
  }

  /** A manifest that stands for its own bytes. */
  ghost predicate DescribesItself(w: World, st: Store, sha: string) {
    sha in st.manifests && FromManifest(w, st, st.manifests[sha]) == Some(st.manifests[sha])
  }

  /** Exactly when two stores that both answer a digest agree on it: both have a manifest under it,
      or neither has, or the only one there is describes itself. */
  lemma AnswersAgreeExactly(w: World, a: Store, b: Store, sha: string)
    requires CollisionFree(w, a.Blobs() + b.Blobs())
    requires Reading(w, a, sha).Some? && Reading(w, b, sha).Some?
    ensures Reading(w, a, sha) == Reading(w, b, sha) <==>
      ((sha in a.manifests <==> sha in b.manifests) || DescribesItself(w, a, sha) || DescribesItself(w, b, sha))
  {
    if sha in a.manifests <==> sha in b.manifests {
      DigestFixesBytes(w, a, b, sha);
    } else if sha in a.manifests {
      LegacyObjectIsTheManifest(w, a, b, sha);
    } else {
      assert b.Blobs() + a.Blobs() == a.Blobs() + b.Blobs();
      LegacyObjectIsTheManifest(w, b, a, sha);
    }
  }

  // ---------------------------------------------------------------------------------
  // Installing

  function {:induction false} Chunks(data: Bytes): (chunks: seq<Bytes>)
    ensures forall c :: c in chunks ==> |c| <= CHUNK_BYTES
    ensures |chunks| == (|data| + CHUNK_BYTES - 1) / CHUNK_BYTES
  {
    if data == [] then []
    else if |data| <= CHUNK_BYTES then [data]
    else [data[..CHUNK_BYTES]] + Chunks(data[CHUNK_BYTES..])
  }

  function Names(w: World, chunks: seq<Bytes>): seq<string> {
    seq(|chunks|, i requires 0 <= i < |chunks| => w.sha(chunks[i]))
  }

  /** A chunk whose name is taken is not written again. */
  function PutChunk(w: World, files: map<string, Bytes>, chunk: Bytes): map<string, Bytes> {
    if w.sha(chunk) in files then files else files[w.sha(chunk) := chunk]
  }

  function PutChunks(w: World, files: map<string, Bytes>, chunks: seq<Bytes>): map<string, Bytes> {
    if chunks == [] then files
    else PutChunk(w, PutChunks(w, files, chunks[..|chunks| - 1]), chunks[|chunks| - 1])
  }

  lemma OneMoreChunk(w: World, files: map<string, Bytes>, chunks: seq<Bytes>, n: nat)
    requires n < |chunks|
    ensures PutChunks(w, files, chunks[..n + 1]) == PutChunk(w, PutChunks(w, files, chunks[..n]), chunks[n])
    ensures Names(w, chunks[..n + 1]) == Names(w, chunks[..n]) + [w.sha(chunks[n])]
  {
    assert chunks[..n + 1][..n] == chunks[..n];
  }

  function Raw(w: World, data: Bytes): Bytes {
    w.encode(Manifest(w.sha(data), |data|, Names(w, Chunks(data))))
  }

  function SnapshotDigest(w: World, data: Bytes): string { w.sha(Raw(w, data)) }

  function Installed(w: World, st: Store, data: Bytes): Store {
    st.(chunks := PutChunks(w, st.chunks, Chunks(data)),
        manifests := st.manifests[SnapshotDigest(w, data) := Raw(w, data)])
  }

  /** The vault directory and the index that collects one entry per snapshot. */
  class Vault {
    const world: World
    var store: Store
    var index: seq<Entry>

    constructor (world: World)
      ensures this.world == world && store == EmptyStore && index == []
    {
      this.world := world;
      store := EmptyStore;
      index := [];
    }

    method Install(data: Bytes, path: string, session: string, provider: string) returns (digest: string)
      modifies this
      ensures digest == SnapshotDigest(world, data)
      ensures store == Installed(world, old(store), data)
      ensures index == old(index) + [
                Entry(FIRST_TIMESTAMP + |old(index)|, digest, world.sha(data), path, session, provider, |data|)]
    {
      var pieces := Chunks(data);
      var names: seq<string> := [];
      var n := 0;
      while n < |pieces|
        invariant n <= |pieces|
        invariant names == Names(world, pieces[..n])
        invariant store == old(store).(chunks := PutChunks(world, old(store.chunks), pieces[..n]))
        invariant index == old(index)
      {
        OneMoreChunk(world, old(store.chunks), pieces, n);
        var name := world.sha(pieces[n]);
        if name !in store.chunks {
          store := store.(chunks := store.chunks[name := pieces[n]]);
        }
        names := names + [name];
        n := n + 1;
      }
      assert pieces[..n] == pieces;
      var raw := world.encode(Manifest(world.sha(data), |data|, names));
      digest := world.sha(raw);
      store := store.(manifests := store.manifests[digest := raw]);
      index := index + [Entry(FIRST_TIMESTAMP + |index|, digest, world.sha(data), path, session, provider, |data|)];
    }
  }

  /** The vault after a sequence of installs into an empty one. */
  function After(w: World, installs: seq<Bytes>): Store {
    if installs == [] then EmptyStore
    else Installed(w, After(w, installs[..|installs| - 1]), installs[|installs| - 1])
  }

  /** Every byte string a sequence of installs stores. */
  ghost function Stored(w: World, installs: seq<Bytes>): set<Bytes> {
    (set i, c | 0 <= i < |installs| && c in Chunks(installs[i]) :: c)
    + (set i | 0 <= i < |installs| :: Raw(w, installs[i]))
  }

  ghost predicate Fits(w: World, data: Bytes) {
    |data| <= MAX_TRANSIT_BYTES && |Raw(w, data)| <= MAX_MANIFEST_BYTES
  }

  // ---------------------------------------------------------------------------------
  // Chunking

  lemma {:induction false} ChunksJoin(data: Bytes)
    ensures Lines.Concat(Chunks(data)) == data
  {
    if |data| > CHUNK_BYTES {
      ChunksJoin(data[CHUNK_BYTES..]);
      Lines.ConcatAppend([data[..CHUNK_BYTES]], Chunks(data[CHUNK_BYTES..]));
      Lines.ConcatOne(data[..CHUNK_BYTES]);
    } else if data != [] {
      Lines.ConcatOne(data);
    }
  }

  // ---------------------------------------------------------------------------------
  // What installs keep

  /** Every file of the first map is in the second, unchanged. */
  ghost predicate Extends(before: map<string, Bytes>, after: map<string, Bytes>) {
    forall name :: name in before ==> name in after && after[name] == before[name]
  }

  /** Each chunk file holds what its name says, and only what some install stored. */
  ghost predicate Kept(w: World, files: map<string, Bytes>, blobs: set<Bytes>) {
    forall name :: name in files ==> w.sha(files[name]) == name && files[name] in blobs
  }

  lemma {:induction false} PutChunksKeeps(w: World, files: map<string, Bytes>, chunks: seq<Bytes>, blobs: set<Bytes>)
    requires Kept(w, files, blobs) && CollisionFree(w, blobs) && forall c :: c in chunks ==> c in blobs
    ensures Kept(w, PutChunks(w, files, chunks), blobs)
    ensures forall name :: name in files ==> name in PutChunks(w, files, chunks)
    ensures forall c :: c in chunks ==>
      w.sha(c) in PutChunks(w, files, chunks) && PutChunks(w, files, chunks)[w.sha(c)] == c
  {
    if chunks != [] {
      var front, last := chunks[..|chunks| - 1], chunks[|chunks| - 1];
      PutChunksKeeps(w, files, front, blobs);
      assert chunks == front + [last];
    }
  }

  ghost predicate AllStored(w: World, data: Bytes, blobs: set<Bytes>) {
    Raw(w, data) in blobs && forall c :: c in Chunks(data) ==> c in blobs
  }

  ghost predicate InPlace(w: World, st: Store, data: Bytes) {
    && SnapshotDigest(w, data) in st.manifests && st.manifests[SnapshotDigest(w, data)] == Raw(w, data)
    && forall c :: c in Chunks(data) ==> w.sha(c) in st.chunks && st.chunks[w.sha(c)] == c
  }

  ghost predicate Sound(w: World, st: Store, blobs: set<Bytes>) {
    Kept(w, st.chunks, blobs) && Kept(w, st.manifests, blobs)
  }

  lemma InstallKeeps(w: World, st: Store, data: Bytes, blobs: set<Bytes>)
    requires CollisionFree(w, blobs) && AllStored(w, data, blobs) && Sound(w, st, blobs)
    ensures Sound(w, Installed(w, st, data), blobs) && InPlace(w, Installed(w, st, data), data)
  {
    PutChunksKeeps(w, st.chunks, Chunks(data), blobs);
  }

  lemma InstallDisturbsNothing(w: World, st: Store, data: Bytes, earlier: Bytes, blobs: set<Bytes>)
    requires CollisionFree(w, blobs) && AllStored(w, data, blobs) && Sound(w, st, blobs)
    requires AllStored(w, earlier, blobs) && InPlace(w, st, earlier)
    ensures InPlace(w, Installed(w, st, data), earlier)
  {
    PutChunksKeeps(w, st.chunks, Chunks(data), blobs);
  }

  lemma {:induction false} AfterKeeps(w: World, installs: seq<Bytes>, blobs: set<Bytes>)
    requires CollisionFree(w, blobs) && forall data :: data in installs ==> AllStored(w, data, blobs)
    ensures Sound(w, After(w, installs), blobs)
    ensures forall data :: data in installs ==> InPlace(w, After(w, installs), data)
  {
    if installs != [] {
      var front, last := installs[..|installs| - 1], installs[|installs| - 1];
      AfterKeeps(w, front, blobs);
      InstallKeeps(w, After(w, front), last, blobs);
      forall data | data in installs
        ensures InPlace(w, After(w, installs), data)
      {
        if data in front {
          InstallDisturbsNothing(w, After(w, front), last, data, blobs);
        }
      }
    }
  }

  lemma StoredMeansStored(w: World, installs: seq<Bytes>)
    ensures forall data :: data in installs ==> AllStored(w, data, Stored(w, installs))
  {
    forall i | 0 <= i < |installs|
      ensures AllStored(w, installs[i], Stored(w, installs))
    {
      assert forall c :: c in Chunks(installs[i]) ==> c in Stored(w, installs);
    }
  }

  function ChunkPlan(w: World, chunks: seq<Bytes>): Plan {
    Plan(References(Names(w, chunks)), true, false)
  }

  ghost predicate ChunksInPlace(w: World, st: Store, chunks: seq<Bytes>) {
    forall c :: c in chunks ==> |c| <= CHUNK_BYTES && w.sha(c) in st.chunks && st.chunks[w.sha(c)] == c
  }

  lemma PartIsChunk(w: World, st: Store, chunks: seq<Bytes>, i: nat)
    requires Faithful(w) && i < |chunks| && ChunksInPlace(w, st, chunks)
    ensures Part(w, st, ChunkPlan(w, chunks), i) == Some(chunks[i])
  {
    assert chunks[i] in chunks && chunks[i] + [] == chunks[i];
  }

  lemma JoinedGrows(chunks: seq<Bytes>, i: nat)
    requires i < |chunks|
    ensures Lines.Concat(chunks[..i + 1]) == Lines.Concat(chunks[..i]) + chunks[i]
    ensures |Lines.Concat(chunks[..i + 1])| <= |Lines.Concat(chunks)|
  {
    assert chunks[..i + 1] == chunks[..i] + [chunks[i]];
    Lines.ConcatMore(chunks[..i], chunks[i]);
    assert chunks == chunks[..i + 1] + chunks[i + 1..];
    Lines.ConcatAppend(chunks[..i + 1], chunks[i + 1..]);
  }

  /** The reader's loop over a manifest whose chunks are all in place joins them. */
  lemma {:induction false} GatherJoins(w: World, st: Store, chunks: seq<Bytes>, i: nat)
    requires Faithful(w) && i <= |chunks| && |Lines.Concat(chunks)| <= MAX_TRANSIT_BYTES
    requires ChunksInPlace(w, st, chunks)
    ensures Gather(w, st, ChunkPlan(w, chunks), i, Lines.Concat(chunks[..i])) == Some(Lines.Concat(chunks))
    decreases |chunks| - i
  {
    if i < |chunks| {
      PartIsChunk(w, st, chunks, i);
      JoinedGrows(chunks, i);
      GatherJoins(w, st, chunks, i + 1);
    } else {
      assert chunks[..i] == chunks;
    }
  }

  lemma PlanOfManifest(m: Manifest)
    ensures PlanOf(ManifestJson(m).fields) ==
      if m.bytes <= MAX_TRANSIT_BYTES && |m.chunks| <= (MAX_TRANSIT_BYTES + CHUNK_BYTES - 1) / CHUNK_BYTES
      then Some(Plan(References(m.chunks), true, false)) else None
  {
  }

  lemma ManifestChecks(w: World, m: Manifest, data: Bytes)
    requires m.source == w.sha(data) && IsDigest(m.source) && m.bytes == |data|
    ensures Checks(w, ManifestJson(m).fields, true, data)
  {
  }

  lemma ChunksFit(data: Bytes)
    requires |data| <= MAX_TRANSIT_BYTES
    ensures |Chunks(data)| <= (MAX_TRANSIT_BYTES + CHUNK_BYTES - 1) / CHUNK_BYTES
  {
  }

  lemma GatherAll(w: World, st: Store, data: Bytes)
    requires Faithful(w) && InPlace(w, st, data) && |data| <= MAX_TRANSIT_BYTES
    ensures Gather(w, st, ChunkPlan(w, Chunks(data)), 0, []) == Some(data)
  {
    ChunksJoin(data);
    GatherJoins(w, st, Chunks(data), 0);
    assert Chunks(data)[..0] == [];
  }

  lemma ManifestReadsBack(w: World, st: Store, data: Bytes)
    requires Faithful(w) && InPlace(w, st, data)
    ensures FromManifest(w, st, Raw(w, data)) == if |data| <= MAX_TRANSIT_BYTES then Some(data) else None
  {
    var m := Manifest(w.sha(data), |data|, Names(w, Chunks(data)));
    assert w.parse(Raw(w, data)) == Some(ManifestJson(m));
    PlanOfManifest(m);
    if |data| <= MAX_TRANSIT_BYTES {
      ChunksFit(data);
      ManifestChecks(w, m, data);
      GatherAll(w, st, data);
    }
  }

  /** Main result: after any sequence of installs each returned digest reads back exactly the
      bytes installed under it, whatever was installed later, if and only if the snapshot is
      within the reader's bounds; beyond them the reader refuses. */
  lemma InstallsReadBack(w: World, installs: seq<Bytes>, i: nat)
    requires Faithful(w) && CollisionFree(w, Stored(w, installs)) && i < |installs|
    ensures Reading(w, After(w, installs), SnapshotDigest(w, installs[i]))
         == if Fits(w, installs[i]) then Some(installs[i]) else None
  {
    StoredMeansStored(w, installs);
    AfterKeeps(w, installs, Stored(w, installs));
    ManifestReadsBack(w, After(w, installs), installs[i]);
  }

  /** Every file already under the name of a chunk holds that chunk. */
  ghost predicate Undamaged(w: World, files: map<string, Bytes>, chunks: seq<Bytes>) {
    forall c :: c in chunks && w.sha(c) in files ==> files[w.sha(c)] == c
  }

  ghost function ChunkBlobs(files: map<string, Bytes>, chunks: seq<Bytes>): set<Bytes> {
    files.Values + set c | c in chunks
  }

  /** Writing chunks beside whatever files are there: a name that is taken keeps its file. */
  lemma {:induction false} PutChunksBeside(w: World, files: map<string, Bytes>, chunks: seq<Bytes>)
    requires CollisionFree(w, set c | c in chunks)
    ensures Extends(files, PutChunks(w, files, chunks))
    ensures forall c :: c in chunks ==> w.sha(c) in PutChunks(w, files, chunks)
    ensures forall c :: c in chunks && w.sha(c) !in files ==> PutChunks(w, files, chunks)[w.sha(c)] == c
    ensures forall name :: name in PutChunks(w, files, chunks) && name !in files ==>
      exists c :: c in chunks && w.sha(c) == name && PutChunks(w, files, chunks)[name] == c
  {
    if chunks != [] {
      var front, last := chunks[..|chunks| - 1], chunks[|chunks| - 1];
      assert chunks == front + [last];
      PutChunksBeside(w, files, front);
    }
  }

  lemma {:induction false} GatherNeedsParts(w: World, st: Store, plan: Plan, i: nat, data: Bytes, k: nat)
    requires i <= k < |plan.references| && Gather(w, st, plan, i, data).Some?
    ensures Part(w, st, plan, k).Some?
    decreases |plan.references| - i
  {
    if i < k {
      GatherNeedsParts(w, st, plan, i + 1, data + Part(w, st, plan, i).value, k);
    }
  }

  /** What the loop joins came from files that hold their chunks. */
  lemma GatherNeedsChunks(w: World, st: Store, chunks: seq<Bytes>, c: Bytes)
    requires CollisionFree(w, ChunkBlobs(st.chunks, chunks)) && c in chunks
    requires Gather(w, st, ChunkPlan(w, chunks), 0, []).Some?
    ensures w.sha(c) in st.chunks && st.chunks[w.sha(c)] == c
  {
    var k :| 0 <= k < |chunks| && chunks[k] == c;
    GatherNeedsParts(w, st, ChunkPlan(w, chunks), 0, [], k);
    assert st.chunks[w.sha(c)] in st.chunks.Values;
  }

  lemma PutChunksAddsNoBlob(w: World, files: map<string, Bytes>, chunks: seq<Bytes>)
    requires CollisionFree(w, ChunkBlobs(files, chunks))
    ensures CollisionFree(w, ChunkBlobs(PutChunks(w, files, chunks), chunks))
    ensures Undamaged(w, files, chunks) <==>
      forall c :: c in chunks ==>
        w.sha(c) in PutChunks(w, files, chunks) && PutChunks(w, files, chunks)[w.sha(c)] == c
  {
    PutChunksBeside(w, files, chunks);
    var after := PutChunks(w, files, chunks);
    forall x | x in ChunkBlobs(after, chunks)
      ensures x in ChunkBlobs(files, chunks)
    {
      if x in after.Values {
        var name :| name in after && after[name] == x;
        assert name in files ==> files[name] in files.Values;
      }
    }
  }

  lemma DamagedIsRefused(w: World, st: Store, data: Bytes)
    requires Faithful(w) && CollisionFree(w, ChunkBlobs(st.chunks, Chunks(data)))
    requires exists c :: c in Chunks(data) && !(w.sha(c) in st.chunks && st.chunks[w.sha(c)] == c)
    ensures FromManifest(w, st, Raw(w, data)).None?
  {
    var m := Manifest(w.sha(data), |data|, Names(w, Chunks(data)));
    assert w.parse(Raw(w, data)) == Some(ManifestJson(m));
    PlanOfManifest(m);
    if Gather(w, st, ChunkPlan(w, Chunks(data)), 0, []).Some? {
      forall c | c in Chunks(data)
        ensures w.sha(c) in st.chunks && st.chunks[w.sha(c)] == c
      {
        GatherNeedsChunks(w, st, Chunks(data), c);
      }
      assert false;
    }
  }

  /** Main result: into whatever store a snapshot is installed, damaged or not, its digest reads
      back exactly its bytes if and only if it is within the reader's bounds and every file that
      was already under a name of its chunks holds that chunk; otherwise the reader refuses. */
  lemma InstallReadsBackAnywhere(w: World, st: Store, data: Bytes)
    requires Faithful(w) && CollisionFree(w, ChunkBlobs(st.chunks, Chunks(data)))
    ensures Reading(w, Installed(w, st, data), SnapshotDigest(w, data))
         == if Fits(w, data) && Undamaged(w, st.chunks, Chunks(data)) then Some(data) else None
  {
    var after := Installed(w, st, data);
    PutChunksAddsNoBlob(w, st.chunks, Chunks(data));
    if Undamaged(w, st.chunks, Chunks(data)) {
      ManifestReadsBack(w, after, data);
    } else {
      DamagedIsRefused(w, after, data);
    }
  }

  /** The manifest of an installed snapshot kept as a legacy object. */
  function LegacyCopy(w: World, data: Bytes): Store {
    Store(map[], map[], map[], map[SnapshotDigest(w, data) := Raw(w, data)])
  }

  /** Every snapshot within the bounds gives such a pair of stores: the vault it was installed in
      answers with the snapshot, a legacy copy of its manifest with the manifest. */
  lemma LegacyCopyAnswersDifferently(w: World, data: Bytes)
    requires Faithful(w) && CollisionFree(w, Stored(w, [data])) && Fits(w, data)
    ensures Reading(w, After(w, [data]), SnapshotDigest(w, data)) == Some(data)
    ensures Reading(w, LegacyCopy(w, data), SnapshotDigest(w, data)) == Some(Raw(w, data))
    ensures Reading(w, After(w, [data]), SnapshotDigest(w, data))
      == Reading(w, LegacyCopy(w, data), SnapshotDigest(w, data))
      <==> Raw(w, data) == data
    ensures CollisionFree(w, After(w, [data]).Blobs() + LegacyCopy(w, data).Blobs())
  {
    InstallsReadBack(w, [data], 0);
    StoredMeansStored(w, [data]);
    AfterKeeps(w, [data], Stored(w, [data]));
    OnlyChunksAndManifests(w, [data]);
    assert LegacyCopy(w, data).objects[SnapshotDigest(w, data)] == Raw(w, data);
    assert forall x :: x in After(w, [data]).Blobs() + LegacyCopy(w, data).Blobs() ==> x in Stored(w, [data]);
  }

  lemma {:induction false} OnlyChunksAndManifests(w: World, installs: seq<Bytes>)
    ensures After(w, installs).records == map[] && After(w, installs).objects == map[]
  {
    if installs != [] {
      OnlyChunksAndManifests(w, installs[..|installs| - 1]);
    }
  }

  // ---------------------------------------------------------------------------------
  // Reuse between versions

  ghost predicate SameStart<T>(a: seq<T>, b: seq<T>, n: nat) { n <= |a| && n <= |b| && a[..n] == b[..n] }

  lemma SameStartGrows<T>(x: T, a: seq<T>, b: seq<T>, n: nat)
    requires SameStart(a, b, n)
    ensures SameStart([x] + a, [x] + b, n + 1)
  {
    assert ([x] + a)[..n + 1] == [x] + a[..n] && ([x] + b)[..n + 1] == [x] + b[..n];
  }

  lemma {:induction false} FullChunksShared(data: Bytes, more: Bytes)
    ensures SameStart(Chunks(data), Chunks(data + more), |data| / CHUNK_BYTES)
  {
    if |data| >= CHUNK_BYTES {
      var rest := data[CHUNK_BYTES..];
      FullChunksShared(rest, more);
      assert (data + more)[..CHUNK_BYTES] == data[..CHUNK_BYTES];
      assert (data + more)[CHUNK_BYTES..] == rest + more;
      OneChunkMore(data);
      OneChunkMore(data + more);
      SameStartGrows(data[..CHUNK_BYTES], Chunks(rest), Chunks(rest + more), |rest| / CHUNK_BYTES);
    }
  }

  lemma OneChunkMore(data: Bytes)
    requires |data| >= CHUNK_BYTES
    ensures Chunks(data) == [data[..CHUNK_BYTES]] + Chunks(data[CHUNK_BYTES..])
    ensures |data[CHUNK_BYTES..]| / CHUNK_BYTES == |data| / CHUNK_BYTES - 1
  {
    assert |data| == CHUNK_BYTES ==> data[..CHUNK_BYTES] == data;
  }

  lemma {:induction false} NewFilesComeFrom(w: World, files: map<string, Bytes>, chunks: seq<Bytes>, n: nat)
    requires n <= |chunks| && forall k :: 0 <= k < n ==> w.sha(chunks[k]) in files
    ensures |PutChunks(w, files, chunks)| <= |files| + |chunks| - n
    ensures forall name :: name in files ==>
      name in PutChunks(w, files, chunks) && PutChunks(w, files, chunks)[name] == files[name]
  {
    if chunks != [] {
      var front := chunks[..|chunks| - 1];
      NewFilesComeFrom(w, files, front, if n < |chunks| then n else n - 1);
      assert n == |chunks| ==> w.sha(chunks[n - 1]) in files;
    }
  }

  /** A version that extends an installed one shares every full chunk of it: the two
      manifests name the same chunks there, and installing it writes files only for the rest. */
  lemma ExtensionReusesChunks(w: World, installs: seq<Bytes>, i: nat, more: Bytes)
    requires CollisionFree(w, Stored(w, installs)) && i < |installs|
    ensures var data := installs[i];
            var full := |data| / CHUNK_BYTES;
            var before := After(w, installs).chunks;
            var after := After(w, installs + [data + more]).chunks;
            && SameStart(Names(w, Chunks(data)), Names(w, Chunks(data + more)), full)
            && Extends(before, after)
            && |after| <= |before| + |Chunks(data + more)| - full
  {
    var data, full := installs[i], |installs[i]| / CHUNK_BYTES;
    StoredMeansStored(w, installs);
    AfterKeeps(w, installs, Stored(w, installs));
    assert InPlace(w, After(w, installs), data);
    SharedChunksNotRewritten(w, After(w, installs), data, more);
    SharedNames(w, data, more);
    AfterOneMore(w, installs, data + more);
  }

  lemma AfterOneMore(w: World, installs: seq<Bytes>, data: Bytes)
    ensures After(w, installs + [data]) == Installed(w, After(w, installs), data)
  {
    assert (installs + [data])[..|installs|] == installs;
  }

  lemma SharedNames(w: World, data: Bytes, more: Bytes)
    ensures SameStart(Names(w, Chunks(data)), Names(w, Chunks(data + more)), |data| / CHUNK_BYTES)
  {
    FullChunksShared(data, more);
    SameChunksSameNames(w, Chunks(data), Chunks(data + more), |data| / CHUNK_BYTES);
  }

  lemma SameChunksSameNames(w: World, a: seq<Bytes>, b: seq<Bytes>, n: nat)
    requires SameStart(a, b, n)
    ensures SameStart(Names(w, a), Names(w, b), n)
  {
    forall k | 0 <= k < n
      ensures a[k] == b[k]
    {
      assert a[..n][k] == b[..n][k];
    }
  }

  lemma SharedChunksNotRewritten(w: World, st: Store, data: Bytes, more: Bytes)
    requires forall c :: c in Chunks(data) ==> w.sha(c) in st.chunks
    ensures var after := PutChunks(w, st.chunks, Chunks(data + more));
            Extends(st.chunks, after) && |after| <= |st.chunks| + |Chunks(data + more)| - |data| / CHUNK_BYTES
  {
    FullChunksShared(data, more);
    NewFilesAreFewer(w, st, Chunks(data), Chunks(data + more), |data| / CHUNK_BYTES);
  }

  lemma NewFilesAreFewer(w: World, st: Store, a: seq<Bytes>, b: seq<Bytes>, n: nat)
    requires SameStart(a, b, n) && forall c :: c in a ==> w.sha(c) in st.chunks
    ensures Extends(st.chunks, PutChunks(w, st.chunks, b))
    ensures |PutChunks(w, st.chunks, b)| <= |st.chunks| + |b| - n
  {
    forall k | 0 <= k < n
      ensures w.sha(b[k]) in st.chunks
    {
      assert b[k] == b[..n][k] == a[..n][k] == a[k];
    }
    NewFilesComeFrom(w, st.chunks, b, n);
  }

  // ---------------------------------------------------------------------------------
  // Version 2: one object per record

  /** The lines with newlines between them, and one after the last if `trailing`. */
  function JoinLines(lines: seq<Bytes>, trailing: bool): Bytes {
    if lines == [] then []
    else if |lines| == 1 then lines[0] + if trailing then [10] else []
    else lines[0] + [10] + JoinLines(lines[1..], trailing)
  }

  function RecordsJson(w: World, lines: seq<Bytes>, trailing: bool): map<string, Json> {
    map["schema_version" := Int(2), "trailing_newline" := Bool(trailing), "records" := Arr(References(Names(w, lines)))]
  }

  function RecordPlan(w: World, lines: seq<Bytes>, trailing: bool): Plan {
    Plan(References(Names(w, lines)), false, trailing)
  }

  ghost predicate RecordsInPlace(w: World, st: Store, lines: seq<Bytes>) {
    forall line :: line in lines ==>
      |line| <= MAX_TRANSIT_BYTES && w.sha(line) in st.records && st.records[w.sha(line)] == line
  }

  lemma PartIsLine(w: World, st: Store, lines: seq<Bytes>, trailing: bool, i: nat)
    requires Faithful(w) && RecordsInPlace(w, st, lines) && i < |lines|
    ensures Part(w, st, RecordPlan(w, lines, trailing), i)
      == Some(lines[i] + if trailing || i + 1 < |lines| then [10] else [])
  {
    assert lines[i] in lines;
  }

  lemma JoinLinesStep(lines: seq<Bytes>, trailing: bool, i: nat, data: Bytes)
    requires i < |lines|
    ensures var part := lines[i] + if trailing || i + 1 < |lines| then [10] else [];
      && |JoinLines(lines[i..], trailing)| == |part| + |JoinLines(lines[i + 1..], trailing)|
      && data + JoinLines(lines[i..], trailing) == data + part + JoinLines(lines[i + 1..], trailing)
  {
    assert lines[i..][1..] == lines[i + 1..];
  }

  lemma {:induction false} GatherLines(w: World, st: Store, lines: seq<Bytes>, trailing: bool, i: nat, data: Bytes)
    requires Faithful(w) && RecordsInPlace(w, st, lines) && i <= |lines|
    requires |data| + |JoinLines(lines[i..], trailing)| <= MAX_TRANSIT_BYTES
    ensures Gather(w, st, RecordPlan(w, lines, trailing), i, data) == Some(data + JoinLines(lines[i..], trailing))
    decreases |lines| - i
  {
    if i < |lines| {
      PartIsLine(w, st, lines, trailing, i);
      JoinLinesStep(lines, trailing, i, data);
      GatherLines(w, st, lines, trailing, i + 1, data + (lines[i] + if trailing || i + 1 < |lines| then [10] else []));
    } else {
      assert data + JoinLines(lines[i..], trailing) == data;
    }
  }

  lemma PlanOfRecords(w: World, lines: seq<Bytes>, trailing: bool)
    requires |lines| <= MAX_RECORDS
    ensures PlanOf(RecordsJson(w, lines, trailing)) == Some(RecordPlan(w, lines, trailing))
  {
  }

  lemma RecordsCheck(w: World, lines: seq<Bytes>, trailing: bool, data: Bytes)
    ensures Checks(w, RecordsJson(w, lines, trailing), false, data)
  {
  }

  /** A record manifest whose objects are in place reads back as its lines. */
  lemma RecordsReadBack(w: World, st: Store, sha: string, lines: seq<Bytes>, trailing: bool)
    requires Faithful(w) && RecordsInPlace(w, st, lines) && |lines| <= MAX_RECORDS
    requires sha in st.manifests && w.sha(st.manifests[sha]) == sha && |st.manifests[sha]| <= MAX_MANIFEST_BYTES
    requires w.parse(st.manifests[sha]) == Some(Obj(RecordsJson(w, lines, trailing)))
    requires |JoinLines(lines, trailing)| <= MAX_TRANSIT_BYTES
    ensures Reading(w, st, sha) == Some(JoinLines(lines, trailing))
  {
    PlanOfRecords(w, lines, trailing);
    RecordsCheck(w, lines, trailing, JoinLines(lines, trailing));
    assert lines[0..] == lines && [] + JoinLines(lines, trailing) == JoinLines(lines, trailing);
    GatherLines(w, st, lines, trailing, 0, []);
  }
}
