/** What the vault's reader answers, said of the files alone: a reference that knows nothing of the
    loop that grows the snapshot. */
module VaultMeaning {
  import opened Wrappers
  import opened Json
  import opened Vault
  import Lines

  /** A manifest of version 3 asks for chunks, any other for records. */
  ghost predicate AsksForChunks(meta: map<string, Json>, references: seq<Json>) {
    && "schema_version" in meta && meta["schema_version"] == Int(3)
    && "bytes" in meta && (exists n :: meta["bytes"] == Int(n) && 0 <= n <= MAX_TRANSIT_BYTES)
    && "chunks" in meta && meta["chunks"] == Arr(references) && |references| <= 512
  }

  ghost predicate AsksForRecords(meta: map<string, Json>, references: seq<Json>, trailing: bool) {
    && ("schema_version" in meta ==> meta["schema_version"] == Int(2))
    && "records" in meta && meta["records"] == Arr(references) && |references| <= MAX_RECORDS
    && (if "trailing_newline" in meta then meta["trailing_newline"] == Bool(trailing) else !trailing)
  }

  ghost predicate Asks(meta: map<string, Json>, plan: Plan) {
    if plan.chunked then !plan.trailing && AsksForChunks(meta, plan.references)
    else AsksForRecords(meta, plan.references, plan.trailing)
  }

  /** The file that a reference names holds this object, and the object has that digest. */
  ghost predicate Supplies(w: World, files: map<string, Bytes>, reference: Json, most: nat, body: Bytes) {
    exists name :: reference == Str(name) && IsDigest(name) && name in files && files[name] == body
      && |body| <= most && w.sha(body) == name
  }

  /** An object as it appears in the snapshot: records have newlines between them. */
  ghost predicate Appears(w: World, st: Store, plan: Plan, i: nat, piece: Bytes)
    requires i < |plan.references|
  {
    if plan.chunked then Supplies(w, st.chunks, plan.references[i], CHUNK_BYTES, piece)
    else if plan.trailing || i + 1 < |plan.references| then
      exists body: Bytes :: Supplies(w, st.records, plan.references[i], MAX_TRANSIT_BYTES, body) && piece == body + [10]
    else Supplies(w, st.records, plan.references[i], MAX_TRANSIT_BYTES, piece)
  }

  ghost predicate AllAppear(w: World, st: Store, plan: Plan, pieces: seq<Bytes>) {
    |pieces| == |plan.references| && forall i: nat :: i < |pieces| ==> Appears(w, st, plan, i, pieces[i])
  }

  /** The snapshot has the size and the digest that the manifest gives; a version 3 manifest gives both. */
  ghost predicate Recorded(w: World, meta: map<string, Json>, chunked: bool, data: Bytes) {
    && ("bytes" in meta ==> meta["bytes"] == Int(|data|))
    && (chunked ==> "source_sha256" in meta)
    && ("source_sha256" in meta ==> IsDigest(w.sha(data)) && meta["source_sha256"] == Str(w.sha(data)))
  }

  lemma PlanMeans(meta: map<string, Json>, plan: Plan)
    ensures PlanOf(meta) == Some(plan) <==> Asks(meta, plan)
  {
    assert (MAX_TRANSIT_BYTES + CHUNK_BYTES - 1) / CHUNK_BYTES == 512;
  }

  lemma PartMeans(w: World, st: Store, plan: Plan, i: nat, piece: Bytes)
    requires i < |plan.references|
    ensures Part(w, st, plan, i) == Some(piece) <==> Appears(w, st, plan, i, piece)
  {
    if Part(w, st, plan, i) == Some(piece) {
      var name := plan.references[i].s;
      var body := plan.Folder(st)[name];
      assert body + [] == body;
      assert Supplies(w, plan.Folder(st), plan.references[i], plan.Cap(), body);
    }
    if Appears(w, st, plan, i, piece) {
      assert piece + [] == piece;
    }
  }

  lemma ConcatFirst(pieces: seq<Bytes>, data: Bytes)
    requires pieces != []
    ensures data + Lines.Concat(pieces) == data + pieces[0] + Lines.Concat(pieces[1..])
  {
  }

  /** What the loop still has to add. */
  ghost predicate Adds(w: World, st: Store, plan: Plan, i: nat, data: Bytes, result: Bytes, pieces: seq<Bytes>) {
    && i <= |plan.references| && |pieces| == |plan.references| - i
    && (forall k: nat :: k < |pieces| ==> Appears(w, st, plan, i + k, pieces[k]))
    && result == data + Lines.Concat(pieces)
  }

  lemma {:induction false} GatherAdds(w: World, st: Store, plan: Plan, i: nat, data: Bytes) returns (pieces: seq<Bytes>)
    requires i <= |plan.references| && |data| <= MAX_TRANSIT_BYTES && Gather(w, st, plan, i, data).Some?
    ensures Adds(w, st, plan, i, data, Gather(w, st, plan, i, data).value, pieces)
    ensures |Gather(w, st, plan, i, data).value| <= MAX_TRANSIT_BYTES
    decreases |plan.references| - i
  {
    if i == |plan.references| {
      pieces := [];
      assert data + [] == data;
    } else {
      var part := Part(w, st, plan, i).value;
      PartMeans(w, st, plan, i, part);
      var rest := GatherAdds(w, st, plan, i + 1, data + part);
      pieces := [part] + rest;
      assert pieces[1..] == rest;
      ConcatFirst(pieces, data);
      forall k: nat | k < |pieces|
        ensures Appears(w, st, plan, i + k, pieces[k])
      {
        if k > 0 {
          var j: nat := k - 1;
          assert Appears(w, st, plan, i + 1 + j, rest[j]);
        }
      }
    }
  }

  lemma {:induction false} AddsGather(w: World, st: Store, plan: Plan, i: nat, data: Bytes, result: Bytes,
      pieces: seq<Bytes>)
    requires Adds(w, st, plan, i, data, result, pieces) && |result| <= MAX_TRANSIT_BYTES
    ensures Gather(w, st, plan, i, data) == Some(result)
    decreases |pieces|
  {
    if pieces == [] {
      assert data + [] == data;
    } else {
      PartMeans(w, st, plan, i, pieces[0]);
      assert Appears(w, st, plan, i + 0, pieces[0]);
      ConcatFirst(pieces, data);
      forall k: nat | k < |pieces[1..]|
        ensures Appears(w, st, plan, i + 1 + k, pieces[1..][k])
      {
        var j: nat := k + 1;
        assert Appears(w, st, plan, i + j, pieces[j]);
      }
      AddsGather(w, st, plan, i + 1, data + pieces[0], result, pieces[1..]);
    }
  }

  lemma ChecksMean(w: World, meta: map<string, Json>, chunked: bool, data: Bytes)
    ensures Checks(w, meta, chunked, data) <==> Recorded(w, meta, chunked, data)
  {
  }

  /** The snapshot that a manifest stands for, with the plan and the pieces that make it up. */
  ghost predicate StandsAs(w: World, st: Store, meta: map<string, Json>, data: Bytes, plan: Plan, pieces: seq<Bytes>) {
    && Asks(meta, plan) && AllAppear(w, st, plan, pieces)
    && data == Lines.Concat(pieces) && |data| <= MAX_TRANSIT_BYTES && Recorded(w, meta, plan.chunked, data)
  }

  ghost predicate StandsFor(w: World, st: Store, meta: map<string, Json>, data: Bytes) {
    exists plan: Plan, pieces: seq<Bytes> :: StandsAs(w, st, meta, data, plan, pieces)
  }

  lemma AllAdd(w: World, st: Store, plan: Plan, pieces: seq<Bytes>, data: Bytes)
    ensures AllAppear(w, st, plan, pieces) && data == Lines.Concat(pieces) <==> Adds(w, st, plan, 0, [], data, pieces)
  {
    var none: Bytes := [];
    assert none + Lines.Concat(pieces) == Lines.Concat(pieces);
    if AllAppear(w, st, plan, pieces) {
      forall k: nat | k < |pieces| ensures Appears(w, st, plan, 0 + k, pieces[k]) { }
    }
    if Adds(w, st, plan, 0, [], data, pieces) {
      forall k: nat | k < |pieces| ensures Appears(w, st, plan, k, pieces[k]) {
        assert Appears(w, st, plan, 0 + k, pieces[k]);
      }
    }
  }

  lemma ReadFromManifest(w: World, st: Store, meta: map<string, Json>, raw: Bytes, data: Bytes)
    requires w.parse(raw) == Some(Obj(meta)) && FromManifest(w, st, raw) == Some(data)
    ensures StandsFor(w, st, meta, data)
  {
    var plan := PlanOf(meta).value;
    PlanMeans(meta, plan);
    var pieces := GatherAdds(w, st, plan, 0, []);
    AllAdd(w, st, plan, pieces, data);
    ChecksMean(w, meta, plan.chunked, data);
    assert StandsAs(w, st, meta, data, plan, pieces);
  }

  lemma ManifestIsRead(w: World, st: Store, meta: map<string, Json>, raw: Bytes, data: Bytes)
    requires w.parse(raw) == Some(Obj(meta)) && StandsFor(w, st, meta, data)
    ensures FromManifest(w, st, raw) == Some(data)
  {
    var plan: Plan, pieces: seq<Bytes> :| StandsAs(w, st, meta, data, plan, pieces);
    PlanMeans(meta, plan);
    ChecksMean(w, meta, plan.chunked, data);
    AllAdd(w, st, plan, pieces, data);
    AddsGather(w, st, plan, 0, [], data, pieces);
  }

  /** Main result: exactly what the reader answers under a digest that has a manifest, and under one
      that has only a legacy object. Everything else it refuses. */
  lemma ReadingMeans(w: World, st: Store, sha: string, data: Bytes)
    ensures Reading(w, st, sha) == Some(data) <==>
      IsDigest(sha) &&
      if sha in st.manifests then
        var raw := st.manifests[sha];
        && |raw| <= MAX_MANIFEST_BYTES && w.sha(raw) == sha
        && w.parse(raw).Some? && w.parse(raw).value.Obj? && StandsFor(w, st, w.parse(raw).value.fields, data)
      else sha in st.objects && st.objects[sha] == data && |data| <= MAX_TRANSIT_BYTES && w.sha(data) == sha
  {
    if sha in st.manifests {
      var raw := st.manifests[sha];
      if w.parse(raw).Some? && w.parse(raw).value.Obj? {
        var meta := w.parse(raw).value.fields;
        if FromManifest(w, st, raw) == Some(data) { ReadFromManifest(w, st, meta, raw, data); }
        if StandsFor(w, st, meta, data) { ManifestIsRead(w, st, meta, raw, data); }
      }
    }
  }
}
