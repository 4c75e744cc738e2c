/** Scene parameters: `packArrays` of media/render.ts splits arrays that are too long for the
    host, `unpackArrays` of media/lib/stage.ts joins them again. */
module PackArrays {
  import opened Wrappers

  const MAX := 128
  const CHUNKS := "$chunks"

  /** A JSON value; scalars are opaque. */
  datatype Tree = Scalar(text: string) | Arr(items: seq<Tree>) | Obj(members: seq<Member>)

  datatype Member = Member(key: string, value: Tree)

  function ChunksOf(items: seq<Tree>): seq<Tree>
    decreases |items|
  {
    if |items| <= MAX then if items == [] then [] else [Arr(items)]
    else [Arr(items[..MAX])] + ChunksOf(items[MAX..])
  }

  /** The loop that pushes slices of MAX items. */
  method PushChunks(items: seq<Tree>) returns (chunks: seq<Tree>)
    ensures chunks == ChunksOf(items)
  {
    chunks := [];
    var i := 0;
    assert items[0..] == items;
    while i < |items|
      invariant i >= 0 && chunks + (if i <= |items| then ChunksOf(items[i..]) else []) == ChunksOf(items)
      decreases |items| - i
    {
      var end := if i + MAX < |items| then i + MAX else |items|;
      if i + MAX < |items| {
        assert items[i..][..MAX] == items[i..end] && items[i..][MAX..] == items[i + MAX..];
      } else {
        assert items[i..end] == items[i..];
        assert i + MAX == |items| ==> items[i + MAX..] == [];
      }
      chunks := chunks + [Arr(items[i..end])];
      i := i + MAX;
    }
  }

  function Wrap(items: seq<Tree>): Option<Tree> {
    if |items| <= MAX then Some(Arr(items))
    else if |ChunksOf(items)| > MAX then None
    else Some(Obj([Member(CHUNKS, Arr(ChunksOf(items)))]))
  }

  /** `packArrays`; None where it throws. */
  function Pack(t: Tree): Option<Tree> {
    match t
    case Scalar(_) => Some(t)
    case Arr(items) => (match PackItems(items) case None => None case Some(packed) => Wrap(packed))
    case Obj(members) => (match PackMembers(members) case None => None case Some(packed) => Some(Obj(packed)))
  }

  function PackItems(items: seq<Tree>): (r: Option<seq<Tree>>)
    ensures r.Some? ==> |r.value| == |items|
  {
    if items == [] then Some([])
    else match (Pack(items[0]), PackItems(items[1..]))
      case (Some(first), Some(rest)) => Some([first] + rest)
      case (_, _) => None
  }

  function PackMembers(members: seq<Member>): (r: Option<seq<Member>>)
    ensures r.Some? ==> |r.value| == |members|
    ensures r.Some? ==> forall i :: 0 <= i < |members| ==> r.value[i].key == members[i].key
  {
    if members == [] then Some([])
    else match (Pack(members[0].value), PackMembers(members[1..]))
      case (Some(first), Some(rest)) => Some([Member(members[0].key, first)] + rest)
      case (_, _) => None
  }

  /** An object that unpacking takes for a split array. */
  predicate LooksSplit(t: Tree) {
    t.Obj? && |t.members| == 1 && t.members[0].key == CHUNKS && t.members[0].value.Arr?
  }

  /** `unpackArrays`. */
  function Unpack(t: Tree): Tree {
    match t
    case Scalar(_) => t
    case Arr(items) => Arr(UnpackItems(items))
    case Obj(members) =>
      if |members| == 1 && members[0].key == CHUNKS && members[0].value.Arr?
      then Arr(UnpackChunks(members[0].value.items)) else Obj(UnpackMembers(members))
  }

  function UnpackItems(items: seq<Tree>): seq<Tree> {
    if items == [] then [] else [Unpack(items[0])] + UnpackItems(items[1..])
  }

  function UnpackMembers(members: seq<Member>): seq<Member> {
    if members == [] then []
    else [Member(members[0].key, Unpack(members[0].value))] + UnpackMembers(members[1..])
  }

  /** `flat()` opens arrays one level and keeps anything else as it is. */
  function UnpackChunks(chunks: seq<Tree>): seq<Tree> {
    if chunks == [] then []
    else (if chunks[0].Arr? then UnpackItems(chunks[0].items) else [Unpack(chunks[0])]) + UnpackChunks(chunks[1..])
  }

  // ---------------------------------------------------------------------------------
  // What unpacking gives

  /** `flat()`: arrays opened by one level, anything else as it is. */
  function Flat(items: seq<Tree>): seq<Tree> {
    if items == [] then []
    else
      var last := items[|items| - 1];
      Flat(items[..|items| - 1]) + match last case Arr(inner) => inner case Scalar(_) => [last] case Obj(_) => [last]
  }

  /** Item by item, `b` is `a` unpacked. */
  ghost predicate Unpacked(a: seq<Tree>, b: seq<Tree>) {
    |b| == |a| && forall i :: 0 <= i < |a| ==> b[i] == Unpack(a[i])
  }

  lemma {:induction false} ItemsUnpacked(items: seq<Tree>)
    ensures Unpacked(items, UnpackItems(items))
  {
    if items != [] { ItemsUnpacked(items[1..]); }
  }

  lemma {:induction false} MembersUnpacked(members: seq<Member>)
    ensures |UnpackMembers(members)| == |members|
    ensures forall i :: 0 <= i < |members| ==>
      UnpackMembers(members)[i] == Member(members[i].key, Unpack(members[i].value))
  {
    if members != [] { MembersUnpacked(members[1..]); }
  }

  lemma {:induction false} UnpackAppend(a: seq<Tree>, b: seq<Tree>)
    ensures UnpackItems(a + b) == UnpackItems(a) + UnpackItems(b)
  {
    if a == [] {
      assert a + b == b;
    } else {
      assert (a + b)[1..] == a[1..] + b;
      UnpackAppend(a[1..], b);
    }
  }

  lemma {:induction false} FlatAppend(a: seq<Tree>, b: seq<Tree>)
    ensures Flat(a + b) == Flat(a) + Flat(b)
  {
    if b == [] {
      assert a + b == a;
    } else {
      assert (a + b)[..|a + b| - 1] == a + b[..|b| - 1];
      FlatAppend(a, b[..|b| - 1]);
    }
  }

  lemma FlatOne(item: Tree)
    ensures Flat([item]) == if item.Arr? then item.items else [item]
    ensures UnpackItems([item]) == [Unpack(item)]
  {
    assert [item][..0] == [] && [item][1..] == [];
  }

  lemma {:induction false} ChunksAreFlat(chunks: seq<Tree>)
    ensures UnpackChunks(chunks) == UnpackItems(Flat(chunks))
  {
    if chunks != [] {
      ChunksAreFlat(chunks[1..]);
      var first := [chunks[0]];
      assert chunks == first + chunks[1..];
      FlatOne(chunks[0]);
      FlatAppend(first, chunks[1..]);
      UnpackAppend(Flat(first), Flat(chunks[1..]));
    }
  }

  /** Arrays and objects keep their shape, except an object whose only key is `$chunks` over an array:
      it becomes the array of what that one holds one level down. */
  lemma UnpackMeans(t: Tree)
    ensures t.Scalar? ==> Unpack(t) == t
    ensures t.Arr? ==> Unpack(t).Arr? && Unpacked(t.items, Unpack(t).items)
    ensures LooksSplit(t) ==> Unpack(t).Arr? && Unpacked(Flat(t.members[0].value.items), Unpack(t).items)
    ensures t.Obj? && !LooksSplit(t) ==>
      && Unpack(t).Obj? && |Unpack(t).members| == |t.members|
      && forall i :: 0 <= i < |t.members| ==>
           Unpack(t).members[i] == Member(t.members[i].key, Unpack(t.members[i].value))
  {
    match t
    case Scalar(_) =>
    case Arr(items) => ItemsUnpacked(items);
    case Obj(members) =>
      if LooksSplit(t) {
        ChunksAreFlat(members[0].value.items);
        ItemsUnpacked(Flat(members[0].value.items));
      } else {
        MembersUnpacked(members);
      }
  }

  // ---------------------------------------------------------------------------------
  // Size

  /** No array anywhere has more than MAX items. */
  predicate Small(t: Tree) {
    match t
    case Scalar(_) => true
    case Arr(items) => |items| <= MAX && forall i :: 0 <= i < |items| ==> Small(items[i])
    case Obj(members) => forall i :: 0 <= i < |members| ==> Small(members[i].value)
  }

  lemma {:induction false} ChunksSmall(items: seq<Tree>)
    requires forall i :: 0 <= i < |items| ==> Small(items[i])
    ensures forall k :: 0 <= k < |ChunksOf(items)| ==> ChunksOf(items)[k].Arr? && Small(ChunksOf(items)[k])
    decreases |items|
  {
    if |items| > MAX { ChunksSmall(items[MAX..]); }
  }

  /** Whatever packing returns fits: every array in it, chunk lists included. */
  lemma {:induction false} PackedIsSmall(t: Tree)
    requires Pack(t).Some?
    ensures Small(Pack(t).value)
  {
    match t
    case Scalar(_) =>
    case Arr(items) =>
      PackedItemsSmall(items);
      ChunksSmall(PackItems(items).value);
    case Obj(members) => PackedMembersSmall(members);
  }

  lemma {:induction false} PackedItemsSmall(items: seq<Tree>)
    requires PackItems(items).Some?
    ensures forall i :: 0 <= i < |items| ==> Small(PackItems(items).value[i])
  {
    if items != [] {
      PackedIsSmall(items[0]);
      PackedItemsSmall(items[1..]);
    }
  }

  lemma {:induction false} PackedMembersSmall(members: seq<Member>)
    requires PackMembers(members).Some?
    ensures forall i :: 0 <= i < |members| ==> Small(PackMembers(members).value[i].value)
  {
    if members != [] {
      PackedIsSmall(members[0].value);
      PackedMembersSmall(members[1..]);
    }
  }

  /** Only arrays that are too long are split: a tree packs to itself if and only if it has none. */
  lemma {:induction false} SmallStays(t: Tree)
    ensures Pack(t) == Some(t) <==> Small(t)
  {
    match t
    case Scalar(_) =>
    case Arr(items) => SmallItemsStay(items);
    case Obj(members) => SmallMembersStay(members);
  }

  lemma {:induction false} SmallItemsStay(items: seq<Tree>)
    ensures PackItems(items) == Some(items) <==> forall i :: 0 <= i < |items| ==> Small(items[i])
  {
    if items != [] {
      SmallStays(items[0]);
      SmallItemsStay(items[1..]);
      assert items == [items[0]] + items[1..];
    }
  }

  lemma {:induction false} SmallMembersStay(members: seq<Member>)
    ensures PackMembers(members) == Some(members) <==> forall i :: 0 <= i < |members| ==> Small(members[i].value)
  {
    if members != [] {
      SmallStays(members[0].value);
      SmallMembersStay(members[1..]);
      assert members == [members[0]] + members[1..];
    }
  }

  // ---------------------------------------------------------------------------------
  // Round trip

  lemma {:induction false} ChunksUnpack(items: seq<Tree>)
    ensures UnpackChunks(ChunksOf(items)) == UnpackItems(items)
    decreases |items|
  {
    if |items| > MAX {
      ChunksUnpack(items[MAX..]);
      assert ChunksOf(items)[1..] == ChunksOf(items[MAX..]);
      UnpackAppend(items[..MAX], items[MAX..]);
      assert items == items[..MAX] + items[MAX..];
    } else if items != [] {
      assert ChunksOf(items)[1..] == [];
    }
  }

  /** No object in the tree that packing would leave looking like a split array. */
  predicate Clean(t: Tree) {
    match t
    case Scalar(_) => true
    case Arr(items) => forall i :: 0 <= i < |items| ==> Clean(items[i])
    case Obj(members) =>
      && !(LooksSplit(t) && |members[0].value.items| <= MAX)
      && forall i :: 0 <= i < |members| ==> Clean(members[i].value)
  }

  /** Main result: unpacking undoes packing exactly for the clean trees. */
  lemma {:induction false} UnpackUndoesPack(t: Tree)
    requires Pack(t).Some?
    ensures Unpack(Pack(t).value) == t <==> Clean(t)
  {
    match t
    case Scalar(_) =>
    case Arr(items) =>
      UnpackUndoesItems(items);
      var packed := PackItems(items).value;
      ChunksUnpack(packed);
      assert Unpack(Pack(t).value) == Arr(UnpackItems(packed));
    case Obj(members) =>
      UnpackUndoesMembers(members);
      var packed := PackMembers(members).value;
      if |members| == 1 { OneMember(members); }
      assert LooksSplit(Obj(packed)) <==> LooksSplit(t) && |members[0].value.items| <= MAX;
  }

  lemma NothingInside(items: seq<Tree>, members: seq<Member>)
    requires items == [] && members == []
    ensures Pack(Arr(items)) == Some(Arr(items)) && PackMembers(members) == Some(members)
    ensures UnpackChunks(items) == []
  {
  }

  /** The smallest tree that does not come back: an empty list of chunks is read as a split array. */
  lemma LoneChunksAreLost(t: Tree)
    requires t == Obj([Member(CHUNKS, Arr([]))])
    ensures Pack(t) == Some(t) && !Clean(t) && Unpack(t) == Arr([])
  {
    var members := t.members;
    NothingInside(members[0].value.items, members[1..]);
    assert PackMembers(members) == Some(members) by {
      assert [Member(members[0].key, members[0].value)] + members[1..] == members;
    }
    assert LooksSplit(t);
  }

  lemma OneMember(members: seq<Member>)
    requires |members| == 1 && PackMembers(members).Some?
    ensures Pack(members[0].value) == Some(PackMembers(members).value[0].value)
    ensures PackMembers(members).value[0].value.Arr? <==> members[0].value.Arr? && |members[0].value.items| <= MAX
  {
    assert members[1..] == [];
  }

  lemma {:induction false} UnpackUndoesItems(items: seq<Tree>)
    requires PackItems(items).Some?
    ensures UnpackItems(PackItems(items).value) == items <==> forall i :: 0 <= i < |items| ==> Clean(items[i])
  {
    if items != [] {
      UnpackUndoesPack(items[0]);
      UnpackUndoesItems(items[1..]);
      var packed := PackItems(items).value;
      assert packed[1..] == PackItems(items[1..]).value;
      assert items == [items[0]] + items[1..];
      assert (forall i :: 0 <= i < |items| ==> Clean(items[i])) <==>
             Clean(items[0]) && forall i :: 0 <= i < |items[1..]| ==> Clean(items[1..][i]);
    }
  }

  lemma {:induction false} UnpackUndoesMembers(members: seq<Member>)
    requires PackMembers(members).Some?
    ensures UnpackMembers(PackMembers(members).value) == members
       <==> forall i :: 0 <= i < |members| ==> Clean(members[i].value)
  {
    if members != [] {
      UnpackUndoesPack(members[0].value);
      UnpackUndoesMembers(members[1..]);
      UnpackMembersFirst(members);
      assert members == [members[0]] + members[1..];
      assert forall i :: 0 < i < |members| ==> members[i] == members[1..][i - 1];
      assert forall i :: 0 <= i < |members[1..]| ==> members[1..][i] == members[i + 1];
    }
  }

  lemma UnpackMembersFirst(members: seq<Member>)
    requires members != [] && PackMembers(members).Some?
    ensures Pack(members[0].value).Some? && PackMembers(members[1..]).Some?
    ensures UnpackMembers(PackMembers(members).value)
         == [Member(members[0].key, Unpack(Pack(members[0].value).value))]
           + UnpackMembers(PackMembers(members[1..]).value)
  {
    assert PackMembers(members).value[1..] == PackMembers(members[1..]).value;
  }

  // ---------------------------------------------------------------------------------
  // When packing throws

  /** Every array fits in MAX chunks of MAX items. */
  predicate Packable(t: Tree) {
    match t
    case Scalar(_) => true
    case Arr(items) => |items| <= MAX * MAX && forall i :: 0 <= i < |items| ==> Packable(items[i])
    case Obj(members) => forall i :: 0 <= i < |members| ==> Packable(members[i].value)
  }

  lemma {:induction false} ChunkCount(items: seq<Tree>)
    ensures |ChunksOf(items)| == (|items| + MAX - 1) / MAX
    decreases |items|
  {
    if |items| > MAX { ChunkCount(items[MAX..]); }
  }

  lemma {:induction false} PackThrows(t: Tree)
    ensures Pack(t).Some? <==> Packable(t)
  {
    match t
    case Scalar(_) =>
    case Arr(items) =>
      PackItemsThrows(items);
      if PackItems(items).Some? { ChunkCount(PackItems(items).value); }
    case Obj(members) => PackMembersThrows(members);
  }

  lemma {:induction false} PackItemsThrows(items: seq<Tree>)
    ensures PackItems(items).Some? <==> forall i :: 0 <= i < |items| ==> Packable(items[i])
  {
    if items != [] {
      PackThrows(items[0]);
      PackItemsThrows(items[1..]);
      assert (forall i :: 0 <= i < |items| ==> Packable(items[i])) <==>
             Packable(items[0]) && forall i :: 0 <= i < |items[1..]| ==> Packable(items[1..][i]);
    }
  }

  lemma {:induction false} PackMembersThrows(members: seq<Member>)
    ensures PackMembers(members).Some? <==> forall i :: 0 <= i < |members| ==> Packable(members[i].value)
  {
    if members != [] {
      PackThrows(members[0].value);
      PackMembersThrows(members[1..]);
      assert (forall i :: 0 <= i < |members| ==> Packable(members[i].value)) <==>
             Packable(members[0].value) && forall i :: 0 <= i < |members[1..]| ==> Packable(members[1..][i].value);
    }
  }
}
