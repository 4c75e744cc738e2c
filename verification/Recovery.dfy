/** crates/gobstopper-adapters/src/recovery.rs: searching a snapshot and reading one record
    of it page by page. The verified snapshot, its digest and the JSON decoder are parameters. */
module Recovery {
  import opened Wrappers
  import opened Json
  import Lines
  import Utf8

  const MAX_RESULTS := 50
  const MAX_QUERY_BYTES := 1024
  const MAX_CONTENT_BYTES := 16 * 1024
  const USIZE_MAX := 0xFFFF_FFFF_FFFF_FFFF

  /** A decoded record. Object members keep their keys, which the search must not look at. */
  datatype Value =
    | Text(text: string)
    | List(items: seq<Value>)
    | Object(members: seq<Member>)
    | Scalar

  datatype Member = Member(key: string, value: Value)

  datatype Error = BadQuery | BadLimit | NoSnapshot | TooManyRecords | NoSuchRecord | NotUtf8 | BadOffset

  // ---------------------------------------------------------------------------------
  // Records

  /** What the records of a snapshot are: its lines, where a final newline ends the last
      line instead of starting another. */
  function TrueRecords(data: Bytes): seq<Bytes> {
    var pieces := Lines.Split(data, NEWLINE);
    if data == [] || data[|data| - 1] == NEWLINE then pieces[..|pieces| - 1] else pieces
  }

  /** The records have no newlines in them, and with newlines between them, and perhaps one at the end,
      they are the snapshot. */
  lemma RecordsMean(data: Bytes)
    ensures var records := TrueRecords(data);
      && (forall i :: 0 <= i < |records| ==> NEWLINE !in records[i]) && (records == [] <==> data == [])
      && (data != [] && data[|data| - 1] != NEWLINE ==> data == Lines.Join(records, [NEWLINE]))
      && (data != [] && data[|data| - 1] == NEWLINE ==> data == Lines.Join(records, [NEWLINE]) + [NEWLINE])
  {
    Lines.SplitClean(data, NEWLINE);
    Lines.JoinSplit(data, NEWLINE);
    if data != [] && data[|data| - 1] == NEWLINE {
      var front := data[..|data| - 1];
      assert data == front + [NEWLINE];
      Lines.SplitEndsClean(front, NEWLINE);
      assert TrueRecords(data) == Lines.Split(front, NEWLINE);
      Lines.JoinSplit(front, NEWLINE);
    }
  }

  /** `records`: takes at most MAX_ITEMS + 2 pieces, drops the piece after a final newline,
      and refuses what is still too long. */
  method Records(data: Bytes) returns (r: Result<seq<Bytes>, Error>)
    ensures r == if |TrueRecords(data)| > MAX_ITEMS then Err(TooManyRecords) else Ok(TrueRecords(data))
  {
    var lines: seq<Bytes> := [];
    if data != [] {
      var pieces := Lines.Split(data, NEWLINE);
      lines := if |pieces| <= MAX_ITEMS + 2 then pieces else pieces[..MAX_ITEMS + 2];
    }
    if data != [] && data[|data| - 1] == NEWLINE {
      Lines.SplitEndsClean(data[..|data| - 1], NEWLINE);
      assert data == data[..|data| - 1] + [NEWLINE];
      lines := lines[..|lines| - 1];
    }
    if |lines| > MAX_ITEMS {
      return Err(TooManyRecords);
    }
    return Ok(lines);
  }

  // ---------------------------------------------------------------------------------
  // Counting matches

  /** `text.matches(query).count()`: from left to right, each match after the one before. */
  function MatchCount(text: string, query: string): nat
    requires query != ""
    decreases |text|
  {
    if |text| < |query| then 0
    else if Lines.OccursAt(text, query, 0) then 1 + MatchCount(text[|query|..], query)
    else MatchCount(text[1..], query)
  }

  /** Places where the query occurs, none overlapping the next. */
  ghost predicate Disjoint(text: string, query: string, places: seq<int>) {
    && (forall k :: 0 <= k < |places| ==> Lines.OccursAt(text, query, places[k]))
    && (forall k :: 0 < k < |places| ==> places[k - 1] + |query| <= places[k])
  }

  function Shift(places: seq<int>, delta: int): seq<int> {
    seq(|places|, i requires 0 <= i < |places| => places[i] + delta)
  }

  lemma ShiftDisjoint(text: string, query: string, places: seq<int>, cut: nat)
    requires cut <= |text| && Disjoint(text, query, places) && (places != [] ==> places[0] >= cut)
    ensures Disjoint(text[cut..], query, Shift(places, 0 - cut))
  {
    forall k | 0 <= k < |places|
      ensures places[k] >= cut && Lines.OccursAt(text[cut..], query, places[k] - cut)
    {
      FirstIsLeast(text, query, places, k);
      OccursAfter(text, query, places[k], cut);
    }
  }

  lemma OccursAfter(text: string, query: string, i: int, cut: nat)
    requires cut <= i && cut <= |text| && Lines.OccursAt(text, query, i)
    ensures Lines.OccursAt(text[cut..], query, i - cut)
  {
    assert text[cut..][i - cut..i - cut + |query|] == text[i..i + |query|];
  }

  lemma {:induction false} FirstIsLeast(text: string, query: string, places: seq<int>, k: nat)
    requires Disjoint(text, query, places) && k < |places|
    ensures places[0] <= places[k]
    ensures k > 0 ==> places[0] + |query| <= places[k]
  {
    if k > 0 { FirstIsLeast(text, query, places, k - 1); }
  }

  /** No way of picking disjoint occurrences beats the greedy count... */
  lemma {:induction false} GreedyIsMost(text: string, query: string, places: seq<int>)
    requires query != "" && Disjoint(text, query, places)
    ensures |places| <= MatchCount(text, query)
    decreases |text|
  {
    if places == [] {
    } else if Lines.OccursAt(text, query, 0) {
      if |places| > 1 { FirstIsLeast(text, query, places, 1); }
      ShiftDisjoint(text, query, places[1..], |query|);
      GreedyIsMost(text[|query|..], query, Shift(places[1..], 0 - |query|));
    } else {
      assert Lines.OccursAt(text, query, places[0]);
      ShiftDisjoint(text, query, places, 1);
      GreedyIsMost(text[1..], query, Shift(places, 0 - 1));
    }
  }

  /** ...and the greedy count is reached. */
  lemma {:induction false} GreedyIsReached(text: string, query: string) returns (places: seq<int>)
    requires query != ""
    ensures Disjoint(text, query, places) && |places| == MatchCount(text, query)
    decreases |text|
  {
    if |text| < |query| {
      places := [];
    } else {
      var cut := if Lines.OccursAt(text, query, 0) then |query| else 1;
      var rest := GreedyIsReached(text[cut..], query);
      Unshift(text, query, rest, cut);
      places := (if Lines.OccursAt(text, query, 0) then [0] else []) + Shift(rest, cut);
      if Lines.OccursAt(text, query, 0) && rest != [] { assert Lines.OccursAt(text[cut..], query, rest[0]); }
    }
  }

  lemma Unshift(text: string, query: string, places: seq<int>, cut: nat)
    requires cut <= |text| && Disjoint(text[cut..], query, places)
    ensures Disjoint(text, query, Shift(places, cut))
  {
    forall k | 0 <= k < |places|
      ensures Lines.OccursAt(text, query, places[k] + cut)
    {
      OccursBefore(text, query, places[k], cut);
    }
  }

  lemma OccursBefore(text: string, query: string, i: int, cut: nat)
    requires cut <= |text| && Lines.OccursAt(text[cut..], query, i)
    ensures Lines.OccursAt(text, query, i + cut)
  {
    assert text[cut..][i..i + |query|] == text[i + cut..i + cut + |query|];
  }

  function StringMatches(value: Value, query: string): nat
    requires query != ""
  {
    match value
    case Text(text) => MatchCount(text, query)
    case List(items) => ItemMatches(items, query)
    case Object(members) => MemberMatches(members, query)
    case Scalar => 0
  }

  function ItemMatches(items: seq<Value>, query: string): nat
    requires query != ""
  {
    if items == [] then 0 else StringMatches(items[0], query) + ItemMatches(items[1..], query)
  }

  function MemberMatches(members: seq<Member>, query: string): nat
    requires query != ""
  {
    if members == [] then 0 else StringMatches(members[0].value, query) + MemberMatches(members[1..], query)
  }

  /** The string values of a record, wherever they are; keys are not among them. */
  function Strings(value: Value): seq<string> {
    match value
    case Text(text) => [text]
    case List(items) => ItemStrings(items)
    case Object(members) => MemberStrings(members)
    case Scalar => []
  }

  function ItemStrings(items: seq<Value>): seq<string> {
    if items == [] then [] else Strings(items[0]) + ItemStrings(items[1..])
  }

  function MemberStrings(members: seq<Member>): seq<string> {
    if members == [] then [] else Strings(members[0].value) + MemberStrings(members[1..])
  }

  function TotalMatches(texts: seq<string>, query: string): nat
    requires query != ""
  {
    if texts == [] then 0 else MatchCount(texts[0], query) + TotalMatches(texts[1..], query)
  }

  lemma {:induction false} TotalAppend(a: seq<string>, b: seq<string>, query: string)
    requires query != ""
    ensures TotalMatches(a + b, query) == TotalMatches(a, query) + TotalMatches(b, query)
  {
    if a == [] {
      assert a + b == b;
    } else {
      assert (a + b)[1..] == a[1..] + b;
      TotalAppend(a[1..], b, query);
    }
  }

  /** The count depends on the string values alone. */
  lemma {:induction false} OnlyStringsCount(value: Value, query: string)
    requires query != ""
    ensures StringMatches(value, query) == TotalMatches(Strings(value), query)
  {
    match value
    case Text(text) => assert [text][1..] == [];
    case List(items) => OnlyItemStringsCount(items, query);
    case Object(members) => OnlyMemberStringsCount(members, query);
    case Scalar =>
  }

  lemma {:induction false} OnlyItemStringsCount(items: seq<Value>, query: string)
    requires query != ""
    ensures ItemMatches(items, query) == TotalMatches(ItemStrings(items), query)
  {
    if items != [] {
      OnlyStringsCount(items[0], query);
      OnlyItemStringsCount(items[1..], query);
      TotalAppend(Strings(items[0]), ItemStrings(items[1..]), query);
    }
  }

  lemma {:induction false} OnlyMemberStringsCount(members: seq<Member>, query: string)
    requires query != ""
    ensures MemberMatches(members, query) == TotalMatches(MemberStrings(members), query)
  {
    if members != [] {
      OnlyStringsCount(members[0].value, query);
      OnlyMemberStringsCount(members[1..], query);
      TotalAppend(Strings(members[0].value), MemberStrings(members[1..]), query);
    }
  }

  // ---------------------------------------------------------------------------------
  // Search

  datatype RecordMatch = RecordMatch(index: nat, sha: string, bytes: nat, count: nat)

  datatype SearchResult = SearchResult(matches: seq<RecordMatch>, matched: nat, unsearchable: nat, truncated: bool)

  /** The digest function and `decode_record`; None where it refuses the text. */
  datatype World = World(sha: Bytes -> string, decode: Bytes -> Option<Value>)

  function Decoded(w: World, line: Bytes): Option<Value> {
    if Utf8.Valid(line) then w.decode(line) else None
  }

  /** The records that match, in order. */
  function Hits(w: World, query: string, lines: seq<Bytes>): seq<RecordMatch>
    requires query != ""
  {
    if lines == [] then []
    else
      var n := |lines| - 1;
      var value := Decoded(w, lines[n]);
      Hits(w, query, lines[..n]) +
      if value.Some? && StringMatches(value.value, query) > 0
      then [RecordMatch(n, w.sha(lines[n]), |lines[n]|, StringMatches(value.value, query))] else []
  }

  function Unsearchable(w: World, lines: seq<Bytes>): nat {
    if lines == [] then 0
    else Unsearchable(w, lines[..|lines| - 1]) + if Decoded(w, lines[|lines| - 1]).None? then 1 else 0
  }

  function Capped(hits: seq<RecordMatch>, limit: nat): seq<RecordMatch> {
    if |hits| <= limit then hits else hits[..limit]
  }

  function Found(w: World, query: string, limit: nat, lines: seq<Bytes>): SearchResult
    requires query != ""
  {
    var hits := Hits(w, query, lines);
    SearchResult(Capped(hits, limit), |hits|, Unsearchable(w, lines), |hits| > limit)
  }

  lemma CappedMore(hits: seq<RecordMatch>, hit: RecordMatch, limit: nat)
    ensures Capped(hits + [hit], limit) == if |Capped(hits, limit)| < limit then Capped(hits, limit) + [hit]
                                           else Capped(hits, limit)
  {
  }

  /** One more record, by the way the loop goes on after it. */
  lemma OneMoreRecord(w: World, query: string, lines: seq<Bytes>, line: Bytes)
    requires query != ""
    ensures Unsearchable(w, lines + [line]) == Unsearchable(w, lines) + if Decoded(w, line).None? then 1 else 0
    ensures Hits(w, query, lines + [line]) == Hits(w, query, lines) +
      if Decoded(w, line).Some? && StringMatches(Decoded(w, line).value, query) > 0
      then [RecordMatch(|lines|, w.sha(line), |line|, StringMatches(Decoded(w, line).value, query))] else []
  {
    assert (lines + [line])[..|lines|] == lines;
  }

  /** `search_snapshot`; `queryBytes` is the length of the query in UTF-8. */
  method Search(w: World, snapshot: Option<Bytes>, query: string, queryBytes: nat, limit: nat)
    returns (r: Result<SearchResult, Error>)
    requires query == "" <==> queryBytes == 0
    ensures r ==
      if queryBytes == 0 || queryBytes > MAX_QUERY_BYTES then Err(BadQuery)
      else if limit < 1 || limit > MAX_RESULTS then Err(BadLimit)
      else if snapshot.None? then Err(NoSnapshot)
      else if |TrueRecords(snapshot.value)| > MAX_ITEMS then Err(TooManyRecords)
      else Ok(Found(w, query, limit, TrueRecords(snapshot.value)))
  {
    if query == "" || queryBytes > MAX_QUERY_BYTES {
      return Err(BadQuery);
    }
    if !(1 <= limit <= MAX_RESULTS) {
      return Err(BadLimit);
    }
    if snapshot.None? {
      return Err(NoSnapshot);
    }
    var split := Records(snapshot.value);
    if split.Err? {
      return Err(split.error);
    }
    var lines := split.value;
    var matches: seq<RecordMatch> := [];
    var matched, unsearchable := 0, 0;
    var i := 0;
    while i < |lines|
      invariant i <= |lines|
      invariant matched == |Hits(w, query, lines[..i])|
      invariant matches == Capped(Hits(w, query, lines[..i]), limit)
      invariant unsearchable == Unsearchable(w, lines[..i])
    {
      var line := lines[i];
      ghost var before := lines[..i];
      assert lines[..i + 1] == before + [line];
      OneMoreRecord(w, query, before, line);
      i := i + 1;
      var value := Decoded(w, line);
      if value.None? {
        unsearchable := unsearchable + 1;
        continue;
      }
      var count := StringMatches(value.value, query);
      if count == 0 {
        continue;
      }
      CappedMore(Hits(w, query, before), RecordMatch(i - 1, w.sha(line), |line|, count), limit);
      matched := matched + 1;
      if |matches| < limit {
        matches := matches + [RecordMatch(i - 1, w.sha(line), |line|, count)];
      }
    }
    assert lines[..i] == lines;
    return Ok(SearchResult(matches, matched, unsearchable, matched > |matches|));
  }

  /** Every record is counted as unsearchable once, if its text does not decode. */
  lemma {:induction false} UnsearchableCounts(w: World, lines: seq<Bytes>)
    ensures Unsearchable(w, lines) == |set i | 0 <= i < |lines| && Decoded(w, lines[i]).None?|
  {
    var bad := set i | 0 <= i < |lines| && Decoded(w, lines[i]).None?;
    if lines != [] {
      var n := |lines| - 1;
      UnsearchableCounts(w, lines[..n]);
      var front := set i | 0 <= i < |lines[..n]| && Decoded(w, lines[..n][i]).None?;
      assert bad == if Decoded(w, lines[n]).None? then front + {n} else front;
    }
  }

  ghost predicate Matches(w: World, query: string, lines: seq<Bytes>, i: nat)
    requires query != "" && i < |lines|
  {
    Decoded(w, lines[i]).Some? && StringMatches(Decoded(w, lines[i]).value, query) > 0
  }

  /** The hits are exactly the matching records: each listed once, in order, with its own
      digest, length and count. */
  lemma {:induction false} HitsExact(w: World, query: string, lines: seq<Bytes>)
    requires query != ""
    ensures var hits := Hits(w, query, lines);
            && (forall k :: 0 <= k < |hits| ==>
                  var i := hits[k].index;
                  && i < |lines| && Matches(w, query, lines, i)
                  && hits[k] == RecordMatch(i, w.sha(lines[i]), |lines[i]|,
                       StringMatches(Decoded(w, lines[i]).value, query)))
            && (forall j, k :: 0 <= j < k < |hits| ==> hits[j].index < hits[k].index)
            && (forall i :: 0 <= i < |lines| && Matches(w, query, lines, i) ==>
                 exists k :: 0 <= k < |hits| && hits[k].index == i)
  {
    if lines != [] {
      var n := |lines| - 1;
      HitsExact(w, query, lines[..n]);
      var front, hits := Hits(w, query, lines[..n]), Hits(w, query, lines);
      forall i | 0 <= i < |lines| && Matches(w, query, lines, i)
        ensures exists k :: 0 <= k < |hits| && hits[k].index == i
      {
        if i < n {
          assert Matches(w, query, lines[..n], i);
          var k :| 0 <= k < |front| && front[k].index == i;
          assert hits[k] == front[k];
        } else {
          assert hits[|front|].index == n;
        }
      }
      forall k | 0 <= k < |front|
        ensures hits[k] == front[k] && hits[k].index < n && Matches(w, query, lines, hits[k].index)
      {
        assert Matches(w, query, lines[..n], front[k].index);
      }
    }
  }

  /** A smaller limit lists a prefix of what a larger one lists and counts the same. */
  lemma {:induction false} SmallerLimitListsPrefix(w: World, query: string, lines: seq<Bytes>, small: nat, large: nat)
    requires query != "" && small <= large
    ensures var a, b := Found(w, query, small, lines), Found(w, query, large, lines);
            && a.matches <= b.matches && a.matched == b.matched && a.unsearchable == b.unsearchable
            && (a.truncated <==> |a.matches| < a.matched) && (b.truncated ==> a.truncated)
            && (!a.truncated ==> a == b)
  {
  }

  // ---------------------------------------------------------------------------------
  // Pages

  datatype RecordPage = RecordPage(index: nat, sha: string, bytes: nat, offset: nat, next: Option<nat>, content: Bytes)

  function SaturatingAdd(a: nat, b: nat): nat {
    if a + b > USIZE_MAX then USIZE_MAX else a + b
  }

  function Least(a: nat, b: nat): nat { if a < b then a else b }

  /** The page of a text from an offset: it ends at the last character boundary within the limit. */
  function PageOf(w: World, text: Bytes, index: nat, offset: nat, maxBytes: nat): RecordPage
    requires offset <= |text| <= USIZE_MAX && Utf8.IsBoundary(text, offset)
  {
    var end := Utf8.BoundaryBefore(text, Least(SaturatingAdd(offset, maxBytes), |text|));
    RecordPage(index, w.sha(text), |text|, offset, if end < |text| then Some(end) else None, text[offset..end])
  }

  /** The record the reader may page through. */
  function TextOf(snapshot: Option<Bytes>, index: nat, maxBytes: nat): (r: Result<Bytes, Error>)
    ensures r.Ok? ==> snapshot.Some? && |r.value| <= |snapshot.value| && Utf8.Valid(r.value)
  {
    if !(4 <= maxBytes <= MAX_CONTENT_BYTES) then Err(BadLimit)
    else if snapshot.None? then Err(NoSnapshot)
    else
      var lines := TrueRecords(snapshot.value);
      if |lines| > MAX_ITEMS then Err(TooManyRecords)
      else if index >= |lines| then Err(NoSuchRecord)
      else if !Utf8.Valid(lines[index]) then Err(NotUtf8)
      else RecordIsShort(snapshot.value, index); Ok(lines[index])
  }

  function Page(w: World, snapshot: Option<Bytes>, index: nat, offset: nat, maxBytes: nat): Result<RecordPage, Error>
    requires snapshot.Some? ==> |snapshot.value| <= USIZE_MAX
  {
    match TextOf(snapshot, index, maxBytes)
    case Err(e) => Err(e)
    case Ok(text) =>
      if offset > |text| || !Utf8.IsBoundary(text, offset) then Err(BadOffset)
      else Ok(PageOf(w, text, index, offset, maxBytes))
  }

  /** `read_snapshot_record`: the loop steps back to a boundary and never below the offset. */
  method ReadRecord(w: World, snapshot: Option<Bytes>, index: nat, offset: nat, maxBytes: nat)
    returns (r: Result<RecordPage, Error>)
    requires snapshot.Some? ==> |snapshot.value| <= USIZE_MAX
    ensures r == Page(w, snapshot, index, offset, maxBytes)
  {
    if !(4 <= maxBytes <= MAX_CONTENT_BYTES) {
      return Err(BadLimit);
    }
    if snapshot.None? {
      return Err(NoSnapshot);
    }
    var split := Records(snapshot.value);
    if split.Err? {
      return Err(split.error);
    }
    var lines := split.value;
    if index >= |lines| {
      return Err(NoSuchRecord);
    }
    var text := lines[index];
    if !Utf8.Valid(text) {
      return Err(NotUtf8);
    }
    if offset > |text| || !Utf8.IsBoundary(text, offset) {
      return Err(BadOffset);
    }
    RecordIsShort(snapshot.value, index);
    var end := Least(SaturatingAdd(offset, maxBytes), |text|);
    ghost var top := end;
    while !Utf8.IsBoundary(text, end)
      invariant offset <= end <= top
      invariant Utf8.BoundaryBefore(text, end) == Utf8.BoundaryBefore(text, top)
      decreases end
    {
      end := end - 1;
    }
    return Ok(RecordPage(index, w.sha(text), |text|, offset, if end < |text| then Some(end) else None,
      text[offset..end]));
  }

  lemma {:induction false} PieceIsShort(s: Bytes, i: nat)
    requires i < |Lines.Split(s, NEWLINE)|
    ensures |Lines.Split(s, NEWLINE)[i]| <= |s|
  {
    if s != [] {
      var rest := Lines.Split(s[1..], NEWLINE);
      if s[0] != NEWLINE || i == 0 { PieceIsShort(s[1..], i); } else { PieceIsShort(s[1..], i - 1); }
    }
  }

  lemma RecordIsShort(data: Bytes, index: nat)
    requires index < |TrueRecords(data)|
    ensures |TrueRecords(data)[index]| <= |data|
  {
    PieceIsShort(data, index);
  }

  /** One page from a boundary: within the limit, whole characters, and short of the limit by
      less than a character unless it is the last. */
  lemma PageAdvances(w: World, text: Bytes, index: nat, offset: nat, maxBytes: nat)
    requires offset <= |text| <= USIZE_MAX && Utf8.Valid(text) && Utf8.IsBoundary(text, offset) && maxBytes >= 4
    ensures var page := PageOf(w, text, index, offset, maxBytes);
            var end := offset + |page.content|;
            && end <= |text| && page.content == text[offset..end]
            && Utf8.Valid(page.content) && |page.content| <= maxBytes
            && (page.next.None? ==> end == |text|)
            && (page.next.Some? ==>
                  |page.content| >= maxBytes - 3 && page.next.value == end < |text| && Utf8.IsBoundary(text, end))
  {
    var top := Least(SaturatingAdd(offset, maxBytes), |text|);
    Utf8.BoundaryNear(text, top);
    Utf8.CutBetween(text, offset, Utf8.BoundaryBefore(text, top));
  }

  /** A page of a record: from a boundary to the last boundary that the limit allows. */
  ghost predicate IsPage(w: World, text: Bytes, index: nat, offset: nat, maxBytes: nat, page: RecordPage) {
    && Utf8.Valid(text) && offset <= |text| && Utf8.IsBoundary(text, offset)
    && exists end: nat :: EndsPage(text, offset, maxBytes, end)
         && page == RecordPage(index, w.sha(text), |text|, offset, if end == |text| then None else Some(end),
              text[offset..end])
  }

  ghost predicate EndsPage(text: Bytes, offset: nat, maxBytes: nat, end: nat) {
    && offset <= end <= |text| && end - offset <= maxBytes && Utf8.IsBoundary(text, end)
    && forall j: nat :: end < j <= |text| && j - offset <= maxBytes ==> !Utf8.IsBoundary(text, j)
  }

  lemma LastBoundary(text: Bytes, offset: nat, maxBytes: nat, end: nat)
    requires offset <= |text| <= USIZE_MAX && Utf8.IsBoundary(text, offset)
    ensures EndsPage(text, offset, maxBytes, end) <==>
      end == Utf8.BoundaryBefore(text, Least(SaturatingAdd(offset, maxBytes), |text|))
  {
    var top := Least(SaturatingAdd(offset, maxBytes), |text|);
    var last := Utf8.BoundaryBefore(text, top);
    assert last >= offset;
    if EndsPage(text, offset, maxBytes, end) {
      assert end <= last && last - offset <= maxBytes;
    }
  }

  /** Exactly when a page is read, and which: everything else is refused. */
  lemma PageMeans(w: World, snapshot: Option<Bytes>, index: nat, offset: nat, maxBytes: nat, page: RecordPage)
    requires snapshot.Some? ==> |snapshot.value| <= USIZE_MAX
    ensures Page(w, snapshot, index, offset, maxBytes) == Ok(page) <==>
      && 4 <= maxBytes <= MAX_CONTENT_BYTES && snapshot.Some?
      && var records := TrueRecords(snapshot.value);
      && |records| <= MAX_ITEMS && index < |records| && IsPage(w, records[index], index, offset, maxBytes, page)
  {
    if snapshot.Some? && index < |TrueRecords(snapshot.value)| {
      var text := TrueRecords(snapshot.value)[index];
      RecordIsShort(snapshot.value, index);
      if offset <= |text| && Utf8.IsBoundary(text, offset) {
        var end := Utf8.BoundaryBefore(text, Least(SaturatingAdd(offset, maxBytes), |text|));
        forall other: nat ensures EndsPage(text, offset, maxBytes, other) <==> other == end {
          LastBoundary(text, offset, maxBytes, other);
        }
      }
    }
  }

  /** Why a page is refused, tested in this order. */
  lemma RefusedMeans(w: World, snapshot: Option<Bytes>, index: nat, offset: nat, maxBytes: nat, error: Error)
    requires snapshot.Some? ==> |snapshot.value| <= USIZE_MAX
    ensures Page(w, snapshot, index, offset, maxBytes) == Err(error) <==>
      if maxBytes < 4 || maxBytes > MAX_CONTENT_BYTES then error == BadLimit
      else if snapshot.None? then error == NoSnapshot
      else if |TrueRecords(snapshot.value)| > MAX_ITEMS then error == TooManyRecords
      else if |TrueRecords(snapshot.value)| <= index then error == NoSuchRecord
      else
        var text := TrueRecords(snapshot.value)[index];
        if !Utf8.Valid(text) then error == NotUtf8
        else error == BadOffset && !(offset <= |text| && Utf8.IsBoundary(text, offset))
  {
  }

  /** The pages from an offset on, each read at the next_offset of the one before. */
  ghost predicate FollowsOn(w: World, snapshot: Option<Bytes>, index: nat, maxBytes: nat, offset: nat,
      pages: seq<RecordPage>)
    requires snapshot.Some? ==> |snapshot.value| <= USIZE_MAX
    decreases |pages|
  {
    && pages != []
    && Page(w, snapshot, index, offset, maxBytes) == Ok(pages[0])
    && match pages[0].next
       case None => |pages| == 1
       case Some(next) => FollowsOn(w, snapshot, index, maxBytes, next, pages[1..])
  }

  function Contents(pages: seq<RecordPage>): Bytes {
    if pages == [] then [] else pages[0].content + Contents(pages[1..])
  }

  ghost predicate GoodPage(w: World, text: Bytes, maxBytes: nat, page: RecordPage, last: bool) {
    && |page.content| <= maxBytes && Utf8.Valid(page.content)
    && (!last ==> |page.content| >= maxBytes - 3)
    && page.sha == w.sha(text) && page.bytes == |text|
  }

  /** Main result: for any readable record and any limit the reader accepts, following
      next_offset from a boundary ends, every page is whole characters within the limit, every
      page but the last is at least the limit minus three bytes, and together they are the
      rest of the record. */
  lemma {:induction false} PagesRebuildRecord(
    w: World, snapshot: Option<Bytes>, index: nat, maxBytes: nat, text: Bytes, offset: nat)
    returns (pages: seq<RecordPage>)
    requires snapshot.Some? ==> |snapshot.value| <= USIZE_MAX
    requires TextOf(snapshot, index, maxBytes) == Ok(text)
    requires offset <= |text| && Utf8.IsBoundary(text, offset)
    ensures FollowsOn(w, snapshot, index, maxBytes, offset, pages)
    ensures Contents(pages) == text[offset..]
    ensures forall k :: 0 <= k < |pages| ==> GoodPage(w, text, maxBytes, pages[k], k == |pages| - 1)
    decreases |text| - offset
  {
    var page, end := OnePage(w, snapshot, index, maxBytes, text, offset);
    if page.next.None? {
      pages := [page];
      ContentsOf(text, page, [], offset, end);
      assert [page] + [] == pages;
    } else {
      var rest := PagesRebuildRecord(w, snapshot, index, maxBytes, text, end);
      pages := [page] + rest;
      assert pages[1..] == rest;
      ContentsOf(text, page, rest, offset, end);
    }
  }

  lemma ContentsOf(text: Bytes, page: RecordPage, rest: seq<RecordPage>, offset: nat, end: nat)
    requires offset <= end <= |text| && page.content == text[offset..end] && Contents(rest) == text[end..]
    ensures Contents([page] + rest) == text[offset..]
  {
    assert ([page] + rest)[1..] == rest;
    assert text[offset..end] + text[end..] == text[offset..];
  }

  lemma PageIsOk(w: World, snapshot: Option<Bytes>, index: nat, maxBytes: nat, text: Bytes, offset: nat)
    requires snapshot.Some? ==> |snapshot.value| <= USIZE_MAX
    requires TextOf(snapshot, index, maxBytes) == Ok(text)
    requires offset <= |text| && Utf8.IsBoundary(text, offset)
    ensures Page(w, snapshot, index, offset, maxBytes) == Ok(PageOf(w, text, index, offset, maxBytes))
  {
  }

  lemma PageParts(w: World, text: Bytes, index: nat, offset: nat, maxBytes: nat) returns (page: RecordPage, end: nat)
    requires Utf8.Valid(text) && offset <= |text| <= USIZE_MAX && Utf8.IsBoundary(text, offset) && maxBytes >= 4
    ensures page == PageOf(w, text, index, offset, maxBytes)
    ensures GoodPage(w, text, maxBytes, page, page.next.None?)
    ensures offset <= end <= |text| && page.content == text[offset..end]
    ensures if page.next.None? then end == |text|
            else page.next == Some(end) && offset < end && Utf8.IsBoundary(text, end)
  {
    PageAdvances(w, text, index, offset, maxBytes);
    page := PageOf(w, text, index, offset, maxBytes);
    end := offset + |page.content|;
  }

  lemma OnePage(w: World, snapshot: Option<Bytes>, index: nat, maxBytes: nat, text: Bytes, offset: nat)
    returns (page: RecordPage, end: nat)
    requires snapshot.Some? ==> |snapshot.value| <= USIZE_MAX
    requires TextOf(snapshot, index, maxBytes) == Ok(text)
    requires offset <= |text| && Utf8.IsBoundary(text, offset)
    ensures Page(w, snapshot, index, offset, maxBytes) == Ok(page)
    ensures GoodPage(w, text, maxBytes, page, page.next.None?)
    ensures offset <= end <= |text| && page.content == text[offset..end]
    ensures if page.next.None? then end == |text|
            else page.next == Some(end) && offset < end && Utf8.IsBoundary(text, end)
  {
    PageIsOk(w, snapshot, index, maxBytes, text, offset);
    page, end := PageParts(w, text, index, offset, maxBytes);
  }

  /** Search and read agree: every listed record can be read, and its page carries the digest
      and length that the search listed. */
  lemma ListedRecordsCanBeRead(w: World, data: Bytes, query: string, limit: nat, k: nat, maxBytes: nat)
    requires query != "" && |data| <= USIZE_MAX && |TrueRecords(data)| <= MAX_ITEMS
    requires k < |Found(w, query, limit, TrueRecords(data)).matches| && 4 <= maxBytes <= MAX_CONTENT_BYTES
    ensures var hit := Found(w, query, limit, TrueRecords(data)).matches[k];
            var r := Page(w, Some(data), hit.index, 0, maxBytes);
            r.Ok? && r.value.sha == hit.sha && r.value.bytes == hit.bytes && hit.count > 0
  {
    HitsExact(w, query, TrueRecords(data));
    var hit := Found(w, query, limit, TrueRecords(data)).matches[k];
    assert hit == Hits(w, query, TrueRecords(data))[k];
    assert Matches(w, query, TrueRecords(data), hit.index);
  }
}
