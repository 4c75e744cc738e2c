/** `tail_records` of crates/gobstopper-adapters/src/lib.rs: the records in the last bytes of
    a transcript that does not change while it is read. */
module Tail {
  import opened Wrappers
  import opened Json
  import Lines
  import Utf8

  /** `str::trim` leaving nothing, and `decode_record`; None where it refuses the line. */
  datatype World<!V> = World(blank: Bytes -> bool, decode: Bytes -> Option<V>, isObject: V -> bool)

  /** The records of lines, if every line that is not blank is a record. */
  function Decoded<V>(w: World<V>, lines: seq<Bytes>): Option<seq<V>> {
    if lines == [] then Some([])
    else
      var line := lines[|lines| - 1];
      match Decoded(w, lines[..|lines| - 1])
      case None => None
      case Some(front) =>
        if !Utf8.Valid(line) then None
        else if w.blank(line) then Some(front)
        else match w.decode(line)
          case Some(v) => if w.isObject(v) then Some(front + [v]) else None
          case None => None
  }

  function Position(bytes: Bytes): nat {
    if bytes == [] || bytes[0] == NEWLINE then 0 else 1 + Position(bytes[1..])
  }

  lemma {:induction false} PositionFinds(bytes: Bytes)
    ensures Position(bytes) <= |bytes|
    ensures Position(bytes) < |bytes| ==> bytes[Position(bytes)] == NEWLINE
    ensures NEWLINE !in bytes[..Position(bytes)]
  {
    if bytes != [] && bytes[0] != NEWLINE {
      PositionFinds(bytes[1..]);
      assert bytes[..Position(bytes)] == [bytes[0]] + bytes[1..][..Position(bytes[1..])];
    }
  }

  /** `take(n)` on a reader. */
  function Take(bytes: Bytes, n: nat): Bytes { if |bytes| <= n then bytes else bytes[..n] }

  lemma {:induction false} PositionIsFirst(bytes: Bytes, i: nat)
    requires i < |bytes| && bytes[i] == NEWLINE
    ensures Position(bytes) <= i
  {
    if i > 0 && bytes[0] != NEWLINE { PositionIsFirst(bytes[1..], i - 1); }
  }

  /** Where the read starts, and where the first line that is surely whole starts. */
  function Offset(file: Bytes, limit: nat): nat { if limit < |file| then |file| - limit else 0 }

  function Start(file: Bytes, limit: nat): nat {
    var offset := Offset(file, limit);
    PositionFinds(file[offset..]);
    if offset == 0 then 0
    else if Position(file[offset..]) < |file| - offset then offset + Position(file[offset..]) + 1
    else |file|
  }

  lemma StartInFile(file: Bytes, limit: nat)
    ensures Offset(file, limit) <= Start(file, limit) <= |file|
    ensures 0 < Start(file, limit) < |file| ==> file[Start(file, limit) - 1] == NEWLINE
  {
    PositionFinds(file[Offset(file, limit)..]);
  }

  function TailLines(file: Bytes, limit: nat): seq<Bytes> {
    StartInFile(file, limit);
    Lines.Split(file[Start(file, limit)..], NEWLINE)
  }

  function TailOf<V>(w: World<V>, file: Bytes, limit: nat, most: nat): Option<(seq<V>, bool)> {
    if limit == 0 || limit > most then None
    else match Decoded(w, TailLines(file, limit))
      case Some(records) => if |records| <= MAX_ITEMS then Some((records, limit >= |file|)) else None
      case None => None
  }

  /** `most` is the configured transcript limit. */
  method TailRecords<V>(w: World<V>, file: Bytes, limit: nat, most: nat) returns (r: Option<(seq<V>, bool)>)
    ensures r == TailOf(w, file, limit, most)
  {
    if limit == 0 || limit > most {
      return None;
    }
    var offset := if limit < |file| then |file| - limit else 0;
    var bytes := Take(file[offset..], limit);
    var complete := offset == 0 && |bytes| == |file|;
    var start := if offset == 0 then 0 else if Position(bytes) < |bytes| then Position(bytes) + 1 else |bytes|;
    assert file[offset..][start..] == file[offset + start..];
    var lines := Lines.Split(bytes[start..], NEWLINE);
    assert lines == TailLines(file, limit);
    var records: seq<V> := [];
    var i := 0;
    while i < |lines|
      invariant i <= |lines|
      invariant Decoded(w, lines[..i]) == Some(records) && |records| <= MAX_ITEMS
    {
      var line := lines[i];
      DecodedPrefix(w, lines, i);
      if !Utf8.Valid(line) {
        return None;
      }
      if !w.blank(line) {
        var record := w.decode(line);
        if record.None? || !w.isObject(record.value) || |records| >= MAX_ITEMS {
          return None;
        }
        records := records + [record.value];
      }
      i := i + 1;
    }
    assert lines[..i] == lines;
    return Some((records, complete));
  }

  lemma {:induction false} DecodedAppend<V>(w: World<V>, a: seq<Bytes>, b: seq<Bytes>)
    ensures Decoded(w, a + b) ==
      if Decoded(w, a).Some? && Decoded(w, b).Some? then Some(Decoded(w, a).value + Decoded(w, b).value) else None
  {
    if b == [] {
      assert a + b == a;
      assert Decoded(w, a).Some? ==> Decoded(w, a).value + [] == Decoded(w, a).value;
    } else {
      var front := b[..|b| - 1];
      DecodedAppend(w, a, front);
      assert (a + b)[..|a + b| - 1] == a + front;
      if Decoded(w, a).Some? && Decoded(w, b).Some? {
        assert Decoded(w, a).value + Decoded(w, b).value
            == Decoded(w, a + front).value + Decoded(w, b).value[|Decoded(w, front).value|..];
      }
    }
  }

  lemma DecodedPrefix<V>(w: World<V>, lines: seq<Bytes>, i: nat)
    requires i < |lines|
    ensures lines[..i + 1][..i] == lines[..i]
    ensures Decoded(w, lines).Some? ==>
      Decoded(w, lines[..i + 1]).Some? && |Decoded(w, lines[..i + 1]).value| <= |Decoded(w, lines).value|
  {
    assert lines == lines[..i + 1] + lines[i + 1..];
    DecodedAppend(w, lines[..i + 1], lines[i + 1..]);
  }

  /** The lines of a shorter tail are the last lines of a longer one, or none at all. */
  lemma ShorterTailIsSuffix(file: Bytes, small: nat, large: nat) returns (cut: nat)
    requires small <= large
    ensures cut <= |TailLines(file, large)|
    ensures TailLines(file, small) == TailLines(file, large)[cut..] || TailLines(file, small) == [[]]
  {
    var a, b := Start(file, large), Start(file, small);
    StartsInOrder(file, small, large);
    StartInFile(file, small);
    if b == |file| {
      cut := 0;
    } else if a == b {
      cut := 0;
    } else {
      assert file[a..][b - 1 - a] == NEWLINE;
      Lines.SplitSuffix(file[a..], NEWLINE, b - 1 - a);
      assert file[a..][b - a..] == file[b..];
      cut := |TailLines(file, large)| - |TailLines(file, small)|;
    }
  }

  lemma StartsInOrder(file: Bytes, small: nat, large: nat)
    requires small <= large
    ensures Start(file, large) <= Start(file, small) <= |file|
  {
    StartInFile(file, small);
    StartInFile(file, large);
    var a, b := Offset(file, large), Offset(file, small);
    PositionFinds(file[a..]);
    PositionFinds(file[b..]);
    if a > 0 && Position(file[b..]) < |file| - b {
      var i := b + Position(file[b..]);
      PositionIsFirst(file[a..], i - a);
    }
  }

  /** Main result: if reading the tail succeeds with some limit, it succeeds with every smaller
      positive one, and gives the last of the same records. */
  lemma SmallerLimitGivesSuffix<V>(w: World<V>, file: Bytes, small: nat, large: nat, most: nat)
    requires w.blank([])
    requires 0 < small <= large && TailOf(w, file, large, most).Some?
    ensures TailOf(w, file, small, most).Some?
    ensures var few, all := TailOf(w, file, small, most).value, TailOf(w, file, large, most).value;
            |few.0| <= |all.0| && few.0 == all.0[|all.0| - |few.0|..] && (few.1 ==> few == all)
  {
    var cut := ShorterTailIsSuffix(file, small, large);
    var lines := TailLines(file, large);
    if TailLines(file, small) == [[]] {
      assert Decoded(w, [[]][..0]) == Some([]);
      assert Decoded(w, [[]]) == Some([]);
    } else {
      assert lines == lines[..cut] + lines[cut..];
      DecodedAppend(w, lines[..cut], lines[cut..]);
    }
  }

  /** A complete read is the records of all lines of the file. A partial one never sees a cut
      line: what it decodes are whole lines of the file, the last ones, even when the cut falls
      inside a character. */
  lemma TailLinesAreWhole(file: Bytes, limit: nat) returns (cut: nat)
    ensures cut <= |Lines.Split(file, NEWLINE)|
    ensures limit >= |file| ==> TailLines(file, limit) == Lines.Split(file, NEWLINE)
    ensures TailLines(file, limit) == Lines.Split(file, NEWLINE)[cut..] || TailLines(file, limit) == [[]]
  {
    var whole := if limit < |file| then |file| else limit;
    assert file[0..] == file;
    cut := ShorterTailIsSuffix(file, limit, whole);
  }

  /** The tail keeps every whole line it can: all lines that start after the first newline
      inside the window. */
  lemma TailMissesNoLine(file: Bytes, limit: nat, i: nat)
    requires Offset(file, limit) <= i < |file| && file[i] == NEWLINE
    ensures Start(file, limit) <= i + 1
  {
    var offset := Offset(file, limit);
    PositionFinds(file[offset..]);
    PositionIsFirst(file[offset..], i - offset);
  }

  /** The records of lines, from the front: a line is blank and gives none, or is a record and gives
      that, and no line is anything else. */
  ghost predicate Give<V(!new)>(w: World<V>, lines: seq<Bytes>, records: seq<V>) {
    if lines == [] then records == []
    else
      && Utf8.Valid(lines[0])
      && if w.blank(lines[0]) then Give(w, lines[1..], records)
         else
           && records != [] && w.decode(lines[0]) == Some(records[0]) && w.isObject(records[0])
           && Give(w, lines[1..], records[1..])
  }

  lemma DecodedOne<V>(w: World<V>, line: Bytes)
    ensures Decoded(w, [line]) ==
      if !Utf8.Valid(line) then None
      else if w.blank(line) then Some([])
      else if w.decode(line).Some? && w.isObject(w.decode(line).value) then Some([w.decode(line).value]) else None
  {
    var none: seq<V> := [];
    assert [line][..0] == [] && Decoded(w, []) == Some(none);
    if w.decode(line).Some? { assert none + [w.decode(line).value] == [w.decode(line).value]; }
  }

  lemma {:induction false} DecodedMeans<V(!new)>(w: World<V>, lines: seq<Bytes>, records: seq<V>)
    ensures Decoded(w, lines) == Some(records) <==> Give(w, lines, records)
  {
    if lines != [] {
      var rest := lines[1..];
      assert lines == [lines[0]] + rest;
      DecodedAppend(w, [lines[0]], rest);
      DecodedOne(w, lines[0]);
      if w.blank(lines[0]) {
        DecodedMeans(w, rest, records);
        assert Decoded(w, rest).Some? ==> [] + Decoded(w, rest).value == Decoded(w, rest).value;
      } else if records != [] {
        DecodedMeans(w, rest, records[1..]);
        assert Decoded(w, rest).Some? && w.decode(lines[0]).Some? ==>
          ([w.decode(lines[0]).value] + Decoded(w, rest).value)[1..] == Decoded(w, rest).value;
        assert records == [records[0]] + records[1..];
      }
    }
  }

  /** Exactly when the tail is read, and what it is: one line that is neither blank nor a record spoils
      it, and it is complete only if the limit covers the file. */
  lemma TailMeans<V(!new)>(w: World<V>, file: Bytes, limit: nat, most: nat, records: seq<V>, complete: bool)
    ensures TailOf(w, file, limit, most) == Some((records, complete)) <==>
      && 0 < limit <= most && |records| <= MAX_ITEMS && (complete <==> |file| <= limit)
      && Give(w, TailLines(file, limit), records)
  {
    DecodedMeans(w, TailLines(file, limit), records);
  }
}
