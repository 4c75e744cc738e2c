/** The lanes of verify/stress/check.py: the sequence alone, the CLI suites in one serial lane,
    every other suite in a lane of its own, longest first. */
module StressLanes {
  datatype Suite = Suite(name: string, cli: bool, seconds: int)

  type Lane = seq<Suite>

  ghost predicate DistinctNames(suites: seq<Suite>) {
    forall i, j :: 0 <= i < j < |suites| ==> suites[i].name != suites[j].name
  }

  /** An admitted inventory: no name twice, and the sequence among them. */
  ghost predicate Inventory(suites: seq<Suite>) {
    DistinctNames(suites) && exists i :: 0 <= i < |suites| && IsSequence(suites[i])
  }

  predicate IsSequence(suite: Suite) { suite.name == "sequence" }

  /** The suites of one kind, in inventory order. */
  function Keep(suites: seq<Suite>, wanted: Suite -> bool): seq<Suite> {
    if suites == [] then []
    else (if wanted(suites[0]) then [suites[0]] else []) + Keep(suites[1..], wanted)
  }

  /** A place for one more suite in a list sorted longest first, before those that are equal
      to it (it comes before them in the inventory). */
  function Insert(suite: Suite, sorted: seq<Suite>): seq<Suite> {
    if sorted == [] || suite.seconds >= sorted[0].seconds then [suite] + sorted
    else [sorted[0]] + Insert(suite, sorted[1..])
  }

  function LongestFirst(suites: seq<Suite>): seq<Suite> {
    if suites == [] then [] else Insert(suites[0], LongestFirst(suites[1..]))
  }

  function Singles(suites: seq<Suite>): seq<Lane> {
    seq(|suites|, i requires 0 <= i < |suites| => [suites[i]])
  }

  /** Lane 0 runs first and alone; the pool takes the others in this order. */
  function Lanes(suites: seq<Suite>): seq<Lane> {
    [Keep(suites, IsSequence), Keep(suites, s => !IsSequence(s) && s.cli)]
      + Singles(LongestFirst(Keep(suites, s => !IsSequence(s) && !s.cli)))
  }

  // ---------------------------------------------------------------------------------

  ghost predicate HasName(lane: Lane, name: string) { exists p :: 0 <= p < |lane| && lane[p].name == name }

  ghost predicate InLane(lanes: seq<Lane>, j: int, p: int) { 0 <= j < |lanes| && 0 <= p < |lanes[j]| }

  /** No suite has two places. */
  ghost predicate OnePlaceEach(lanes: seq<Lane>) {
    forall j, p, k, q :: InLane(lanes, j, p) && InLane(lanes, k, q) && lanes[j][p].name == lanes[k][q].name ==>
      j == k && p == q
  }

  lemma {:induction false} KeepHolds(suites: seq<Suite>, wanted: Suite -> bool, s: Suite)
    ensures s in Keep(suites, wanted) <==> s in suites && wanted(s)
  {
    if suites != [] {
      KeepHolds(suites[1..], wanted, s);
      assert s in suites <==> s == suites[0] || s in suites[1..];
    }
  }

  /** Two kinds that agree on the suites keep the same of them. */
  lemma {:induction false} KeepSame(suites: seq<Suite>, wanted: Suite -> bool, also: Suite -> bool)
    requires forall s :: s in suites ==> wanted(s) == also(s)
    ensures Keep(suites, wanted) == Keep(suites, also)
  {
    if suites != [] {
      assert suites[0] in suites && forall s :: s in suites[1..] ==> s in suites;
      KeepSame(suites[1..], wanted, also);
    }
  }

  lemma {:induction false} KeepDistinct(suites: seq<Suite>, wanted: Suite -> bool)
    requires DistinctNames(suites)
    ensures DistinctNames(Keep(suites, wanted))
  {
    if suites != [] {
      var rest := Keep(suites[1..], wanted);
      KeepDistinct(suites[1..], wanted);
      forall i | 0 <= i < |rest|
        ensures rest[i].name != suites[0].name
      {
        KeepHolds(suites[1..], wanted, rest[i]);
      }
    }
  }

  lemma {:induction false} InsertHolds(suite: Suite, sorted: seq<Suite>, s: Suite)
    ensures s in Insert(suite, sorted) <==> s == suite || s in sorted
  {
    if sorted != [] && suite.seconds < sorted[0].seconds {
      InsertHolds(suite, sorted[1..], s);
      assert s in sorted <==> s == sorted[0] || s in sorted[1..];
    }
  }

  lemma {:induction false} InsertDistinct(suite: Suite, sorted: seq<Suite>)
    requires DistinctNames(sorted) && !HasName(sorted, suite.name)
    ensures DistinctNames(Insert(suite, sorted))
  {
    if sorted != [] && suite.seconds < sorted[0].seconds {
      var rest := Insert(suite, sorted[1..]);
      assert !HasName(sorted[1..], suite.name);
      InsertDistinct(suite, sorted[1..]);
      forall i | 0 <= i < |rest|
        ensures rest[i].name != sorted[0].name
      {
        InsertHolds(suite, sorted[1..], rest[i]);
      }
    }
  }

  lemma {:induction false} SortHolds(suites: seq<Suite>, s: Suite)
    ensures s in LongestFirst(suites) <==> s in suites
  {
    if suites != [] {
      SortHolds(suites[1..], s);
      InsertHolds(suites[0], LongestFirst(suites[1..]), s);
      assert s in suites <==> s == suites[0] || s in suites[1..];
    }
  }

  lemma {:induction false} SortDistinct(suites: seq<Suite>)
    requires DistinctNames(suites)
    ensures DistinctNames(LongestFirst(suites))
  {
    if suites != [] {
      var rest := LongestFirst(suites[1..]);
      SortDistinct(suites[1..]);
      forall i | 0 <= i < |rest|
        ensures rest[i].name != suites[0].name
      {
        SortHolds(suites[1..], rest[i]);
      }
      InsertDistinct(suites[0], rest);
    }
  }

  function Lasts(seconds: int): Suite -> bool { (s: Suite) => s.seconds == seconds }

  lemma {:induction false} InsertKeeps(suite: Suite, sorted: seq<Suite>, seconds: int)
    ensures Keep(Insert(suite, sorted), Lasts(seconds)) == Keep([suite] + sorted, Lasts(seconds))
  {
    var whole := [suite] + sorted;
    assert whole[1..] == sorted;
    if sorted != [] && suite.seconds < sorted[0].seconds {
      InsertKeeps(suite, sorted[1..], seconds);
      assert ([suite] + sorted[1..])[1..] == sorted[1..];
    }
  }

  /** The sort is stable: suites with the same allowance keep their inventory order, and none is
      lost or made. */
  lemma {:induction false} SortIsStable(suites: seq<Suite>, seconds: int)
    ensures Keep(LongestFirst(suites), Lasts(seconds)) == Keep(suites, Lasts(seconds))
  {
    if suites != [] {
      var rest := LongestFirst(suites[1..]);
      SortIsStable(suites[1..], seconds);
      InsertKeeps(suites[0], rest, seconds);
      assert ([suites[0]] + rest)[1..] == rest;
    }
  }

  ghost predicate Descending(suites: seq<Suite>) {
    forall i, j :: 0 <= i < j < |suites| ==> suites[i].seconds >= suites[j].seconds
  }

  lemma {:induction false} InsertDescends(suite: Suite, sorted: seq<Suite>)
    requires Descending(sorted)
    ensures Descending(Insert(suite, sorted))
  {
    if sorted != [] && suite.seconds < sorted[0].seconds {
      var rest := Insert(suite, sorted[1..]);
      InsertDescends(suite, sorted[1..]);
      forall i | 0 <= i < |rest|
        ensures rest[i].seconds <= sorted[0].seconds
      {
        InsertHolds(suite, sorted[1..], rest[i]);
      }
    }
  }

  lemma {:induction false} SortDescends(suites: seq<Suite>)
    ensures Descending(LongestFirst(suites))
  {
    if suites != [] {
      SortDescends(suites[1..]);
      InsertDescends(suites[0], LongestFirst(suites[1..]));
    }
  }

  /** The kind of suite that a lane holds. */
  ghost predicate OfKind(s: Suite, j: nat) {
    if j == 0 then IsSequence(s) else !IsSequence(s) && (s.cli <==> j == 1)
  }

  lemma LaneHolds(suites: seq<Suite>, j: nat, p: nat)
    requires InLane(Lanes(suites), j, p)
    ensures Lanes(suites)[j][p] in suites && OfKind(Lanes(suites)[j][p], j)
    ensures j >= 2 ==> |Lanes(suites)[j]| == 1
  {
    var s := Lanes(suites)[j][p];
    var shared := Keep(suites, s => !IsSequence(s) && !s.cli);
    if j == 0 {
      KeepHolds(suites, IsSequence, s);
    } else if j == 1 {
      KeepHolds(suites, s => !IsSequence(s) && s.cli, s);
    } else {
      assert s == LongestFirst(shared)[j - 2];
      SortHolds(shared, s);
      KeepHolds(suites, s => !IsSequence(s) && !s.cli, s);
    }
  }

  /** The CLI suites are all in lane 1, the sequence in lane 0, and no suite has two places. */
  lemma LanesAreDisjoint(suites: seq<Suite>)
    requires Inventory(suites)
    ensures OnePlaceEach(Lanes(suites))
  {
    var lanes := Lanes(suites);
    var shared := Keep(suites, s => !IsSequence(s) && !s.cli);
    KeepDistinct(suites, IsSequence);
    KeepDistinct(suites, s => !IsSequence(s) && s.cli);
    KeepDistinct(suites, s => !IsSequence(s) && !s.cli);
    SortDistinct(shared);
    forall j, p, k, q | InLane(lanes, j, p) && InLane(lanes, k, q) && lanes[j][p].name == lanes[k][q].name
      ensures j == k && p == q
    {
      LaneHolds(suites, j, p);
      LaneHolds(suites, k, q);
      assert lanes[j][p] == lanes[k][q];
      if j > 1 && k > 1 {
        assert lanes[j][p] == LongestFirst(shared)[j - 2] && lanes[k][q] == LongestFirst(shared)[k - 2];
      }
    }
  }

  /** Every suite of the inventory has a place. */
  lemma LanesCover(suites: seq<Suite>, s: Suite)
    requires s in suites
    ensures exists j, p :: InLane(Lanes(suites), j, p) && Lanes(suites)[j][p] == s
  {
    var lanes := Lanes(suites);
    var shared := Keep(suites, s => !IsSequence(s) && !s.cli);
    KeepHolds(suites, IsSequence, s);
    KeepHolds(suites, s => !IsSequence(s) && s.cli, s);
    KeepHolds(suites, s => !IsSequence(s) && !s.cli, s);
    if IsSequence(s) {
      var p: nat :| p < |lanes[0]| && lanes[0][p] == s;
      assert InLane(lanes, 0, p);
    } else if s.cli {
      var p: nat :| p < |lanes[1]| && lanes[1][p] == s;
      assert InLane(lanes, 1, p);
    } else {
      SortHolds(shared, s);
      var i: nat :| i < |LongestFirst(shared)| && LongestFirst(shared)[i] == s;
      assert lanes[i + 2] == [s];
      assert InLane(lanes, i + 2, 0);
    }
  }

  /** Lane 0 is the sequence alone. */
  lemma SequenceLane(suites: seq<Suite>)
    requires Inventory(suites)
    ensures |Lanes(suites)[0]| == 1
  {
    var lane := Lanes(suites)[0];
    var i :| 0 <= i < |suites| && IsSequence(suites[i]);
    KeepHolds(suites, IsSequence, suites[i]);
    KeepDistinct(suites, IsSequence);
    if |lane| > 1 {
      KeepHolds(suites, IsSequence, lane[0]);
      KeepHolds(suites, IsSequence, lane[1]);
      assert false;
    }
  }
}
