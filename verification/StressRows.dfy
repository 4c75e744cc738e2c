/** The rows that `run_suites` returns, and when `main` admits them. */
module StressRows {
  import opened Wrappers
  import opened StressLanes
  import opened StressPool
  import opened StressInvariant

  ghost predicate HasRow(s: State, j: int, p: int) {
    && 0 <= j < s.collected && j < |s.jobs| && s.jobs[j].Returned?
    && 0 <= p < |s.jobs[j].results| && s.jobs[j].results[p].Some?
  }

  function RowAt(s: State, j: int, p: int): Row
    requires HasRow(s, j, p)
  {
    s.jobs[j].results[p].value
  }

  /** `finished` holds exactly the rows of the lanes collected so far. */
  ghost predicate Gathered(s: State) {
    && (forall j, p :: HasRow(s, j, p) ==>
          RowAt(s, j, p).name in s.rows && s.rows[RowAt(s, j, p).name] == RowAt(s, j, p))
    && forall name :: name in s.rows ==> s.rows[name].name == name && FromLane(s, name)
  }

  ghost predicate FromLane(s: State, name: string) {
    exists j, p :: HasRow(s, j, p) && RowAt(s, j, p).name == name
  }

  ghost predicate Lists(results: seq<Option<Row>>, name: string) {
    exists p :: 0 <= p < |results| && results[p].Some? && results[p].value.name == name
  }

  lemma SettledStays(plan: Plan, s: State, step: Step)
    requires Shape(plan, s) && Enabled(plan, s, step)
    ensures |Apply(plan, s, step).jobs| == |s.jobs|
    ensures forall j :: 0 <= j < |s.jobs| && Settled(s.jobs[j]) ==> Apply(plan, s, step).jobs[j] == s.jobs[j]
  {
  }

  lemma NotCollectKeeps(plan: Plan, s: State, step: Step)
    requires Enabled(plan, s, step) && step != Collect
    ensures var t := Apply(plan, s, step);
      && t.rows == s.rows && t.errors == s.errors && t.collected == s.collected
      && t.stage == s.stage && t.openedAt == s.openedAt
    ensures s.failed ==> Apply(plan, s, step).failed
  {
  }

  lemma {:induction false} MergeHas(rows: map<string, Row>, results: seq<Option<Row>>, lane: Lane)
    requires Fits(lane, results) && DistinctNames(lane)
    ensures forall p :: 0 <= p < |results| && results[p].Some? ==>
      results[p].value.name in Merge(rows, results) && Merge(rows, results)[results[p].value.name] == results[p].value
  {
    if results != [] {
      var before := results[..|results| - 1];
      MergeHas(rows, before, lane);
      forall p | 0 <= p < |results| && results[p].Some?
        ensures results[p].value.name in Merge(rows, results)
        ensures Merge(rows, results)[results[p].value.name] == results[p].value
      {
        if p < |before| {
          assert before[p] == results[p] && lane[p].name != lane[|results| - 1].name;
        }
      }
    }
  }

  lemma {:induction false} MergeOnly(rows: map<string, Row>, results: seq<Option<Row>>, name: string)
    ensures !Lists(results, name) ==> (name in Merge(rows, results) <==> name in rows)
    ensures !Lists(results, name) && name in rows ==> Merge(rows, results)[name] == rows[name]
  {
    if results != [] && !Lists(results, name) {
      var before := results[..|results| - 1];
      assert !Lists(before, name) by {
        assert forall p :: 0 <= p < |before| ==> before[p] == results[p];
      }
      MergeOnly(rows, before, name);
    }
  }

  lemma StepKeepsCounted(plan: Plan, s: State, step: Step)
    requires Sound(plan) && Shape(plan, s) && Staged(s) && Counted(s) && Enabled(plan, s, step)
    ensures Counted(Apply(plan, s, step))
  {
    var t := Apply(plan, s, step);
    SettledStays(plan, s, step);
    if step != Collect {
      NotCollectKeeps(plan, s, step);
      assert forall j: nat :: Raises(t, j) <==> Raises(s, j);
    } else {
      assert t.jobs == s.jobs && t.collected == s.collected + 1;
      assert forall j: nat :: Raises(t, j) <==> Raises(s, j) || (j == s.collected && j >= 1 && s.jobs[j].Raised?);
    }
  }

  lemma LaneDistinct(plan: Plan, j: nat)
    requires OnePlaceEach(plan.lanes) && j < |plan.lanes|
    ensures DistinctNames(plan.lanes[j])
  {
    var lane := plan.lanes[j];
    forall p, q | 0 <= p < q < |lane|
      ensures lane[p].name != lane[q].name
    {
      assert InLane(plan.lanes, j, p) && InLane(plan.lanes, j, q);
    }
  }

  /** Rows of different lanes have different names. */
  lemma RowsApart(plan: Plan, s: State, j: int, p: int, k: int, q: int)
    requires Sound(plan) && Shape(plan, s) && HasRow(s, j, p)
    requires 0 <= k < |s.jobs| && k != j && s.jobs[k].Returned?
    requires 0 <= q < |s.jobs[k].results| && s.jobs[k].results[q].Some?
    ensures RowAt(s, j, p).name != s.jobs[k].results[q].value.name
  {
    assert InLane(plan.lanes, j, p) && InLane(plan.lanes, k, q);
  }

  lemma CollectKeepsGathered(plan: Plan, s: State, t: State)
    requires Sound(plan) && Shape(plan, s) && Gathered(s) && s.collected < |s.jobs| && s.jobs[s.collected].Returned?
    requires t.jobs == s.jobs && t.collected == s.collected + 1 && t.rows == Merge(s.rows, s.jobs[s.collected].results)
    ensures Gathered(t)
  {
    var c := s.collected;
    var results := s.jobs[c].results;
    LaneDistinct(plan, c);
    MergeHas(s.rows, results, plan.lanes[c]);
    forall j, p | HasRow(t, j, p)
      ensures RowAt(t, j, p).name in t.rows && t.rows[RowAt(t, j, p).name] == RowAt(t, j, p)
    {
      if j < c {
        assert HasRow(s, j, p);
        var name := RowAt(s, j, p).name;
        forall q | 0 <= q < |results| && results[q].Some?
          ensures results[q].value.name != name
        {
          RowsApart(plan, s, j, p, c, q);
        }
        MergeOnly(s.rows, results, name);
      }
    }
    forall name | name in t.rows
      ensures t.rows[name].name == name && FromLane(t, name)
    {
      MergeOnly(s.rows, results, name);
      if Lists(results, name) {
        var p :| 0 <= p < |results| && results[p].Some? && results[p].value.name == name;
        assert HasRow(t, c, p) && RowAt(t, c, p).name == name;
      } else {
        var j, p :| HasRow(s, j, p) && RowAt(s, j, p).name == name;
        assert HasRow(t, j, p) && RowAt(t, j, p).name == name;
      }
    }
  }

  lemma SameGathered(s: State, t: State)
    requires Gathered(s) && t.rows == s.rows && |t.jobs| == |s.jobs|
    requires forall j, p :: HasRow(t, j, p) <==> HasRow(s, j, p)
    requires forall j, p :: HasRow(s, j, p) ==> t.jobs[j] == s.jobs[j]
    ensures Gathered(t)
  {
    forall name | name in t.rows
      ensures FromLane(t, name)
    {
      var j, p :| HasRow(s, j, p) && RowAt(s, j, p).name == name;
      assert HasRow(t, j, p) && RowAt(t, j, p).name == name;
    }
  }

  lemma StepKeepsGathered(plan: Plan, s: State, step: Step)
    requires Sound(plan) && Shape(plan, s) && Staged(s) && Gathered(s) && Enabled(plan, s, step)
    requires s.stage == Alone ==> s.rows == map[]
    ensures Gathered(Apply(plan, s, step))
    ensures Apply(plan, s, step).stage == Alone ==> Apply(plan, s, step).rows == map[]
  {
    var t := Apply(plan, s, step);
    SettledStays(plan, s, step);
    if step != Collect {
      NotCollectKeeps(plan, s, step);
      SameGathered(s, t);
    } else if s.jobs[s.collected].Returned? {
      CollectKeepsGathered(plan, s, t);
    } else {
      SameGathered(s, t);
    }
  }
}
