/** The meaning of the LengthOf query (geomancer/spells/length_of.py): the
    candidate lines meeting each target row's buffer, the clipped lengths
    summed per row key, each sum emitted once for every target row with that
    key. BigQuery lacks `ST_Buffer`, so the query refuses a BigQuery core. */
module LengthOfSpell {
  import opened Wrappers
  import opened Frames
  import opened SpellBase
  import Cores

  /** `LengthOf(on, within=10000, **kwargs)`. */
  function New(on: string, sourceTable: string, featureName: string, within: int := DEFAULT_WITHIN): (s: Spell)
    ensures s.kind == LengthOf && s.within == within
    ensures (s.sourceColumn, s.sourceFilter) == ExtractColumns(on)
    ensures s.sourceId == "osm_id" && s.dburl == None && s.options == None
  {
    NewSpell(LengthOf, on, sourceTable, featureName, within := within)
  }

  /** The ValueError text. The backslash continuation inside the literal
      keeps the next line's 16 spaces of indentation. */
  const BUFFER_UNSUPPORTED: string :=
    "The LengthOf feature is currently incompatible with " + "                " +
    "BigQueryCore because ST_Buffer is not yet implemented"

  /** A row of the `clip` CTE reduced to what the sum reads: the target row's
      key and the length of the line inside its buffer. */
  datatype Clip = Clip(key: Value, len: int)

  /** `ST_Intersects(line, buffer)`: the line meets the target's buffer. */
  predicate Meets(s: Spell, ops: SpatialOps, column: ColName, t: Row, l: Row) {
    ops.intersects(Get(l, SOURCE_GEOMETRY), Get(t, column), s.within)
  }

  /** `ST_Length(ST_Intersection(line, buffer))`. */
  function ClippedLength(s: Spell, ops: SpatialOps, column: ColName, t: Row, l: Row): int {
    ops.clippedLength(Get(l, SOURCE_GEOMETRY), Get(t, column), s.within)
  }

  /** The clips of one target row. */
  function ClipsOf(s: Spell, ops: SpatialOps, column: ColName, t: Row, lois: seq<Row>): (cs: seq<Clip>)
    ensures forall c | c in cs :: c.key == Get(t, INDEX_KEY)
    ensures forall c | c in cs :: exists j | 0 <= j < |lois| :: Meets(s, ops, column, t, lois[j])
  {
    if lois == [] then []
    else
      var rest := ClipsOf(s, ops, column, t, lois[1..]);
      assert forall j | 1 <= j < |lois| :: lois[1..][j - 1] == lois[j];
      (if Meets(s, ops, column, t, lois[0]) then [Clip(Get(t, INDEX_KEY), ClippedLength(s, ops, column, t, lois[0]))] else [])
      + rest
  }

  /** The `clip` CTE: every target row with every candidate line it meets. */
  function Clips(s: Spell, ops: SpatialOps, column: ColName, ts: seq<Row>, lois: seq<Row>): (cs: seq<Clip>)
    ensures forall c | c in cs :: exists i | 0 <= i < |ts| :: c in ClipsOf(s, ops, column, ts[i], lois)
    ensures forall i, c | 0 <= i < |ts| && c in ClipsOf(s, ops, column, ts[i], lois) :: c in cs
  {
    if ts == [] then []
    else
      var rest := Clips(s, ops, column, ts[1..], lois);
      assert forall i | 1 <= i < |ts| :: ts[1..][i - 1] == ts[i];
      ClipsOf(s, ops, column, ts[0], lois) + rest
  }

  /** The groups of `GROUP BY clip.__index_level_0__`, in order of first appearance. */
  function Keys(cs: seq<Clip>): (ks: seq<Value>)
    ensures Distinct(ks)
    ensures forall k :: k in ks <==> exists c | c in cs :: c.key == k
  {
    if cs == [] then []
    else
      var init := cs[..|cs| - 1];
      var ks := Keys(init);
      var last := cs[|cs| - 1];
      assert forall c | c in cs :: c in init || c == last;
      assert forall c | c in init :: c in cs;
      if last.key in ks then ks else ks + [last.key]
  }

  /** `SUM(clip.__len__)` of the group with key `k`. */
  function Sum(cs: seq<Clip>, k: Value): int {
    if cs == [] then 0 else (if cs[0].key == k then cs[0].len else 0) + Sum(cs[1..], k)
  }

  /** The columns of the result: `sum_length`'s key and feature, less the
      helper names "__len__", "__geom__" and "__buffer__". */
  function Columns(s: Spell): seq<ColName> {
    Without([INDEX_KEY, s.featureName], {"__len__", "__geom__", "__buffer__"})
  }

  /** The `sum_length` row of key `k`, cut to the result's columns. */
  function SumRow(s: Spell, cs: seq<Clip>, k: Value): Row {
    Restrict(map[INDEX_KEY := k, s.featureName := Int(Sum(cs, k))], Elems(Columns(s)))
  }

  /** The number of `buff` rows the condition
      `sum_length.__index_level_0__ == buff.__index_level_0__` pairs with key
      `k`: the target rows with that key (none for NULL, which equals nothing). */
  function Partners(ts: seq<Row>, k: Value): nat {
    if ts == [] || k == Missing then 0
    else (if Get(ts[0], INDEX_KEY) == k then 1 else 0) + Partners(ts[1..], k)
  }

  /** The final select: each `sum_length` row once per partner in `buff`. */
  function Output(s: Spell, cs: seq<Clip>, ks: seq<Value>, ts: seq<Row>): seq<Row> {
    if ks == [] then []
    else seq(Partners(ts, ks[0]), _ => SumRow(s, cs, ks[0])) + Output(s, cs, ks[1..], ts)
  }

  /** The query. A BigQuery core is refused before any column is looked up;
      then the column references as in `SpellBase.CheckColumns`, then
      `clip.c["__index_level_0__"]`. */
  function Query(s: Spell, core: Cores.Core, source: Table, target: Table, column: ColName, ops: SpatialOps): (r: Result<Table>)
    ensures core.BigQuery? ==> r == Err(ValueError(BUFFER_UNSUPPORTED))
    ensures r.Err? <==> core.BigQuery? || CheckColumns(s, source, target, column).Err? || INDEX_KEY !in target.columns
    ensures r.Ok? ==> r.value.columns == Columns(s)
    ensures r.Ok? ==>
      var cs := Clips(s, ops, column, target.rows, Candidates(s, source.rows));
      r.value.rows == Output(s, cs, Keys(cs), target.rows)
  {
    if core.BigQuery? then Err(ValueError(BUFFER_UNSUPPORTED))
    else
      var _ :- CheckColumns(s, source, target, column);
      if INDEX_KEY !in target.columns then Err(KeyError(INDEX_KEY))
      else
        var cs := Clips(s, ops, column, target.rows, Candidates(s, source.rows));
        Ok(Table(Columns(s), Output(s, cs, Keys(cs), target.rows)))
  }

  /** The reference definition of the feature: for the target rows with key
      `k`, the clipped lengths of the lines each one meets, added up row by
      row. */
  function RowLength(s: Spell, ops: SpatialOps, column: ColName, t: Row, lois: seq<Row>): int {
    if lois == [] then 0
    else (if Meets(s, ops, column, t, lois[0]) then ClippedLength(s, ops, column, t, lois[0]) else 0)
         + RowLength(s, ops, column, t, lois[1..])
  }

  function KeyLength(s: Spell, ops: SpatialOps, column: ColName, ts: seq<Row>, lois: seq<Row>, k: Value): int {
    if ts == [] then 0
    else (if Get(ts[0], INDEX_KEY) == k then RowLength(s, ops, column, ts[0], lois) else 0)
         + KeyLength(s, ops, column, ts[1..], lois, k)
  }

  lemma {:induction false} SumAppend(a: seq<Clip>, b: seq<Clip>, k: Value)
    ensures Sum(a + b, k) == Sum(a, k) + Sum(b, k)
  {
    if a == [] {
      assert a + b == b;
    } else {
      assert (a + b)[1..] == a[1..] + b;
      SumAppend(a[1..], b, k);
    }
  }

  lemma {:induction false} SumOfRow(s: Spell, ops: SpatialOps, column: ColName, t: Row, lois: seq<Row>, k: Value)
    ensures Sum(ClipsOf(s, ops, column, t, lois), k) == if Get(t, INDEX_KEY) == k then RowLength(s, ops, column, t, lois) else 0
  {
    if lois != [] {
      var head: seq<Clip> := if Meets(s, ops, column, t, lois[0]) then [Clip(Get(t, INDEX_KEY), ClippedLength(s, ops, column, t, lois[0]))] else [];
      SumAppend(head, ClipsOf(s, ops, column, t, lois[1..]), k);
      SumOfRow(s, ops, column, t, lois[1..], k);
      assert Sum(head, k) == if Get(t, INDEX_KEY) == k && Meets(s, ops, column, t, lois[0]) then ClippedLength(s, ops, column, t, lois[0]) else 0 by {
        if head != [] {
          assert head[1..] == [];
        }
      }
    }
  }

  /** The feature of key `k` is the total clipped length, over the target
      rows with that key, of the candidate lines each one meets. */
  lemma {:induction false} FeatureIsTotalLength(s: Spell, ops: SpatialOps, column: ColName, ts: seq<Row>, lois: seq<Row>, k: Value)
    ensures Sum(Clips(s, ops, column, ts, lois), k) == KeyLength(s, ops, column, ts, lois, k)
  {
    if ts != [] {
      SumAppend(ClipsOf(s, ops, column, ts[0], lois), Clips(s, ops, column, ts[1..], lois), k);
      SumOfRow(s, ops, column, ts[0], lois, k);
      FeatureIsTotalLength(s, ops, column, ts[1..], lois, k);
    }
  }

  /** A key is summed exactly when one of its target rows meets a candidate line. */
  lemma {:induction false} KeyPresentIff(s: Spell, ops: SpatialOps, column: ColName, ts: seq<Row>, lois: seq<Row>, k: Value)
    ensures k in Keys(Clips(s, ops, column, ts, lois)) <==>
      exists a, b | 0 <= a < |ts| && 0 <= b < |lois| :: Get(ts[a], INDEX_KEY) == k && Meets(s, ops, column, ts[a], lois[b])
  {
    var cs := Clips(s, ops, column, ts, lois);
    if k in Keys(cs) {
      var c :| c in cs && c.key == k;
      var a :| 0 <= a < |ts| && c in ClipsOf(s, ops, column, ts[a], lois);
      var b :| 0 <= b < |lois| && Meets(s, ops, column, ts[a], lois[b]);
    }
    if exists a, b | 0 <= a < |ts| && 0 <= b < |lois| :: Get(ts[a], INDEX_KEY) == k && Meets(s, ops, column, ts[a], lois[b]) {
      var a, b :| 0 <= a < |ts| && 0 <= b < |lois| && Get(ts[a], INDEX_KEY) == k && Meets(s, ops, column, ts[a], lois[b]);
      ClipOfMeeting(s, ops, column, ts, lois, a, b);
    }
  }

  lemma {:induction false} ClipOfMeetingRow(s: Spell, ops: SpatialOps, column: ColName, t: Row, lois: seq<Row>, b: nat)
    requires b < |lois| && Meets(s, ops, column, t, lois[b])
    ensures Clip(Get(t, INDEX_KEY), ClippedLength(s, ops, column, t, lois[b])) in ClipsOf(s, ops, column, t, lois)
  {
    if b > 0 {
      assert lois[1..][b - 1] == lois[b];
      ClipOfMeetingRow(s, ops, column, t, lois[1..], b - 1);
    }
  }

  lemma {:induction false} ClipOfMeeting(s: Spell, ops: SpatialOps, column: ColName, ts: seq<Row>, lois: seq<Row>, a: nat, b: nat)
    requires a < |ts| && b < |lois| && Meets(s, ops, column, ts[a], lois[b])
    ensures Clip(Get(ts[a], INDEX_KEY), ClippedLength(s, ops, column, ts[a], lois[b])) in Clips(s, ops, column, ts, lois)
  {
    if a == 0 {
      ClipOfMeetingRow(s, ops, column, ts[0], lois, b);
    } else {
      assert ts[1..][a - 1] == ts[a];
      ClipOfMeeting(s, ops, column, ts[1..], lois, a - 1, b);
    }
  }

  /** With unique row keys, a key that some target row carries has exactly
      one partner. */
  lemma {:induction false} PartnersOfUnique(ts: seq<Row>, k: Value)
    requires UniqueKeys(ts) && k != Missing
    requires exists a | 0 <= a < |ts| :: Get(ts[a], INDEX_KEY) == k
    ensures Partners(ts, k) == 1
  {
    var a :| 0 <= a < |ts| && Get(ts[a], INDEX_KEY) == k;
    assert UniqueKeys(ts[1..]) by {
      forall i | 0 <= i < |ts[1..]| ensures INDEX_KEY in ts[1..][i] {
        assert ts[1..][i] == ts[i + 1];
      }
    }
    if a == 0 {
      PartnersNone(ts[1..], k);
    } else {
      assert ts[1..][a - 1] == ts[a];
      assert Get(ts[0], INDEX_KEY) != k;
      PartnersOfUnique(ts[1..], k);
    }
  }

  lemma {:induction false} PartnersNone(ts: seq<Row>, k: Value)
    requires forall i | 0 <= i < |ts| :: Get(ts[i], INDEX_KEY) != k
    ensures Partners(ts, k) == 0
  {
    if ts != [] && k != Missing {
      assert forall i | 0 <= i < |ts[1..]| :: ts[1..][i] == ts[i + 1];
      PartnersNone(ts[1..], k);
    }
  }

  /** With one partner per key, the result is one row per key, in order. */
  lemma {:induction false} OutputOnePartner(s: Spell, cs: seq<Clip>, ks: seq<Value>, ts: seq<Row>)
    requires forall i | 0 <= i < |ks| :: Partners(ts, ks[i]) == 1
    ensures |Output(s, cs, ks, ts)| == |ks|
    ensures forall i | 0 <= i < |ks| :: Output(s, cs, ks, ts)[i] == SumRow(s, cs, ks[i])
  {
    if ks != [] {
      assert Partners(ts, ks[0]) == 1;
      assert forall i | 0 <= i < |ks[1..]| :: ks[1..][i] == ks[i + 1];
      OutputOnePartner(s, cs, ks[1..], ts);
      var rest := Output(s, cs, ks[1..], ts);
      var head := seq(Partners(ts, ks[0]), _ => SumRow(s, cs, ks[0]));
      assert head == [SumRow(s, cs, ks[0])];
      assert Output(s, cs, ks, ts) == head + rest;
    }
  }

  /** With unique, non-NULL row keys, the result holds exactly one row per
      key whose row meets a line, in `Keys` order, carrying that key and its
      sum. */
  lemma OneRowPerKey(s: Spell, ops: SpatialOps, column: ColName, ts: seq<Row>, lois: seq<Row>)
    requires UniqueKeys(ts)
    requires forall i | 0 <= i < |ts| :: ts[i][INDEX_KEY] != Missing
    ensures
      var cs := Clips(s, ops, column, ts, lois);
      var ks := Keys(cs);
      && |Output(s, cs, ks, ts)| == |ks|
      && forall i | 0 <= i < |ks| :: Output(s, cs, ks, ts)[i] == SumRow(s, cs, ks[i])
  {
    var cs := Clips(s, ops, column, ts, lois);
    var ks := Keys(cs);
    KeysFromTargets(s, ops, column, ts, lois);
    forall i | 0 <= i < |ks| ensures Partners(ts, ks[i]) == 1 {
      assert ks[i] in ks;
      var a :| 0 <= a < |ts| && Get(ts[a], INDEX_KEY) == ks[i];
      PartnersOfUnique(ts, ks[i]);
    }
    OutputOnePartner(s, cs, ks, ts);
  }

  /** The keys the query sums all come from target rows. */
  lemma KeysFromTargets(s: Spell, ops: SpatialOps, column: ColName, ts: seq<Row>, lois: seq<Row>)
    ensures forall k | k in Keys(Clips(s, ops, column, ts, lois)) :: exists a | 0 <= a < |ts| :: Get(ts[a], INDEX_KEY) == k
  {
    forall k | k in Keys(Clips(s, ops, column, ts, lois)) ensures exists a | 0 <= a < |ts| :: Get(ts[a], INDEX_KEY) == k {
      KeyPresentIff(s, ops, column, ts, lois, k);
    }
  }

  /** With a feature name other than the key and the helper names, a row of
      the result is the key and the sum. */
  lemma SumRowShape(s: Spell, cs: seq<Clip>, k: Value)
    requires s.featureName !in {INDEX_KEY, "__len__", "__geom__", "__buffer__"}
    ensures Columns(s) == [INDEX_KEY, s.featureName]
    ensures SumRow(s, cs, k) == map[INDEX_KEY := k, s.featureName := Int(Sum(cs, k))]
  {
    WithoutNothing([INDEX_KEY, s.featureName], {"__len__", "__geom__", "__buffer__"});
    var m := map[INDEX_KEY := k, s.featureName := Int(Sum(cs, k))];
    assert Restrict(m, Elems(Columns(s))).Keys == m.Keys;
  }
}
