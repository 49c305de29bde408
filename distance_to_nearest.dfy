/** The meaning of the DistanceToNearest query
    (geomancer/spells/distance_to_nearest.py): the candidates of the source,
    the (target, candidate) pairs closer than `within`, and per row key the
    pair of smallest distance (rank 1 of a `row_number` window ordered by the
    distance). */
module DistanceToNearestSpell {
  import opened Wrappers
  import opened Frames
  import opened SpellBase

  /** `DistanceToNearest(on, within=10000, **kwargs)`. */
  function New(on: string, sourceTable: string, featureName: string, within: int := DEFAULT_WITHIN): (s: Spell)
    ensures s.kind == DistanceToNearest && s.within == within
    ensures (s.sourceColumn, s.sourceFilter) == ExtractColumns(on)
    ensures s.sourceId == "osm_id" && s.dburl == None && s.options == None
  {
    NewSpell(DistanceToNearest, on, sourceTable, featureName, within := within)
  }

  /** A row of the `pairs` CTE: the target row extended with the distance
      under the feature name, its row key, and the distance. */
  datatype Pair = Pair(key: Value, row: Row, dist: int)

  function PairOf(s: Spell, t: Row, d: int): Pair {
    Pair(Get(t, INDEX_KEY), t[s.featureName := Int(d)], d)
  }

  /** The pairs of one target row. */
  function PairsOf(s: Spell, ops: SpatialOps, column: ColName, t: Row, pois: seq<Row>): (ps: seq<Pair>)
    ensures forall q | q in ps :: exists j | 0 <= j < |pois| ::
      Distance(ops, column, t, pois[j]) < s.within && q == PairOf(s, t, Distance(ops, column, t, pois[j]))
    ensures forall j | 0 <= j < |pois| && Distance(ops, column, t, pois[j]) < s.within ::
      PairOf(s, t, Distance(ops, column, t, pois[j])) in ps
  {
    if pois == [] then []
    else
      var rest := PairsOf(s, ops, column, t, pois[1..]);
      assert forall j | 1 <= j < |pois| :: pois[1..][j - 1] == pois[j];
      var d := Distance(ops, column, t, pois[0]);
      (if d < s.within then [PairOf(s, t, d)] else []) + rest
  }

  /** The `pairs` CTE: every target row with every candidate closer than `within`. */
  function Pairs(s: Spell, ops: SpatialOps, column: ColName, ts: seq<Row>, pois: seq<Row>): (ps: seq<Pair>)
    ensures forall q | q in ps :: exists i | 0 <= i < |ts| :: q in PairsOf(s, ops, column, ts[i], pois)
    ensures forall i, q | 0 <= i < |ts| && q in PairsOf(s, ops, column, ts[i], pois) :: q in ps
  {
    if ts == [] then []
    else
      var rest := Pairs(s, ops, column, ts[1..], pois);
      assert forall i | 1 <= i < |ts| :: ts[1..][i - 1] == ts[i];
      PairsOf(s, ops, column, ts[0], pois) + rest
  }

  /** Every pair comes from one target row and one candidate inside the radius. */
  lemma PairSource(s: Spell, ops: SpatialOps, column: ColName, ts: seq<Row>, pois: seq<Row>, q: Pair)
    returns (a: nat, b: nat)
    requires q in Pairs(s, ops, column, ts, pois)
    ensures a < |ts| && b < |pois|
    ensures Distance(ops, column, ts[a], pois[b]) < s.within
    ensures q == PairOf(s, ts[a], Distance(ops, column, ts[a], pois[b]))
  {
    var i :| 0 <= i < |ts| && q in PairsOf(s, ops, column, ts[i], pois);
    var j :| 0 <= j < |pois| && Distance(ops, column, ts[i], pois[j]) < s.within && q == PairOf(s, ts[i], Distance(ops, column, ts[i], pois[j]));
    a, b := i, j;
  }

  /** Every target row and candidate inside the radius make a pair. */
  lemma PairOfSource(s: Spell, ops: SpatialOps, column: ColName, ts: seq<Row>, pois: seq<Row>, a: nat, b: nat)
    requires a < |ts| && b < |pois|
    requires Distance(ops, column, ts[a], pois[b]) < s.within
    ensures PairOf(s, ts[a], Distance(ops, column, ts[a], pois[b])) in Pairs(s, ops, column, ts, pois)
  {
    assert PairOf(s, ts[a], Distance(ops, column, ts[a], pois[b])) in PairsOf(s, ops, column, ts[a], pois);
  }

  /** The distinct row keys of the pairs, in order of first appearance. */
  function Keys(ps: seq<Pair>): (ks: seq<Value>)
    ensures Distinct(ks)
    ensures forall k :: k in ks <==> exists q | q in ps :: q.key == k
  {
    if ps == [] then []
    else
      var init := ps[..|ps| - 1];
      var ks := Keys(init);
      var last := ps[|ps| - 1];
      assert forall q | q in ps :: q in init || q == last;
      assert forall q | q in init :: q in ps;
      if last.key in ks then ks else ks + [last.key]
  }

  /** The first pair for key `k` whose distance is smallest; one of the
      choices `row_number()` may make among equidistant candidates. */
  function Nearest(ps: seq<Pair>, k: Value): (p: Pair)
    requires k in Keys(ps)
    ensures p in ps && p.key == k
    ensures forall q | q in ps && q.key == k :: p.dist <= q.dist
  {
    assert forall q | q in ps :: q == ps[0] || q in ps[1..];
    if k !in Keys(ps[1..]) then ps[0]
    else
      var p := Nearest(ps[1..], k);
      if ps[0].key == k && ps[0].dist <= p.dist then ps[0] else p
  }

  /** The output column list: the target's columns, the feature, less any
      column called "row_number" (the helper column the window adds). */
  function Columns(s: Spell, target: Table): seq<ColName> {
    Without(target.columns + [s.featureName], {"row_number"})
  }

  /** The query. The column references fail first (see
      `SpellBase.CheckColumns`); `pairs.c["__index_level_0__"]` needs the key. */
  function Query(s: Spell, source: Table, target: Table, column: ColName, ops: SpatialOps): (r: Result<Table>)
    ensures r.Err? <==> CheckColumns(s, source, target, column).Err? || INDEX_KEY !in target.columns + [s.featureName]
    ensures r.Ok? ==> r.value.columns == Columns(s, target)
    ensures r.Ok? ==> r.value.rows == Output(Pairs(s, ops, column, target.rows, Candidates(s, source.rows)))
  {
    var _ :- CheckColumns(s, source, target, column);
    if INDEX_KEY !in target.columns + [s.featureName] then Err(KeyError(INDEX_KEY))
    else
      var ps := Pairs(s, ops, column, target.rows, Candidates(s, source.rows));
      Ok(Table(Columns(s, target), Output(ps)))
  }

  /** One row per key of the pairs: the nearest pair's row without "row_number". */
  function Output(ps: seq<Pair>): (rows: seq<Row>)
    ensures |rows| == |Keys(ps)|
    ensures forall i | 0 <= i < |rows| :: rows[i] == Nearest(ps, Keys(ps)[i]).row - {"row_number"}
  {
    var ks := Keys(ps);
    seq(|ks|, i requires 0 <= i < |ks| => Nearest(ps, ks[i]).row - {"row_number"})
  }

  /** The rows a database may return for the pairs `ps`: one per key, in the
      order of `Keys`, each from a pair of smallest distance for its key. */
  predicate Permitted(ps: seq<Pair>, rows: seq<Row>) {
    && |rows| == |Keys(ps)|
    && forall i | 0 <= i < |rows| :: exists q | q in ps ::
         && q.key == Keys(ps)[i]
         && (forall q2 | q2 in ps && q2.key == q.key :: q.dist <= q2.dist)
         && rows[i] == q.row - {"row_number"}
  }

  /** The query returns one of the permitted answers. */
  lemma OutputPermitted(ps: seq<Pair>)
    ensures Permitted(ps, Output(ps))
  {
    var rows := Output(ps);
    var ks := Keys(ps);
    forall i | 0 <= i < |rows|
      ensures exists q | q in ps ::
         && q.key == ks[i]
         && (forall q2 | q2 in ps && q2.key == q.key :: q.dist <= q2.dist)
         && rows[i] == q.row - {"row_number"}
    {
      var q := Nearest(ps, ks[i]);
    }
  }

  /** Which of several equidistant candidates is ranked first does not
      matter when row keys are unique: the output row does not mention the
      candidate, only its distance, so every permitted answer is the same. */
  lemma TieBreakIrrelevant(s: Spell, ops: SpatialOps, column: ColName, ts: seq<Row>, pois: seq<Row>,
                           rows1: seq<Row>, rows2: seq<Row>)
    requires UniqueKeys(ts)
    requires Permitted(Pairs(s, ops, column, ts, pois), rows1)
    requires Permitted(Pairs(s, ops, column, ts, pois), rows2)
    ensures rows1 == rows2
  {
    var ps := Pairs(s, ops, column, ts, pois);
    forall q1, q2 | q1 in ps && q2 in ps && q1.key == q2.key && q1.dist == q2.dist
      ensures q1 == q2
    {
      SameKeySameRow(s, ops, column, ts, pois, q1, q2);
    }
    PermittedUnique(ps, rows1, rows2);
  }

  /** When a key and a distance fix the pair, only one answer is permitted. */
  lemma PermittedUnique(ps: seq<Pair>, rows1: seq<Row>, rows2: seq<Row>)
    requires forall q1, q2 | q1 in ps && q2 in ps && q1.key == q2.key && q1.dist == q2.dist :: q1 == q2
    requires Permitted(ps, rows1) && Permitted(ps, rows2)
    ensures rows1 == rows2
  {
    var ks := Keys(ps);
    forall i | 0 <= i < |rows1| ensures rows1[i] == rows2[i] {
      var q1 :| q1 in ps && q1.key == ks[i] && (forall q2 | q2 in ps && q2.key == q1.key :: q1.dist <= q2.dist) && rows1[i] == q1.row - {"row_number"};
      var q2 :| q2 in ps && q2.key == ks[i] && (forall q3 | q3 in ps && q3.key == q2.key :: q2.dist <= q3.dist) && rows2[i] == q2.row - {"row_number"};
      assert q1 == q2;
    }
  }

  /** Under unique keys, two pairs with the same key and distance are equal. */
  lemma SameKeySameRow(s: Spell, ops: SpatialOps, column: ColName, ts: seq<Row>, pois: seq<Row>, q1: Pair, q2: Pair)
    requires UniqueKeys(ts)
    requires q1 in Pairs(s, ops, column, ts, pois) && q2 in Pairs(s, ops, column, ts, pois)
    requires q1.key == q2.key && q1.dist <= q2.dist && q2.dist <= q1.dist
    ensures q1 == q2
  {
    var a1, b1 := PairSource(s, ops, column, ts, pois, q1);
    var a2, b2 := PairSource(s, ops, column, ts, pois, q2);
    assert ts[a1][INDEX_KEY] == ts[a2][INDEX_KEY];
  }

  /** The pair chosen for key `k` comes from a target row with that key; so
      with the key in every target row (and a feature name other than the
      key and "row_number") its output row carries the key and the distance. */
  lemma NearestRow(s: Spell, ops: SpatialOps, column: ColName, ts: seq<Row>, pois: seq<Row>, k: Value)
    requires k in Keys(Pairs(s, ops, column, ts, pois))
    requires forall t | t in ts :: INDEX_KEY in t
    requires s.featureName != INDEX_KEY && s.featureName != "row_number"
    ensures
      var q := Nearest(Pairs(s, ops, column, ts, pois), k);
      var row := q.row - {"row_number"};
      && INDEX_KEY in row && row[INDEX_KEY] == k
      && s.featureName in row && row[s.featureName] == Int(q.dist)
  {
    var q := Nearest(Pairs(s, ops, column, ts, pois), k);
    var a, b := PairSource(s, ops, column, ts, pois, q);
    assert ts[a] in ts;
    PairOfRow(s, ts[a], q.dist);
  }

  lemma PairOfRow(s: Spell, t: Row, d: int)
    requires INDEX_KEY in t
    requires s.featureName != INDEX_KEY && s.featureName != "row_number"
    ensures
      var row := PairOf(s, t, d).row - {"row_number"};
      && INDEX_KEY in row && row[INDEX_KEY] == PairOf(s, t, d).key
      && s.featureName in row && row[s.featureName] == Int(d)
  {
  }

  /** At most one output row per `__index_level_0__`, and it is the key of
      its group. */
  lemma OneRowPerKey(s: Spell, ops: SpatialOps, column: ColName, ts: seq<Row>, pois: seq<Row>)
    requires forall t | t in ts :: INDEX_KEY in t
    requires s.featureName != INDEX_KEY && s.featureName != "row_number"
    ensures
      var ps := Pairs(s, ops, column, ts, pois);
      var rows := Output(ps);
      && (forall i | 0 <= i < |rows| :: INDEX_KEY in rows[i] && rows[i][INDEX_KEY] == Keys(ps)[i])
      && (forall i, j | 0 <= i < j < |rows| :: rows[i][INDEX_KEY] != rows[j][INDEX_KEY])
  {
    var ps := Pairs(s, ops, column, ts, pois);
    var rows := Output(ps);
    forall i | 0 <= i < |rows| ensures INDEX_KEY in rows[i] && rows[i][INDEX_KEY] == Keys(ps)[i] {
      NearestRow(s, ops, column, ts, pois, Keys(ps)[i]);
    }
  }

  /** The feature of the row for key `k` is the smallest distance from a
      target row with that key to a candidate inside the radius: below
      `within`, attained by one such pair, and no larger than any other. */
  lemma FeatureIsMinimum(s: Spell, ops: SpatialOps, column: ColName, ts: seq<Row>, pois: seq<Row>, k: Value)
    requires k in Keys(Pairs(s, ops, column, ts, pois))
    ensures
      var d := Nearest(Pairs(s, ops, column, ts, pois), k).dist;
      && d < s.within
      && (exists a, b | 0 <= a < |ts| && 0 <= b < |pois| ::
            Get(ts[a], INDEX_KEY) == k && Distance(ops, column, ts[a], pois[b]) == d)
      && (forall a, b | 0 <= a < |ts| && 0 <= b < |pois| &&
            Get(ts[a], INDEX_KEY) == k && Distance(ops, column, ts[a], pois[b]) < s.within ::
            d <= Distance(ops, column, ts[a], pois[b]))
  {
    var ps := Pairs(s, ops, column, ts, pois);
    var q := Nearest(ps, k);
    var a, b := PairSource(s, ops, column, ts, pois, q);
    forall a2, b2 | 0 <= a2 < |ts| && 0 <= b2 < |pois| && Get(ts[a2], INDEX_KEY) == k && Distance(ops, column, ts[a2], pois[b2]) < s.within
      ensures q.dist <= Distance(ops, column, ts[a2], pois[b2])
    {
      PairOfSource(s, ops, column, ts, pois, a2, b2);
    }
  }

  /** A key has an output row exactly when some target row with that key has
      a candidate inside the radius; the others are absent. */
  lemma PresentIffInRadius(s: Spell, ops: SpatialOps, column: ColName, ts: seq<Row>, pois: seq<Row>, k: Value)
    ensures k in Keys(Pairs(s, ops, column, ts, pois)) <==>
      exists a, b | 0 <= a < |ts| && 0 <= b < |pois| ::
        Get(ts[a], INDEX_KEY) == k && Distance(ops, column, ts[a], pois[b]) < s.within
  {
    var ps := Pairs(s, ops, column, ts, pois);
    if k in Keys(ps) {
      var q :| q in ps && q.key == k;
      var a, b := PairSource(s, ops, column, ts, pois, q);
    }
    if exists a, b | 0 <= a < |ts| && 0 <= b < |pois| :: Get(ts[a], INDEX_KEY) == k && Distance(ops, column, ts[a], pois[b]) < s.within {
      var a, b :| 0 <= a < |ts| && 0 <= b < |pois| && Get(ts[a], INDEX_KEY) == k && Distance(ops, column, ts[a], pois[b]) < s.within;
      PairOfSource(s, ops, column, ts, pois, a, b);
    }
  }

  /** Without a "row_number" column of its own, the output is the target's
      columns followed by the feature. */
  lemma ColumnsAppendFeature(s: Spell, target: Table)
    requires "row_number" !in target.columns && s.featureName != "row_number"
    ensures Columns(s, target) == target.columns + [s.featureName]
  {
    WithoutNothing(target.columns + [s.featureName], {"row_number"});
  }
}
