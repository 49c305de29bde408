/** The meaning of the NumberOf query (geomancer/spells/number_of.py): the
    (target, candidate) pairs closer than `within`, grouped by every target
    column except "distance" and `source_id`, each group counting the
    distinct non-NULL candidate ids it met. */
module NumberOfSpell {
  import opened Wrappers
  import opened Frames
  import opened SpellBase

  /** `NumberOf(on, within=10000, **kwargs)`. */
  function New(on: string, sourceTable: string, featureName: string, within: int := DEFAULT_WITHIN): (s: Spell)
    ensures s.kind == NumberOf && s.within == within
    ensures (s.sourceColumn, s.sourceFilter) == ExtractColumns(on)
    ensures s.sourceId == "osm_id" && s.dburl == None && s.options == None
  {
    NewSpell(NumberOf, on, sourceTable, featureName, within := within)
  }

  /** `keep_columns`: the columns of `pairs` other than "distance" and `source_id`. */
  function KeepColumns(s: Spell, target: Table): (keep: seq<ColName>)
    ensures forall c :: c in keep <==> c in target.columns && c != "distance" && c != s.sourceId
  {
    Without(target.columns, {"distance", s.sourceId})
  }

  /** A row of the `pairs` CTE reduced to what the aggregate reads: the
      target row's values in the grouping columns, and the candidate's id. */
  datatype Pair = Pair(group: Row, id: Value)

  function PairOf(s: Spell, keep: set<ColName>, t: Row, p: Row): Pair {
    Pair(Restrict(t, keep), Get(p, s.sourceId))
  }

  /** The pairs of one target row. */
  function PairsOf(s: Spell, ops: SpatialOps, column: ColName, keep: set<ColName>, t: Row, pois: seq<Row>): (ps: seq<Pair>)
    ensures forall q | q in ps :: exists j | 0 <= j < |pois| ::
      Distance(ops, column, t, pois[j]) < s.within && q == PairOf(s, keep, t, pois[j])
    ensures forall j | 0 <= j < |pois| && Distance(ops, column, t, pois[j]) < s.within ::
      PairOf(s, keep, t, pois[j]) in ps
  {
    if pois == [] then []
    else
      var rest := PairsOf(s, ops, column, keep, t, pois[1..]);
      assert forall j | 1 <= j < |pois| :: pois[1..][j - 1] == pois[j];
      (if Distance(ops, column, t, pois[0]) < s.within then [PairOf(s, keep, t, pois[0])] else []) + rest
  }

  /** The `pairs` CTE: every target row with every candidate closer than `within`. */
  function Pairs(s: Spell, ops: SpatialOps, column: ColName, keep: set<ColName>, ts: seq<Row>, pois: seq<Row>): (ps: seq<Pair>)
    ensures forall q | q in ps :: exists i | 0 <= i < |ts| :: q in PairsOf(s, ops, column, keep, ts[i], pois)
    ensures forall i, q | 0 <= i < |ts| && q in PairsOf(s, ops, column, keep, ts[i], pois) :: q in ps
  {
    if ts == [] then []
    else
      var rest := Pairs(s, ops, column, keep, ts[1..], pois);
      assert forall i | 1 <= i < |ts| :: ts[1..][i - 1] == ts[i];
      PairsOf(s, ops, column, keep, ts[0], pois) + rest
  }

  /** Every pair comes from one target row and one candidate inside the radius. */
  lemma PairSource(s: Spell, ops: SpatialOps, column: ColName, keep: set<ColName>, ts: seq<Row>, pois: seq<Row>, q: Pair)
    returns (a: nat, b: nat)
    requires q in Pairs(s, ops, column, keep, ts, pois)
    ensures a < |ts| && b < |pois|
    ensures Distance(ops, column, ts[a], pois[b]) < s.within
    ensures q == PairOf(s, keep, ts[a], pois[b])
  {
    var i :| 0 <= i < |ts| && q in PairsOf(s, ops, column, keep, ts[i], pois);
    var j :| 0 <= j < |pois| && Distance(ops, column, ts[i], pois[j]) < s.within && q == PairOf(s, keep, ts[i], pois[j]);
    a, b := i, j;
  }

  /** Every target row and candidate inside the radius make a pair. */
  lemma PairOfSource(s: Spell, ops: SpatialOps, column: ColName, keep: set<ColName>, ts: seq<Row>, pois: seq<Row>, a: nat, b: nat)
    requires a < |ts| && b < |pois|
    requires Distance(ops, column, ts[a], pois[b]) < s.within
    ensures PairOf(s, keep, ts[a], pois[b]) in Pairs(s, ops, column, keep, ts, pois)
  {
    assert PairOf(s, keep, ts[a], pois[b]) in PairsOf(s, ops, column, keep, ts[a], pois);
  }

  /** The groups of `GROUP BY keep_columns`, in order of first appearance
      (NULL cells group together, as SQL does). */
  function Groups(ps: seq<Pair>): (gs: seq<Row>)
    ensures Distinct(gs)
    ensures forall g :: g in gs <==> exists q | q in ps :: q.group == g
  {
    if ps == [] then []
    else
      var init := ps[..|ps| - 1];
      var gs := Groups(init);
      var last := ps[|ps| - 1];
      assert forall q | q in ps :: q in init || q == last;
      assert forall q | q in init :: q in ps;
      if last.group in gs then gs else gs + [last.group]
  }

  /** The values `COUNT(DISTINCT pairs.source_id)` counts for group `g`. */
  function Ids(ps: seq<Pair>, g: Row): set<Value> {
    set q | q in ps && q.group == g && q.id != Missing :: q.id
  }

  /** One output row per group: its grouping values and the count. */
  function Output(s: Spell, ps: seq<Pair>): (rows: seq<Row>)
    ensures |rows| == |Groups(ps)|
    ensures forall i | 0 <= i < |rows| :: rows[i] == Groups(ps)[i][s.featureName := Int(|Ids(ps, Groups(ps)[i])|)]
  {
    var gs := Groups(ps);
    seq(|gs|, i requires 0 <= i < |gs| => gs[i][s.featureName := Int(|Ids(ps, gs[i])|)])
  }

  /** The query. The column references fail as `SpellBase.CheckColumns` says. */
  function Query(s: Spell, source: Table, target: Table, column: ColName, ops: SpatialOps): (r: Result<Table>)
    ensures r.Err? <==> CheckColumns(s, source, target, column).Err?
    ensures r.Ok? ==> r.value.columns == KeepColumns(s, target) + [s.featureName]
    ensures r.Ok? ==> (r.value.rows ==
      Output(s, Pairs(s, ops, column, Elems(KeepColumns(s, target)), target.rows, Candidates(s, source.rows))))
  {
    var _ :- CheckColumns(s, source, target, column);
    var keep := KeepColumns(s, target);
    var ps := Pairs(s, ops, column, Elems(keep), target.rows, Candidates(s, source.rows));
    Ok(Table(keep + [s.featureName], Output(s, ps)))
  }

  /** The distinct non-NULL ids of the candidates inside the radius of some
      target row whose grouping values are `g`, defined on the inputs. */
  function CandidateIds(s: Spell, ops: SpatialOps, column: ColName, keep: set<ColName>, ts: seq<Row>, pois: seq<Row>, g: Row): set<Value> {
    set a, b | 0 <= a < |ts| && 0 <= b < |pois| && Restrict(ts[a], keep) == g
               && Distance(ops, column, ts[a], pois[b]) < s.within && Get(pois[b], s.sourceId) != Missing
             :: Get(pois[b], s.sourceId)
  }

  /** The count of a group is the number of distinct non-NULL candidate ids
      within `within` of its rows: a candidate near two rows of the group, or
      two candidates sharing an id, count once. */
  lemma CountIsDistinctIds(s: Spell, ops: SpatialOps, column: ColName, keep: set<ColName>, ts: seq<Row>, pois: seq<Row>, g: Row)
    ensures Ids(Pairs(s, ops, column, keep, ts, pois), g) == CandidateIds(s, ops, column, keep, ts, pois, g)
  {
    var ps := Pairs(s, ops, column, keep, ts, pois);
    var ids := Ids(ps, g);
    var cands := CandidateIds(s, ops, column, keep, ts, pois, g);
    forall v | v in ids ensures v in cands {
      var q :| q in ps && q.group == g && q.id != Missing && q.id == v;
      var a, b := PairSource(s, ops, column, keep, ts, pois, q);
      assert Get(pois[b], s.sourceId) == v;
    }
    forall v | v in cands ensures v in ids {
      var a, b :| 0 <= a < |ts| && 0 <= b < |pois| && Restrict(ts[a], keep) == g
                  && Distance(ops, column, ts[a], pois[b]) < s.within && Get(pois[b], s.sourceId) != Missing
                  && Get(pois[b], s.sourceId) == v;
      PairOfSource(s, ops, column, keep, ts, pois, a, b);
      var q := PairOf(s, keep, ts[a], pois[b]);
      assert q in ps && q.group == g && q.id == v;
    }
  }

  /** A group appears in the output exactly when one of its target rows has
      a candidate inside the radius; target rows with none are absent. */
  lemma GroupPresentIff(s: Spell, ops: SpatialOps, column: ColName, keep: set<ColName>, ts: seq<Row>, pois: seq<Row>, g: Row)
    ensures g in Groups(Pairs(s, ops, column, keep, ts, pois)) <==>
      exists a, b | 0 <= a < |ts| && 0 <= b < |pois| ::
        Restrict(ts[a], keep) == g && Distance(ops, column, ts[a], pois[b]) < s.within
  {
    var ps := Pairs(s, ops, column, keep, ts, pois);
    if g in Groups(ps) {
      var q :| q in ps && q.group == g;
      var a, b := PairSource(s, ops, column, keep, ts, pois, q);
    }
    if exists a, b | 0 <= a < |ts| && 0 <= b < |pois| :: Restrict(ts[a], keep) == g && Distance(ops, column, ts[a], pois[b]) < s.within {
      var a, b :| 0 <= a < |ts| && 0 <= b < |pois| && Restrict(ts[a], keep) == g && Distance(ops, column, ts[a], pois[b]) < s.within;
      PairOfSource(s, ops, column, keep, ts, pois, a, b);
    }
  }

  /** When every candidate has an id, every output group counts at least one. */
  lemma CountPositive(s: Spell, ops: SpatialOps, column: ColName, keep: set<ColName>, ts: seq<Row>, pois: seq<Row>, g: Row)
    requires forall p | p in pois :: Get(p, s.sourceId) != Missing
    requires g in Groups(Pairs(s, ops, column, keep, ts, pois))
    ensures |Ids(Pairs(s, ops, column, keep, ts, pois), g)| >= 1
  {
    var ps := Pairs(s, ops, column, keep, ts, pois);
    var q :| q in ps && q.group == g;
    var a, b := PairSource(s, ops, column, keep, ts, pois, q);
    assert q.id != Missing by {
      assert pois[b] in pois;
    }
    IdCounted(ps, g, q);
  }

  /** A pair with an id puts that id among its group's counted values. */
  lemma IdCounted(ps: seq<Pair>, g: Row, q: Pair)
    requires q in ps && q.group == g && q.id != Missing
    ensures q.id in Ids(ps, g) && |Ids(ps, g)| >= 1
  {
  }

  /** The non-NULL ids among all the candidates. */
  function AllIds(s: Spell, pois: seq<Row>): set<Value> {
    set b | 0 <= b < |pois| && Get(pois[b], s.sourceId) != Missing :: Get(pois[b], s.sourceId)
  }

  /** No group counts more than the distinct ids among all candidates. */
  lemma CountBounded(s: Spell, ops: SpatialOps, column: ColName, keep: set<ColName>, ts: seq<Row>, pois: seq<Row>, g: Row)
    ensures |Ids(Pairs(s, ops, column, keep, ts, pois), g)| <= |AllIds(s, pois)|
  {
    CountIsDistinctIds(s, ops, column, keep, ts, pois, g);
    var cands := CandidateIds(s, ops, column, keep, ts, pois, g);
    assert cands <= AllIds(s, pois);
    SubsetCard(cands, AllIds(s, pois));
  }

  lemma {:induction false} SubsetCard<T>(a: set<T>, b: set<T>)
    requires a <= b
    ensures |a| <= |b|
    decreases |b|
  {
    if a != {} {
      var x :| x in a;
      SubsetCard(a - {x}, b - {x});
    }
  }

  /** Adding the feature to a row holding only grouping columns leaves its
      grouping values intact. */
  lemma RestrictUpdate(g: Row, keep: set<ColName>, f: ColName, v: Value)
    requires g.Keys <= keep && f !in keep
    ensures Restrict(g[f := v], keep) == g
  {
    var r := Restrict(g[f := v], keep);
    assert r.Keys == g.Keys;
  }

  /** One output row per group: no two output rows agree on every grouping
      column (when the feature is not itself a grouping column). */
  lemma OneRowPerGroup(s: Spell, ops: SpatialOps, column: ColName, keep: set<ColName>, ts: seq<Row>, pois: seq<Row>)
    requires s.featureName !in keep
    ensures
      var ps := Pairs(s, ops, column, keep, ts, pois);
      var rows := Output(s, ps);
      && (forall i | 0 <= i < |rows| :: Restrict(rows[i], keep) == Groups(ps)[i])
      && (forall i, j | 0 <= i < j < |rows| :: Restrict(rows[i], keep) != Restrict(rows[j], keep))
  {
    var ps := Pairs(s, ops, column, keep, ts, pois);
    var rows := Output(s, ps);
    var gs := Groups(ps);
    forall i | 0 <= i < |rows| ensures Restrict(rows[i], keep) == gs[i] {
      assert gs[i] in gs;
      var q :| q in ps && q.group == gs[i];
      var a, b := PairSource(s, ops, column, keep, ts, pois, q);
      RestrictUpdate(gs[i], keep, s.featureName, Int(|Ids(ps, gs[i])|));
    }
  }
}
