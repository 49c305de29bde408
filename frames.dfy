/** The tabular values the core moves around.

    A pandas DataFrame is an ordered list of column labels plus records, each
    record being an index label and a row; a row maps column labels to values.
    A SQL relation (an uploaded table, a reference table, a query result) is an
    ordered list of columns plus rows. Only the pandas operations the core uses
    are modelled: `reset_index`, `rename`, `set_index`, building a frame from
    query results, and `join` (a left join on the index). */
module Frames {
  import opened Wrappers

  type ColName = string

  /** The synthetic row key that every upload materialises from the index. */
  const INDEX_KEY: ColName := "__index_level_0__"

  /** A cell: SQL NULL / pandas NaN, an integer, or text (WKT geometries included). */
  datatype Value = Missing | Int(n: int) | Text(s: string)

  type Row = map<ColName, Value>

  /** Column lookup; an absent column reads as NULL. */
  function Get(r: Row, c: ColName): Value {
    if c in r then r[c] else Missing
  }

  function Elems<T>(s: seq<T>): set<T> {
    set x | x in s
  }

  predicate Distinct<T(==)>(s: seq<T>) {
    forall i, j | 0 <= i < j < |s| :: s[i] != s[j]
  }

  /** `a` is obtained from `b` by deleting elements (order is kept). */
  predicate IsSubsequence<T(==)>(a: seq<T>, b: seq<T>)
    decreases |b|
  {
    if a == [] then true
    else if b == [] then false
    else if a[0] == b[0] then IsSubsequence(a[1..], b[1..])
    else IsSubsequence(a, b[1..])
  }

  /** `r` restricted to the columns `cols`. */
  function Restrict(r: Row, cols: set<ColName>): (p: Row)
    ensures p.Keys == r.Keys * cols
    ensures forall c | c in p :: p[c] == r[c]
  {
    map c | c in r && c in cols :: r[c]
  }

  /** The columns of `s` whose label is not in `drop`, in order
      (`[c for c in s if c.key not in drop]`). */
  function Without(s: seq<ColName>, drop: set<ColName>): (r: seq<ColName>)
    ensures forall c :: c in r <==> c in s && c !in drop
    ensures |r| <= |s|
  {
    if s == [] then []
    else (if s[0] in drop then [] else [s[0]]) + Without(s[1..], drop)
  }

  lemma {:induction false} WithoutIsSubsequence(s: seq<ColName>, drop: set<ColName>)
    ensures IsSubsequence(Without(s, drop), s)
  {
    if s != [] {
      var w := Without(s[1..], drop);
      WithoutIsSubsequence(s[1..], drop);
      if s[0] in drop {
        assert Without(s, drop) == w;
        assert w != [] ==> w[0] in w && w[0] != s[0];
      } else {
        assert ([s[0]] + w)[1..] == w;
      }
    }
  }

  lemma {:induction false} WithoutDistinct(s: seq<ColName>, drop: set<ColName>)
    requires Distinct(s)
    ensures Distinct(Without(s, drop))
  {
    if s != [] {
      WithoutDistinct(s[1..], drop);
    }
  }

  lemma {:induction false} WithoutAppend(a: seq<ColName>, b: seq<ColName>, drop: set<ColName>)
    ensures Without(a + b, drop) == Without(a, drop) + Without(b, drop)
  {
    if a == [] {
      assert a + b == b;
    } else {
      assert (a + b)[1..] == a[1..] + b;
      WithoutAppend(a[1..], b, drop);
    }
  }

  lemma {:induction false} WithoutNothing(s: seq<ColName>, drop: set<ColName>)
    requires Elems(s) !! drop
    ensures Without(s, drop) == s
  {
    if s != [] {
      WithoutNothing(s[1..], drop);
    }
  }

  /** A SQL relation. */
  datatype Table = Table(columns: seq<ColName>, rows: seq<Row>)

  predicate WellFormed(t: Table) {
    Distinct(t.columns) && forall r | r in t.rows :: r.Keys == Elems(t.columns)
  }

  /** The relation `t` projected on `cols` (a `SELECT cols FROM t`). */
  function Select(t: Table, cols: seq<ColName>): (p: Table)
    ensures p.columns == cols && |p.rows| == |t.rows|
    ensures forall i | 0 <= i < |t.rows| :: p.rows[i] == Restrict(t.rows[i], Elems(cols))
  {
    Table(cols, seq(|t.rows|, i requires 0 <= i < |t.rows| => Restrict(t.rows[i], Elems(cols))))
  }

  /** One pandas record: its index label and its row. */
  datatype Record = Record(index: Value, row: Row)

  /** A pandas frame: its columns, its records, and the name of its index
      (`df.index.name`; None for an unnamed index). */
  datatype DataFrame = DataFrame(columns: seq<ColName>, records: seq<Record>, indexName: Option<ColName> := None)

  predicate Valid(df: DataFrame) {
    Distinct(df.columns) && forall r | r in df.records :: r.row.Keys == Elems(df.columns)
  }

  function IndexOf(df: DataFrame): (ix: seq<Value>)
    ensures |ix| == |df.records|
    ensures forall i | 0 <= i < |ix| :: ix[i] == df.records[i].index
  {
    seq(|df.records|, i requires 0 <= i < |df.records| => df.records[i].index)
  }

  function RowsOf(df: DataFrame): (rs: seq<Row>)
    ensures |rs| == |df.records|
    ensures forall i | 0 <= i < |rs| :: rs[i] == df.records[i].row
  {
    seq(|df.records|, i requires 0 <= i < |df.records| => df.records[i].row)
  }

  /** `pd.DataFrame(list(results), columns=results.keys())`: a fresh RangeIndex. */
  function FromResults(t: Table): (df: DataFrame)
    ensures df.columns == t.columns && |df.records| == |t.rows|
    ensures forall i | 0 <= i < |t.rows| :: df.records[i] == Record(Int(i), t.rows[i])
    ensures df.indexName.None?
  {
    DataFrame(t.columns, seq(|t.rows|, i requires 0 <= i < |t.rows| => Record(Int(i), t.rows[i])), None)
  }

  /** The label `reset_index` gives the old index: its name when it has one,
      otherwise "index", or "level_0" when a column called "index" already
      exists. */
  function ResetIndexLabel(df: DataFrame): ColName {
    if df.indexName.Some? then df.indexName.value
    else if "index" in df.columns then "level_0"
    else "index"
  }

  /** `df.reset_index()`: the index becomes a new leading column and the frame
      gets a fresh RangeIndex; inserting a label that already exists fails. */
  function ResetIndex(df: DataFrame): (r: Result<DataFrame>)
    ensures r.Err? <==> ResetIndexLabel(df) in df.columns
    ensures r.Ok? ==> r.value.columns == [ResetIndexLabel(df)] + df.columns
    ensures r.Ok? ==> |r.value.records| == |df.records|
    ensures r.Ok? ==> forall i | 0 <= i < |df.records| ::
      r.value.records[i] == Record(Int(i), df.records[i].row[ResetIndexLabel(df) := df.records[i].index])
    ensures r.Ok? ==> r.value.indexName.None?
  {
    var lbl := ResetIndexLabel(df);
    if lbl in df.columns then
      Err(ValueError("cannot insert " + lbl + ", already exists"))
    else
      Ok(DataFrame([lbl] + df.columns,
        seq(|df.records|, i requires 0 <= i < |df.records| =>
          Record(Int(i), df.records[i].row[lbl := df.records[i].index])), None))
  }

  function RenameLabels(cols: seq<ColName>, from: ColName, to: ColName): (r: seq<ColName>)
    ensures |r| == |cols|
    ensures forall i | 0 <= i < |cols| :: r[i] == if cols[i] == from then to else cols[i]
  {
    if cols == [] then []
    else [if cols[0] == from then to else cols[0]] + RenameLabels(cols[1..], from, to)
  }

  function RenameRow(r: Row, from: ColName, to: ColName): Row {
    if from in r then (r - {from})[to := r[from]] else r
  }

  /** `df.rename(columns={from: to})`: every column labelled `from` is relabelled. */
  function Rename(df: DataFrame, from: ColName, to: ColName): (r: DataFrame)
    ensures r.columns == RenameLabels(df.columns, from, to)
    ensures |r.records| == |df.records|
    ensures forall i | 0 <= i < |df.records| ::
      r.records[i] == Record(df.records[i].index, RenameRow(df.records[i].row, from, to))
    ensures r.indexName == df.indexName
  {
    DataFrame(RenameLabels(df.columns, from, to),
      seq(|df.records|, i requires 0 <= i < |df.records| =>
        Record(df.records[i].index, RenameRow(df.records[i].row, from, to))), df.indexName)
  }

  /** `df.set_index(col)`: the column becomes the index and leaves the columns. */
  function SetIndex(df: DataFrame, col: ColName): (r: Result<DataFrame>)
    ensures r.Err? <==> col !in df.columns
    ensures r.Ok? ==> r.value.columns == Without(df.columns, {col})
    ensures r.Ok? ==> |r.value.records| == |df.records|
    ensures r.Ok? ==> forall i | 0 <= i < |df.records| ::
      r.value.records[i] == Record(Get(df.records[i].row, col), df.records[i].row - {col})
    ensures r.Ok? ==> r.value.indexName == Some(col)
  {
    if col !in df.columns then Err(KeyError(col))
    else
      Ok(DataFrame(Without(df.columns, {col}),
        seq(|df.records|, i requires 0 <= i < |df.records| =>
          Record(Get(df.records[i].row, col), df.records[i].row - {col})), Some(col)))
  }

  /** A row of NaN for the columns `cols`. */
  function NullRow(cols: seq<ColName>): (r: Row)
    ensures r.Keys == Elems(cols)
    ensures forall c | c in r :: r[c] == Missing
  {
    map c | c in Elems(cols) :: Missing
  }

  /** The records of `rs` whose index label is `v`, in order. */
  function Matches(v: Value, rs: seq<Record>): (ms: seq<Record>)
    ensures forall m | m in ms :: m in rs && m.index == v
    ensures |ms| <= |rs|
  {
    if rs == [] then []
    else (if rs[0].index == v then [rs[0]] else []) + Matches(v, rs[1..])
  }

  /** The records one left record produces in a left join. */
  function JoinOne(l: Record, right: DataFrame): seq<Record> {
    var ms := Matches(l.index, right.records);
    if ms == [] then [Record(l.index, l.row + NullRow(right.columns))]
    else seq(|ms|, k requires 0 <= k < |ms| => Record(l.index, l.row + ms[k].row))
  }

  function JoinRecords(ls: seq<Record>, right: DataFrame): seq<Record> {
    if ls == [] then [] else JoinOne(ls[0], right) + JoinRecords(ls[1..], right)
  }

  /** `left.join(right)`: a left join of the two indexes, keeping the left
      index and its name. pandas refuses overlapping column labels when no
      suffix is given. */
  function LeftJoin(left: DataFrame, right: DataFrame): (r: Result<DataFrame>)
    ensures r.Err? <==> !(Elems(left.columns) !! Elems(right.columns))
    ensures r.Ok? ==> r.value.columns == left.columns + right.columns
    ensures r.Ok? ==> r.value.indexName == left.indexName
  {
    if !(Elems(left.columns) !! Elems(right.columns)) then
      Err(ValueError("columns overlap but no suffix specified"))
    else
      Ok(DataFrame(left.columns + right.columns, JoinRecords(left.records, right), left.indexName))
  }

  /** The value `right` supplies for `l` in a join, when its index is unique. */
  function Joined(l: Record, right: DataFrame): Row {
    var ms := Matches(l.index, right.records);
    if ms == [] then l.row + NullRow(right.columns) else l.row + ms[0].row
  }

  lemma {:induction false} MatchesNone(v: Value, rs: seq<Record>)
    requires forall j | 0 <= j < |rs| :: rs[j].index != v
    ensures Matches(v, rs) == []
  {
    if rs != [] {
      MatchesNone(v, rs[1..]);
    }
  }

  lemma {:induction false} MatchesOfDistinct(v: Value, right: DataFrame)
    requires Distinct(IndexOf(right))
    ensures |Matches(v, right.records)| <= 1
    ensures (exists j :: 0 <= j < |right.records| && right.records[j].index == v) ==> |Matches(v, right.records)| == 1
    decreases |right.records|
  {
    var rs := right.records;
    if rs != [] {
      var rest := DataFrame(right.columns, rs[1..]);
      assert IndexOf(rest) == IndexOf(right)[1..];
      MatchesOfDistinct(v, rest);
      if rs[0].index == v {
        forall j | 0 <= j < |rs[1..]| ensures rs[1..][j].index != v {
          assert IndexOf(right)[0] != IndexOf(right)[j + 1];
        }
        MatchesNone(v, rs[1..]);
      } else if exists j :: 0 <= j < |rs| && rs[j].index == v {
        var j :| 0 <= j < |rs| && rs[j].index == v;
        assert rest.records[j - 1].index == v;
      }
    }
  }

  /** With a unique index on the right, the left join keeps every left record,
      in order, with its index, and adds exactly the right-hand columns. */
  lemma {:induction false} JoinKeepsRecords(ls: seq<Record>, right: DataFrame)
    requires Distinct(IndexOf(right))
    ensures |JoinRecords(ls, right)| == |ls|
    ensures forall i | 0 <= i < |ls| ::
      JoinRecords(ls, right)[i] == Record(ls[i].index, Joined(ls[i], right))
  {
    if ls != [] {
      MatchesOfDistinct(ls[0].index, right);
      JoinKeepsRecords(ls[1..], right);
    }
  }

  /** A row of the join carries the columns of both sides. */
  lemma JoinedKeys(l: Record, right: DataFrame, lcols: seq<ColName>)
    requires Valid(right) && l.row.Keys == Elems(lcols)
    ensures Joined(l, right).Keys == Elems(lcols) + Elems(right.columns)
  {
    var ms := Matches(l.index, right.records);
    if ms != [] {
      assert ms[0] in right.records;
    }
  }

  /** Left rows without a partner get NaN in every right-hand column. */
  lemma JoinedUnmatched(l: Record, right: DataFrame, c: ColName)
    requires c in right.columns && c !in l.row
    requires forall j | 0 <= j < |right.records| :: right.records[j].index != l.index
    ensures c in Joined(l, right) && Joined(l, right)[c] == Missing
  {
    MatchesNone(l.index, right.records);
  }
}
