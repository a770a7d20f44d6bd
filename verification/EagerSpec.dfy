// Eager loading as nested loops: what a query with With* edges should return.
//
// The generated loaders are copies of two templates, many-to-one and one-to-many. Tables,
// edges and queries are data here, so one definition covers every copy and every depth of
// nesting.

module EagerSpec {
  import opened Wrappers

  datatype Kind = M2O | O2M

  // M2O: fk is a column of the querying table; O2M: fk is a column of the target table.
  datatype Edge = Edge(name: string, kind: Kind, fk: string, nullable: bool)

  const ID := "id"

  // Columns other than the id; NULL is None.
  datatype Row = Row(id: int, cols: map<string, Option<int>>)

  datatype Store = Store(columns: map<string, seq<string>>, rows: map<string, seq<Row>>)

  datatype Pred = Custom(test: Row -> bool) | IDIn(ids: seq<int>) | InValues(col: string, ids: seq<int>)

  // The other parts of a builder.
  datatype Options = Options(
    order: seq<int>, inters: seq<int>, modifiers: seq<int>,
    limit: Option<nat>, offset: Option<nat>, unique: Option<bool>)

  // No part that the row store does not interpret is in use.
  predicate Plain(o: Options) {
    o.order == [] && o.inters == [] && o.modifiers == [] && o.unique.None?
  }

  // The rows between offset and limit. A limit of 0 gives the same spec as none.
  function Cut(o: Options, rows: seq<Row>): (rs: seq<Row>)
    ensures forall r | r in rs :: r in rows
    ensures Uncut(o) ==> rs == rows
  {
    rows[First(o, |rows|)..End(o, |rows|)]
  }

  function First(o: Options, n: nat): (i: nat)
    ensures i <= n
  {
    if o.offset.GetOr(0) < n then o.offset.GetOr(0) else n
  }

  function End(o: Options, n: nat): (i: nat)
    ensures First(o, n) <= i <= n
  {
    if 0 < o.limit.GetOr(0) < n - First(o, n) then First(o, n) + o.limit.GetOr(0) else n
  }

  // Neither offset nor limit is set.
  predicate Uncut(o: Options) {
    o.limit.GetOr(0) == 0 && o.offset.GetOr(0) == 0
  }

  // A query builder: its table, selected fields, predicates and eager-loaded edges.
  datatype Query = Query(table: string, fields: seq<string>, preds: seq<Pred>, withs: seq<With>, options: Options)
  datatype With = With(edge: Edge, child: Query)

  // A node with everything loaded below it. vals holds the scanned columns only.
  datatype Tree = Tree(id: int, vals: map<string, Option<int>>, edges: seq<Loaded>)
  datatype Loaded = One(name: string, target: Option<Tree>) | Many(name: string, targets: seq<Tree>)

  function Col(r: Row, c: string): Option<int> {
    if c in r.cols then r.cols[c] else None
  }

  predicate Holds(p: Pred, r: Row) {
    match p
    case Custom(test) => test(r)
    case IDIn(ids) => r.id in ids
    case InValues(col, ids) => Col(r, col).Some? && Col(r, col).value in ids
  }

  predicate HoldsAll(preds: seq<Pred>, r: Row) {
    forall k | 0 <= k < |preds| :: Holds(preds[k], r)
  }

  function Select(rows: seq<Row>, preds: seq<Pred>): (rs: seq<Row>)
    ensures forall r :: r in rs <==> r in rows && HoldsAll(preds, r)
  {
    if rows == [] then []
    else (if HoldsAll(preds, rows[0]) then [rows[0]] else []) + Select(rows[1..], preds)
  }

  function TableRows(st: Store, table: string): seq<Row> {
    if table in st.rows then st.rows[table] else []
  }

  function Rows(q: Query, st: Store): seq<Row> {
    Cut(q.options, Select(TableRows(st, q.table), q.preds))
  }

  function AddOnce(cols: seq<string>, c: string): seq<string> {
    if c in cols then cols else cols + [c]
  }

  // The columns querySpec asks for.
  function Columns(st: Store, table: string, fields: seq<string>, withs: seq<With>): seq<string> {
    if fields == [] then (if table in st.columns then st.columns[table] else [])
    else AddKeys([ID] + DropId(fields), withs)
  }

  function DropId(fields: seq<string>): (r: seq<string>)
    ensures forall c :: c in r <==> c in fields && c != ID
  {
    if fields == [] then []
    else (if fields[0] != ID then [fields[0]] else []) + DropId(fields[1..])
  }

  // The foreign keys of the enabled many-to-one edges, each added once.
  function AddKeys(cols: seq<string>, withs: seq<With>): (r: seq<string>)
    ensures cols <= r
    decreases |withs|
  {
    if withs == [] then cols
    else AddKeys(if withs[0].edge.kind.M2O? then AddOnce(cols, withs[0].edge.fk) else cols, withs[1..])
  }

  function Scan(columns: seq<string>, r: Row): map<string, Option<int>> {
    map c | c in columns && c != ID :: Col(r, c)
  }

  // The selected fields with which an edge's target is queried.
  function ChildFields(w: With): seq<string> {
    if w.edge.kind.O2M? && w.child.fields != [] then AddOnce(w.child.fields, w.edge.fk) else w.child.fields
  }

  // The first row with the given id.
  function WithId(rows: seq<Row>, id: int): (r: Option<Row>)
    ensures r.Some? ==> r.value in rows && r.value.id == id
    ensures r.None? ==> forall x | x in rows :: x.id != id
  {
    if rows == [] then None else if rows[0].id == id then Some(rows[0]) else WithId(rows[1..], id)
  }

  // The rows whose column c holds v.
  function WithKey(rows: seq<Row>, c: string, v: int): (rs: seq<Row>)
    ensures forall r :: r in rs <==> r in rows && Col(r, c) == Some(v)
  {
    if rows == [] then []
    else (if Col(rows[0], c) == Some(v) then [rows[0]] else []) + WithKey(rows[1..], c, v)
  }

  // ----- The nested-loop join -----

  function Join(q: Query, st: Store): (ts: seq<Tree>)
    ensures |ts| == |Rows(q, st)|
  {
    Trees(Rows(q, st), q.table, q.fields, q.withs, st)
  }

  function Trees(rows: seq<Row>, table: string, fields: seq<string>, withs: seq<With>, st: Store): (ts: seq<Tree>)
    ensures |ts| == |rows|
    decreases withs, 1, |rows|
  {
    if rows == [] then [] else [TreeOf(rows[0], table, fields, withs, st)] + Trees(rows[1..], table, fields, withs, st)
  }

  function TreeOf(r: Row, table: string, fields: seq<string>, withs: seq<With>, st: Store): Tree
    decreases withs, 0, 0
  {
    Tree(r.id, Scan(Columns(st, table, fields, withs), r), Edges(r, withs, 0, st))
  }

  function Edges(r: Row, withs: seq<With>, k: nat, st: Store): (es: seq<Loaded>)
    requires k <= |withs|
    ensures |es| == |withs| - k
    decreases withs, 0, 0, |withs| - k
  {
    if k == |withs| then [] else [EdgeOf(r, withs[k], st)] + Edges(r, withs, k + 1, st)
  }

  function EdgeOf(r: Row, w: With, st: Store): (l: Loaded)
    ensures l.name == w.edge.name
    decreases w
  {
    EdgeFrom(r, w.edge, Rows(w.child, st), w.child.table, ChildFields(w), w.child.withs, st)
  }

  // The rows among `found` that edge e connects to r.
  function Matches(r: Row, e: Edge, found: seq<Row>): (ms: seq<Row>)
    ensures forall m | m in ms :: m in found
    ensures e.kind.M2O? ==> |ms| <= 1
  {
    match e.kind
    case M2O =>
      var target := if Col(r, e.fk).None? then None else WithId(found, Col(r, e.fk).value);
      if target.None? then [] else [target.value]
    case O2M => WithKey(found, e.fk, r.id)
  }

  function EdgeFrom(r: Row, e: Edge, found: seq<Row>, table: string, fields: seq<string>, withs: seq<With>,
                    st: Store): (l: Loaded)
    ensures l.name == e.name
    decreases withs, 2
  {
    var ts := Trees(Matches(r, e, found), table, fields, withs, st);
    match e.kind
    case M2O => One(e.name, if ts == [] then None else Some(ts[0]))
    case O2M => Many(e.name, ts)
  }

  // ----- What a run leaves behind in the builders -----

  // The non-nil keys, each at its first occurrence.
  function FirstKeys(keys: seq<Option<int>>): (ids: seq<int>)
    ensures forall k :: k in ids <==> Some(k) in keys
    ensures forall i, j | 0 <= i < j < |ids| :: ids[i] != ids[j]
  {
    if keys == [] then []
    else
      var ids := FirstKeys(keys[..|keys| - 1]);
      var last := keys[|keys| - 1];
      if last.None? || last.value in ids then ids else ids + [last.value]
  }

  function Cols(rows: seq<Row>, c: string): (ks: seq<Option<int>>)
    ensures |ks| == |rows| && forall i | 0 <= i < |rows| :: ks[i] == Col(rows[i], c)
  {
    seq(|rows|, i requires 0 <= i < |rows| => Col(rows[i], c))
  }

  function RowIds(rows: seq<Row>): (ids: seq<int>)
    ensures |ids| == |rows| && forall i | 0 <= i < |rows| :: ids[i] == rows[i].id
  {
    seq(|rows|, i requires 0 <= i < |rows| => rows[i].id)
  }

  // A many-to-one load without any key makes no query.
  predicate Skips(rows: seq<Row>, w: With) {
    w.edge.kind.M2O? && FirstKeys(Cols(rows, w.edge.fk)) == []
  }

  function KeyPred(rows: seq<Row>, e: Edge): Pred {
    match e.kind
    case M2O => IDIn(FirstKeys(Cols(rows, e.fk)))
    case O2M => InValues(e.fk, RowIds(rows))
  }

  // The target query a loader runs for these parents.
  function Asked(rows: seq<Row>, w: With): Query {
    w.child.(fields := ChildFields(w), preds := w.child.preds + [KeyPred(rows, w.edge)])
  }

  // The builder after a run.
  function Touch(q: Query, st: Store): Query
    decreases q.withs, 2
  {
    if Rows(q, st) == [] then q else q.(withs := TouchWiths(Rows(q, st), q.withs, 0, st))
  }

  function TouchWiths(rows: seq<Row>, withs: seq<With>, k: nat, st: Store): (ws: seq<With>)
    requires k <= |withs|
    ensures |ws| == |withs| - k
    ensures forall j | 0 <= j < |ws| :: ws[j] == TouchWith(rows, withs[k + j], st)
    decreases withs, 1
  {
    seq(|withs| - k, j requires 0 <= j < |withs| - k => TouchWith(rows, withs[k + j], st))
  }

  function TouchWith(rows: seq<Row>, w: With, st: Store): With
    decreases w
  {
    if Skips(rows, w) then w else With(w.edge, Touch(Asked(rows, w), st))
  }

  // ----- What the schema guarantees -----

  predicate UniqueIds(st: Store, table: string) {
    forall a, b | 0 <= a < b < |TableRows(st, table)| :: TableRows(st, table)[a].id != TableRows(st, table)[b].id
  }

  // Primary keys are unique, edges have their own names, foreign keys are columns of their
  // table other than the id, and those not declared nullable are never NULL. The builders of
  // the edges have no limit or offset, which would cut the rows of all parents together, and
  // no option the row store does not interpret.
  predicate Sound(table: string, withs: seq<With>, st: Store)
    decreases withs
  {
    && UniqueIds(st, table)
    && (forall j, k | 0 <= j < k < |withs| :: withs[j].edge.name != withs[k].edge.name)
    && (forall k | 0 <= k < |withs| :: SoundWith(table, withs[k], st))
  }

  predicate SoundWith(table: string, w: With, st: Store)
    decreases w
  {
    var home := if w.edge.kind.M2O? then table else w.child.table;
    && Plain(w.child.options) && Uncut(w.child.options)
    && w.edge.fk != ID && home in st.columns && w.edge.fk in st.columns[home]
    && (!w.edge.nullable ==> forall r | r in TableRows(st, home) :: Col(r, w.edge.fk).Some?)
    && Sound(w.child.table, w.child.withs, st)
  }

  // ----- Projection -----

  lemma {:induction false} AddKeysHas(cols: seq<string>, withs: seq<With>, k: nat)
    requires k < |withs| && withs[k].edge.kind.M2O?
    ensures withs[k].edge.fk in AddKeys(cols, withs)
    decreases |withs|
  {
    var first := if withs[0].edge.kind.M2O? then AddOnce(cols, withs[0].edge.fk) else cols;
    if k == 0 {
      var a :| 0 <= a < |first| && first[a] == withs[0].edge.fk;
      assert AddKeys(cols, withs)[a] == first[a];
    } else {
      AddKeysHas(first, withs[1..], k - 1);
    }
  }

  // Some enabled many-to-one load reads the column.
  ghost predicate Needed(withs: seq<With>, c: string) {
    exists k | 0 <= k < |withs| :: withs[k].edge.kind.M2O? && withs[k].edge.fk == c
  }

  lemma {:induction false} AddKeysOnly(cols: seq<string>, withs: seq<With>, a: nat)
    requires |cols| <= a < |AddKeys(cols, withs)|
    ensures AddKeys(cols, withs)[a] !in AddKeys(cols, withs)[..a]
    ensures Needed(withs, AddKeys(cols, withs)[a])
    decreases |withs|
  {
    var r := AddKeys(cols, withs);
    var first := if withs[0].edge.kind.M2O? then AddOnce(cols, withs[0].edge.fk) else cols;
    if a < |first| {
      assert first <= r;
      assert r[..a] == cols;
    } else {
      AddKeysOnly(first, withs[1..], a);
      var k :| 0 <= k < |withs[1..]| && withs[1..][k].edge.kind.M2O? && withs[1..][k].edge.fk == r[a];
      assert withs[k + 1].edge.fk == r[a];
    }
  }

  lemma {:induction false} AddedColumns(start: seq<string>, withs: seq<With>)
    requires forall k | 0 <= k < |withs| :: withs[k].edge.fk != ID
    ensures
      var cols := AddKeys(start, withs);
      && cols == start + cols[|start|..] && ID !in cols[|start|..]
      && forall c | c in cols[|start|..] :: Needed(withs, c)
  {
    var cols := AddKeys(start, withs);
    forall c | c in cols[|start|..]
      ensures Needed(withs, c)
    {
      var a :| 0 <= a < |cols| - |start| && cols[|start|..][a] == c;
      AddKeysOnly(start, withs, |start| + a);
    }
  }

  // With a projection the columns start with the id, contain it once, include every
  // selected field and every foreign key an enabled many-to-one load reads, and no more.
  lemma {:induction false} ProjectedColumns(st: Store, table: string, fields: seq<string>, withs: seq<With>)
    requires fields != [] && forall k | 0 <= k < |withs| :: withs[k].edge.fk != ID
    ensures
      var cols := Columns(st, table, fields, withs);
      && cols != [] && cols[0] == ID && ID !in cols[1..]
      && (forall f | f in fields :: f in cols)
      && (forall k | 0 <= k < |withs| && withs[k].edge.kind.M2O? :: withs[k].edge.fk in cols)
      && (forall c | c in cols ::
            c == ID || c in fields || Needed(withs, c))
  {
    hide Needed; hide AddKeys;
    var chosen := DropId(fields);
    var start := [ID] + chosen;
    var cols := AddKeys(start, withs);
    AddedColumns(start, withs);
    var added := cols[|start|..];
    assert cols == [ID] + (chosen + added);
    assert cols[1..] == chosen + added;
    forall k | 0 <= k < |withs| && withs[k].edge.kind.M2O? ensures withs[k].edge.fk in cols {
      AddKeysHas(start, withs, k);
    }
  }
}
