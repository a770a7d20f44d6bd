// sqlAll and the loaders it calls, on builder and node objects, proved to return the
// nested-loop join at every depth.

module EagerLoad {
  import opened Wrappers
  import opened EagerSpec
  import opened EagerQuery
  import opened EagerLoaders
  import opened EagerRerun

  datatype LoadError = InvalidField | UnexpectedForeignKey

  function Names(es: seq<Loaded>): set<string> {
    set k | 0 <= k < |es| :: es[k].name
  }

  // The object graph under n, inside foot, is tree t.
  ghost predicate Shows(n: Node, t: Tree, foot: set<Node>)
    requires n in foot
    reads foot
    decreases t
  {
    && n.id == t.id && n.vals == t.vals && n.loaded == Names(t.edges)
    && n.one.Keys <= n.loaded && n.many.Keys <= n.loaded
    && forall k | 0 <= k < |t.edges| :: ShowsEdge(n, t.edges[k], foot)
  }

  ghost predicate ShowsEdge(n: Node, e: Loaded, foot: set<Node>)
    reads n, foot
    decreases e, 1
  {
    ShowsSlot(n.one, n.many, e, foot)
  }

  ghost predicate ShowsSlot(one: map<string, Node>, many: map<string, seq<Node>>, e: Loaded, foot: set<Node>)
    reads foot
    decreases e, 0
  {
    match e
    case One(name, None) => name !in one
    case One(name, Some(t)) => name in one && one[name] in foot && Shows(one[name], t, foot)
    case Many(name, ts) =>
      && name in many && |many[name]| == |ts|
      && forall j | 0 <= j < |ts| :: many[name][j] in foot && Shows(many[name][j], ts[j], foot)
  }

  lemma {:induction false} ShowsInLarger(n: Node, t: Tree, foot: set<Node>, larger: set<Node>)
    requires foot <= larger && n in foot && Shows(n, t, foot)
    ensures Shows(n, t, larger)
    decreases t
  {
    forall k | 0 <= k < |t.edges| ensures ShowsEdge(n, t.edges[k], larger) {
      ShowsSlotInLarger(n.one, n.many, t.edges[k], foot, larger);
    }
  }

  lemma {:induction false} ShowsSlotInLarger(one: map<string, Node>, many: map<string, seq<Node>>, e: Loaded,
                                             foot: set<Node>, larger: set<Node>)
    requires foot <= larger && ShowsSlot(one, many, e, foot)
    ensures ShowsSlot(one, many, e, larger)
    decreases e
  {
    match e
    case One(name, None) =>
    case One(name, Some(t)) => ShowsInLarger(one[name], t, foot, larger);
    case Many(name, ts) =>
      forall j | 0 <= j < |ts| ensures Shows(many[name][j], ts[j], larger) {
        ShowsInLarger(many[name][j], ts[j], foot, larger);
      }
  }

  // Every selected field, at every level, is a column of its table.
  predicate FieldsOk(q: Query, st: Store)
    decreases q
  {
    && ValidFields(q.table, q.fields, st)
    && forall k | 0 <= k < |q.withs| :: FieldsOk(q.withs[k].child, st)
  }

  predicate ValidFields(table: string, fields: seq<string>, st: Store) {
    forall f | f in fields :: table in st.columns && f in st.columns[table]
  }

  // A run meets no invalid field. A builder whose parent query finds nothing, or finds no key,
  // is never run, and then its fields are not looked at.
  predicate Answers(q: Query, st: Store)
    decreases q.withs, 1
  {
    && ValidFields(q.table, q.fields, st)
    && (Rows(q, st) != [] ==> forall k | 0 <= k < |q.withs| :: AnswersWith(Rows(q, st), q.withs[k], st))
  }

  predicate AnswersWith(rows: seq<Row>, w: With, st: Store)
    decreases w
  {
    Skips(rows, w) || Answers(Asked(rows, w), st)
  }

  // Nodes freshly scanned from rows.
  method QueryNodes(rows: seq<Row>, cols: seq<string>, loaded: set<string>) returns (nodes: seq<Node>)
    ensures |nodes| == |rows| && Distinct(nodes)
    ensures forall i | 0 <= i < |nodes| ::
              && fresh(nodes[i]) && nodes[i].id == rows[i].id && nodes[i].vals == Scan(cols, rows[i])
              && nodes[i].loaded == loaded && nodes[i].one == map[] && nodes[i].many == map[]
  {
    nodes := [];
    for k := 0 to |rows|
      invariant |nodes| == k && Distinct(nodes)
      invariant forall i | 0 <= i < k ::
              && fresh(nodes[i]) && nodes[i].id == rows[i].id && nodes[i].vals == Scan(cols, rows[i])
              && nodes[i].loaded == loaded && nodes[i].one == map[] && nodes[i].many == map[]
    {
      var node := new Node(rows[k].id, Scan(cols, rows[k]), loaded);
      nodes := nodes + [node];
    }
  }

  ghost predicate DistinctIds(rows: seq<Row>) {
    forall i, j | 0 <= i < j < |rows| :: rows[i].id != rows[j].id
  }

  // The parents as the loaders see them: nodes scanned from rows, with the key an edge needs.
  ghost predicate Parents(nodes: seq<Node>, rows: seq<Row>, table: string, e: Edge, st: Store) {
    && Distinct(nodes) && |nodes| == |rows|
    && (forall i | 0 <= i < |rows| :: rows[i] in TableRows(st, table) && nodes[i].id == rows[i].id)
    && DistinctIds(rows)
    && (e.kind.M2O? ==> forall i | 0 <= i < |rows| :: nodes[i].Key(e) == Col(rows[i], e.fk))
  }

  ghost predicate Neighbours(nbrs: seq<Node>, found: seq<Row>, ts: seq<Tree>, kids: set<Node>)
    reads kids
  {
    && |nbrs| == |found| == |ts|
    && forall j | 0 <= j < |nbrs| :: nbrs[j].id == found[j].id && nbrs[j] in kids && Shows(nbrs[j], ts[j], kids)
  }

  lemma {:induction false} LastIsMatch(nbrs: seq<Node>, found: seq<Row>, key: int) returns (j: nat)
    requires |nbrs| == |found| && forall k | 0 <= k < |nbrs| :: nbrs[k].id == found[k].id
    requires DistinctIds(found)
    ensures LastWith(nbrs, key).Some? <==> WithId(found, key).Some?
    ensures LastWith(nbrs, key).Some? ==>
              j < |nbrs| && nbrs[j] == LastWith(nbrs, key).value && found[j] == WithId(found, key).value
  {
    j := 0;
    var n, r := LastWith(nbrs, key), WithId(found, key);
    if n.Some? {
      j :| 0 <= j < |nbrs| && nbrs[j] == n.value;
      assert found[j] in found;
    }
  }

  lemma {:induction false} TreesAt(rows: seq<Row>, table: string, fields: seq<string>, withs: seq<With>, st: Store, j: nat)
    requires j < |rows|
    ensures Trees(rows, table, fields, withs, st)[j] == TreeOf(rows[j], table, fields, withs, st)
    decreases |rows|
  {
    if j > 0 { TreesAt(rows[1..], table, fields, withs, st, j - 1); }
  }

  // A parent whose pointer was set by the many-to-one scatter shows its edge.
  lemma {:induction false} OneShows(n: Node, was: map<string, Node>, r: Row, e: Edge, nbrs: seq<Node>, found: seq<Row>,
                                    table: string, fields: seq<string>, withs: seq<With>, st: Store, kids: set<Node>)
    requires e.kind.M2O? && e.name !in was
    requires n.one == Assigned(was, e.name, nbrs, Col(r, e.fk))
    requires DistinctIds(found)
    requires Neighbours(nbrs, found, Trees(found, table, fields, withs, st), kids)
    ensures ShowsEdge(n, EdgeFrom(r, e, found, table, fields, withs, st), kids)
  {
    var key := Col(r, e.fk);
    var ms := Matches(r, e, found);
    if key.Some? {
      var j := LastIsMatch(nbrs, found, key.value);
      if ms != [] {
        TreesAt(found, table, fields, withs, st, j);
        TreesAt(ms, table, fields, withs, st, 0);
      }
    }
  }

  lemma {:induction false} WithKeyAppend(rows: seq<Row>, r: Row, c: string, v: int)
    ensures WithKey(rows + [r], c, v) == WithKey(rows, c, v) + if Col(r, c) == Some(v) then [r] else []
  {
    if rows == [] {
      assert [] + [r] == [r] && [r][1..] == [];
    } else {
      assert (rows + [r])[1..] == rows[1..] + [r];
      WithKeyAppend(rows[1..], r, c, v);
    }
  }

  ghost predicate ShowsRow(n: Node, r: Row, table: string, fields: seq<string>, withs: seq<With>, st: Store, kids: set<Node>)
    reads kids
  {
    n in kids && Shows(n, TreeOf(r, table, fields, withs, st), kids)
  }

  lemma {:induction false} MatchingShows(nbrs: seq<Node>, found: seq<Row>, e: Edge, id: int, table: string,
                                         fields: seq<string>, withs: seq<With>, st: Store, kids: set<Node>)
    requires |nbrs| == |found|
    requires forall j | 0 <= j < |nbrs| ::
               nbrs[j].Key(e) == Col(found[j], e.fk) && ShowsRow(nbrs[j], found[j], table, fields, withs, st, kids)
    ensures
      var ns, rs := Matching(nbrs, e, id), WithKey(found, e.fk, id);
      && |ns| == |rs|
      && forall p | 0 <= p < |ns| :: ShowsRow(ns[p], rs[p], table, fields, withs, st, kids)
    decreases |nbrs|
  {
    hide ShowsRow; hide WithKey; hide Col;
    if nbrs != [] {
      var last := |nbrs| - 1;
      MatchingShows(nbrs[..last], found[..last], e, id, table, fields, withs, st, kids);
      WithKeyAppend(found[..last], found[last], e.fk, id);
      assert found == found[..last] + [found[last]];
    } else {
      NoneWithKey(e.fk, id);
      assert found == [];
    }
  }

  lemma NoneWithKey(c: string, v: int)
    ensures WithKey([], c, v) == []
  {
  }

  // A parent whose list was filled by the one-to-many scatter shows its edge.
  lemma {:induction false} ManyShows(n: Node, r: Row, e: Edge, nbrs: seq<Node>, found: seq<Row>,
                                     table: string, fields: seq<string>, withs: seq<With>, st: Store, kids: set<Node>)
    requires e.kind.O2M? && n.id == r.id
    requires e.name in n.many && n.many[e.name] == Matching(nbrs, e, n.id)
    requires Neighbours(nbrs, found, Trees(found, table, fields, withs, st), kids)
    requires forall j | 0 <= j < |nbrs| :: nbrs[j].Key(e) == Col(found[j], e.fk)
    ensures ShowsEdge(n, EdgeFrom(r, e, found, table, fields, withs, st), kids)
  {
    hide Shows; hide TreeOf; hide Matching; hide WithKey; hide Col;
    forall j | 0 <= j < |nbrs| ensures ShowsRow(nbrs[j], found[j], table, fields, withs, st, kids) {
      TreesAt(found, table, fields, withs, st, j);
    }
    MatchingShows(nbrs, found, e, n.id, table, fields, withs, st, kids);
    var ms := Matches(r, e, found);
    forall p | 0 <= p < |ms| ensures Trees(ms, table, fields, withs, st)[p] == TreeOf(ms[p], table, fields, withs, st) {
      TreesAt(ms, table, fields, withs, st, p);
    }
  }

  lemma ShowsNested(n: Node, r: Row, rows: seq<Row>, w: With, st: Store, kids: set<Node>)
    requires r in rows && Uncut(w.child.options) && UniqueIds(st, w.child.table)
    requires ShowsEdge(n, EdgeFrom(r, w.edge, Rows(Asked(rows, w), st), w.child.table, ChildFields(w), w.child.withs, st), kids)
    ensures ShowsEdge(n, EdgeOf(r, w, st), kids)
  {
    BatchIsNestedLoop(r, rows, w, st);
  }

  lemma AskedFieldsOk(rows: seq<Row>, w: With, table: string, st: Store)
    requires SoundWith(table, w, st) && FieldsOk(w.child, st)
    ensures FieldsOk(Asked(rows, w), st)
  {
    var asked := Asked(rows, w);
    assert forall k | 0 <= k < |asked.withs| :: asked.withs[k] == w.child.withs[k];
  }

  lemma UniqueFound(q: Query, st: Store)
    requires UniqueIds(st, q.table)
    ensures DistinctIds(Rows(q, st))
  {
    assert DistinctIds(TableRows(st, q.table));
    UniqueSelected(TableRows(st, q.table), q.preds);
  }

  lemma {:induction false} UniqueSelected(rows: seq<Row>, preds: seq<Pred>)
    requires DistinctIds(rows)
    ensures DistinctIds(Select(rows, preds))
  {
    if rows != [] {
      UniqueSelected(rows[1..], preds);
      var rest := Select(rows[1..], preds);
      forall b | 0 <= b < |rest| ensures rest[b].id != rows[0].id {
        assert rest[b] in rows[1..];
        var k :| 0 <= k < |rows| - 1 && rows[1..][k] == rest[b];
        assert rows[k + 1] == rest[b];
      }
    }
  }

  ghost function Targets(found: seq<Row>, w: With, st: Store): seq<Tree> {
    Trees(found, w.child.table, ChildFields(w), w.child.withs, st)
  }

  lemma OneShowsAll(nodes: seq<Node>, was: seq<map<string, Node>>, nbrs: seq<Node>, rows: seq<Row>,
                    w: With, st: Store, kids: set<Node>)
    requires w.edge.kind.M2O? && Uncut(w.child.options) && UniqueIds(st, w.child.table)
    requires |nodes| == |was| == |rows|
    requires forall i | 0 <= i < |nodes| ::
               && w.edge.name !in was[i]
               && nodes[i].one == Assigned(was[i], w.edge.name, nbrs, Cols(rows, w.edge.fk)[i])
    requires Neighbours(nbrs, Rows(Asked(rows, w), st), Targets(Rows(Asked(rows, w), st), w, st), kids)
    ensures forall i | 0 <= i < |nodes| :: ShowsEdge(nodes[i], EdgeOf(rows[i], w, st), kids)
  {
    hide Neighbours; hide ShowsEdge; hide Assigned;
    var found := Rows(Asked(rows, w), st);
    UniqueFound(Asked(rows, w), st);
    forall i | 0 <= i < |nodes| ensures ShowsEdge(nodes[i], EdgeOf(rows[i], w, st), kids) {
      OneShows(nodes[i], was[i], rows[i], w.edge, nbrs, found, w.child.table, ChildFields(w), w.child.withs, st, kids);
      ShowsNested(nodes[i], rows[i], rows, w, st, kids);
    }
  }

  lemma OneAnswered(nbrs: seq<Node>, rows: seq<Row>, w: With, st: Store, kids: set<Node>)
    requires w.edge.kind.M2O? && Uncut(w.child.options)
    requires Neighbours(nbrs, Rows(Asked(rows, w), st), Targets(Rows(Asked(rows, w), st), w, st), kids)
    ensures forall n | n in nbrs :: Some(n.id) in Cols(rows, w.edge.fk)
  {
    var found := Rows(Asked(rows, w), st);
    AskedRows(rows, w, st);
    forall n | n in nbrs ensures Some(n.id) in Cols(rows, w.edge.fk) {
      var j :| 0 <= j < |nbrs| && nbrs[j] == n;
      assert found[j] in found;
      assert Holds(KeyPred(rows, w.edge), found[j]);
    }
  }

  // The scatter of a many-to-one load over the neighbours of the batch never fails, and
  // leaves every parent showing its edge.
  method ScatterOneShows(nodes: seq<Node>, nodeids: map<int, seq<Node>>, nbrs: seq<Node>, name: string,
                         ghost rows: seq<Row>, ghost w: With, ghost st: Store, ghost kids: set<Node>)
    returns (failure: Option<LoadError>)
    requires w.edge.kind.M2O? && w.edge.name == name && Uncut(w.child.options) && UniqueIds(st, w.child.table)
    requires Distinct(nodes) && |nodes| == |rows|
    requires forall k :: k in nodeids <==> Some(k) in Cols(rows, w.edge.fk)
    requires forall k | k in nodeids :: nodeids[k] == Bucket(nodes, Cols(rows, w.edge.fk), k)
    requires forall n | n in nodes :: name !in n.one && n !in kids
    requires Neighbours(nbrs, Rows(Asked(rows, w), st), Targets(Rows(Asked(rows, w), st), w, st), kids)
    modifies (set n | n in nodes)`one
    ensures failure.None?
    ensures forall n | n in nodes :: n.one - {name} == old(n.one) - {name}
    ensures forall i | 0 <= i < |nodes| :: ShowsEdge(nodes[i], EdgeOf(rows[i], w, st), kids)
  {
    hide Neighbours; hide ShowsEdge; hide Shows; hide Bucket; hide UniqueIds; hide Assigned; hide EdgeOf; hide Targets;
    hide Rows; hide Asked; hide Distinct; hide Col;
    OneAnswered(nbrs, rows, w, st, kids);
    ghost var was := seq(|nodes|, i requires 0 <= i < |nodes| reads nodes => nodes[i].one);
    var failed := ScatterOne(nodes, Cols(rows, w.edge.fk), nodeids, nbrs, name);
    failure := if failed then Some(UnexpectedForeignKey) else None;
    forall i | 0 <= i < |nodes| ensures nodes[i].one - {name} == was[i] - {name} {
      AssignedKeeps(was[i], name, nbrs, Cols(rows, w.edge.fk)[i]);
    }
    OneShowsAll(nodes, was, nbrs, rows, w, st, kids);
  }

  lemma SoundChild(table: string, w: With, rows: seq<Row>, st: Store)
    requires SoundWith(table, w, st)
    ensures Sound(Asked(rows, w).table, Asked(rows, w).withs, st) && UniqueIds(st, w.child.table)
    ensures Plain(w.child.options) && Uncut(w.child.options)
  {
  }

  lemma NoKeysNothingToShow(nodes: seq<Node>, rows: seq<Row>, w: With, st: Store)
    requires w.edge.kind.M2O? && FirstKeys(Cols(rows, w.edge.fk)) == [] && |nodes| == |rows|
    requires forall n | n in nodes :: w.edge.name !in n.one
    ensures forall i | 0 <= i < |nodes| :: ShowsEdge(nodes[i], EdgeOf(rows[i], w, st), {})
  {
    forall i | 0 <= i < |nodes| ensures ShowsEdge(nodes[i], EdgeOf(rows[i], w, st), {}) {
      assert Cols(rows, w.edge.fk)[i] == Col(rows[i], w.edge.fk);
    }
  }

  // The keys a loader asks for.
  ghost function AskedKeys(rows: seq<Row>, e: Edge): seq<int> {
    if e.kind.M2O? then FirstKeys(Cols(rows, e.fk)) else RowIds(rows)
  }

  // The middle of every loader: select the foreign key if needed, add the IN predicate to
  // the target builder, run it.
  method RunTarget(q: QueryObj, e: Edge, ids: seq<int>, st: Store, ghost rows: seq<Row>, ghost table: string)
    returns (res: Result<seq<Node>, LoadError>, ghost kids: set<Node>)
    requires q.Valid() && SoundWith(table, With(e, q.View()), st)
    requires ids == AskedKeys(rows, e)
    modifies q.Repr
    ensures q.Valid() && q.Repr == old(q.Repr) && fresh(kids)
    ensures res.Success? <==> Answers(Asked(rows, With(e, old(q.View()))), st)
    ensures res.Success? ==>
              var w := With(e, old(q.View()));
              var asked := Asked(rows, w);
              && q.View() == Touch(asked, st)
              && Neighbours(res.value, Rows(asked, st), Targets(Rows(asked, st), w, st), kids)
    decreases q.Repr, 1
  {
    hide Neighbours; hide Answers; hide SoundWith; hide Sound; hide Plain;
    ghost var w := With(e, q.View());
    if e.kind.O2M? && |q.fields| > 0 { q.AppendFieldOnce(e.fk); }
    q.Where(if e.kind.M2O? then IDIn(ids) else InValues(e.fk, ids));
    assert q.View() == Asked(rows, w);
    SoundChild(table, w, rows, st);
    res, kids := SqlAll(q, st);
  }

  // loadUser, loadGroup, loadTeam, loadAPIKey: the many-to-one loader.
  method LoadOne(q: QueryObj, e: Edge, nodes: seq<Node>, st: Store, ghost rows: seq<Row>, ghost table: string)
    returns (failure: Option<LoadError>, ghost kids: set<Node>)
    requires e.kind.M2O? && q.Valid() && SoundWith(table, With(e, q.View()), st)
    requires Parents(nodes, rows, table, e, st)
    requires forall n | n in nodes :: e.name !in n.one
    modifies q.Repr, (set n | n in nodes)`one
    ensures q.Valid() && q.Repr == old(q.Repr) && fresh(kids)
    ensures forall n | n in nodes :: n.one - {e.name} == old(n.one) - {e.name}
    ensures failure.None? <==> AnswersWith(rows, With(e, old(q.View())), st)
    ensures failure.None? ==>
              && q.View() == TouchWith(rows, With(e, old(q.View())), st).child
              && forall i | 0 <= i < |nodes| :: ShowsEdge(nodes[i], EdgeOf(rows[i], With(e, old(q.View())), st), kids)
    decreases q.Repr, 2
  {
    hide Neighbours; hide ShowsEdge; hide Answers; hide SoundWith; hide Asked; hide Rows; hide Touch; hide EdgeOf; hide Bucket;
    hide QueryObj.Valid; hide QueryObj.View; hide UniqueIds; hide FirstKeys; hide Targets;
    ghost var w := With(e, q.View());
    kids, failure := {}, None;
    var ids, nodeids := Collect(nodes, e);
    assert Keys(nodes, e) == Cols(rows, e.fk);
    if ids == [] {
      NoKeysNothingToShow(nodes, rows, w, st);
      return;
    }
    var res;
    res, kids := RunTarget(q, e, ids, st, rows, table);
    assert forall n | n in nodes :: n.one == old(n.one);
    if res.Failure? {
      failure := Some(res.error);
    } else {
      SoundChild(table, w, rows, st);
      failure := ScatterOneShows(nodes, nodeids, res.value, e.name, rows, w, st, kids);
    }
  }

  // A foreign key that is scanned, or not declared nullable, reads back from the node.
  lemma ScannedKey(n: Node, e: Edge, cols: seq<string>, r: Row)
    requires n.vals == Scan(cols, r) && e.fk in cols && e.fk != ID
    requires !e.nullable ==> Col(r, e.fk).Some?
    ensures n.Key(e) == Col(r, e.fk)
  {
  }

  lemma {:induction false} EdgeKeysNotId(table: string, withs: seq<With>, st: Store)
    requires Sound(table, withs, st)
    ensures forall k | 0 <= k < |withs| :: withs[k].edge.fk != ID
  {
    forall k | 0 <= k < |withs| ensures withs[k].edge.fk != ID {
      assert SoundWith(table, withs[k], st);
    }
  }

  // One-to-many targets always have their foreign key scanned.
  lemma ChildKeyScanned(table: string, w: With, st: Store)
    requires w.edge.kind.O2M? && SoundWith(table, w, st)
    ensures w.edge.fk in Columns(st, w.child.table, ChildFields(w), w.child.withs)
  {
    EdgeKeysNotId(w.child.table, w.child.withs, st);
    if w.child.fields != [] {
      assert w.edge.fk in ChildFields(w);
      ProjectedColumns(st, w.child.table, ChildFields(w), w.child.withs);
    }
  }

  lemma ManyAnswered(nbrs: seq<Node>, rows: seq<Row>, table: string, w: With, st: Store, kids: set<Node>)
    requires w.edge.kind.O2M? && SoundWith(table, w, st)
    requires Neighbours(nbrs, Rows(Asked(rows, w), st), Targets(Rows(Asked(rows, w), st), w, st), kids)
    ensures
      var found := Rows(Asked(rows, w), st);
      |nbrs| == |found| && forall j | 0 <= j < |nbrs| ::
        nbrs[j].Key(w.edge) == Col(found[j], w.edge.fk) && nbrs[j].Key(w.edge).Some?
        && nbrs[j].Key(w.edge).value in RowIds(rows)
  {
    hide ShowsEdge; hide SoundWith; hide Sound;
    var found := Rows(Asked(rows, w), st);
    SoundChild(table, w, rows, st);
    AskedRows(rows, w, st);
    ChildKeyScanned(table, w, st);
    NotNull(table, w, st);
    forall j | 0 <= j < |nbrs|
      ensures nbrs[j].Key(w.edge) == Col(found[j], w.edge.fk) && nbrs[j].Key(w.edge).Some?
              && nbrs[j].Key(w.edge).value in RowIds(rows)
    {
      assert found[j] in found;
      assert Holds(KeyPred(rows, w.edge), found[j]);
      TreesAt(found, w.child.table, ChildFields(w), w.child.withs, st, j);
      ScannedKey(nbrs[j], w.edge, Columns(st, w.child.table, ChildFields(w), w.child.withs), found[j]);
    }
  }

  lemma NotNull(table: string, w: With, st: Store)
    requires SoundWith(table, w, st)
    ensures w.edge.fk != ID
    ensures !w.edge.nullable ==>
              forall r | r in TableRows(st, if w.edge.kind.M2O? then table else w.child.table) :: Col(r, w.edge.fk).Some?
  {
  }

  lemma ManyShowsAll(nodes: seq<Node>, nbrs: seq<Node>, rows: seq<Row>, table: string, w: With, st: Store, kids: set<Node>)
    requires w.edge.kind.O2M? && SoundWith(table, w, st) && |nodes| == |rows|
    requires forall i | 0 <= i < |nodes| ::
               && nodes[i].id == rows[i].id && w.edge.name in nodes[i].many
               && nodes[i].many[w.edge.name] == Matching(nbrs, w.edge, nodes[i].id)
    requires Neighbours(nbrs, Rows(Asked(rows, w), st), Targets(Rows(Asked(rows, w), st), w, st), kids)
    ensures forall i | 0 <= i < |nodes| :: ShowsEdge(nodes[i], EdgeOf(rows[i], w, st), kids)
  {
    hide Neighbours; hide ShowsEdge; hide Matching; hide SoundWith; hide Sound;
    var found := Rows(Asked(rows, w), st);
    ManyAnswered(nbrs, rows, table, w, st, kids);
    SoundChild(table, w, rows, st);
    forall i | 0 <= i < |nodes| ensures ShowsEdge(nodes[i], EdgeOf(rows[i], w, st), kids) {
      ManyShows(nodes[i], rows[i], w.edge, nbrs, found, w.child.table, ChildFields(w), w.child.withs, st, kids);
      ShowsNested(nodes[i], rows[i], rows, w, st, kids);
    }
  }

  lemma {:induction false} AllReceive(nodes: seq<Node>)
    requires forall i, j | 0 <= i < j < |nodes| :: nodes[i].id != nodes[j].id
    ensures forall n | n in nodes :: Receives(nodes, n)
  {
    forall n | n in nodes ensures Receives(nodes, n) {
      var m := LastWith(nodes, n.id);
      assert m.Some? && m.value in nodes && m.value.id == n.id;
    }
  }

  // Every node's list holds the neighbours with its id, and every neighbour has the id of some
  // node.
  ghost predicate Listed(nodes: seq<Node>, nbrs: seq<Node>, e: Edge)
    reads nodes
  {
    && (forall n | n in nodes :: e.name in n.many && n.many[e.name] == Matching(nbrs, e, n.id))
    && (forall n | n in nbrs :: n.Key(e).Some? && n.Key(e).value in Ids(nodes))
  }

  lemma AppendedToNone(nodes: seq<Node>, n: Node, nbrs: seq<Node>, e: Edge)
    requires Receives(nodes, n)
    ensures Appended([], nodes, n, nbrs, e) == Matching(nbrs, e, n.id)
  {
    hide Matching;
    assert [] + Matching(nbrs, e, n.id) == Matching(nbrs, e, n.id);
  }

  lemma ListedAll(nodes: seq<Node>, nbrs: seq<Node>, rows: seq<Row>, e: Edge)
    requires Ids(nodes) == RowIds(rows)
    requires forall n | n in nodes :: e.name in n.many && n.many[e.name] == Matching(nbrs, e, n.id)
    requires forall j | 0 <= j < |nbrs| :: nbrs[j].Key(e).Some? && nbrs[j].Key(e).value in RowIds(rows)
    ensures Listed(nodes, nbrs, e)
  {
    hide Matching;
  }

  // The scatter of a one-to-many load over the neighbours of the batch.
  method ScatterManyShows(nodes: seq<Node>, nodeids: map<int, Node>, nbrs: seq<Node>, e: Edge,
                          ghost rows: seq<Row>, ghost table: string, ghost w: With, ghost st: Store, ghost kids: set<Node>)
    returns (failure: Option<LoadError>)
    requires w.edge == e && e.kind.O2M? && SoundWith(table, w, st)
    requires |nodes| == |rows| && DistinctIds(rows) && forall i | 0 <= i < |rows| :: nodes[i].id == rows[i].id
    requires forall k :: k in nodeids <==> k in Ids(nodes)
    requires forall k | k in nodeids :: LastWith(nodes, k) == Some(nodeids[k])
    requires forall n | n in nodes :: e.name in n.many && n.many[e.name] == [] && n !in kids
    requires Neighbours(nbrs, Rows(Asked(rows, w), st), Targets(Rows(Asked(rows, w), st), w, st), kids)
    modifies (set n | n in nodes)`many
    ensures failure.None?
    ensures forall n | n in nodes :: n.many - {e.name} == old(n.many) - {e.name}
    ensures Listed(nodes, nbrs, e)
    ensures forall i | 0 <= i < |nodes| :: ShowsEdge(nodes[i], EdgeOf(rows[i], w, st), kids)
  {
    hide Neighbours; hide ShowsEdge; hide Shows; hide SoundWith; hide Matching; hide Asked; hide Rows; hide Targets;
    hide EdgeOf; hide LastWith; hide Listed; hide Appended;
    ManyAnswered(nbrs, rows, table, w, st, kids);
    assert Ids(nodes) == RowIds(rows);
    AllReceive(nodes);
    forall n | n in nodes ensures Appended([], nodes, n, nbrs, e) == Matching(nbrs, e, n.id) {
      AppendedToNone(nodes, n, nbrs, e);
    }
    var failed := ScatterMany(nodes, nodeids, nbrs, e);
    failure := if failed then Some(UnexpectedForeignKey) else None;
    ListedAll(nodes, nbrs, rows, e);
    ManyShowsAll(nodes, nbrs, rows, table, w, st, kids);
  }

  // loadUsageLogs, loadCompositeGroups, loadAdoptionDecisions: the one-to-many loader.
  method LoadMany(q: QueryObj, e: Edge, nodes: seq<Node>, st: Store, ghost rows: seq<Row>, ghost table: string)
    returns (failure: Option<LoadError>, ghost kids: set<Node>, ghost nbrs: seq<Node>)
    requires e.kind.O2M? && q.Valid() && SoundWith(table, With(e, q.View()), st)
    requires Parents(nodes, rows, table, e, st)
    modifies q.Repr, (set n | n in nodes)`many
    ensures q.Valid() && q.Repr == old(q.Repr) && fresh(kids)
    ensures forall n | n in nodes :: n.many - {e.name} == old(n.many) - {e.name}
    ensures failure.None? <==> AnswersWith(rows, With(e, old(q.View())), st)
    ensures failure.None? ==>
              && q.View() == TouchWith(rows, With(e, old(q.View())), st).child
              && forall i | 0 <= i < |nodes| :: ShowsEdge(nodes[i], EdgeOf(rows[i], With(e, old(q.View())), st), kids)
    ensures failure.None? ==>
              var w := With(e, old(q.View()));
              && Listed(nodes, nbrs, e)
              && Neighbours(nbrs, Rows(Asked(rows, w), st), Targets(Rows(Asked(rows, w), st), w, st), kids)
    decreases q.Repr, 2
  {
    hide Neighbours; hide ShowsEdge; hide Answers; hide SoundWith; hide Asked; hide Rows; hide Touch; hide EdgeOf;
    hide QueryObj.Valid; hide QueryObj.View; hide UniqueIds; hide Targets; hide LastWith; hide Listed;
    ghost var w := With(e, q.View());
    kids, failure, nbrs := {}, None, [];
    var fks, nodeids := CollectIds(nodes, e.name);
    assert Ids(nodes) == RowIds(rows);
    var res;
    res, kids := RunTarget(q, e, fks, st, rows, table);
    assert forall n | n in nodes :: n.many == old(n.many)[e.name := []];
    if res.Failure? {
      failure := Some(res.error);
    } else {
      nbrs := res.value;
      failure := ScatterManyShows(nodes, nodeids, res.value, e, rows, table, w, st, kids);
    }
  }

  method LoadEdge(q: QueryObj, e: Edge, nodes: seq<Node>, st: Store, ghost rows: seq<Row>, ghost table: string)
    returns (failure: Option<LoadError>, ghost kids: set<Node>)
    requires q.Valid() && SoundWith(table, With(e, q.View()), st)
    requires Parents(nodes, rows, table, e, st)
    requires forall n | n in nodes :: e.name !in n.one
    modifies q.Repr, (set n | n in nodes)`one, (set n | n in nodes)`many
    ensures q.Valid() && q.Repr == old(q.Repr) && fresh(kids)
    ensures forall n | n in nodes :: n.one - {e.name} == old(n.one) - {e.name} && n.many - {e.name} == old(n.many) - {e.name}
    ensures failure.None? <==> AnswersWith(rows, With(e, old(q.View())), st)
    ensures failure.None? ==>
              && q.View() == TouchWith(rows, With(e, old(q.View())), st).child
              && forall i | 0 <= i < |nodes| :: ShowsEdge(nodes[i], EdgeOf(rows[i], With(e, old(q.View())), st), kids)
    decreases q.Repr, 3
  {
    hide ShowsEdge; hide AnswersWith; hide SoundWith; hide Parents; hide QueryObj.Valid; hide QueryObj.View;
    match e.kind
    case M2O => failure, kids := LoadOne(q, e, nodes, st, rows, table);
    case O2M =>
      ghost var nbrs;
      failure, kids, nbrs := LoadMany(q, e, nodes, st, rows, table);
  }

  ghost function NamesUpTo(ws: seq<With>, k: nat): set<string>
    requires k <= |ws|
  {
    set j | 0 <= j < k :: ws[j].edge.name
  }

  // The target builders before k are as a run leaves them, the others as they were.
  ghost predicate BuildersUpTo(q: QueryObj, rows: seq<Row>, ws: seq<With>, k: nat, st: Store)
    requires q.Valid()
    reads q, q.Repr
  {
    && |q.withs| == |ws|
    && forall j | 0 <= j < |ws| ::
         && q.withs[j].edge == ws[j].edge
         && q.withs[j].query.View() == if j < k then TouchWith(rows, ws[j], st).child else ws[j].child
  }

  lemma KeepsSlot(one: map<string, Node>, many: map<string, seq<Node>>, one': map<string, Node>,
                  many': map<string, seq<Node>>, e: Loaded, name: string, kids: set<Node>)
    requires ShowsSlot(one, many, e, kids) && e.name != name
    requires one' - {name} == one - {name} && many' - {name} == many - {name}
    ensures ShowsSlot(one', many', e, kids)
  {
    match e
    case One(x, None) => assert x !in one' - {name};
    case One(x, Some(t)) => assert x in one' - {name} && one'[x] == (one' - {name})[x];
    case Many(x, ts) => assert x in many' - {name} && many'[x] == (many' - {name})[x];
  }

  // The edge slots of the parents at some moment.
  datatype Slots = Slots(one: map<string, Node>, many: map<string, seq<Node>>)

  ghost function SlotsOf(nodes: seq<Node>): (ss: seq<Slots>)
    reads nodes
    ensures |ss| == |nodes| && forall i | 0 <= i < |nodes| :: ss[i] == Slots(nodes[i].one, nodes[i].many)
  {
    seq(|nodes|, i requires 0 <= i < |nodes| reads nodes => Slots(nodes[i].one, nodes[i].many))
  }

  ghost predicate SlotsUpTo(ss: seq<Slots>, rows: seq<Row>, ws: seq<With>, k: nat, st: Store, kids: set<Node>)
    requires |ss| == |rows| && k <= |ws|
    reads kids
  {
    forall i, j | 0 <= i < |ss| && 0 <= j < k :: ShowsSlot(ss[i].one, ss[i].many, EdgeOf(rows[i], ws[j], st), kids)
  }

  ghost predicate KeysWithin(ss: seq<Slots>, names: set<string>) {
    && (forall i | 0 <= i < |ss| :: ss[i].one.Keys <= names)
    && (forall i | 0 <= i < |ss| :: ss[i].many.Keys <= names)
  }

  lemma KeysNext(was: seq<Slots>, now: seq<Slots>, names: set<string>, name: string)
    requires |was| == |now| && KeysWithin(was, names)
    requires forall i | 0 <= i < |now| :: now[i].one - {name} == was[i].one - {name}
    requires forall i | 0 <= i < |now| :: now[i].many - {name} == was[i].many - {name}
    ensures KeysWithin(now, names + {name})
  {
    forall i | 0 <= i < |now| ensures now[i].one.Keys <= names + {name} {
      KeysWithout(now[i].one, was[i].one, name);
    }
    forall i | 0 <= i < |now| ensures now[i].many.Keys <= names + {name} {
      KeysWithout(now[i].many, was[i].many, name);
    }
  }

  lemma NotYetLoaded(nodes: seq<Node>, names: set<string>, name: string)
    requires KeysWithin(SlotsOf(nodes), names) && name !in names
    ensures forall n | n in nodes :: name !in n.one
  {
    forall n | n in nodes ensures name !in n.one {
      var i :| 0 <= i < |nodes| && nodes[i] == n;
      assert SlotsOf(nodes)[i].one == n.one;
    }
  }

  lemma KeysWithout<V>(m: map<string, V>, was: map<string, V>, name: string)
    requires m - {name} == was - {name}
    ensures m.Keys <= was.Keys + {name}
  {
    forall x | x in m && x != name ensures x in was {
      assert x in m - {name};
    }
  }

  lemma SlotsNext(was: seq<Slots>, now: seq<Slots>, rows: seq<Row>, ws: seq<With>, k: nat, st: Store,
                  before: set<Node>, more: set<Node>)
    requires |was| == |now| == |rows| && k < |ws|
    requires forall j | 0 <= j < k :: ws[j].edge.name != ws[k].edge.name
    requires SlotsUpTo(was, rows, ws, k, st, before)
    requires forall i | 0 <= i < |now| :: now[i].one - {ws[k].edge.name} == was[i].one - {ws[k].edge.name}
    requires forall i | 0 <= i < |now| :: now[i].many - {ws[k].edge.name} == was[i].many - {ws[k].edge.name}
    requires forall i | 0 <= i < |now| :: ShowsSlot(now[i].one, now[i].many, EdgeOf(rows[i], ws[k], st), more)
    ensures SlotsUpTo(now, rows, ws, k + 1, st, before + more)
  {
    hide ShowsSlot;
    forall i, j | 0 <= i < |now| && 0 <= j < k + 1
      ensures ShowsSlot(now[i].one, now[i].many, EdgeOf(rows[i], ws[j], st), before + more)
    {
      var e := EdgeOf(rows[i], ws[j], st);
      if j < k {
        KeepsSlot(was[i].one, was[i].many, now[i].one, now[i].many, e, ws[k].edge.name, before);
        ShowsSlotInLarger(now[i].one, now[i].many, e, before, before + more);
      } else {
        ShowsSlotInLarger(now[i].one, now[i].many, e, more, before + more);
      }
    }
  }

  // Edges before k are loaded on every parent, and nothing else is.
  ghost predicate LoadedUpTo(ss: seq<Slots>, rows: seq<Row>, ws: seq<With>, k: nat, st: Store, kids: set<Node>)
    requires |ss| == |rows| && k <= |ws|
    reads kids
  {
    SlotsUpTo(ss, rows, ws, k, st, kids) && KeysWithin(ss, NamesUpTo(ws, k))
  }

  method LoadNext(q: QueryObj, k: nat, nodes: seq<Node>, st: Store, ghost rows: seq<Row>, ghost table: string,
                  ghost ws: seq<With>, ghost before: set<Node>)
    returns (failure: Option<LoadError>, ghost kids: set<Node>)
    requires q.Valid() && k < |ws| && BuildersUpTo(q, rows, ws, k, st)
    requires SoundWith(table, ws[k], st) && Parents(nodes, rows, table, ws[k].edge, st)
    requires forall i, j | 0 <= i < j < |ws| :: ws[i].edge.name != ws[j].edge.name
    requires |nodes| == |rows| && LoadedUpTo(SlotsOf(nodes), rows, ws, k, st, before)
    requires forall n | n in nodes :: n !in before
    modifies q.withs[k].query.Repr, (set n | n in nodes)`one, (set n | n in nodes)`many
    ensures q.Valid() && q.Repr == old(q.Repr)
    ensures before <= kids && fresh(kids - before)
    ensures failure.None? <==> AnswersWith(rows, ws[k], st)
    ensures failure.None? ==>
              && BuildersUpTo(q, rows, ws, k + 1, st)
              && LoadedUpTo(SlotsOf(nodes), rows, ws, k + 1, st, kids)
    decreases q.Repr, 0, 1
  {
    hide ShowsSlot; hide AnswersWith; hide SoundWith; hide Parents; hide QueryObj.View; hide KeysWithin; hide SlotsUpTo;
    var c := q.withs[k];
    ghost var was := SlotsOf(nodes);
    NotYetLoaded(nodes, NamesUpTo(ws, k), c.edge.name);
    ghost var more;
    failure, more := LoadEdge(c.query, c.edge, nodes, st, rows, table);
    forall j | 0 <= j < |q.withs|
      ensures q.withs[j].query.Valid() && (j != k ==> q.withs[j].query.View() == old(q.withs[j].query.View()))
    {
      assert j != k ==> q.withs[j].query.Repr !! old(c.query.Repr);
    }
    assert q.Shape();
    kids := before + more;
    if failure.None? {
      SlotsNext(was, SlotsOf(nodes), rows, ws, k, st, before, more);
      KeysNext(was, SlotsOf(nodes), NamesUpTo(ws, k), c.edge.name);
      assert NamesUpTo(ws, k + 1) == NamesUpTo(ws, k) + {c.edge.name};
    }
  }

  // querySpec's column list.
  method SpecColumns(q: QueryObj, st: Store) returns (cols: seq<string>)
    requires q.Valid()
    ensures cols == Columns(st, q.table, q.fields, q.View().withs)
  {
    if q.fields == [] {
      cols := if q.table in st.columns then st.columns[q.table] else [];
      return;
    }
    cols := [ID] + DropId(q.fields);
    ghost var ws := q.View().withs;
    for k := 0 to |q.withs|
      invariant AddKeys(cols, ws[k..]) == AddKeys([ID] + DropId(q.fields), ws)
    {
      assert ws[k..][0] == ws[k] && ws[k..][1..] == ws[k + 1..];
      var e := q.withs[k].edge;
      if e.kind.M2O? { cols := AddOnce(cols, e.fk); }
    }
  }

  // The nodes sqlAll scanned, before any edge is loaded.
  ghost predicate Scanned(nodes: seq<Node>, rows: seq<Row>, cols: seq<string>, ws: seq<With>) {
    && |nodes| == |rows| && Distinct(nodes)
    && forall i | 0 <= i < |nodes| ::
         && nodes[i].id == rows[i].id && nodes[i].vals == Scan(cols, rows[i])
         && nodes[i].loaded == NamesUpTo(ws, |ws|)
  }

  lemma ScannedAreParents(nodes: seq<Node>, q: Query, st: Store, k: nat)
    requires Sound(q.table, q.withs, st) && k < |q.withs|
    requires Scanned(nodes, Rows(q, st), Columns(st, q.table, q.fields, q.withs), q.withs)
    ensures SoundWith(q.table, q.withs[k], st)
    ensures Parents(nodes, Rows(q, st), q.table, q.withs[k].edge, st)
  {
    hide SoundWith;
    var rows, cols, w := Rows(q, st), Columns(st, q.table, q.fields, q.withs), q.withs[k];
    UniqueFound(q, st);
    assert forall i | 0 <= i < |rows| :: rows[i] in rows;
    NotNull(q.table, w, st);
    if w.edge.kind.M2O? {
      ParentKeyScanned(q, st, k);
      forall i | 0 <= i < |rows| ensures nodes[i].Key(w.edge) == Col(rows[i], w.edge.fk) {
        ScannedKey(nodes[i], w.edge, cols, rows[i]);
      }
    }
  }

  // Many-to-one foreign keys are always scanned, projection or not.
  lemma ParentKeyScanned(q: Query, st: Store, k: nat)
    requires Sound(q.table, q.withs, st) && k < |q.withs| && q.withs[k].edge.kind.M2O?
    ensures q.withs[k].edge.fk in Columns(st, q.table, q.fields, q.withs)
  {
    assert SoundWith(q.table, q.withs[k], st);
    EdgeKeysNotId(q.table, q.withs, st);
    if q.fields != [] { ProjectedColumns(st, q.table, q.fields, q.withs); }
  }

  lemma NamesOfEdges(r: Row, ws: seq<With>, st: Store)
    ensures Names(Edges(r, ws, 0, st)) == NamesUpTo(ws, |ws|)
  {
    var es := Edges(r, ws, 0, st);
    forall j | 0 <= j < |ws| ensures es[j].name == ws[j].edge.name { EdgesAt(r, ws, 0, st, j); }
  }

  lemma NodeShowsTree(n: Node, r: Row, table: string, fields: seq<string>, ws: seq<With>, st: Store,
                      kids: set<Node>, foot: set<Node>)
    requires n in foot && kids <= foot
    requires n.id == r.id && n.vals == Scan(Columns(st, table, fields, ws), r) && n.loaded == NamesUpTo(ws, |ws|)
    requires n.one.Keys <= n.loaded && n.many.Keys <= n.loaded
    requires forall j | 0 <= j < |ws| :: ShowsSlot(n.one, n.many, EdgeOf(r, ws[j], st), kids)
    ensures Shows(n, TreeOf(r, table, fields, ws, st), foot)
  {
    hide ShowsSlot; hide EdgeOf; hide Columns; hide Scan; hide NamesUpTo; hide Names; hide Edges;
    var es := Edges(r, ws, 0, st);
    NamesOfEdges(r, ws, st);
    forall j | 0 <= j < |es| ensures ShowsEdge(n, es[j], foot) {
      EdgesAt(r, ws, 0, st, j);
      assert es[j - 0] == EdgeOf(r, ws[j], st);
      ShowsSlotInLarger(n.one, n.many, es[j], kids, foot);
    }
  }

  // With every edge loaded the nodes show the join.
  lemma LoadedShowsJoin(nodes: seq<Node>, q: Query, st: Store, kids: set<Node>, foot: set<Node>)
    requires Scanned(nodes, Rows(q, st), Columns(st, q.table, q.fields, q.withs), q.withs)
    requires LoadedUpTo(SlotsOf(nodes), Rows(q, st), q.withs, |q.withs|, st, kids)
    requires kids <= foot && forall n | n in nodes :: n in foot
    ensures Neighbours(nodes, Rows(q, st), Join(q, st), foot)
  {
    hide ShowsSlot; hide Shows; hide EdgeOf; hide Columns; hide Scan; hide NamesUpTo; hide TreeOf; hide Trees; hide Rows;
    hide Distinct;
    var rows := Rows(q, st);
    forall i | 0 <= i < |nodes| ensures Shows(nodes[i], Join(q, st)[i], foot) {
      TreesAt(rows, q.table, q.fields, q.withs, st, i);
      assert SlotsOf(nodes)[i] == Slots(nodes[i].one, nodes[i].many);
      NodeShowsTree(nodes[i], rows[i], q.table, q.fields, q.withs, st, kids, foot);
    }
  }

  lemma BuildersTouched(q: QueryObj, was: Query, st: Store)
    requires q.Valid() && BuildersUpTo(q, Rows(was, st), was.withs, |was.withs|, st) && Rows(was, st) != []
    requires q.table == was.table && q.fields == was.fields && q.preds == was.preds && q.options == was.options
    ensures q.View() == Touch(was, st)
  {
    var ws := q.View().withs;
    var goal := TouchWiths(Rows(was, st), was.withs, 0, st);
    forall j | 0 <= j < |ws| ensures ws[j] == goal[j] {}
    assert ws == goal;
  }

  lemma NothingLoaded(nodes: seq<Node>, rows: seq<Row>, ws: seq<With>, st: Store)
    requires |nodes| == |rows| && forall n | n in nodes :: n.one == map[] && n.many == map[]
    ensures LoadedUpTo(SlotsOf(nodes), rows, ws, 0, st, {})
  {
  }

  lemma NoBuilderTouched(q: QueryObj, rows: seq<Row>, st: Store)
    requires q.Valid()
    ensures BuildersUpTo(q, rows, q.View().withs, 0, st)
  {
  }

  // The sequence of loads in sqlAll.
  method LoadEdges(q: QueryObj, nodes: seq<Node>, st: Store, ghost was: Query)
    returns (failure: Option<LoadError>, ghost foot: set<Node>)
    requires q.Valid() && q.View() == was && Sound(was.table, was.withs, st) && Rows(was, st) != []
    requires Scanned(nodes, Rows(was, st), Columns(st, was.table, was.fields, was.withs), was.withs)
    requires forall n | n in nodes :: n.one == map[] && n.many == map[]
    modifies q.Repr, (set n | n in nodes)`one, (set n | n in nodes)`many
    ensures q.Valid() && q.Repr == old(q.Repr) && fresh(foot - set n | n in nodes)
    ensures failure.None? <==> forall k | 0 <= k < |was.withs| :: AnswersWith(Rows(was, st), was.withs[k], st)
    ensures failure.None? ==>
              q.View() == Touch(was, st) && Neighbours(nodes, Rows(was, st), Join(was, st), foot)
    decreases q.Repr, 0, 2
  {
    hide Sound; hide SoundWith; hide Neighbours; hide LoadedUpTo; hide BuildersUpTo; hide Parents; hide Touch;
    hide Rows; hide Columns; hide Join; hide AnswersWith; hide QueryObj.Valid; hide QueryObj.View;
    hide Scanned; hide SlotsOf; hide Distinct;
    ghost var rows, ws := Rows(was, st), was.withs;
    ghost var kids: set<Node> := {};
    q.Unfold();
    ScannedMatch(nodes, rows, Columns(st, was.table, was.fields, was.withs), ws);
    DistinctNames(was, st);
    NothingLoaded(nodes, rows, ws, st);
    NoBuilderTouched(q, rows, st);
    for k := 0 to |q.withs|
      invariant q.Valid() && q.Repr == old(q.Repr) && q.withs == old(q.withs)
      invariant q.fields == was.fields && q.preds == was.preds && q.options == was.options
      invariant BuildersUpTo(q, rows, ws, k, st)
      invariant LoadedUpTo(SlotsOf(nodes), rows, ws, k, st, kids)
      invariant fresh(kids) && forall n | n in nodes :: n !in kids
      invariant forall j | 0 <= j < k :: AnswersWith(rows, ws[j], st)
    {
      q.Unfold();
      ScannedAreParents(nodes, was, st, k);
      failure, kids := LoadNext(q, k, nodes, st, rows, was.table, ws, kids);
      if failure.Some? { return failure, {}; }
    }
    failure := None;
    foot := kids + set n | n in nodes;
    LoadedShowsJoin(nodes, was, st, kids, foot);
    BuildersTouched(q, was, st);
  }

  lemma ScannedMatch(nodes: seq<Node>, rows: seq<Row>, cols: seq<string>, ws: seq<With>)
    requires Scanned(nodes, rows, cols, ws)
    ensures |nodes| == |rows|
  {
  }

  lemma DistinctNames(q: Query, st: Store)
    requires Sound(q.table, q.withs, st)
    ensures forall i, j | 0 <= i < j < |q.withs| :: q.withs[i].edge.name != q.withs[j].edge.name
  {
  }

  // loadedTypes: which edges the builder eager-loads.
  method LoadedTypes(q: QueryObj) returns (loaded: set<string>)
    requires q.Valid()
    ensures loaded == NamesUpTo(q.View().withs, |q.View().withs|)
  {
    loaded := {};
    ghost var ws := q.View().withs;
    for k := 0 to |q.withs|
      invariant loaded == NamesUpTo(ws, k)
    {
      assert ws[k].edge == q.withs[k].edge;
      loaded := loaded + {q.withs[k].edge.name};
    }
  }

  // sqlAll, after prepareQuery's field check: the rows of the query, then each enabled edge
  // in turn. It fails exactly when the run meets an invalid field, and otherwise returns the
  // nested-loop join.
  method SqlAll(q: QueryObj, st: Store) returns (res: Result<seq<Node>, LoadError>, ghost foot: set<Node>)
    requires q.Valid() && Plain(q.View().options) && Sound(q.View().table, q.View().withs, st)
    modifies q.Repr
    ensures q.Valid() && q.Repr == old(q.Repr) && fresh(foot)
    ensures res.Success? <==> Answers(old(q.View()), st)
    ensures res.Success? ==>
              && q.View() == Touch(old(q.View()), st) && Distinct(res.value)
              && Neighbours(res.value, Rows(old(q.View()), st), Join(old(q.View()), st), foot)
    decreases q.Repr, 0, 3
  {
    hide Sound; hide Shows; hide Columns; hide AnswersWith;
    foot := {};
    ghost var was := q.View();
    if !ValidFields(q.table, q.fields, st) { return Failure(InvalidField), {}; }
    var cols := SpecColumns(q, st);
    var rows := Cut(q.options, Select(TableRows(st, q.table), q.preds));
    var loaded := LoadedTypes(q);
    var nodes := QueryNodes(rows, cols, loaded);
    if nodes == [] { return Success(nodes), {}; }
    var failure;
    failure, foot := LoadEdges(q, nodes, st, was);
    res := if failure.Some? then Failure(failure.value) else Success(nodes);
    if failure.Some? { foot := {}; }
  }
}
