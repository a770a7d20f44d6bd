// What a caller may rely on after an eager-loading query.

module EagerResults {
  import opened Wrappers
  import opened EagerSpec
  import opened EagerQuery
  import opened EagerLoaders
  import opened EagerRerun
  import opened EagerLoad

  // ----- The *OrErr accessors -----

  datatype EdgeError = NotFound | NotLoaded

  // UserOrErr, GroupOrErr, TeamOrErr, APIKeyOrErr
  function OneOrErr(n: Node, name: string): Result<Node, EdgeError>
    reads n
  {
    if name in n.one then Success(n.one[name])
    else if name in n.loaded then Failure(NotFound)
    else Failure(NotLoaded)
  }

  // UsageLogsOrErr, CompositeGroupsOrErr; a nil slice is an empty one
  function ManyOrErr(n: Node, name: string): Result<seq<Node>, EdgeError>
    reads n
  {
    if name in n.loaded then Success(if name in n.many then n.many[name] else []) else Failure(NotLoaded)
  }

  ghost predicate Reported(n: Node, r: Row, w: With, st: Store)
    reads n
  {
    var name := w.edge.name;
    var ms := Matches(r, w.edge, Rows(w.child, st));
    match w.edge.kind
    case M2O =>
      && (OneOrErr(n, name) == Failure(NotFound) <==> ms == [])
      && (ms != [] ==> OneOrErr(n, name).Success? && OneOrErr(n, name).value.id == ms[0].id)
    case O2M =>
      && ManyOrErr(n, name).Success? && |ManyOrErr(n, name).value| == |ms|
      && forall j | 0 <= j < |ms| :: ManyOrErr(n, name).value[j].id == ms[j].id
  }

  lemma EdgeReported(n: Node, r: Row, w: With, st: Store, foot: set<Node>)
    requires w.edge.name in n.loaded && ShowsEdge(n, EdgeOf(r, w, st), foot)
    ensures Reported(n, r, w, st)
  {
    var ms := Matches(r, w.edge, Rows(w.child, st));
    var ts := Trees(ms, w.child.table, ChildFields(w), w.child.withs, st);
    forall j | 0 <= j < |ms| ensures ts[j].id == ms[j].id {
      TreesAt(ms, w.child.table, ChildFields(w), w.child.withs, st, j);
    }
    var l := EdgeOf(r, w, st);
    assert ShowsSlot(n.one, n.many, l, foot);
    assert l == EdgeFrom(r, w.edge, Rows(w.child, st), w.child.table, ChildFields(w), w.child.withs, st);
    match w.edge.kind
    case M2O =>
      assert l == One(w.edge.name, if ts == [] then None else Some(ts[0]));
      if ts != [] { assert Shows(n.one[w.edge.name], ts[0], foot); }
    case O2M =>
      assert l == Many(w.edge.name, ts);
      assert forall j | 0 <= j < |ts| :: Shows(n.many[w.edge.name][j], ts[j], foot);
  }

  // On every node a query returned, an edge is reported as not loaded exactly when its With*
  // was not used; a many-to-one edge as not found exactly when it was used and no row
  // matched; otherwise the accessor gives the loaded target or targets.
  lemma {:induction false} AccessorsReport(n: Node, r: Row, q: Query, st: Store, foot: set<Node>)
    requires n in foot && Shows(n, TreeOf(r, q.table, q.fields, q.withs, st), foot)
    ensures forall name ::
              && (OneOrErr(n, name) == Failure(NotLoaded) <==> name !in NamesUpTo(q.withs, |q.withs|))
              && (ManyOrErr(n, name) == Failure(NotLoaded) <==> name !in NamesUpTo(q.withs, |q.withs|))
    ensures forall k | 0 <= k < |q.withs| :: Reported(n, r, q.withs[k], st)
  {
    hide ShowsEdge; hide Reported;
    var t := TreeOf(r, q.table, q.fields, q.withs, st);
    NamesOfEdges(r, q.withs, st);
    forall k | 0 <= k < |q.withs| ensures Reported(n, r, q.withs[k], st) {
      EdgesAt(r, q.withs, 0, st, k);
      assert ShowsEdge(n, t.edges[k], foot);
      EdgeReported(n, r, q.withs[k], st, foot);
    }
  }

  // ----- Rows, values and pages on the nodes -----

  // A node holds the values of its row for the columns that were asked for.
  lemma NodeHoldsRow(n: Node, r: Row, q: Query, st: Store, foot: set<Node>)
    requires n in foot && Shows(n, TreeOf(r, q.table, q.fields, q.withs, st), foot)
    ensures n.id == r.id
    ensures forall c :: c in n.vals <==> c in Columns(st, q.table, q.fields, q.withs) && c != "id"
    ensures forall c | c in n.vals :: n.vals[c] == if c in r.cols then r.cols[c] else None
  {
    hide ShowsEdge; hide Columns;
  }

  // Without selected fields all columns of the table are asked for.
  lemma UnprojectedColumns(st: Store, table: string, withs: seq<With>)
    ensures Columns(st, table, [], withs) == if table in st.columns then st.columns[table] else []
  {
  }

  // The target of an edge is asked for the fields its builder selects, all columns if it
  // selects none, and with a selection a one-to-many target also for its foreign key.
  lemma ChildFieldsAre(w: With)
    ensures w.child.fields == [] ==> ChildFields(w) == []
    ensures w.child.fields != [] ==>
              forall c :: c in ChildFields(w) <==> c in w.child.fields || (w.edge.kind.O2M? && c == w.edge.fk)
    ensures w.child.fields <= ChildFields(w)
  {
  }

  // A query fails when it selects a field that is not a column of its table, and one without
  // edges only then; with edges also when one of their builders is asked and fails.
  lemma AnswersMeans(q: Query, st: Store)
    ensures HasBadField(q, st) ==> !Answers(q, st)
    ensures !HasBadField(q, st) && (Rows(q, st) == [] || q.withs == []) ==> Answers(q, st)
    ensures (exists k :: 0 <= k < |q.withs| && Rows(q, st) != [] && IsAsked(Rows(q, st), q.withs[k])
                         && HasBadField(q.withs[k].child, st)) ==> !Answers(q, st)
  {
    hide Rows;
    if k :| 0 <= k < |q.withs| && Rows(q, st) != [] && IsAsked(Rows(q, st), q.withs[k]) && HasBadField(q.withs[k].child, st) {
      ChildFails(Rows(q, st), q.withs[k], st);
    }
  }

  // Some selected field is not a column of the table.
  ghost predicate HasBadField(q: Query, st: Store) {
    exists f :: f in q.fields && (q.table in st.columns ==> f !in st.columns[q.table])
  }

  // A one-to-many builder is always asked, a many-to-one builder when some row has a key.
  ghost predicate IsAsked(rows: seq<Row>, w: With) {
    w.edge.kind.M2O? ==> exists r :: r in rows && Col(r, w.edge.fk).Some?
  }

  lemma ChildFails(rows: seq<Row>, w: With, st: Store)
    requires HasBadField(w.child, st) && IsAsked(rows, w)
    ensures !AnswersWith(rows, w, st)
  {
    hide Rows; hide FirstKeys;
    if w.edge.kind.M2O? {
      var r :| r in rows && Col(r, w.edge.fk).Some?;
      var i :| 0 <= i < |rows| && rows[i] == r;
      var keys := Cols(rows, w.edge.fk);
      assert keys[i] == Some(Col(r, w.edge.fk).value);
      assert Col(r, w.edge.fk).value in FirstKeys(keys);
    }
    var f :| f in w.child.fields && (w.child.table in st.columns ==> f !in st.columns[w.child.table]);
    ChildFieldsAre(w);
    assert f in Asked(rows, w).fields;
  }

  // Tree k of a page is tree offset + k of the whole join.
  lemma {:induction false} PageOfJoin(q: Query, st: Store, k: nat)
    requires k < |Rows(q, st)|
    ensures
      var i := q.options.offset.GetOr(0) + k;
      i < |Rows(Whole(q), st)| && Join(q, st)[k] == Join(Whole(q), st)[i]
  {
    hide Rows; hide TreeOf;
    RowsBetween(q, st);
    TreesAt(Rows(q, st), q.table, q.fields, q.withs, st, k);
    TreesAt(Rows(Whole(q), st), q.table, q.fields, q.withs, st, q.options.offset.GetOr(0) + k);
  }

  // The nodes of a query with limit and offset: node k shows tree offset + k of the whole join.
  method RunPage(q: QueryObj, st: Store) returns (res: Result<seq<Node>, LoadError>, ghost foot: set<Node>)
    requires q.Valid() && Plain(q.View().options) && Sound(q.View().table, q.View().withs, st)
    modifies q.Repr
    ensures res.Success? <==> Answers(old(q.View()), st)
    ensures
      res.Success? ==>
        var was := old(q.View());
        var all, offset, limit := Join(Whole(was), st), was.options.offset.GetOr(0), was.options.limit.GetOr(0);
        var left := if offset < |all| then |all| - offset else 0;
        && |res.value| == (if 0 < limit < left then limit else left)
        && forall k | 0 <= k < |res.value| ::
             offset + k < |all| && res.value[k] in foot && Shows(res.value[k], all[offset + k], foot)
  {
    hide Shows; hide Sound; hide Answers; hide Join; hide QueryObj.Valid; hide QueryObj.View; hide Rows;
    ghost var was := q.View();
    res, foot := SqlAll(q, st);
    RowsBetween(was, st);
    if res.Success? {
      forall k | 0 <= k < |res.value|
        ensures was.options.offset.GetOr(0) + k < |Join(Whole(was), st)|
        ensures res.value[k] in foot && Shows(res.value[k], Join(Whole(was), st)[was.options.offset.GetOr(0) + k], foot)
      {
        PageOfJoin(was, st, k);
      }
    }
  }

  // ----- Two levels -----

  const COMPOSITE_GROUPS := Edge("composite_groups", O2M, "api_key_id", false)
  const GROUP := Edge("group", M2O, "group_id", false)

  // A query for keys WithCompositeGroups, configured WithGroup.
  function KeysWithGroups(keys: Query, composites: Query, groups: Query): Query {
    keys.(withs := [With(COMPOSITE_GROUPS, composites.(withs := [With(GROUP, groups)]))])
  }

  // The tree of a composite row holds the group its key names, if the group query selects it.
  ghost predicate HoldsGroup(t: Tree, c: Row, groups: seq<Row>) {
    && t.id == c.id && |t.edges| == 1 && t.edges[0].One? && t.edges[0].name == GROUP.name
    && (t.edges[0].target.Some? <==> exists g :: g in groups && Col(c, GROUP.fk) == Some(g.id))
    && (t.edges[0].target.Some? ==> Some(t.edges[0].target.value.id) == Col(c, GROUP.fk))
  }

  // Every key carries exactly its composite rows, in the order of the store, and every
  // composite row exactly its group, however many rows share a key or a group.
  lemma {:induction false} TwoLevelJoin(keys: Query, composites: Query, groups: Query, st: Store, i: nat)
    requires i < |Rows(keys, st)|
    ensures
      var t := Join(KeysWithGroups(keys, composites, groups), st)[i];
      var cs := WithKey(Rows(composites, st), COMPOSITE_GROUPS.fk, Rows(keys, st)[i].id);
      && t.id == Rows(keys, st)[i].id && |t.edges| == 1
      && t.edges[0].Many? && t.edges[0].name == COMPOSITE_GROUPS.name && |t.edges[0].targets| == |cs|
      && forall j | 0 <= j < |cs| :: HoldsGroup(t.edges[0].targets[j], cs[j], Rows(groups, st))
  {
    var q := KeysWithGroups(keys, composites, groups);
    var w := q.withs[0];
    var r := Rows(keys, st)[i];
    TreesAt(Rows(q, st), q.table, q.fields, q.withs, st, i);
    EdgesAt(r, q.withs, 0, st, 0);
    var cs := WithKey(Rows(composites, st), COMPOSITE_GROUPS.fk, r.id);
    forall j | 0 <= j < |cs|
      ensures HoldsGroup(TreeOf(cs[j], w.child.table, ChildFields(w), w.child.withs, st), cs[j], Rows(groups, st))
    {
      GroupHeld(cs[j], w.child.table, ChildFields(w), groups, st);
    }
    forall j | 0 <= j < |cs| {
      TreesAt(cs, w.child.table, ChildFields(w), w.child.withs, st, j);
    }
  }

  lemma GroupHeld(c: Row, table: string, fields: seq<string>, groups: Query, st: Store)
    ensures HoldsGroup(TreeOf(c, table, fields, [With(GROUP, groups)], st), c, Rows(groups, st))
  {
    var ws := [With(GROUP, groups)];
    EdgesAt(c, ws, 0, st, 0);
    var found := Rows(groups, st);
    var ms := Matches(c, GROUP, found);
    if ms != [] { TreesAt(ms, groups.table, ChildFields(ws[0]), groups.withs, st, 0); }
  }

  // ----- Projection -----

  // Two builder trees that differ in the selected fields only, at any level.
  ghost predicate SameButFields(q: Query, q': Query)
    decreases q
  {
    && q'.table == q.table && q'.preds == q.preds && q'.options == q.options && |q'.withs| == |q.withs|
    && forall k | 0 <= k < |q.withs| ::
         q'.withs[k].edge == q.withs[k].edge && SameButFields(q.withs[k].child, q'.withs[k].child)
  }

  // A tree without the scanned values: the ids and what is loaded below them.
  function Bare(t: Tree): Tree {
    Tree(t.id, map[], BareEdges(t.edges))
  }

  function BareEdges(es: seq<Loaded>): (r: seq<Loaded>)
    ensures |r| == |es| && forall k | 0 <= k < |es| :: r[k] == BareEdge(es[k])
  {
    if es == [] then [] else [BareEdge(es[0])] + BareEdges(es[1..])
  }

  function BareEdge(e: Loaded): Loaded {
    match e
    case One(name, None) => e
    case One(name, Some(t)) => One(name, Some(Bare(t)))
    case Many(name, ts) => Many(name, BareAll(ts))
  }

  function BareAll(ts: seq<Tree>): (r: seq<Tree>)
    ensures |r| == |ts| && forall k | 0 <= k < |ts| :: r[k] == Bare(ts[k])
  {
    if ts == [] then [] else [Bare(ts[0])] + BareAll(ts[1..])
  }

  lemma {:induction false} BareTrees(rows: seq<Row>, table: string, fields: seq<string>, fields': seq<string>,
                                     ws: seq<With>, ws': seq<With>, st: Store)
    requires |ws'| == |ws|
    requires forall k | 0 <= k < |ws| :: ws'[k].edge == ws[k].edge && SameButFields(ws[k].child, ws'[k].child)
    ensures BareAll(Trees(rows, table, fields', ws', st)) == BareAll(Trees(rows, table, fields, ws, st))
    decreases ws, 1
  {
    hide TreeOf; hide BareAll; hide Bare; hide SameButFields;
    var a, b := Trees(rows, table, fields', ws', st), Trees(rows, table, fields, ws, st);
    forall j | 0 <= j < |rows| ensures Bare(a[j]) == Bare(b[j]) {
      TreesAt(rows, table, fields', ws', st, j);
      TreesAt(rows, table, fields, ws, st, j);
      BareTree(rows[j], table, fields, fields', ws, ws', st);
    }
    assert BareAll(a) == BareAll(b);
  }

  lemma {:induction false} BareTree(r: Row, table: string, fields: seq<string>, fields': seq<string>,
                                    ws: seq<With>, ws': seq<With>, st: Store)
    requires |ws'| == |ws|
    requires forall k | 0 <= k < |ws| :: ws'[k].edge == ws[k].edge && SameButFields(ws[k].child, ws'[k].child)
    ensures Bare(TreeOf(r, table, fields', ws', st)) == Bare(TreeOf(r, table, fields, ws, st))
    decreases ws, 0
  {
    hide EdgeOf; hide BareEdge; hide Columns; hide Scan;
    var a, b := Edges(r, ws', 0, st), Edges(r, ws, 0, st);
    forall k | 0 <= k < |ws| ensures BareEdge(a[k]) == BareEdge(b[k]) {
      EdgesAt(r, ws', 0, st, k);
      EdgesAt(r, ws, 0, st, k);
      assert a[k - 0] == EdgeOf(r, ws'[k], st) && b[k - 0] == EdgeOf(r, ws[k], st);
      BareEdgeOf(r, ws[k], ws'[k], st);
    }
    assert BareEdges(a) == BareEdges(b);
  }

  lemma {:induction false} BareEdgeOf(r: Row, w: With, w': With, st: Store)
    requires w'.edge == w.edge && SameButFields(w.child, w'.child)
    ensures BareEdge(EdgeOf(r, w', st)) == BareEdge(EdgeOf(r, w, st))
    decreases w
  {
    hide Matches; hide Trees; hide ChildFields; hide BareAll;
    var found := Rows(w.child, st);
    assert Rows(w'.child, st) == found;
    var ms := Matches(r, w.edge, found);
    BareTrees(ms, w.child.table, ChildFields(w), ChildFields(w'), w.child.withs, w'.child.withs, st);
    EdgeShows(r, w.edge, found, w.child.table, ChildFields(w), w.child.withs, st);
    EdgeShows(r, w.edge, found, w.child.table, ChildFields(w'), w'.child.withs, st);
    BareHolding(w.edge, Trees(ms, w.child.table, ChildFields(w), w.child.withs, st),
                Trees(ms, w.child.table, ChildFields(w'), w'.child.withs, st));
  }

  lemma BareHolding(e: Edge, ts: seq<Tree>, ts': seq<Tree>)
    requires BareAll(ts) == BareAll(ts')
    ensures BareEdge(Holding(e, ts)) == BareEdge(Holding(e, ts'))
  {
    hide Bare; hide BareAll;
    if ts != [] { assert BareAll(ts)[0] == BareAll(ts')[0]; }
  }

  // Whatever fields are selected at whatever level, the same ids are loaded and nested alike.
  lemma {:induction false} ProjectionKeepsEdges(q: Query, q': Query, st: Store)
    requires SameButFields(q, q')
    ensures Rows(q', st) == Rows(q, st) && BareAll(Join(q', st)) == BareAll(Join(q, st))
    ensures q'.withs == q.withs ==> forall i | 0 <= i < |Rows(q, st)| :: Join(q', st)[i].edges == Join(q, st)[i].edges
  {
    forall i | q'.withs == q.withs && 0 <= i < |Rows(q, st)| ensures Join(q', st)[i].edges == Join(q, st)[i].edges {
      TreesAt(Rows(q, st), q.table, q.fields, q.withs, st, i);
      TreesAt(Rows(q, st), q.table, q'.fields, q.withs, st, i);
    }
    BareTrees(Rows(q, st), q.table, q.fields, q'.fields, q.withs, q'.withs, st);
  }

  // Two runs of builders that differ in their fields: although the foreign keys a load reads
  // may not be among the selected fields, both load the same ids, nested alike.
  method RunProjections(q: QueryObj, q': QueryObj, st: Store)
    returns (a: Result<seq<Node>, LoadError>, b: Result<seq<Node>, LoadError>, ghost foot: set<Node>)
    requires q.Valid() && q'.Valid() && q.Repr !! q'.Repr && SameButFields(q.View(), q'.View())
    requires Plain(q.View().options) && Plain(q'.View().options)
    requires Sound(q.View().table, q.View().withs, st) && Sound(q'.View().table, q'.View().withs, st)
    modifies q.Repr, q'.Repr
    ensures a.Success? <==> Answers(old(q.View()), st)
    ensures b.Success? <==> Answers(old(q'.View()), st)
    ensures a.Success? ==> Neighbours(a.value, Rows(old(q.View()), st), Join(old(q.View()), st), foot)
    ensures b.Success? ==> Neighbours(b.value, Rows(old(q.View()), st), Join(old(q'.View()), st), foot)
    ensures BareAll(Join(old(q'.View()), st)) == BareAll(Join(old(q.View()), st))
  {
    hide Neighbours; hide Sound; hide Answers; hide SameButFields; hide QueryObj.Valid; hide QueryObj.View; hide BareAll;
    ghost var was, was' := q.View(), q'.View();
    ProjectionKeepsEdges(was, was', st);
    ghost var left, right;
    a, left := SqlAll(q, st);
    b, right := SqlAll(q', st);
    foot := left + right;
    if a.Success? { NeighboursInLarger(a.value, Rows(was, st), Join(was, st), left, foot); }
    if b.Success? { NeighboursInLarger(b.value, Rows(was, st), Join(was', st), right, foot); }
  }

  // ----- One-to-many lists partition the neighbours -----

  // The edge lists of parents with the given ids, one after another.
  ghost function Gathered(ids: seq<int>, nbrs: seq<Node>, e: Edge): seq<Node> {
    if ids == [] then [] else Matching(nbrs, e, ids[0]) + Gathered(ids[1..], nbrs, e)
  }

  lemma MatchingAppend(nbrs: seq<Node>, n: Node, e: Edge, id: int)
    ensures Matching(nbrs + [n], e, id) == Matching(nbrs, e, id) + if n.Key(e) == Some(id) then [n] else []
  {
    assert (nbrs + [n])[..|nbrs|] == nbrs;
  }

  lemma {:induction false} GatheredStep(ids: seq<int>, nbrs: seq<Node>, n: Node, e: Edge)
    requires forall i, j | 0 <= i < j < |ids| :: ids[i] != ids[j]
    ensures multiset(Gathered(ids, nbrs + [n], e))
         == multiset(Gathered(ids, nbrs, e))
            + if n.Key(e).Some? && n.Key(e).value in ids then multiset{n} else multiset{}
    decreases |ids|
  {
    hide Matching;
    if ids != [] {
      MatchingAppend(nbrs, n, e, ids[0]);
      GatheredStep(ids[1..], nbrs, n, e);
      assert n.Key(e).Some? && n.Key(e).value in ids <==>
        n.Key(e) == Some(ids[0]) || (n.Key(e).Some? && n.Key(e).value in ids[1..]);
      assert ids[0] !in ids[1..];
    }
  }

  // With distinct parent ids and every key among them, every neighbour lands in exactly one
  // parent's list.
  lemma {:induction false} ListsPartition(ids: seq<int>, nbrs: seq<Node>, e: Edge)
    requires forall i, j | 0 <= i < j < |ids| :: ids[i] != ids[j]
    requires forall n | n in nbrs :: n.Key(e).Some? && n.Key(e).value in ids
    ensures multiset(Gathered(ids, nbrs, e)) == multiset(nbrs)
    decreases |nbrs|
  {
    hide Gathered;
    if nbrs == [] {
      GatheredNothing(ids, e);
    } else {
      var rest := nbrs[..|nbrs| - 1];
      var last := nbrs[|nbrs| - 1];
      assert nbrs == rest + [last];
      ListsPartition(ids, rest, e);
      GatheredStep(ids, rest, last, e);
    }
  }

  // The lists of the nodes, one after another.
  ghost function ListsOf(nodes: seq<Node>, name: string): seq<Node>
    reads nodes
  {
    if nodes == [] then []
    else (if name in nodes[0].many then nodes[0].many[name] else []) + ListsOf(nodes[1..], name)
  }

  lemma {:induction false} ListsAreGathered(nodes: seq<Node>, nbrs: seq<Node>, e: Edge)
    requires forall n | n in nodes :: e.name in n.many && n.many[e.name] == Matching(nbrs, e, n.id)
    ensures ListsOf(nodes, e.name) == Gathered(Ids(nodes), nbrs, e)
    decreases |nodes|
  {
    hide Matching;
    if nodes != [] {
      assert nodes[0] in nodes && Ids(nodes)[0] == nodes[0].id && Ids(nodes)[1..] == Ids(nodes[1..]);
      ListsAreGathered(nodes[1..], nbrs, e);
    } else {
      assert Ids(nodes) == [];
    }
  }

  // After a one-to-many load the lists of the parents hold every neighbour the target query
  // returned exactly once.
  method LoadPartitions(q: QueryObj, e: Edge, nodes: seq<Node>, st: Store, ghost rows: seq<Row>, ghost table: string)
    returns (failure: Option<LoadError>, ghost kids: set<Node>, ghost nbrs: seq<Node>)
    requires e.kind.O2M? && q.Valid() && SoundWith(table, With(e, q.View()), st)
    requires Parents(nodes, rows, table, e, st)
    modifies q.Repr, (set n | n in nodes)`many
    ensures failure.None? ==>
              var w := With(e, old(q.View()));
              && Neighbours(nbrs, Rows(Asked(rows, w), st), Targets(Rows(Asked(rows, w), st), w, st), kids)
              && multiset(ListsOf(nodes, e.name)) == multiset(nbrs)
  {
    hide Neighbours; hide SoundWith; hide QueryObj.Valid; hide QueryObj.View; hide Matching; hide ListsOf; hide Gathered;
    failure, kids, nbrs := LoadMany(q, e, nodes, st, rows, table);
    if failure.None? {
      forall i, j | 0 <= i < j < |nodes| ensures Ids(nodes)[i] != Ids(nodes)[j] {
        assert rows[i].id != rows[j].id;
      }
      ListsAreGathered(nodes, nbrs, e);
      ListsPartition(Ids(nodes), nbrs, e);
    }
  }

  lemma {:induction false} GatheredNothing(ids: seq<int>, e: Edge)
    ensures Gathered(ids, [], e) == []
    decreases |ids|
  {
    if ids != [] { GatheredNothing(ids[1..], e); }
  }

  // ----- Running a builder twice -----

  // What the schema guarantees of one store it guarantees of the builders a run over any
  // store leaves behind.
  lemma {:induction false} TouchKeepsSound(table: string, rows: seq<Row>, withs: seq<With>, st1: Store, st: Store)
    requires Sound(table, withs, st)
    ensures Sound(table, TouchWiths(rows, withs, 0, st1), st)
    decreases withs, 1
  {
    var ws := TouchWiths(rows, withs, 0, st1);
    forall k | 0 <= k < |ws| ensures SoundWith(table, ws[k], st) {
      assert SoundWith(table, withs[k], st);
      TouchKeepsSoundWith(table, rows, withs[k], st1, st);
    }
  }

  lemma {:induction false} TouchKeepsSoundWith(table: string, rows: seq<Row>, w: With, st1: Store, st: Store)
    requires SoundWith(table, w, st)
    ensures SoundWith(table, TouchWith(rows, w, st1), st)
    decreases w
  {
    if !Skips(rows, w) {
      var asked := Asked(rows, w);
      TouchKeepsSound(asked.table, Rows(asked, st1), w.child.withs, st1, st);
    }
  }

  // Valid fields everywhere are enough for a run to succeed.
  lemma {:induction false} ValidFieldsAnswer(q: Query, st: Store)
    requires FieldsOk(q, st) && Sound(q.table, q.withs, st)
    ensures Answers(q, st)
    decreases q.withs, 1
  {
    var rows := Rows(q, st);
    forall k | 0 <= k < |q.withs| ensures AnswersWith(rows, q.withs[k], st) {
      assert SoundWith(q.table, q.withs[k], st) && FieldsOk(q.withs[k].child, st);
      ValidFieldsAnswerWith(rows, q.withs[k], q.table, st);
    }
  }

  lemma {:induction false} ValidFieldsAnswerWith(rows: seq<Row>, w: With, table: string, st: Store)
    requires FieldsOk(w.child, st) && SoundWith(table, w, st)
    ensures AnswersWith(rows, w, st)
    decreases w
  {
    AskedFieldsOk(rows, w, table, st);
    ValidFieldsAnswer(Asked(rows, w), st);
  }

  // What a run leaves behind succeeds when the run did.
  lemma {:induction false} TouchKeepsAnswers(q: Query, st: Store)
    requires Answers(q, st)
    ensures Answers(Touch(q, st), st)
    decreases q.withs, 1
  {
    var rows, q' := Rows(q, st), Touch(q, st);
    if rows != [] {
      assert Rows(q', st) == rows;
      forall k | 0 <= k < |q'.withs| ensures AnswersWith(rows, q'.withs[k], st) {
        TouchKeepsAnswersWith(rows, q.withs[k], st);
      }
    }
  }

  lemma {:induction false} TouchKeepsAnswersWith(rows: seq<Row>, w: With, st: Store)
    requires AnswersWith(rows, w, st)
    ensures AnswersWith(rows, TouchWith(rows, w, st), st)
    decreases w
  {
    if !Skips(rows, w) {
      var asked := Asked(rows, w);
      var again := Asked(rows, TouchWith(rows, w, st));
      AskedTwice(rows, w, st);
      TouchKeepsAnswers(asked, st);
      assert again.withs == Touch(asked, st).withs && Rows(again, st) == Rows(Touch(asked, st), st);
    }
  }

  // The second IN predicate selects the same rows as the first.
  lemma {:induction false} AskedTwice(rows: seq<Row>, w: With, st: Store)
    requires !Skips(rows, w)
    ensures
      var asked, again := Asked(rows, w), Asked(rows, TouchWith(rows, w, st));
      Rows(again, st) == Rows(asked, st) && again.table == asked.table && again.fields == asked.fields
  {
    var asked := Asked(rows, w);
    assert Touch(asked, st).preds == asked.preds && asked.preds[|w.child.preds|] == KeyPred(rows, w.edge);
    SelectAgain(TableRows(st, asked.table), asked.preds, |w.child.preds|);
  }

  lemma {:induction false} SelectAgain(rows: seq<Row>, preds: seq<Pred>, k: nat)
    requires k < |preds|
    ensures Select(rows, preds + [preds[k]]) == Select(rows, preds)
  {
    if rows != [] {
      SelectAgain(rows[1..], preds, k);
      HoldsAppended(preds, preds[k], rows[0]);
    }
  }

  // Both runs of one builder over an unchanged store return the same join, or the first fails.
  method RunTwice(q: QueryObj, st: Store)
    returns (first: Result<seq<Node>, LoadError>, second: Result<seq<Node>, LoadError>, ghost foot: set<Node>)
    requires q.Valid() && Plain(q.View().options) && Sound(q.View().table, q.View().withs, st)
    modifies q.Repr
    ensures first.Success? <==> Answers(old(q.View()), st)
    ensures first.Success? ==> Neighbours(first.value, Rows(old(q.View()), st), Join(old(q.View()), st), foot)
    ensures first.Success? ==>
              second.Success? && Neighbours(second.value, Rows(old(q.View()), st), Join(old(q.View()), st), foot)
  {
    hide Neighbours; hide Sound; hide Answers; hide QueryObj.Valid; hide QueryObj.View;
    ghost var was := q.View();
    first, foot := SqlAll(q, st);
    if first.Failure? { return first, first, {}; }
    SoundAfterTouch(was, st, st);
    TouchKeepsAnswers(was, st);
    ghost var more;
    second, more := SqlAll(q, st);
    RerunIsStable(was, st);
    RowsAfterTouch(was, st, st);
    NeighboursInLarger(first.value, Rows(was, st), Join(was, st), foot, foot + more);
    NeighboursInLarger(second.value, Rows(was, st), Join(was, st), more, foot + more);
    foot := foot + more;
  }

  lemma SoundAfterTouch(q: Query, st1: Store, st: Store)
    requires Sound(q.table, q.withs, st)
    ensures Touch(q, st1).table == q.table && Sound(q.table, Touch(q, st1).withs, st)
  {
    TouchKeepsSound(q.table, Rows(q, st1), q.withs, st1, st);
  }

  // One builder run over a store and, after the store changed, over the changed one. The
  // second run returns the join of the builder the first left behind, which is that of the
  // original builder exactly when all its rows are fresh.
  method RunAgain(q: QueryObj, st1: Store, st2: Store)
    returns (first: Result<seq<Node>, LoadError>, second: Result<seq<Node>, LoadError>, ghost foot: set<Node>)
    requires q.Valid() && Plain(q.View().options)
    requires Sound(q.View().table, q.View().withs, st1) && Sound(q.View().table, q.View().withs, st2)
    modifies q.Repr
    ensures first.Success? <==> Answers(old(q.View()), st1)
    ensures first.Success? ==>
              && (second.Success? <==> Answers(Touch(old(q.View()), st1), st2))
              && (second.Success? ==>
                    Neighbours(second.value, Rows(old(q.View()), st2), Join(Touch(old(q.View()), st1), st2), foot))
    ensures Join(Touch(old(q.View()), st1), st2) == Join(old(q.View()), st2)
       <==> forall r | r in Rows(old(q.View()), st2) ::
              FreshBelow(r, Rows(old(q.View()), st1), old(q.View()).withs, st1, st2)
  {
    hide Neighbours; hide Sound; hide Answers; hide FreshBelow; hide QueryObj.Valid; hide QueryObj.View;
    ghost var was := q.View();
    ReuseIsFreshExactlyWhen(was, st1, st2);
    first, foot := SqlAll(q, st1);
    if first.Failure? { return first, first, {}; }
    SoundAfterTouch(was, st1, st2);
    RowsAfterTouch(was, st1, st2);
    second, foot := SqlAll(q, st2);
  }

  lemma RowsAfterTouch(q: Query, st1: Store, st2: Store)
    ensures Rows(Touch(q, st1), st2) == Rows(q, st2)
  {
  }

  lemma NeighboursInLarger(nbrs: seq<Node>, rows: seq<Row>, ts: seq<Tree>, foot: set<Node>, larger: set<Node>)
    requires Neighbours(nbrs, rows, ts, foot) && foot <= larger
    ensures Neighbours(nbrs, rows, ts, larger)
  {
    forall j | 0 <= j < |nbrs| ensures Shows(nbrs[j], ts[j], larger) {
      ShowsInLarger(nbrs[j], ts[j], foot, larger);
    }
  }

  // ----- A stale key two levels down -----

  const PLAIN := Options([], [], [], None, None, None)

  // One key with one composite row, which belongs to the given group, and two groups.
  function KeyInGroup(group: int): Store {
    Store(
      map["api_keys" := [], "api_key_composite_groups" := ["api_key_id", "group_id"], "groups" := []],
      map["api_keys" := [Row(1, map[])],
          "api_key_composite_groups" := [CompositeRow(group)],
          "groups" := [Row(10, map[]), Row(20, map[])]])
  }

  function CompositeRow(group: int): Row {
    Row(5, map["api_key_id" := Some(1), "group_id" := Some(group)])
  }

  const KEYS := Query("api_keys", [], [], [], PLAIN)
  const COMPOSITES := Query("api_key_composite_groups", [], [], [], PLAIN)
  const GROUPS := Query("groups", [], [], [], PLAIN)

  lemma {:induction false} SelectAll(rows: seq<Row>)
    ensures Select(rows, []) == rows
  {
    if rows != [] { SelectAll(rows[1..]); }
  }

  lemma GroupIsStale()
    ensures !FreshEdge(CompositeRow(20), [CompositeRow(10)], With(GROUP, GROUPS), KeyInGroup(10), KeyInGroup(20))
  {
    var found, w := [CompositeRow(10)], With(GROUP, GROUPS);
    assert Cols(found, GROUP.fk) == [Some(10)];
    var ids := FirstKeys(Cols(found, GROUP.fk));
    assert 10 in ids && 20 !in ids;
    SelectAll(TableRows(KeyInGroup(20), "groups"));
    assert Row(20, map[]) in Rows(GROUPS, KeyInGroup(20));
  }

  // The composite row of a key moved from one group to another between two runs of one
  // builder. The key and the row were asked for in the first run, and the second still misses
  // the group, because the builder of the groups keeps the group of the first.
  lemma StaleGroupIsMissed()
    ensures
      var q := KeysWithGroups(KEYS, COMPOSITES, GROUPS);
      && Sound(q.table, q.withs, KeyInGroup(10)) && Sound(q.table, q.withs, KeyInGroup(20))
      && Join(Touch(q, KeyInGroup(10)), KeyInGroup(20)) != Join(q, KeyInGroup(20))
  {
    hide Join; hide Touch; hide FreshEdge;
    var q := KeysWithGroups(KEYS, COMPOSITES, GROUPS);
    var st1, st2 := KeyInGroup(10), KeyInGroup(20);
    StoreIsSound(10);
    StoreIsSound(20);
    var r, w := Row(1, map[]), q.withs[0];
    SelectAll([r]);
    assert Rows(q, st1) == [r] && Rows(q, st2) == [r];
    RowIsStale(w);
    ReuseIsFreshExactlyWhen(q, st1, st2);
    assert r in Rows(q, st2) && !FreshBelow(r, [r], q.withs, st1, st2);
  }

  // In the first run the composite row of the key is asked for and found.
  lemma CompositeFound(w: With)
    requires w == KeysWithGroups(KEYS, COMPOSITES, GROUPS).withs[0]
    ensures Rows(Asked([Row(1, map[])], w), KeyInGroup(10)) == [CompositeRow(10)]
    ensures Requested(Row(1, map[]), [Row(1, map[])], w.edge)
  {
    var st, r := KeyInGroup(10), Row(1, map[]);
    var asked := Asked([r], w);
    assert RowIds([r]) == [1];
    assert asked.preds == [InValues("api_key_id", [1])];
    assert HoldsAll(asked.preds, CompositeRow(10));
    assert TableRows(st, asked.table) == [CompositeRow(10)];
    assert [CompositeRow(10)][1..] == [];
    assert Select([], asked.preds) == [];
  }

  // In the second run it is there, in its other group.
  lemma CompositeMoved(w: With)
    requires w == KeysWithGroups(KEYS, COMPOSITES, GROUPS).withs[0]
    ensures CompositeRow(20) in Matches(Row(1, map[]), w.edge, Rows(w.child, KeyInGroup(20)))
  {
    SelectAll([CompositeRow(20)]);
    assert Rows(w.child, KeyInGroup(20)) == [CompositeRow(20)];
  }

  lemma RowIsStale(w: With)
    requires w == KeysWithGroups(KEYS, COMPOSITES, GROUPS).withs[0]
    ensures !FreshEdge(Row(1, map[]), [Row(1, map[])], w, KeyInGroup(10), KeyInGroup(20))
  {
    hide Asked; hide Requested; hide FreshBelow; hide Matches; hide Rows; hide KeyInGroup; hide CompositeRow;
    CompositeFound(w);
    CompositeMoved(w);
    StaleBelow(w);
    assert w.edge.kind.O2M?;
  }

  lemma StaleBelow(w: With)
    requires w == KeysWithGroups(KEYS, COMPOSITES, GROUPS).withs[0]
    ensures !FreshBelow(CompositeRow(20), [CompositeRow(10)], w.child.withs, KeyInGroup(10), KeyInGroup(20))
  {
    hide FreshEdge;
    GroupIsStale();
    assert w.child.withs[0] == With(GROUP, GROUPS);
  }

  lemma StoreIsSound(group: int)
    ensures
      var q := KeysWithGroups(KEYS, COMPOSITES, GROUPS);
      Sound(q.table, q.withs, KeyInGroup(group))
  {
    var st, q := KeyInGroup(group), KeysWithGroups(KEYS, COMPOSITES, GROUPS);
    assert Sound("groups", [], st);
    assert SoundWith("api_key_composite_groups", With(GROUP, GROUPS), st);
    assert Sound("api_key_composite_groups", [With(GROUP, GROUPS)], st);
    assert SoundWith("api_keys", q.withs[0], st);
  }
}
