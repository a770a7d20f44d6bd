// Batching and re-execution: asking only for the collected keys changes no edge, and what
// the accumulated IN predicates mean for a builder that is run again.

module EagerRerun {
  import opened Wrappers
  import opened EagerSpec

  lemma UncutRows(q: Query, st: Store)
    requires Uncut(q.options)
    ensures Rows(q, st) == Select(TableRows(st, q.table), q.preds)
  {
    hide Select;
  }

  lemma AskedRows(rows: seq<Row>, w: With, st: Store)
    requires Uncut(w.child.options)
    ensures forall r :: r in Rows(Asked(rows, w), st)
                    <==> r in Rows(w.child, st) && Holds(KeyPred(rows, w.edge), r)
  {
    hide Cut; hide Uncut; hide HoldsAll;
    UncutRows(w.child, st);
    UncutRows(Asked(rows, w), st);
    forall r { HoldsAppended(w.child.preds, KeyPred(rows, w.edge), r); }
  }

  lemma HoldsAppended(preds: seq<Pred>, p: Pred, r: Row)
    ensures HoldsAll(preds + [p], r) <==> HoldsAll(preds, r) && Holds(p, r)
  {
    assert (preds + [p])[|preds|] == p;
    assert forall k | 0 <= k < |preds| :: (preds + [p])[k] == preds[k];
  }

  lemma WithKeyStep(rows: seq<Row>, preds: seq<Pred>, c: string, v: int)
    requires rows != []
    ensures WithKey(Select(rows, preds), c, v)
         == (if HoldsAll(preds, rows[0]) && Col(rows[0], c) == Some(v) then [rows[0]] else [])
            + WithKey(Select(rows[1..], preds), c, v)
  {
    var all, rest := Select(rows, preds), Select(rows[1..], preds);
    if HoldsAll(preds, rows[0]) {
      assert all == [rows[0]] + rest && all[1..] == rest;
    } else {
      assert all == rest;
    }
  }

  lemma {:induction false} WithKeyOfSelect(rows: seq<Row>, preds: seq<Pred>, p: Pred, c: string, v: int)
    requires forall r | Col(r, c) == Some(v) :: Holds(p, r)
    ensures WithKey(Select(rows, preds + [p]), c, v) == WithKey(Select(rows, preds), c, v)
  {
    if rows != [] {
      WithKeyOfSelect(rows[1..], preds, p, c, v);
      HoldsAppended(preds, p, rows[0]);
      WithKeyStep(rows, preds + [p], c, v);
      WithKeyStep(rows, preds, c, v);
    }
  }

  lemma {:induction false} WithKeyNone(rows: seq<Row>, c: string, v: int)
    requires forall r | r in rows :: Col(r, c) != Some(v)
    ensures WithKey(rows, c, v) == []
  {
    if rows != [] { WithKeyNone(rows[1..], c, v); }
  }

  lemma SameId(st: Store, table: string, a: Row, b: Row)
    requires UniqueIds(st, table) && a in TableRows(st, table) && b in TableRows(st, table) && a.id == b.id
    ensures a == b
  {
  }

  // The key under which a parent looks for its targets was asked for.
  predicate Requested(r: Row, rows: seq<Row>, e: Edge) {
    match e.kind
    case M2O => Col(r, e.fk).Some? && Col(r, e.fk).value in FirstKeys(Cols(rows, e.fk))
    case O2M => r.id in RowIds(rows)
  }

  lemma ParentRequested(r: Row, rows: seq<Row>, e: Edge)
    requires r in rows
    ensures Requested(r, rows, e) || (e.kind.M2O? && Col(r, e.fk).None?)
  {
    var i :| 0 <= i < |rows| && rows[i] == r;
    assert Cols(rows, e.fk)[i] == Col(r, e.fk) && RowIds(rows)[i] == r.id;
  }

  // Restricting the target query to the requested keys keeps the matches of every parent
  // that requested its key; every other parent loses all of them.
  lemma {:induction false} BatchingKeepsMatches(r: Row, rows: seq<Row>, w: With, st: Store)
    requires Uncut(w.child.options)
    requires w.edge.kind.M2O? ==> UniqueIds(st, w.child.table)
    ensures Matches(r, w.edge, Rows(Asked(rows, w), st))
         == if Requested(r, rows, w.edge) then Matches(r, w.edge, Rows(w.child, st)) else []
  {
    hide Cut; hide Uncut; hide HoldsAll; hide Select;
    var e := w.edge;
    var found, asked := Rows(w.child, st), Rows(Asked(rows, w), st);
    AskedRows(rows, w, st);
    UncutRows(w.child, st);
    UncutRows(Asked(rows, w), st);
    match e.kind
    case M2O =>
      var key := Col(r, e.fk);
      if key.Some? {
        var a, f := WithId(asked, key.value), WithId(found, key.value);
        if a.Some? && f.Some? { SameId(st, w.child.table, a.value, f.value); }
      }
    case O2M =>
      if Requested(r, rows, e) {
        WithKeyOfSelect(TableRows(st, w.child.table), w.child.preds, KeyPred(rows, e), e.fk, r.id);
      } else {
        WithKeyNone(asked, e.fk, r.id);
      }
  }

  // For the parents of the batch itself nothing is lost: the batched query answers exactly
  // what one query per parent would.
  lemma {:induction false} BatchIsNestedLoop(r: Row, rows: seq<Row>, w: With, st: Store)
    requires r in rows && Uncut(w.child.options)
    requires w.edge.kind.M2O? ==> UniqueIds(st, w.child.table)
    ensures Matches(r, w.edge, Rows(Asked(rows, w), st)) == Matches(r, w.edge, Rows(w.child, st))
  {
    BatchingKeepsMatches(r, rows, w, st);
    ParentRequested(r, rows, w.edge);
  }

  // ----- What the store answers -----

  // A row meets the predicates when every test passes, and the id or the column of every IN
  // predicate is among its values.
  lemma MeetsExactlyWhen(preds: seq<Pred>, r: Row)
    ensures HoldsAll(preds, r)
       <==> forall k | 0 <= k < |preds| ::
              match preds[k]
              case Custom(test) => test(r)
              case IDIn(ids) => r.id in ids
              case InValues(col, ids) => col in r.cols && r.cols[col].Some? && r.cols[col].value in ids
  {
  }

  // The store goes through the rows of the table in order and returns each that meets the
  // predicates where it stands.
  lemma {:induction false} SelectFilters(a: seq<Row>, b: seq<Row>, preds: seq<Pred>)
    ensures Select(a + b, preds) == Select(a, preds) + Select(b, preds)
    ensures forall r :: Select([r], preds) == if HoldsAll(preds, r) then [r] else []
  {
    hide HoldsAll; hide Select;
    SelectNone(preds);
    forall r ensures Select([r], preds) == if HoldsAll(preds, r) then [r] else [] {
      SelectNext([r], preds);
      assert [r][1..] == [];
    }
    if a == [] {
      assert a + b == b;
    } else {
      assert (a + b)[1..] == a[1..] + b;
      SelectFilters(a[1..], b, preds);
      SelectNext(a, preds);
      SelectNext(a + b, preds);
    }
  }

  lemma SelectNone(preds: seq<Pred>)
    ensures Select([], preds) == []
  {
  }

  lemma SelectNext(rows: seq<Row>, preds: seq<Pred>)
    requires rows != []
    ensures Select(rows, preds) == (if HoldsAll(preds, rows[0]) then [rows[0]] else []) + Select(rows[1..], preds)
  {
  }

  lemma {:induction false} WithKeyFilters(a: seq<Row>, b: seq<Row>, c: string, v: int)
    ensures WithKey(a + b, c, v) == WithKey(a, c, v) + WithKey(b, c, v)
    ensures forall r :: WithKey([r], c, v) == if c in r.cols && r.cols[c] == Some(v) then [r] else []
  {
    WithKeyConcat(a, b, c, v);
    forall r ensures WithKey([r], c, v) == if c in r.cols && r.cols[c] == Some(v) then [r] else [] {
      assert [r][1..] == [];
      assert WithKey([], c, v) == [];
    }
  }

  // Keys are asked for in the order in which they first occur.
  lemma {:induction false} FirstKeysInOrder(keys: seq<Option<int>>, i: nat)
    requires i <= |keys|
    ensures FirstKeys(keys[..i]) <= FirstKeys(keys)
    decreases |keys| - i
  {
    if i < |keys| {
      assert keys[..i + 1][..i] == keys[..i];
      FirstKeysInOrder(keys, i + 1);
    } else {
      assert keys[..i] == keys;
    }
  }

  // ----- Limit and offset -----

  // The same query without limit and offset, and one page of it.
  function Whole(q: Query): Query {
    q.(options := q.options.(limit := None, offset := None))
  }

  function Page(q: Query, limit: nat, offset: nat): Query {
    q.(options := q.options.(limit := Some(limit), offset := Some(offset)))
  }

  // Row k of the result is row offset + k of the whole, and there are as many as the limit, if
  // it is positive, or as are left after the offset.
  lemma RowsBetween(q: Query, st: Store)
    ensures
      var rows, all := Rows(q, st), Rows(Whole(q), st);
      var offset, limit := q.options.offset.GetOr(0), q.options.limit.GetOr(0);
      var left := if offset < |all| then |all| - offset else 0;
      && |rows| == (if 0 < limit < left then limit else left)
      && forall k | 0 <= k < |rows| :: offset + k < |all| && rows[k] == all[offset + k]
  {
    hide Select;
    UncutRows(Whole(q), st);
  }

  // The rows of the pages at this offset and after it, one page after another.
  function Pages(q: Query, limit: nat, offset: nat, st: Store): seq<Row>
    requires limit > 0
    decreases |Rows(Whole(q), st)| - offset
  {
    if offset >= |Rows(Whole(q), st)| then []
    else Rows(Page(q, limit, offset), st) + Pages(q, limit, offset + limit, st)
  }

  lemma {:induction false} PagesAfter(q: Query, limit: nat, offset: nat, st: Store)
    requires limit > 0
    ensures
      var all := Rows(Whole(q), st);
      Pages(q, limit, offset, st) == if offset < |all| then all[offset..] else []
    decreases |Rows(Whole(q), st)| - offset
  {
    hide Rows;
    var all := Rows(Whole(q), st);
    if offset < |all| {
      assert Whole(Page(q, limit, offset)) == Whole(q);
      RowsBetween(Page(q, limit, offset), st);
      PagesAfter(q, limit, offset + limit, st);
    }
  }

  // The pages at offsets 0, limit, twice the limit and so on, put together, are all the rows.
  lemma PagesMakeTheWhole(q: Query, limit: nat, st: Store)
    requires limit > 0
    ensures Pages(q, limit, 0, st) == Rows(Whole(q), st)
  {
    PagesAfter(q, limit, 0, st);
  }

  // ----- A limit on the builder of an edge -----

  lemma {:induction false} WithKeyConcat(a: seq<Row>, b: seq<Row>, c: string, v: int)
    ensures WithKey(a + b, c, v) == WithKey(a, c, v) + WithKey(b, c, v)
  {
    if a == [] {
      assert a + b == b;
    } else {
      assert (a + b)[1..] == a[1..] + b;
      WithKeyConcat(a[1..], b, c, v);
    }
  }

  // A limit or an offset on a one-to-many builder cuts the rows of all parents together. A
  // parent keeps its list exactly when none of its rows lie before the offset or behind the
  // limit of the whole batch.
  lemma {:induction false} LimitCutsTheBatch(r: Row, rows: seq<Row>, w: With, st: Store)
    requires w.edge.kind.O2M?
    ensures
      var o := w.child.options;
      var all := Rows(Asked(rows, w.(child := w.child.(options := o.(limit := None, offset := None)))), st);
      var kept := Rows(Asked(rows, w), st);
      Matches(r, w.edge, kept) == Matches(r, w.edge, all)
      <==> WithKey(all[..First(o, |all|)], w.edge.fk, r.id) == [] && WithKey(all[End(o, |all|)..], w.edge.fk, r.id) == []
  {
    hide Select; hide WithKey; hide First; hide End;
    var o, c := w.child.options, w.edge.fk;
    var free := w.(child := w.child.(options := o.(limit := None, offset := None)));
    UncutRows(Asked(rows, free), st);
    var all := Rows(Asked(rows, free), st);
    var i, j := First(o, |all|), End(o, |all|);
    assert Rows(Asked(rows, w), st) == all[i..j];
    assert all == all[..i] + (all[i..j] + all[j..]);
    WithKeyConcat(all[i..j], all[j..], c, r.id);
    WithKeyConcat(all[..i], all[i..j] + all[j..], c, r.id);
    var before, kept, behind := WithKey(all[..i], c, r.id), WithKey(all[i..j], c, r.id), WithKey(all[j..], c, r.id);
    assert WithKey(all, c, r.id) == before + (kept + behind);
    assert |before + (kept + behind)| == |before| + |kept| + |behind|;
    if before == [] && behind == [] { assert before + (kept + behind) == kept; }
  }

  // Two parents with one row each, and a limit of 1 on the builder of the edge: the second
  // parent is left with nothing.
  lemma LimitStarvesTheSecond(w: With, a: Row, b: Row, st: Store)
    requires w.edge.kind.O2M? && w.child.preds == []
    requires w.child.options.limit == Some(1) && w.child.options.offset == None
    requires Col(a, w.edge.fk) == Some(1) && Col(b, w.edge.fk) == Some(2) && TableRows(st, w.child.table) == [a, b]
    ensures
      var parents := [Row(1, map[]), Row(2, map[])];
      && Matches(parents[0], w.edge, Rows(Asked(parents, w), st)) == [a]
      && Matches(parents[1], w.edge, Rows(Asked(parents, w), st)) == []
  {
    hide HoldsAll;
    var parents := [Row(1, map[]), Row(2, map[])];
    var asked := Asked(parents, w);
    assert RowIds(parents) == [1, 2];
    assert asked.preds == [InValues(w.edge.fk, [1, 2])];
    BothHold(asked.preds, a, b);
    var all := [a, b];
    assert all[1..] == [b] && [b][1..] == [];
    assert Select([b], asked.preds) == [b] + Select([], asked.preds);
    assert Select(all, asked.preds) == [a, b];
    assert Rows(asked, st) == [a];
    OneWithKey(a, w.edge.fk);
  }

  lemma OneWithKey(a: Row, c: string)
    requires Col(a, c) == Some(1)
    ensures WithKey([a], c, 1) == [a] && WithKey([a], c, 2) == []
  {
    assert [a][1..] == [];
    assert WithKey([], c, 1) == [] && WithKey([], c, 2) == [];
  }

  lemma BothHold(preds: seq<Pred>, a: Row, b: Row)
    requires |preds| == 1 && Holds(preds[0], a) && Holds(preds[0], b)
    ensures HoldsAll(preds, a) && HoldsAll(preds, b)
  {
  }

  // ----- Running the same builder again on an unchanged store -----

  lemma {:induction false} SameEdgesSameKeys(cols: seq<string>, ws: seq<With>, ws': seq<With>)
    requires |ws| == |ws'| && forall k | 0 <= k < |ws| :: ws[k].edge == ws'[k].edge
    ensures AddKeys(cols, ws) == AddKeys(cols, ws')
    decreases |ws|
  {
    if ws != [] {
      assert ws[0].edge == ws'[0].edge;
      SameEdgesSameKeys(if ws[0].edge.kind.M2O? then AddOnce(cols, ws[0].edge.fk) else cols, ws[1..], ws'[1..]);
    }
  }

  lemma {:induction false} EdgesEqual(r: Row, ws: seq<With>, ws': seq<With>, k: nat, st: Store)
    requires |ws| == |ws'| && k <= |ws|
    requires forall j | k <= j < |ws| :: EdgeOf(r, ws[j], st) == EdgeOf(r, ws'[j], st)
    ensures Edges(r, ws, k, st) == Edges(r, ws', k, st)
    decreases |ws| - k
  {
    if k < |ws| { EdgesEqual(r, ws, ws', k + 1, st); }
  }

  // A row that was loaded through this builder loads the same tree through the builder the
  // run left behind.
  lemma {:induction false} TouchKeepsTree(
    r: Row, rows: seq<Row>, table: string, fields: seq<string>, withs: seq<With>, st: Store)
    requires r in rows && Sound(table, withs, st)
    ensures TreeOf(r, table, fields, TouchWiths(rows, withs, 0, st), st) == TreeOf(r, table, fields, withs, st)
    decreases withs, 1
  {
    var ws := TouchWiths(rows, withs, 0, st);
    SameEdgesSameKeys([ID] + DropId(fields), ws, withs);
    forall j | 0 <= j < |withs| ensures EdgeOf(r, ws[j], st) == EdgeOf(r, withs[j], st) {
      TouchKeepsEdge(r, rows, table, withs[j], st);
    }
    EdgesEqual(r, ws, withs, 0, st);
  }

  lemma {:induction false} TouchKeepsTrees(
    ms: seq<Row>, rows: seq<Row>, table: string, fields: seq<string>, withs: seq<With>, st: Store)
    requires (forall m | m in ms :: m in rows) && Sound(table, withs, st)
    ensures Trees(ms, table, fields, TouchWiths(rows, withs, 0, st), st) == Trees(ms, table, fields, withs, st)
    decreases withs, 2, |ms|
  {
    if ms != [] {
      TouchKeepsTree(ms[0], rows, table, fields, withs, st);
      TouchKeepsTrees(ms[1..], rows, table, fields, withs, st);
    }
  }

  lemma {:induction false} TouchKeepsEdge(r: Row, rows: seq<Row>, table: string, w: With, st: Store)
    requires r in rows && SoundWith(table, w, st)
    ensures EdgeOf(r, TouchWith(rows, w, st), st) == EdgeOf(r, w, st)
    decreases w
  {
    hide Cut; hide Uncut; hide Matches; hide Select; hide FirstKeys; hide UniqueIds;
    if !Skips(rows, w) {
      var asked := Asked(rows, w);
      var found := Rows(asked, st);
      var w' := TouchWith(rows, w, st);
      assert w'.child == Touch(asked, st) && w'.edge == w.edge;
      assert w'.child.table == asked.table && w'.child.preds == asked.preds && w'.child.fields == asked.fields;
      assert Rows(w'.child, st) == found && ChildFields(w') == ChildFields(w);
      var ms := Matches(r, w.edge, found);
      BatchIsNestedLoop(r, rows, w, st);
      if found != [] {
        TouchKeepsTrees(ms, found, w.child.table, ChildFields(w), w.child.withs, st);
      }
    }
  }

  // Running an eager-loading builder twice over an unchanged store gives the same trees,
  // although every run adds IN predicates all over the builder tree.
  lemma {:induction false} RerunIsStable(q: Query, st: Store)
    requires Sound(q.table, q.withs, st)
    ensures Join(Touch(q, st), st) == Join(q, st)
  {
    if Rows(q, st) != [] {
      TouchKeepsTrees(Rows(q, st), Rows(q, st), q.table, q.fields, q.withs, st);
    }
  }

  // ----- Running it again after the store changed -----

  // The edges of a builder whose run over st1 found these rows.
  function Left(found: seq<Row>, withs: seq<With>, st1: Store): (ws: seq<With>)
    ensures |ws| == |withs|
  {
    if found == [] then withs else TouchWiths(found, withs, 0, st1)
  }

  // The first run, over st1, found these rows; the second, over st2, comes to row r. Row r
  // loads along w what a builder that was never run would load: the first run had not got
  // as far as w's builder, or there is nothing to load, or it had asked for the key of r, and
  // then the same holds for every row loaded and the builders below.
  predicate FreshEdge(r: Row, found: seq<Row>, w: With, st1: Store, st2: Store)
    decreases w
  {
    Skips(found, w) ||
    var ms := Matches(r, w.edge, Rows(w.child, st2));
    && (ms == [] || Requested(r, found, w.edge))
    && forall m | m in ms :: FreshBelow(m, Rows(Asked(found, w), st1), w.child.withs, st1, st2)
  }

  predicate FreshBelow(r: Row, found: seq<Row>, withs: seq<With>, st1: Store, st2: Store)
    decreases withs, 1
  {
    found == [] || forall k | 0 <= k < |withs| :: FreshEdge(r, found, withs[k], st1, st2)
  }

  lemma {:induction false} EdgesAt(r: Row, ws: seq<With>, k: nat, st: Store, j: nat)
    requires k <= j < |ws|
    ensures Edges(r, ws, k, st)[j - k] == EdgeOf(r, ws[j], st)
    decreases |ws| - k
  {
    if j > k { EdgesAt(r, ws, k + 1, st, j); }
  }

  lemma {:induction false} SameTree(r: Row, table: string, fields: seq<string>, ws: seq<With>, ws': seq<With>, st: Store)
    requires |ws| == |ws'| && forall k | 0 <= k < |ws| :: ws[k].edge == ws'[k].edge
    ensures TreeOf(r, table, fields, ws', st) == TreeOf(r, table, fields, ws, st)
       <==> forall k | 0 <= k < |ws| :: EdgeOf(r, ws'[k], st) == EdgeOf(r, ws[k], st)
  {
    hide EdgeOf;
    SameEdgesSameKeys([ID] + DropId(fields), ws', ws);
    if forall k | 0 <= k < |ws| :: EdgeOf(r, ws'[k], st) == EdgeOf(r, ws[k], st) {
      EdgesEqual(r, ws', ws, 0, st);
    } else {
      var k :| 0 <= k < |ws| && EdgeOf(r, ws'[k], st) != EdgeOf(r, ws[k], st);
      EdgesAt(r, ws, 0, st, k);
      EdgesAt(r, ws', 0, st, k);
      assert Edges(r, ws, 0, st)[k - 0] != Edges(r, ws', 0, st)[k - 0];
    }
  }

  lemma {:induction false} SameTrees(ms: seq<Row>, table: string, fields: seq<string>, ws: seq<With>, ws': seq<With>, st: Store)
    ensures Trees(ms, table, fields, ws', st) == Trees(ms, table, fields, ws, st)
       <==> forall m | m in ms :: TreeOf(m, table, fields, ws', st) == TreeOf(m, table, fields, ws, st)
    decreases |ms|
  {
    hide TreeOf;
    if ms != [] {
      SameTrees(ms[1..], table, fields, ws, ws', st);
      var a, b := Trees(ms, table, fields, ws', st), Trees(ms, table, fields, ws, st);
      assert a[0] == TreeOf(ms[0], table, fields, ws', st) && a[1..] == Trees(ms[1..], table, fields, ws', st);
      assert b[0] == TreeOf(ms[0], table, fields, ws, st) && b[1..] == Trees(ms[1..], table, fields, ws, st);
      assert a == [a[0]] + a[1..] && b == [b[0]] + b[1..];
      if a == b {
        forall m | m in ms ensures TreeOf(m, table, fields, ws', st) == TreeOf(m, table, fields, ws, st) {
          assert m == ms[0] || m in ms[1..];
        }
      } else if a[0] == b[0] {
        var m :| m in ms[1..] && TreeOf(m, table, fields, ws', st) != TreeOf(m, table, fields, ws, st);
        assert m in ms;
      } else {
        assert ms[0] in ms;
      }
    }
  }

  // A row loads the same tree through the builders left behind exactly when it is fresh.
  lemma {:induction false} FreshTreeExactlyWhen(
    r: Row, found: seq<Row>, table: string, fields: seq<string>, withs: seq<With>, st1: Store, st2: Store)
    requires Sound(table, withs, st2)
    ensures TreeOf(r, table, fields, Left(found, withs, st1), st2) == TreeOf(r, table, fields, withs, st2)
       <==> FreshBelow(r, found, withs, st1, st2)
    decreases withs, 1
  {
    hide TreeOf; hide EdgeOf; hide FreshEdge;
    if found != [] {
      var ws := Left(found, withs, st1);
      forall k | 0 <= k < |withs|
        ensures ws[k].edge == withs[k].edge
        ensures EdgeOf(r, ws[k], st2) == EdgeOf(r, withs[k], st2) <==> FreshEdge(r, found, withs[k], st1, st2)
      {
        assert SoundWith(table, withs[k], st2);
        FreshEdgeExactlyWhen(r, found, table, withs[k], st1, st2);
      }
      SameTree(r, table, fields, withs, ws, st2);
    }
  }

  lemma {:induction false} FreshEdgeExactlyWhen(
    r: Row, found: seq<Row>, table: string, w: With, st1: Store, st2: Store)
    requires SoundWith(table, w, st2)
    ensures TouchWith(found, w, st1).edge == w.edge
    ensures EdgeOf(r, TouchWith(found, w, st1), st2) == EdgeOf(r, w, st2) <==> FreshEdge(r, found, w, st1, st2)
    decreases w
  {
    hide TreeOf; hide FreshBelow; hide Trees; hide Matches; hide Requested;
    if !Skips(found, w) {
      var asked, w' := Asked(found, w), TouchWith(found, w, st1);
      var below := Rows(asked, st1);
      assert w' == With(w.edge, Touch(asked, st1));
      assert w'.child.withs == Left(below, w.child.withs, st1);
      assert w'.child.table == w.child.table && w'.child.preds == asked.preds && ChildFields(w') == ChildFields(w);
      assert Rows(w'.child, st2) == Rows(asked, st2);
      BatchingKeepsMatches(r, found, w, st2);
      var ms := Matches(r, w.edge, Rows(w.child, st2));
      var ms' := Matches(r, w.edge, Rows(asked, st2));
      forall m | m in ms
        ensures TreeOf(m, w.child.table, ChildFields(w), w'.child.withs, st2)
             == TreeOf(m, w.child.table, ChildFields(w), w.child.withs, st2)
           <==> FreshBelow(m, below, w.child.withs, st1, st2)
      {
        FreshTreeExactlyWhen(m, below, w.child.table, ChildFields(w), w.child.withs, st1, st2);
      }
      SameTrees(ms, w.child.table, ChildFields(w), w.child.withs, w'.child.withs, st2);
      SameLoaded(r, w.edge, ms, ms', w.child.table, ChildFields(w), w.child.withs, w'.child.withs, st2);
      EdgeShows(r, w.edge, Rows(w.child, st2), w.child.table, ChildFields(w), w.child.withs, st2);
      EdgeShows(r, w.edge, Rows(asked, st2), w.child.table, ChildFields(w), w'.child.withs, st2);
    }
  }

  // What an edge holds for the given targets.
  function Holding(e: Edge, ts: seq<Tree>): Loaded {
    match e.kind
    case M2O => One(e.name, if ts == [] then None else Some(ts[0]))
    case O2M => Many(e.name, ts)
  }

  lemma EdgeShows(r: Row, e: Edge, found: seq<Row>, table: string, fields: seq<string>, withs: seq<With>, st: Store)
    ensures EdgeFrom(r, e, found, table, fields, withs, st)
         == Holding(e, Trees(Matches(r, e, found), table, fields, withs, st))
  {
  }

  lemma SameLoaded(r: Row, e: Edge, ms: seq<Row>, ms': seq<Row>, table: string, fields: seq<string>,
                   ws: seq<With>, ws': seq<With>, st: Store)
    requires ms' == ms || ms' == []
    requires e.kind.M2O? ==> |ms| <= 1
    ensures Holding(e, Trees(ms', table, fields, ws', st)) == Holding(e, Trees(ms, table, fields, ws, st))
       <==> ms' == ms && Trees(ms, table, fields, ws', st) == Trees(ms, table, fields, ws, st)
  {
    hide Trees;
  }

  // A builder that ran over one store and runs again over another finds what a builder that
  // never ran would find exactly when every row of the second run is fresh.
  lemma {:induction false} ReuseIsFreshExactlyWhen(q: Query, st1: Store, st2: Store)
    requires Sound(q.table, q.withs, st2)
    ensures Join(Touch(q, st1), st2) == Join(q, st2)
       <==> forall r | r in Rows(q, st2) :: FreshBelow(r, Rows(q, st1), q.withs, st1, st2)
  {
    hide TreeOf; hide Trees; hide FreshBelow;
    var rows, found := Rows(q, st2), Rows(q, st1);
    var ws := Left(found, q.withs, st1);
    assert Touch(q, st1).withs == ws && Rows(Touch(q, st1), st2) == rows;
    SameTrees(rows, q.table, q.fields, q.withs, ws, st2);
    forall r | r in rows
      ensures TreeOf(r, q.table, q.fields, ws, st2) == TreeOf(r, q.table, q.fields, q.withs, st2)
         <==> FreshBelow(r, found, q.withs, st1, st2)
    {
      FreshTreeExactlyWhen(r, found, q.table, q.fields, q.withs, st1, st2);
    }
  }
}
