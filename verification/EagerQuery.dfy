// Query builders as the loaders use them: a tree of objects, changed in place.

module EagerQuery {
  import opened Wrappers
  import opened EagerSpec

  datatype Child = Child(edge: Edge, query: QueryObj)

  class QueryObj {
    const table: string
    var fields: seq<string>
    var preds: seq<Pred>
    var options: Options
    var withs: seq<Child>
    ghost var Repr: set<QueryObj>

    // The builder and its children form a tree.
    ghost predicate Shape()
      reads this, Repr
    {
      && this in Repr
      && (forall k | 0 <= k < |withs| ::
            withs[k].query in Repr && withs[k].query.Repr <= Repr && this !in withs[k].query.Repr)
      && (forall j, k | 0 <= j < k < |withs| :: withs[j].query.Repr !! withs[k].query.Repr)
    }

    ghost predicate Valid()
      reads this, Repr
      ensures Valid() ==> this in Repr
      decreases Repr
    {
      Shape() && forall k | 0 <= k < |withs| :: withs[k].query.Valid()
    }

    // The builder as a value.
    ghost function View(): Query
      requires Valid()
      reads this, Repr
      decreases Repr, |withs| + 1
    {
      Query(table, fields, preds, ViewWiths(0), options)
    }

    ghost function ViewWiths(k: nat): (ws: seq<With>)
      requires Valid() && k <= |withs|
      reads this, Repr
      ensures |ws| == |withs| - k
      ensures forall j | 0 <= j < |ws| :: ws[j] == With(withs[k + j].edge, withs[k + j].query.View())
      decreases Repr, |withs| - k
    {
      if k == |withs| then []
      else [With(withs[k].edge, withs[k].query.View())] + ViewWiths(k + 1)
    }

    constructor (table: string, fields: seq<string>, preds: seq<Pred>, options: Options)
      ensures Valid() && fresh(Repr)
      ensures View() == Query(table, fields, preds, [], options)
    {
      this.table, this.fields, this.preds, this.options := table, fields, preds, options;
      withs, Repr := [], {this};
    }

    method Where(p: Pred)
      requires Valid()
      modifies this`preds
      ensures Valid()
      ensures View() == old(View()).(preds := old(preds) + [p])
    {
      preds := preds + [p];
    }

    // ctx.AppendFieldOnce
    method AppendFieldOnce(c: string)
      requires Valid()
      modifies this`fields
      ensures Valid()
      ensures View() == old(View()).(fields := AddOnce(old(fields), c))
    {
      if c !in fields { fields := fields + [c]; }
    }

    // WithUser and its like: a builder of its own behind an edge.
    method Attach(e: Edge, child: QueryObj)
      requires Valid() && child.Valid() && child.Repr !! Repr
      modifies this`withs, this`Repr
      ensures Valid() && Repr == old(Repr) + child.Repr
      ensures withs == old(withs) + [Child(e, child)]
      ensures View() == old(View()).(withs := old(View()).withs + [With(e, child.View())])
      ensures forall j | 0 <= j < |old(withs)| :: withs[j].query.View() == old(withs[j].query.View())
    {
      hide Valid; hide View;
      Unfold();
      ghost var ws := View().withs;
      withs := withs + [Child(e, child)];
      Repr := Repr + child.Repr;
      Rebuild(ws + [With(e, child.View())]);
    }

    lemma Unfold()
      requires Valid()
      ensures Shape() && |View().withs| == |withs|
      ensures forall k | 0 <= k < |withs| ::
                withs[k].query.Valid() && View().withs[k] == With(withs[k].edge, withs[k].query.View())
      ensures View() == Query(table, fields, preds, View().withs, options)
    {
    }

    lemma Rebuild(ws: seq<With>)
      requires Shape() && |ws| == |withs|
      requires forall k | 0 <= k < |withs| ::
                 withs[k].query.Valid() && ws[k] == With(withs[k].edge, withs[k].query.View())
      ensures Valid() && View() == Query(table, fields, preds, ws, options)
    {
      assert View().withs == ws;
    }
  }
}
