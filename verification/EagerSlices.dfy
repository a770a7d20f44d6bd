// Clone against Go's slices: headers that share a buffer, and an append that may write into
// the buffer it was given.

module EagerSlices {
  import opened Wrappers

  // A slice: the first len elements of a buffer whose length is the capacity. Orders,
  // interceptors, predicates and modifiers are known by number.
  datatype Slice = Slice(buf: array<nat>, len: nat)

  predicate Fits(s: Slice) {
    s.len <= s.buf.Length
  }

  ghost function Elems(s: Slice): seq<nat>
    requires Fits(s)
    reads s.buf
  {
    s.buf[..s.len]
  }

  // append(s, xs...). It writes into the buffer of s when that has room, and otherwise moves
  // to a new one, for which the runtime chooses how much room it leaves.
  method Append(s: Slice, xs: seq<nat>, spare: nat) returns (r: Slice)
    requires Fits(s)
    modifies s.buf
    ensures Fits(r) && Elems(r) == old(Elems(s)) + xs
    ensures s.len + |xs| <= s.buf.Length ==> r.buf == s.buf
    ensures s.len + |xs| > s.buf.Length ==> fresh(r.buf) && s.buf[..] == old(s.buf[..])
    ensures Elems(s) == old(Elems(s))
  {
    var buf := s.buf;
    if s.len + |xs| > s.buf.Length {
      buf := new nat[s.len + |xs| + spare](_ => 0);
      for i := 0 to s.len
        invariant buf[..i] == s.buf[..i] && s.buf[..] == old(s.buf[..])
      {
        buf[i] := s.buf[i];
      }
    }
    for i := 0 to |xs|
      invariant buf[..s.len + i] == old(s.buf[..s.len]) + xs[..i]
      invariant buf != s.buf ==> s.buf[..] == old(s.buf[..])
    {
      buf[s.len + i] := xs[i];
    }
    r := Slice(buf, s.len + |xs|);
  }

  // append([]T{}, xs...)
  method Copy(s: Slice, spare: nat) returns (r: Slice)
    requires Fits(s)
    ensures Fits(r) && fresh(r.buf) && Elems(r) == Elems(s)
  {
    var empty := new nat[0];
    r := Append(Slice(empty, 0), s.buf[..s.len], spare);
  }

  // Two appends to one header: the second overwrites the element of the first exactly when
  // the buffer has room. Copying a header does not separate two builders.
  method SharedHeader(s: Slice, x: nat, y: nat, spare: nat) returns (a: Slice, b: Slice)
    requires Fits(s)
    modifies s.buf
    ensures Fits(a) && Fits(b) && Elems(b) == old(Elems(s)) + [y]
    ensures Elems(a) == old(Elems(s)) + [if s.len < s.buf.Length then y else x]
  {
    a := Append(s, [x], spare);
    b := Append(s, [y], spare);
    assert s.len < s.buf.Length ==> a == b;
  }

  // ----- Builders -----

  // The query context: the selected fields and the settings, a value of its own.
  datatype Context = Context(fields: seq<string>, limit: Option<int>, offset: Option<int>, unique: Option<bool>)

  // A builder with its loaded edges as a value.
  datatype Tree = Tree(
    table: string, context: Context, order: seq<nat>, inters: seq<nat>, predicates: seq<nat>, modifiers: seq<nat>,
    edges: seq<string>, withs: seq<Tree>)

  datatype Op = Where(ps: seq<nat>) | Order(os: seq<nat>) | Intercept(is_: seq<nat>) | Set(context: Context)

  function Applied(t: Tree, op: Op): Tree {
    match op
    case Where(ps) => t.(predicates := t.predicates + ps)
    case Order(os) => t.(order := t.order + os)
    case Intercept(is_) => t.(inters := t.inters + is_)
    case Set(context) => t.(context := context)
  }

  // The operation on the builder at the end of a path of eager-loaded edges.
  function AppliedAt(t: Tree, path: seq<nat>, op: Op): Tree
    decreases |path|
  {
    if path == [] then Applied(t, op)
    else if path[0] < |t.withs| then t.(withs := t.withs[path[0] := AppliedAt(t.withs[path[0]], path[1..], op)])
    else t
  }

  // What a clone holds: everything but the modifiers, at every level.
  function Copied(t: Tree): Tree {
    t.(modifiers := [], withs := Copies(t.withs))
  }

  function Copies(ts: seq<Tree>): (r: seq<Tree>)
    ensures |r| == |ts| && forall k | 0 <= k < |ts| :: r[k] == Copied(ts[k])
  {
    if ts == [] then [] else [Copied(ts[0])] + Copies(ts[1..])
  }

  // The builder at the end of a path.
  function At(t: Tree, path: seq<nat>): Option<Tree>
    decreases |path|
  {
    if path == [] then Some(t) else if path[0] < |t.withs| then At(t.withs[path[0]], path[1..]) else None
  }

  // An operation at a path does there what it would do at the root, and changes no builder that
  // is not on the way.
  lemma {:induction false} AppliedOnlyThere(t: Tree, path: seq<nat>, op: Op, other: seq<nat>)
    ensures At(t, path).Some? ==> At(AppliedAt(t, path, op), path) == Some(Applied(At(t, path).value, op))
    ensures At(t, path).None? ==> AppliedAt(t, path, op) == t
    ensures !(other <= path) ==> At(AppliedAt(t, path, op), other) == At(t, other)
    decreases |path|
  {
    if path == [] {
    } else if path[0] < |t.withs| {
      var k := path[0];
      if other != [] {
        assert other <= path <==> other[0] == k && other[1..] <= path[1..] by {
          if other[0] == k && other[1..] <= path[1..] {
            assert other == [k] + other[1..] && path == [k] + path[1..];
          }
        }
        AppliedOnlyThere(t.withs[k], path[1..], op, other[1..]);
      } else {
        AppliedOnlyThere(t.withs[k], path[1..], op, []);
      }
      if At(t, path).None? { SameChildren(t, path, op); }
    }
  }

  lemma {:induction false} SameChildren(t: Tree, path: seq<nat>, op: Op)
    requires path != [] && path[0] < |t.withs|
    requires AppliedAt(t.withs[path[0]], path[1..], op) == t.withs[path[0]]
    ensures AppliedAt(t, path, op) == t
  {
    assert t.withs[path[0] := t.withs[path[0]]] == t.withs;
  }

  // A clone has the same builders at the same paths, with the same contents but the modifiers.
  lemma {:induction false} CopiedEverywhere(t: Tree, path: seq<nat>)
    ensures At(t, path).Some? <==> At(Copied(t), path).Some?
    ensures
      At(t, path).Some? ==>
        var x, y := At(t, path).value, At(Copied(t), path).value;
        && (y.table, y.context, y.order, y.inters, y.predicates, y.edges)
           == (x.table, x.context, x.order, x.inters, x.predicates, x.edges)
        && y.modifiers == [] && |y.withs| == |x.withs|
    decreases |path|
  {
    if path != [] && path[0] < |t.withs| { CopiedEverywhere(t.withs[path[0]], path[1..]); }
  }

  lemma CopiesNext(ts: seq<Tree>, k: nat)
    requires k < |ts|
    ensures Copies(ts)[..k + 1] == Copies(ts)[..k] + [Copied(ts[k])]
  {
    hide Copied; hide Copies;
    TakeNext(Copies(ts), k);
  }

  lemma TakeNext<T>(s: seq<T>, k: nat)
    requires k < |s|
    ensures s[..k + 1] == s[..k] + [s[k]]
  {
  }

  lemma CopiedIs(t: Tree)
    ensures Copied(t) == t.(modifiers := [], withs := Copies(t.withs)[..|t.withs|])
  {
    assert Copies(t.withs)[..|t.withs|] == Copies(t.withs);
  }

  class Builder {
    const table: string
    var context: Context
    var order: Slice
    var inters: Slice
    var predicates: Slice
    var modifiers: seq<nat>
    var edges: seq<string>
    var withs: seq<Builder>
    ghost var Repr: set<object>

    // The builder owns its three buffers and its children's objects.
    ghost predicate Owns()
      reads this
    {
      && {this, order.buf, inters.buf, predicates.buf} <= Repr
      && order.buf != inters.buf && inters.buf != predicates.buf && order.buf != predicates.buf
      && Fits(order) && Fits(inters) && Fits(predicates)
    }

    ghost predicate Shape()
      reads this, Repr
    {
      && Owns()
      && (forall k | 0 <= k < |withs| ::
            && withs[k] in Repr && withs[k].Repr <= Repr
            && withs[k].Repr !! {this, order.buf, inters.buf, predicates.buf})
      && (forall j, k | 0 <= j < k < |withs| :: withs[j].Repr !! withs[k].Repr)
    }

    ghost predicate Valid()
      reads this, Repr
      ensures Valid() ==> this in Repr
      decreases Repr
    {
      Shape() && forall k | 0 <= k < |withs| :: withs[k].Valid()
    }

    ghost function View(): Tree
      requires Valid()
      reads this, Repr
      decreases Repr, |withs| + 1
    {
      Tree(table, context, Elems(order), Elems(inters), Elems(predicates), modifiers, edges, Views(0))
    }

    ghost function Views(k: nat): (ts: seq<Tree>)
      requires Valid() && k <= |withs|
      reads this, Repr
      ensures |ts| == |withs| - k && forall j | 0 <= j < |ts| :: ts[j] == withs[k + j].View()
      decreases Repr, |withs| - k
    {
      if k == |withs| then [] else [withs[k].View()] + Views(k + 1)
    }

    constructor (table: string, context: Context, order: Slice, inters: Slice, predicates: Slice)
      requires Fits(order) && Fits(inters) && Fits(predicates)
      requires order.buf != inters.buf && inters.buf != predicates.buf && order.buf != predicates.buf
      ensures Valid() && Repr == {this, order.buf, inters.buf, predicates.buf}
      ensures View() == Tree(table, context, Elems(order), Elems(inters), Elems(predicates), [], [], [])
    {
      this.table, this.context, edges := table, context, [];
      this.order, this.inters, this.predicates := order, inters, predicates;
      modifiers, withs := [], [];
      Repr := {this, order.buf, inters.buf, predicates.buf};
    }

    lemma Unfold()
      requires Valid()
      ensures Shape() && |View().withs| == |withs|
      ensures forall k | 0 <= k < |withs| :: withs[k].Valid() && withs[k].View() == View().withs[k]
      ensures View() == Tree(table, context, Elems(order), Elems(inters), Elems(predicates), modifiers, edges, View().withs)
    {
    }

    lemma EdgesOf()
      requires Valid()
      ensures View().edges == edges
    {
    }

    lemma Rebuild(ts: seq<Tree>)
      requires Shape() && |ts| == |withs|
      requires forall k | 0 <= k < |withs| :: withs[k].Valid() && withs[k].View() == ts[k]
      ensures Valid()
      ensures View() == Tree(table, context, Elems(order), Elems(inters), Elems(predicates), modifiers, edges, ts)
    {
      assert View().withs == ts;
    }

    method Where(ps: seq<nat>, spare: nat)
      requires Valid()
      modifies this`predicates, this`Repr, predicates.buf
      ensures Valid() && old(Repr) <= Repr && fresh(Repr - old(Repr))
      ensures View() == old(View()).(predicates := old(View()).predicates + ps)
    {
      hide Valid; hide View;
      Unfold();
      ghost var ts := View().withs;
      predicates := Append(predicates, ps, spare);
      Repr := Repr + {predicates.buf};
      Rebuild(ts);
    }

    method Order(os: seq<nat>, spare: nat)
      requires Valid()
      modifies this`order, this`Repr, order.buf
      ensures Valid() && old(Repr) <= Repr && fresh(Repr - old(Repr))
      ensures View() == old(View()).(order := old(View()).order + os)
    {
      hide Valid; hide View;
      Unfold();
      ghost var ts := View().withs;
      order := Append(order, os, spare);
      Repr := Repr + {order.buf};
      Rebuild(ts);
    }

    method Intercept(is_: seq<nat>, spare: nat)
      requires Valid()
      modifies this`inters, this`Repr, inters.buf
      ensures Valid() && old(Repr) <= Repr && fresh(Repr - old(Repr))
      ensures View() == old(View()).(inters := old(View()).inters + is_)
    {
      hide Valid; hide View;
      Unfold();
      ghost var ts := View().withs;
      inters := Append(inters, is_, spare);
      Repr := Repr + {inters.buf};
      Rebuild(ts);
    }

    // Select, Limit, Offset and Unique change the context.
    method Set(context: Context)
      requires Valid()
      modifies this`context
      ensures Valid() && View() == old(View()).(context := context)
    {
      hide Valid; hide View;
      Unfold();
      ghost var ts := View().withs;
      this.context := context;
      Rebuild(ts);
    }

    method Apply(op: Op, spare: nat)
      requires Valid()
      modifies Repr
      ensures Valid() && old(Repr) <= Repr && fresh(Repr - old(Repr))
      ensures View() == Applied(old(View()), op)
    {
      Unfold();
      hide Valid; hide View;
      match op {
        case Where(ps) => Where(ps, spare);
        case Order(os) => Order(os, spare);
        case Intercept(is_) => Intercept(is_, spare);
        case Set(context) => Set(context);
      }
    }

    method ApplyAt(path: seq<nat>, op: Op, spare: nat)
      requires Valid()
      modifies Repr
      ensures Valid() && old(Repr) <= Repr && fresh(Repr - old(Repr))
      ensures View() == AppliedAt(old(View()), path, op)
      decreases |path|
    {
      hide Valid; hide View;
      Unfold();
      if path == [] {
        Apply(op, spare);
      } else if path[0] < |withs| {
        var k := path[0];
        ghost var ts := View().withs;
        withs[k].ApplyAt(path[1..], op, spare);
        Repr := Repr + withs[k].Repr;
        Rebuild(ts[k := withs[k].View()]);
      }
    }

    // The builder's own slices, copied one by one.
    method CloneOwn(spare: nat) returns (c: Builder)
      requires Valid()
      ensures c.Valid() && fresh(c.Repr)
      ensures c.View() == View().(modifiers := [], edges := [], withs := [])
    {
      hide Valid; hide View;
      Unfold();
      var o := Copy(order, spare);
      var i := Copy(inters, spare);
      var p := Copy(predicates, spare);
      c := new Builder(table, context, o, i, p);
    }

    method CloneChild(k: nat, spare: nat) returns (c: Builder)
      requires Valid() && k < |withs|
      ensures c.Valid() && fresh(c.Repr)
      ensures |View().withs| == |withs| && c.View() == Copied(View().withs[k])
      decreases Repr, 0
    {
      hide View; hide Copied;
      Unfold();
      c := withs[k].Clone(spare);
    }

    method Clone(spare: nat) returns (c: Builder)
      requires Valid()
      ensures c.Valid() && fresh(c.Repr) && c.View() == Copied(View())
      decreases Repr, 1
    {
      hide Valid; hide View; hide Copied; hide Shape; hide Copies;
      Unfold();
      ghost var t := View();
      EdgesOf();
      c := CloneOwn(spare);
      for k := 0 to |withs|
        invariant c.Valid() && fresh(c.Repr)
        invariant c.View() == t.(modifiers := [], edges := [], withs := Copies(t.withs)[..k])
      {
        var child := CloneChild(k, spare);
        CopiesNext(t.withs, k);
        c.Attach(child);
      }
      CopiedIs(t);
      c.Name(edges);
    }

    // Which edges the child builders stand for.
    method Name(edges: seq<string>)
      requires Valid()
      modifies this`edges
      ensures Valid() && Repr == old(Repr) && View() == old(View()).(edges := edges)
    {
      hide Valid; hide View;
      Unfold();
      ghost var ts := View().withs;
      this.edges := edges;
      Rebuild(ts);
    }

    method Attach(child: Builder)
      requires Valid() && child.Valid() && child.Repr !! Repr
      modifies this`withs, this`Repr
      ensures Valid() && Repr == old(Repr) + child.Repr
      ensures View() == old(View()).(withs := old(View()).withs + [child.View()])
    {
      hide Valid; hide View;
      Unfold();
      ghost var ts := View().withs;
      withs := withs + [child];
      Repr := Repr + child.Repr;
      Rebuild(ts + [child.View()]);
    }
  }

  // One operation on the original or on its clone.
  datatype Edit = Edit(onClone: bool, path: seq<nat>, op: Op, spare: nat)

  // The edits of one side, in order.
  function Edited(t: Tree, side: bool, edits: seq<Edit>): Tree {
    if edits == [] then t
    else
      var before := Edited(t, side, edits[..|edits| - 1]);
      var e := edits[|edits| - 1];
      if e.onClone == side then AppliedAt(before, e.path, e.op) else before
  }

  // After a clone, operations on either side at any depth, in any order, each leave the other
  // side as it was: both end up as if their own operations were the only ones.
  method CloneThenEdit(q: Builder, room: nat, edits: seq<Edit>) returns (c: Builder)
    requires q.Valid()
    modifies q.Repr
    ensures q.Valid() && c.Valid() && c.Repr !! q.Repr
    ensures q.View() == Edited(old(q.View()), false, edits)
    ensures c.View() == Edited(Copied(old(q.View())), true, edits)
  {
    hide Builder.Valid; hide Builder.View; hide Builder.Shape; hide Copied; hide AppliedAt;
    c := q.Clone(room);
    for i := 0 to |edits|
      invariant q.Valid() && c.Valid() && c.Repr !! q.Repr && fresh(c.Repr) && fresh(q.Repr - old(q.Repr))
      invariant q.View() == Edited(old(q.View()), false, edits[..i])
      invariant c.View() == Edited(Copied(old(q.View())), true, edits[..i])
    {
      assert edits[..i + 1][..i] == edits[..i];
      var e := edits[i];
      if e.onClone { c.ApplyAt(e.path, e.op, e.spare); } else { q.ApplyAt(e.path, e.op, e.spare); }
    }
    assert edits[..|edits|] == edits;
  }
}
