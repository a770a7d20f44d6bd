// APIKeyCreateBulk.Save on objects: mutations and nodes are shared by reference, the slices
// are arrays, and every method is proved to do what BulkSpec's function of the same name says.

module BulkSave {
  import opened Wrappers
  import Spec = BulkSpec

  class Mutation<F, N> {
    var fields: F
    var id: NodeRef?<N>
    var done: bool

    constructor (fields: F)
      ensures this.fields == fields && id == null && !done
    {
      this.fields, id, done := fields, null, false;
    }
  }

  // A created node. A mutation's id is a pointer to its node's ID, so it is a node here.
  class NodeRef<N> {
    var data: N
    var id: int

    constructor (data: N)
      ensures this.data == data && id == 0
    {
      this.data, id := data, 0;
    }
  }

  // One call of Save: the bulk builder with the slices Save makes.
  class CreateBulk<F(!new), N(!new), S(!new)> {
    const env: Spec.Env<F, N, S>
    const pending: Option<Spec.Error>      // the error the bulk builder was created with
    const hooks: Spec.Hooks<F>
    const builders: array<Mutation<F, N>>  // builders[i].mutation
    const nodes: array<NodeRef?<N>>
    const specs: array<Option<Spec.Spec<S>>>
    var calls: seq<seq<S>>
    const pool: seq<Mutation<F, N>>        // every mutation a hook can name
    ghost var heap: seq<NodeRef<N>>        // every node built so far

    constructor (env: Spec.Env<F, N, S>, pending: Option<Spec.Error>, hooks: Spec.Hooks<F>,
                 pool: seq<Mutation<F, N>>, builders: array<Mutation<F, N>>, calls: seq<seq<S>>,
                 ghost start: seq<Spec.Mutation<F>>, ghost cur: seq<nat>)
      requires |hooks| == builders.Length == |cur| && |pool| == |start|
      requires forall a, b | 0 <= a < b < |pool| :: pool[a] != pool[b]
      requires forall a | 0 <= a < |pool| ::
                 && pool[a].fields == start[a].fields && pool[a].done == start[a].done
                 && pool[a].id == null && start[a].id.None?
      requires forall i | 0 <= i < |cur| :: cur[i] < |pool| && builders[i] == pool[cur[i]]
      ensures this.env == env && this.pending == pending && this.hooks == hooks
      ensures this.pool == pool && this.builders == builders && fresh(nodes) && fresh(specs)
      ensures Models(Spec.Initial(start, cur, calls)) && heap == []
    {
      this.env, this.pending, this.hooks := env, pending, hooks;
      this.pool, this.builders, this.calls := pool, builders, calls;
      nodes := new NodeRef?<N>[builders.Length](_ => null);
      specs := new Option<Spec.Spec<S>>[builders.Length](_ => None);
      heap := [];
    }

    ghost predicate Separate()
      reads this
    {
      && builders as object != nodes && builders as object != specs && nodes as object != specs
      && |hooks| == builders.Length == nodes.Length == specs.Length
      && (forall a, b | 0 <= a < b < |pool| :: pool[a] != pool[b])
      && (forall a, b | 0 <= a < b < |heap| :: heap[a] != heap[b])
    }

    // The objects are in state s.
    ghost predicate Models(s: Spec.State<F, N, S>)
      reads this, builders, nodes, specs, pool, heap
    {
      && Separate() && Spec.Valid(s, |hooks|)
      && |pool| == |s.pool| && |heap| == |s.heap| && calls == s.calls && specs[..] == s.specs
      && (forall a | 0 <= a < |pool| ::
            && pool[a].fields == s.pool[a].fields && pool[a].done == s.pool[a].done
            && match s.pool[a].id
               case None => pool[a].id == null
               case Some(k) => k < |heap| && pool[a].id == heap[k])
      && (forall k | 0 <= k < |heap| :: heap[k].data == s.heap[k].data && heap[k].id == s.heap[k].id)
      && (forall i | 0 <= i < |hooks| :: builders[i] == pool[s.cur[i]])
      && (forall i | 0 <= i < |hooks| ::
            match s.nodes[i]
            case None => nodes[i] == null
            case Some(k) => k < |heap| && nodes[i] == heap[k])
    }

    ghost predicate Denotes(m: Mutation?<F, N>, a: Option<nat>)
      reads this
    {
      match a
      case None => m == null
      case Some(k) => k < |pool| && m == pool[k]
    }

    method Mutate(i: nat, l: nat, m: Mutation?<F, N>, ghost a: Option<nat>, ghost s: Spec.State<F, N, S>)
      returns (out: Spec.Outcome, ghost trace: seq<Spec.Event>)
      requires i < |hooks| && l <= |hooks[i]|
      requires Models(s) && Spec.Filled(s, i) && Spec.InPool(a, s) && Denotes(m, a)
      modifies this, builders, nodes, specs, pool, heap
      ensures
        var r := Spec.Mutate(env, hooks, i, l, a, s);
        Models(r.s) && out == r.out && trace == r.trace
      ensures |old(heap)| <= |heap| && old(heap) == heap[..|old(heap)|]
      ensures forall k | |old(heap)| <= k < |heap| :: fresh(heap[k])
      decreases |hooks| - i, |hooks[i]| - l, 1
    {
      if l == |hooks[i]| {
        ghost var t;
        out, t := Core(i, m, a, s);
        trace := [Spec.CoreIn(i)] + t + [Spec.CoreOut(i)];
      } else {
        ghost var t;
        out, t := RunHook(i, l, hooks[i][l], m, a, Spec.Ok, s);
        trace := [Spec.HookIn(i, l)] + t + [Spec.HookOut(i, l)];
      }
    }

    method RunHook(i: nat, l: nat, h: Spec.Hook<F>, m: Mutation?<F, N>, ghost a: Option<nat>, last: Spec.Outcome,
                   ghost s: Spec.State<F, N, S>)
      returns (out: Spec.Outcome, ghost trace: seq<Spec.Event>)
      requires i < |hooks| && l < |hooks[i]|
      requires Models(s) && Spec.Filled(s, i) && Spec.InPool(a, s) && Denotes(m, a)
      modifies this, builders, nodes, specs, pool, heap
      ensures
        var r := Spec.RunHook(env, hooks, i, l, h, a, last, s);
        Models(r.s) && out == r.out && trace == r.trace
      ensures |old(heap)| <= |heap| && old(heap) == heap[..|old(heap)|]
      ensures forall k | |old(heap)| <= k < |heap| :: fresh(heap[k])
      decreases |hooks| - i, |hooks[i]| - l, 0, h, 1
    {
      hide Models; hide Separate; hide Spec.Mutate; hide Spec.Resolve;
      match h
      case Return(result) =>
        out, trace := result(last), [];
      case Branch(test, yes, no) =>
        var taken := TestFields(test, m, a, s);
        out, trace := RunHook(i, l, if taken then yes else no, m, a, last, s);
      case Edit(edit, rest) =>
        EditFields(edit, m, a, s);
        out, trace := RunHook(i, l, rest, m, a, last, s.(pool := Spec.EditPool(edit, a, s.pool)));
      case Next(_, _, _) =>
        out, trace := CallNext(i, l, h, m, a, last, s);
    }

    // A call of next, and what the script does after it.
    method CallNext(i: nat, l: nat, h: Spec.Hook<F>, m: Mutation?<F, N>, ghost a: Option<nat>, last: Spec.Outcome,
                    ghost s: Spec.State<F, N, S>)
      returns (out: Spec.Outcome, ghost trace: seq<Spec.Event>)
      requires i < |hooks| && l < |hooks[i]| && h.Next?
      requires Models(s) && Spec.Filled(s, i) && Spec.InPool(a, s) && Denotes(m, a)
      modifies this, builders, nodes, specs, pool, heap
      ensures
        var r := Spec.RunHook(env, hooks, i, l, h, a, last, s);
        Models(r.s) && out == r.out && trace == r.trace
      ensures |old(heap)| <= |heap| && old(heap) == heap[..|old(heap)|]
      ensures forall k | |old(heap)| <= k < |heap| :: fresh(heap[k])
      decreases |hooks| - i, |hooks[i]| - l, 0, h, 0
    {
      hide Models; hide Separate; hide Spec.Mutate; hide Spec.Resolve;
      ghost var a' := Spec.Resolve(h.arg, a, |s.pool|);
      var m' := Passed(h.arg, m, a, s);
      ghost var r := Spec.Mutate(env, hooks, i, l + 1, a', s);
      ghost var t, t';
      out, t := Mutate(i, l + 1, m', a', s);
      out, t' := RunHook(i, l, if out.Ok? then h.onOk else h.onErr, m, a, out, r.s);
      trace := t + t';
    }

    method EditFields(edit: F -> F, m: Mutation?<F, N>, ghost a: Option<nat>, ghost s: Spec.State<F, N, S>)
      requires Models(s) && Spec.InPool(a, s) && Denotes(m, a)
      modifies pool
      ensures Models(s.(pool := Spec.EditPool(edit, a, s.pool)))
    {
      if m != null { m.fields := edit(m.fields); }
    }

    method TestFields(test: F -> bool, m: Mutation?<F, N>, ghost a: Option<nat>, ghost s: Spec.State<F, N, S>)
      returns (b: bool)
      requires Models(s) && Spec.InPool(a, s) && Denotes(m, a)
      ensures b == Spec.Test(test, a, s.pool)
    {
      b := m != null && test(m.fields);
    }

    // The mutation a hook hands to next.
    method Passed(arg: Spec.Arg, m: Mutation?<F, N>, ghost a: Option<nat>, ghost s: Spec.State<F, N, S>)
      returns (m': Mutation?<F, N>)
      requires Models(s) && Spec.InPool(a, s) && Denotes(m, a)
      ensures
        var a' := Spec.Resolve(arg, a, |s.pool|);
        Spec.Valid(s, |hooks|) && Denotes(m', a') && Spec.InPool(a', s)
    {
      match arg
      case Same => m' := m;
      case Other(k) => m' := if k < |pool| then pool[k] else null;
      case Foreign => m' := null;
    }

    // builders[i].mutation
    method Held(i: nat, ghost s: Spec.State<F, N, S>) returns (m: Mutation<F, N>)
      requires i < |hooks| && Models(s)
      ensures Spec.Valid(s, |hooks|) && Denotes(m, Some(s.cur[i])) && m.fields == s.pool[s.cur[i]].fields
    {
      m := builders[i];
    }

    method Core(i: nat, m: Mutation?<F, N>, ghost a: Option<nat>, ghost s: Spec.State<F, N, S>)
      returns (out: Spec.Outcome, ghost trace: seq<Spec.Event>)
      requires i < |hooks|
      requires Models(s) && Spec.Filled(s, i) && Spec.InPool(a, s) && Denotes(m, a)
      modifies this, builders, nodes, specs, pool, heap
      ensures
        var r := Spec.Core(env, hooks, i, a, s);
        Models(r.s) && out == r.out && trace == r.trace
      ensures |old(heap)| <= |heap| && old(heap) == heap[..|old(heap)|]
      ensures forall k | |old(heap)| <= k < |heap| :: fresh(heap[k])
      decreases |hooks| - i, 0, 0
    {
      hide Models; hide Separate; hide Spec.Build; hide Spec.Publish; hide Spec.Mutate; hide Spec.Batch;
      trace := [];
      if m == null { return Spec.Err(Spec.UnexpectedMutationType), []; }
      var held := Held(i, s);
      var c := env.check(held.fields);
      if c.Err? { return c, []; }
      Build(i, m, a.value, s);
      ghost var s1 := Spec.Build(env, i, a.value, s);
      ghost var r;
      out, trace, r := Below(i + 1, s1);
      if out.Err? { return; }
      Publish(i, m, a.value, r.s);
      out := Spec.Ok;
    }

    // What core i-1 calls: the next builder's mutator, or BatchCreate after the last.
    method Below(i: nat, ghost s: Spec.State<F, N, S>)
      returns (out: Spec.Outcome, ghost trace: seq<Spec.Event>, ghost r: Spec.Run<F, N, S>)
      requires i <= |hooks| && Models(s) && Spec.Filled(s, i)
      modifies this, builders, nodes, specs, pool, heap
      ensures Spec.Valid(s, |hooks|)
      ensures r == if i < |hooks| then Spec.Mutate(env, hooks, i, 0, Some(s.cur[i]), s) else Spec.Batch(env, s)
      ensures Models(r.s) && out == r.out && trace == r.trace
      ensures |old(heap)| <= |heap| && old(heap) == heap[..|old(heap)|]
      ensures forall k | |old(heap)| <= k < |heap| :: fresh(heap[k])
      decreases |hooks| - i, if i < |hooks| then |hooks[i]| else 0, 2
    {
      hide Spec.Mutate; hide Spec.Batch; hide Spec.Grows;
      if i < |hooks| {
        var next := Held(i, s);
        r := Spec.Mutate(env, hooks, i, 0, Some(s.cur[i]), s);
        out, trace := Mutate(i, 0, next, Some(s.cur[i]), s);
      } else {
        r := Spec.Batch(env, s);
        out, trace := Batch(s);
      }
    }

    // The mutation handed to core i becomes its builder's, and slot i gets its node and spec.
    method Build(i: nat, m: Mutation<F, N>, ghost a: nat, ghost s: Spec.State<F, N, S>)
      requires i < |hooks| && Models(s) && Spec.Filled(s, i) && a < |pool| && m == pool[a]
      modifies this`heap, builders, nodes, specs
      ensures Models(Spec.Build(env, i, a, s))
      ensures |heap| == |old(heap)| + 1 && old(heap) == heap[..|old(heap)|] && fresh(heap[|old(heap)|])
    {
      var node := new NodeRef(env.node(m.fields));
      builders[i] := m;
      nodes[i] := node;
      specs[i] := Some(Spec.Spec(env.spec(m.fields), None));
      heap := heap + [node];
    }

    // sqlgraph.BatchCreate over the specs slice.
    method Batch(ghost s: Spec.State<F, N, S>) returns (out: Spec.Outcome, ghost trace: seq<Spec.Event>)
      requires Models(s) && Spec.Filled(s, |hooks|)
      modifies this`calls, specs
      ensures
        var r := Spec.Batch(env, s);
        Models(r.s) && out == r.out && trace == r.trace
    {
      trace := [Spec.BatchCreate];
      var data := Spec.SpecData(specs[..]);
      var answer := env.driver(|calls|, data);
      calls := calls + [data];
      match answer
      case Rejected(constraint) =>
        out := Spec.Err(if constraint then Spec.ConstraintError else Spec.DriverError);
      case Created(ids) =>
        out := Spec.Ok;
        WriteIds(ids);
    }

    method WriteIds(ids: seq<Option<int>>)
      requires forall j | 0 <= j < specs.Length :: specs[j].Some?
      modifies specs
      ensures specs[..] == Spec.AssignIds(old(specs[..]), ids)
    {
      ghost var goal := Spec.AssignIds(specs[..], ids);
      for k := 0 to specs.Length
        invariant forall j | 0 <= j < k :: specs[j] == goal[j]
        invariant forall j | k <= j < specs.Length :: specs[j] == old(specs[j])
      {
        specs[k] := Some(specs[k].value.(id := if k < |ids| then ids[k] else None));
      }
    }

    // The mutation points to the node in slot i and is done; the node takes over the spec's ID.
    method Publish(i: nat, m: Mutation<F, N>, ghost a: nat, ghost s: Spec.State<F, N, S>)
      requires i < |hooks| && Models(s) && s.specs[i].Some? && a < |pool| && m == pool[a]
      modifies m, heap
      ensures Models(Spec.Publish(i, a, s))
    {
      m.id := nodes[i];
      if specs[i].value.id.Some? {
        nodes[i].id := specs[i].value.id.value;
      }
      m.done := true;
    }

    // Save: defaults for every builder, its error dropped, then the chain.
    method Save(ghost start: seq<Spec.Mutation<F>>, ghost cur: seq<nat>) returns (out: Spec.Outcome)
      requires |cur| == |hooks| && forall i | 0 <= i < |cur| :: cur[i] < |start|
      requires Models(Spec.Initial(start, cur, calls)) && heap == []
      modifies this, builders, nodes, specs, pool
      ensures
        var r := Spec.Save(env, pending, hooks, start, cur, old(calls));
        Models(r.s) && out == r.out
    {
      hide Models; hide Separate; hide Spec.WithDefaults; hide Spec.Mutate; hide Spec.Initial;
      if pending.Some? { return Spec.Err(pending.value); }
      AllDefaults(start, cur);
      out := Spec.Ok;
      ghost var s := Spec.Initial(Spec.WithDefaults(env.defaults, cur, 0, start), cur, calls);
      if |hooks| > 0 {
        InitialIs(Spec.WithDefaults(env.defaults, cur, 0, start), cur);
        var first := Held(0, s);
        ghost var t;
        out, t := Mutate(0, 0, first, Some(cur[0]), s);
      }
    }

    lemma InitialIs(now: seq<Spec.Mutation<F>>, cur: seq<nat>)
      requires forall i | 0 <= i < |cur| :: cur[i] < |now|
      ensures
        var s: Spec.State<F, N, S> := Spec.Initial(now, cur, calls);
        s.pool == now && s.cur == cur && s.calls == calls && Spec.Filled(s, 0)
    {
    }

    // The loop over the builders that fills in their defaults.
    method AllDefaults(ghost start: seq<Spec.Mutation<F>>, ghost cur: seq<nat>)
      requires |cur| == |hooks| && forall i | 0 <= i < |cur| :: cur[i] < |start|
      requires Models(Spec.Initial(start, cur, calls))
      modifies pool
      ensures Models(Spec.Initial(Spec.WithDefaults(env.defaults, cur, 0, start), cur, calls))
    {
      hide Models; hide Separate; hide Spec.Initial; hide Spec.WithDefaults;
      ghost var now := start;
      BuildersAre(now, cur);
      for i := 0 to builders.Length
        invariant |now| == |start|
        invariant Spec.WithDefaults(env.defaults, cur, i, now) == Spec.WithDefaults(env.defaults, cur, 0, start)
        invariant Models(Spec.Initial(now, cur, calls))
      {
        Defaults(i, now, cur);
        DefaultsNext(i, now, cur);
        now := now[cur[i] := now[cur[i]].(fields := env.defaults(now[cur[i]].fields).0)];
      }
      DefaultsDone(now, cur);
    }

    lemma DefaultsNext(i: nat, now: seq<Spec.Mutation<F>>, cur: seq<nat>)
      requires i < |cur| && forall j | 0 <= j < |cur| :: cur[j] < |now|
      ensures
        var m := now[cur[i]].(fields := env.defaults(now[cur[i]].fields).0);
        Spec.WithDefaults(env.defaults, cur, i, now) == Spec.WithDefaults(env.defaults, cur, i + 1, now[cur[i] := m])
    {
    }

    lemma DefaultsDone(now: seq<Spec.Mutation<F>>, cur: seq<nat>)
      requires forall j | 0 <= j < |cur| :: cur[j] < |now|
      ensures Spec.WithDefaults(env.defaults, cur, |cur|, now) == now
    {
    }

    lemma BuildersAre(now: seq<Spec.Mutation<F>>, cur: seq<nat>)
      requires |cur| == |hooks| && forall i | 0 <= i < |cur| :: cur[i] < |now|
      requires Models(Spec.Initial(now, cur, calls))
      ensures builders.Length == |hooks|
    {
    }

    // One builder's defaults, whose error is dropped.
    method Defaults(i: nat, ghost now: seq<Spec.Mutation<F>>, ghost cur: seq<nat>)
      requires i < |hooks| == |cur| && forall j | 0 <= j < |cur| :: cur[j] < |now|
      requires Models(Spec.Initial(now, cur, calls))
      modifies pool
      ensures
        var m := now[cur[i]].(fields := env.defaults(now[cur[i]].fields).0);
        Models(Spec.Initial(now[cur[i] := m], cur, calls))
    {
      builders[i].fields := env.defaults(builders[i].fields).0;
    }
  }
}
