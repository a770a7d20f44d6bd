// The mutator chain of APIKeyCreateBulk.Save as functions over an explicit state.
//
// The closures the Go code builds are defunctionalised: mutator (i, l) is hook l of
// builder i, mutator (i, |hooks[i]|) is the core of builder i, and a hook is a script
// that says what it does with the mutation and with `next`.

module BulkSpec {
  import opened Wrappers

  datatype Error =
    | UnexpectedMutationType
    | ValidationError(name: string)
    | UninitializedDefault(name: string)
    | ConstraintError
    | DriverError
    | HookError(code: int)

  datatype Outcome = Ok | Err(error: Error)

  // What a hook passes to `next`: the mutation it was given, another mutation of the
  // same type, or a mutation of some other entity type.
  datatype Arg = Same | Other(m: nat) | Foreign

  // The body of one hook. `Return` computes the hook's result from the outcome of the
  // last call it made to `next` (Ok when it made none), so it can propagate, wrap,
  // swallow or invent errors. The value returned besides the error is dropped by every
  // caller in Save and is not modelled.
  datatype Hook<!F> =
    | Return(result: Outcome -> Outcome)
    | Branch(test: F -> bool, yes: Hook<F>, no: Hook<F>)
    | Edit(edit: F -> F, rest: Hook<F>)
    | Next(arg: Arg, onOk: Hook<F>, onErr: Hook<F>)

  datatype BatchResult = Created(ids: seq<Option<int>>) | Rejected(constraint: bool)

  // What the chain is parameterised by. `driver` answers the k-th BatchCreate.
  datatype Env<!F, !N, !S> = Env(
    defaults: F -> (F, Outcome),
    check: F -> Outcome,
    node: F -> N,
    spec: F -> S,
    driver: (nat, seq<S>) -> BatchResult)

  datatype Mutation<F> = Mutation(fields: F, id: Option<nat>, done: bool)
  datatype Node<N> = Node(data: N, id: int)
  datatype Spec<S> = Spec(data: S, id: Option<int>)

  // pool: every mutation object; cur[i]: the object builders[i].mutation points to;
  // heap: every node allocated so far; nodes[i], specs[i]: the slots of Save's slices,
  // None being nil; calls: the spec lists BatchCreate was called with.
  datatype State<F, N, S> = State(
    pool: seq<Mutation<F>>,
    cur: seq<nat>,
    heap: seq<Node<N>>,
    nodes: seq<Option<nat>>,
    specs: seq<Option<Spec<S>>>,
    calls: seq<seq<S>>)

  datatype Event =
    | HookIn(i: nat, l: nat)
    | HookOut(i: nat, l: nat)
    | CoreIn(i: nat)
    | CoreOut(i: nat)
    | BatchCreate

  datatype Run<F, N, S> = Run(s: State<F, N, S>, out: Outcome, trace: seq<Event>)

  type Hooks<!F> = seq<seq<Hook<F>>>

  // A slot of nodes is filled together with the same slot of specs.
  ghost predicate Valid<F, N, S>(s: State<F, N, S>, n: nat) {
    && |s.cur| == |s.nodes| == |s.specs| == n
    && (forall i | 0 <= i < n :: s.cur[i] < |s.pool|)
    && (forall i | 0 <= i < n :: s.specs[i].Some? ==> s.nodes[i].Some? && s.nodes[i].value < |s.heap|)
  }

  // Slots before i are filled: core i is only ever reached through the cores before it.
  ghost predicate Filled<F, N, S>(s: State<F, N, S>, i: nat) {
    i <= |s.specs| && forall j | 0 <= j < i :: s.specs[j].Some?
  }

  ghost predicate InPool<F, N, S>(m: Option<nat>, s: State<F, N, S>) {
    m.Some? ==> m.value < |s.pool|
  }

  // Nothing is freed and no filled slot is emptied.
  ghost predicate Grows<F, N, S>(s: State<F, N, S>, t: State<F, N, S>) {
    && |t.pool| == |s.pool| && |s.heap| <= |t.heap| && |t.specs| == |s.specs|
    && forall j | 0 <= j < |s.specs| :: s.specs[j].Some? ==> t.specs[j].Some?
  }

  function Resolve(arg: Arg, m: Option<nat>, size: nat): (r: Option<nat>)
  {
    match arg
    case Same => m
    case Other(a) => if a < size then Some(a) else None
    case Foreign => None
  }

  // The fields a hook sees. A foreign mutation has none.
  predicate Test<F>(test: F -> bool, m: Option<nat>, pool: seq<Mutation<F>>)
    requires m.Some? ==> m.value < |pool|
  {
    m.Some? && test(pool[m.value].fields)
  }

  function EditPool<F>(edit: F -> F, m: Option<nat>, pool: seq<Mutation<F>>): (r: seq<Mutation<F>>)
    requires m.Some? ==> m.value < |pool|
    ensures |r| == |pool|
  {
    if m.None? then pool
    else pool[m.value := pool[m.value].(fields := edit(pool[m.value].fields))]
  }

  // mutators[i] seen from hook level l, called with mutation m (None: a foreign one).
  function Mutate<F, N, S>(env: Env<F, N, S>, hooks: Hooks<F>, i: nat, l: nat, m: Option<nat>,
                           s: State<F, N, S>): (r: Run<F, N, S>)
    requires i < |hooks| && l <= |hooks[i]|
    requires Valid(s, |hooks|) && Filled(s, i) && InPool(m, s)
    ensures Valid(r.s, |hooks|) && Grows(s, r.s)
    decreases |hooks| - i, |hooks[i]| - l, 1
  {
    if l == |hooks[i]| then
      var r := Core(env, hooks, i, m, s);
      Run(r.s, r.out, [CoreIn(i)] + r.trace + [CoreOut(i)])
    else
      var r := RunHook(env, hooks, i, l, hooks[i][l], m, Ok, s);
      Run(r.s, r.out, [HookIn(i, l)] + r.trace + [HookOut(i, l)])
  }

  // Hook l of builder i, with script h still to run and `last` the outcome of its last
  // call to next.
  function RunHook<F, N, S>(env: Env<F, N, S>, hooks: Hooks<F>, i: nat, l: nat, h: Hook<F>,
                            m: Option<nat>, last: Outcome, s: State<F, N, S>): (r: Run<F, N, S>)
    requires i < |hooks| && l < |hooks[i]|
    requires Valid(s, |hooks|) && Filled(s, i) && InPool(m, s)
    ensures Valid(r.s, |hooks|) && Grows(s, r.s)
    decreases |hooks| - i, |hooks[i]| - l, 0, h
  {
    match h
    case Return(result) => Run(s, result(last), [])
    case Branch(test, yes, no) =>
      RunHook(env, hooks, i, l, if Test(test, m, s.pool) then yes else no, m, last, s)
    case Edit(edit, rest) =>
      RunHook(env, hooks, i, l, rest, m, last, s.(pool := EditPool(edit, m, s.pool)))
    case Next(arg, onOk, onErr) =>
      var r := Mutate(env, hooks, i, l + 1, Resolve(arg, m, |s.pool|), s);
      var r' := RunHook(env, hooks, i, l, if r.out.Ok? then onOk else onErr, m, r.out, r.s);
      Run(r'.s, r'.out, r.trace + r'.trace)
  }

  // The closure of builder i that the hooks wrap. The check is made on the mutation the
  // builder holds, before the mutation it was called with replaces it.
  function Core<F, N, S>(env: Env<F, N, S>, hooks: Hooks<F>, i: nat, m: Option<nat>,
                         s: State<F, N, S>): (r: Run<F, N, S>)
    requires i < |hooks|
    requires Valid(s, |hooks|) && Filled(s, i) && InPool(m, s)
    ensures Valid(r.s, |hooks|) && Grows(s, r.s)
    decreases |hooks| - i, 0, 0
  {
    if m.None? then Run(s, Err(UnexpectedMutationType), [])
    else
      var c := env.check(s.pool[s.cur[i]].fields);
      if c.Err? then Run(s, c, [])
      else
        var s1 := Build(env, i, m.value, s);
        var r :=
          if i < |hooks| - 1 then Mutate(env, hooks, i + 1, 0, Some(s1.cur[i + 1]), s1)
          else Batch(env, s1);
        if r.out.Err? then r
        else Run(Publish(i, m.value, r.s), Ok, r.trace)
  }

  // The core makes the mutation it was handed its builder's own, and fills its two slots with
  // a new node and spec made from it.
  function Build<F, N, S>(env: Env<F, N, S>, i: nat, m: nat, s: State<F, N, S>): (t: State<F, N, S>)
    requires Valid(s, |s.cur|) && i < |s.cur| && m < |s.pool| && Filled(s, i)
    ensures Valid(t, |s.cur|) && Filled(t, i + 1) && Grows(s, t)
    ensures m == s.cur[i] ==> t.cur == s.cur
  {
    var f := s.pool[m].fields;
    s.(cur := s.cur[i := m],
       heap := s.heap + [Node(env.node(f), 0)],
       nodes := s.nodes[i := Some(|s.heap|)],
       specs := s.specs[i := Some(Spec(env.spec(f), None))])
  }

  function SpecData<S>(specs: seq<Option<Spec<S>>>): (r: seq<S>)
    requires forall j | 0 <= j < |specs| :: specs[j].Some?
    ensures |r| == |specs|
    ensures forall j | 0 <= j < |specs| :: r[j] == specs[j].value.data
  {
    seq(|specs|, j requires 0 <= j < |specs| => specs[j].value.data)
  }

  function AssignIds<S>(specs: seq<Option<Spec<S>>>, ids: seq<Option<int>>): (r: seq<Option<Spec<S>>>)
    requires forall j | 0 <= j < |specs| :: specs[j].Some?
    ensures |r| == |specs|
    ensures forall j | 0 <= j < |specs| ::
              r[j] == Some(Spec(specs[j].value.data, if j < |ids| then ids[j] else None))
  {
    seq(|specs|, j requires 0 <= j < |specs| => Some(Spec(specs[j].value.data, if j < |ids| then ids[j] else None)))
  }

  // sqlgraph.BatchCreate: either fails or writes the ID of every spec.
  function Batch<F, N, S>(env: Env<F, N, S>, s: State<F, N, S>): (r: Run<F, N, S>)
    requires Valid(s, |s.cur|) && Filled(s, |s.cur|)
    ensures Valid(r.s, |s.cur|) && Grows(s, r.s)
    ensures r.s.pool == s.pool && r.s.heap == s.heap
  {
    var data := SpecData(s.specs);
    var called := s.(calls := s.calls + [data]);
    match env.driver(|s.calls|, data)
    case Rejected(constraint) =>
      Run(called, Err(if constraint then ConstraintError else DriverError), [BatchCreate])
    case Created(ids) =>
      Run(called.(specs := AssignIds(s.specs, ids)), Ok, [BatchCreate])
  }

  // The mutation points to its node and is done; the node takes over the spec's ID, if any.
  function Publish<F, N, S>(i: nat, m: nat, s: State<F, N, S>): (t: State<F, N, S>)
    requires Valid(s, |s.cur|) && m < |s.pool| && i < |s.cur| && s.specs[i].Some?
    ensures Valid(t, |s.cur|) && Grows(s, t)
    ensures t.nodes == s.nodes && t.specs == s.specs && t.calls == s.calls && t.cur == s.cur
    ensures |t.heap| == |s.heap| && |t.pool| == |s.pool|
  {
    var node := s.nodes[i].value;
    var heap := match s.specs[i].value.id
      case Some(id) => s.heap[node := s.heap[node].(id := id)]
      case None => s.heap;
    s.(pool := s.pool[m := s.pool[m].(id := Some(node), done := true)], heap := heap)
  }

  // The chain as Save starts it, at mutators[0] with the first builder's mutation.
  function Chain<F, N, S>(env: Env<F, N, S>, hooks: Hooks<F>, s: State<F, N, S>): (r: Run<F, N, S>)
    requires Valid(s, |hooks|)
    ensures Valid(r.s, |hooks|)
  {
    if |hooks| == 0 then Run(s, Ok, []) else Mutate(env, hooks, 0, 0, Some(s.cur[0]), s)
  }

  // builder.defaults() for the builders from k on. The error it returns is dropped.
  function WithDefaults<F>(defaults: F -> (F, Outcome), cur: seq<nat>, k: nat,
                           pool: seq<Mutation<F>>): (r: seq<Mutation<F>>)
    requires k <= |cur| && forall i | 0 <= i < |cur| :: cur[i] < |pool|
    ensures |r| == |pool|
    ensures forall a | 0 <= a < |pool| :: r[a].id == pool[a].id && r[a].done == pool[a].done
    decreases |cur| - k
  {
    if k == |cur| then pool
    else
      var m := cur[k];
      WithDefaults(defaults, cur, k + 1, pool[m := pool[m].(fields := defaults(pool[m].fields).0)])
  }

  // The state in which Save runs: builders pointing into the pool, fresh empty slices.
  function Initial<F, N, S>(pool: seq<Mutation<F>>, cur: seq<nat>, calls: seq<seq<S>>): (s: State<F, N, S>)
    requires forall i | 0 <= i < |cur| :: cur[i] < |pool|
    ensures Valid(s, |cur|)
  {
    State(pool, cur, [], seq(|cur|, _ => None), seq(|cur|, _ => None), calls)
  }

  // APIKeyCreateBulk.Save. `pending` is the error the bulk builder was created with.
  function Save<F, N, S>(env: Env<F, N, S>, pending: Option<Error>, hooks: Hooks<F>,
                         pool: seq<Mutation<F>>, cur: seq<nat>, calls: seq<seq<S>>): (r: Run<F, N, S>)
    requires |hooks| == |cur| && forall i | 0 <= i < |cur| :: cur[i] < |pool|
  {
    if pending.Some? then Run(Initial(pool, cur, calls), Err(pending.value), [])
    else Chain(env, hooks, Initial(WithDefaults(env.defaults, cur, 0, pool), cur, calls))
  }
}
