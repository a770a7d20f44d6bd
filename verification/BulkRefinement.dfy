// What the mutator chain computes when hooks are disciplined, that is call `next` exactly
// once and pass its error on. A disciplined hook may hand `next` any mutation, and it may
// turn the success of `next` into an error of its own.
//
// The chain of callbacks is then a two-phase loop: one pass down that edits, checks and
// builds every builder in order and ends in at most one BatchCreate, and one pass up over
// the frames left behind. The whole state, the outcome and the trace agree.

module BulkRefinement {
  import opened Wrappers
  import opened BulkSpec

  // A script that runs after `next` returned: no further call, and after an error an error.
  ghost predicate Tail<F(!new)>(h: Hook<F>, ok: bool) {
    match h
    case Return(result) => ok || forall e :: result(Err(e)).Err?
    case Branch(_, yes, no) => Tail(yes, ok) && Tail(no, ok)
    case Edit(_, rest) => Tail(rest, ok)
    case Next(_, _, _) => false
  }

  ghost predicate Disciplined<F(!new)>(h: Hook<F>) {
    match h
    case Return(_) => false
    case Branch(_, yes, no) => Disciplined(yes) && Disciplined(no)
    case Edit(_, rest) => Disciplined(rest)
    case Next(_, onOk, onErr) => Tail(onOk, true) && Tail(onErr, false)
  }

  ghost predicate AllDisciplined<F(!new)>(hooks: Hooks<F>) {
    forall i, l | 0 <= i < |hooks| && 0 <= l < |hooks[i]| :: Disciplined(hooks[i][l])
  }

  ghost predicate SameMarks<F(!new)>(p: seq<Mutation<F>>, q: seq<Mutation<F>>) {
    |p| == |q| && forall a | 0 <= a < |p| :: p[a].done == q[a].done && p[a].id == q[a].id
  }

  ghost predicate Names<F(!new)>(m: Option<nat>, pool: seq<Mutation<F>>) {
    m.Some? ==> m.value < |pool|
  }

  // What a disciplined hook leaves when it reaches its call to next.
  datatype Waiting<!F> = Waiting(pool: seq<Mutation<F>>, arg: Arg, onOk: Hook<F>, onErr: Hook<F>)

  ghost function Pre<F(!new)>(h: Hook<F>, m: Option<nat>, pool: seq<Mutation<F>>): (w: Waiting<F>)
    requires Disciplined(h) && Names(m, pool)
    ensures Tail(w.onOk, true) && Tail(w.onErr, false)
    ensures SameMarks(pool, w.pool)
  {
    match h
    case Branch(test, yes, no) => Pre(if Test(test, m, pool) then yes else no, m, pool)
    case Edit(edit, rest) => Pre(rest, m, EditPool(edit, m, pool))
    case Next(arg, onOk, onErr) => Waiting(pool, arg, onOk, onErr)
  }

  datatype After<F> = After(pool: seq<Mutation<F>>, out: Outcome)

  // The part of a hook after next returned.
  ghost function Post<F(!new)>(h: Hook<F>, m: Option<nat>, last: Outcome, pool: seq<Mutation<F>>): (r: After<F>)
    requires Tail(h, last.Ok?) && Names(m, pool)
    ensures SameMarks(pool, r.pool)
    ensures last.Err? ==> r.out.Err?
  {
    match h
    case Return(result) => After(pool, result(last))
    case Branch(test, yes, no) => Post(if Test(test, m, pool) then yes else no, m, last, pool)
    case Edit(edit, rest) => Post(rest, m, last, EditPool(edit, m, pool))
  }

  // The calls still open when the descent ends, outermost first.
  datatype Open<!F> =
    | Bottom
    | HookOpen(i: nat, l: nat, m: Option<nat>, onOk: Hook<F>, onErr: Hook<F>, inner: Open<F>)
    | CoreOpen(i: nat, to: nat, inner: Open<F>)

  datatype Descent<!F, N, S> =
    Descent(s: State<F, N, S>, open: Open<F>, out: Outcome, trace: seq<Event>)

  // The frames can be resumed over a pool of this size.
  ghost predicate Framed<F(!new)>(o: Open<F>, size: nat) {
    match o
    case Bottom => true
    case HookOpen(_, _, m, onOk, onErr, inner) =>
      (m.Some? ==> m.value < size) && Tail(onOk, true) && Tail(onErr, false) && Framed(inner, size)
    case CoreOpen(_, m, inner) => m < size && Framed(inner, size)
  }

  // The cores among them have built their node and spec.
  ghost predicate Built<F(!new), N, S>(o: Open<F>, s: State<F, N, S>) {
    match o
    case Bottom => true
    case HookOpen(_, _, _, _, _, inner) => Built(inner, s)
    case CoreOpen(i, _, inner) => i < |s.specs| && s.specs[i].Some? && Built(inner, s)
  }

  ghost predicate Resumable<F(!new), N, S>(o: Open<F>, s: State<F, N, S>) {
    Framed(o, |s.pool|) && Built(o, s)
  }

  ghost function WithPool<F, N, S>(s: State<F, N, S>, pool: seq<Mutation<F>>): (t: State<F, N, S>)
    requires |pool| == |s.pool|
    ensures Valid(s, |s.cur|) ==> Valid(t, |s.cur|)
    ensures forall i | Filled(s, i) :: Filled(t, i)
    ensures |t.pool| == |s.pool|
  {
    s.(pool := pool)
  }

  // Phase one, outermost frame first: the edits hook l makes before next, then the rest.
  ghost function Down<F(!new), N, S>(env: Env<F, N, S>, hooks: Hooks<F>, i: nat, l: nat, m: Option<nat>,
                                     s: State<F, N, S>): (d: Descent<F, N, S>)
    requires i < |hooks| && l <= |hooks[i]| && AllDisciplined(hooks)
    requires Valid(s, |hooks|) && Filled(s, i) && InPool(m, s)
    ensures Valid(d.s, |hooks|) && Grows(s, d.s) && Resumable(d.open, d.s)
    decreases |hooks| - i, |hooks[i]| - l, 1
  {
    if l == |hooks[i]| then DownCore(env, hooks, i, m, s)
    else
      var w := Pre(hooks[i][l], m, s.pool);
      var d := Down(env, hooks, i, l + 1, Resolve(w.arg, m, |s.pool|), WithPool(s, w.pool));
      Descent(d.s, HookOpen(i, l, m, w.onOk, w.onErr, d.open), d.out, [HookIn(i, l)] + d.trace)
  }

  ghost function DownCore<F(!new), N, S>(env: Env<F, N, S>, hooks: Hooks<F>, i: nat, m: Option<nat>,
                                         s: State<F, N, S>): (d: Descent<F, N, S>)
    requires i < |hooks| && AllDisciplined(hooks)
    requires Valid(s, |hooks|) && Filled(s, i) && InPool(m, s)
    ensures Valid(d.s, |hooks|) && Grows(s, d.s) && Resumable(d.open, d.s)
    decreases |hooks| - i, 0, 0
  {
    if m.None? then Descent(s, Bottom, Err(UnexpectedMutationType), [CoreIn(i), CoreOut(i)])
    else
      var c := env.check(s.pool[s.cur[i]].fields);
      if c.Err? then Descent(s, Bottom, c, [CoreIn(i), CoreOut(i)])
      else
        var d := Below(env, hooks, i + 1, Build(env, i, m.value, s));
        Descent(d.s, CoreOpen(i, m.value, d.open), d.out, [CoreIn(i)] + d.trace)
  }

  // What core i-1 calls: the next builder's mutator, or BatchCreate after the last.
  ghost function Below<F(!new), N, S>(env: Env<F, N, S>, hooks: Hooks<F>, i: nat,
                                      s: State<F, N, S>): (d: Descent<F, N, S>)
    requires i <= |hooks| && AllDisciplined(hooks)
    requires Valid(s, |hooks|) && Filled(s, i)
    ensures Valid(d.s, |hooks|) && Grows(s, d.s) && Resumable(d.open, d.s)
    decreases |hooks| - i, if i < |hooks| then |hooks[i]| else 0, 2
  {
    if i < |hooks| then Down(env, hooks, i, 0, Some(s.cur[i]), s)
    else var b := Batch(env, s); Descent(b.s, Bottom, b.out, b.trace)
  }

  // Phase two, innermost frame first.
  ghost function Up<F(!new), N, S>(o: Open<F>, s: State<F, N, S>, out: Outcome): (r: Run<F, N, S>)
    requires Resumable(o, s) && Valid(s, |s.cur|)
    ensures Valid(r.s, |s.cur|) && |r.s.pool| == |s.pool| && |r.s.heap| == |s.heap|
    ensures r.s.nodes == s.nodes && r.s.specs == s.specs && r.s.calls == s.calls && r.s.cur == s.cur
    ensures out.Err? ==> r.out.Err?
  {
    match o
    case Bottom => Run(s, out, [])
    case HookOpen(i, l, m, onOk, onErr, inner) =>
      var u := Up(inner, s, out);
      var p := Post(if u.out.Ok? then onOk else onErr, m, u.out, u.s.pool);
      Run(WithPool(u.s, p.pool), p.out, u.trace + [HookOut(i, l)])
    case CoreOpen(i, m, inner) =>
      var u := Up(inner, s, out);
      Run(if u.out.Ok? then Publish(i, m, u.s) else u.s, u.out, u.trace + [CoreOut(i)])
  }

  ghost function TwoPhase<F(!new), N, S>(env: Env<F, N, S>, hooks: Hooks<F>, i: nat, l: nat, m: Option<nat>,
                                         s: State<F, N, S>): (r: Run<F, N, S>)
    requires i < |hooks| && l <= |hooks[i]| && AllDisciplined(hooks)
    requires Valid(s, |hooks|) && Filled(s, i) && InPool(m, s)
  {
    var d := Down(env, hooks, i, l, m, s);
    var u := Up(d.open, d.s, d.out);
    Run(u.s, u.out, d.trace + u.trace)
  }

  // The part of a hook script up to its call of next only edits the mutation.
  lemma {:induction false} RunHookIsPre<F(!new), N, S>(
    env: Env<F, N, S>, hooks: Hooks<F>, i: nat, l: nat, h: Hook<F>, m: Option<nat>, last: Outcome, s: State<F, N, S>)
    requires i < |hooks| && l < |hooks[i]|
    requires Valid(s, |hooks|) && Filled(s, i) && InPool(m, s) && Disciplined(h)
    ensures
      var w := Pre(h, m, s.pool);
      RunHook(env, hooks, i, l, h, m, last, s)
      == RunHook(env, hooks, i, l, Next(w.arg, w.onOk, w.onErr), m, Ok, WithPool(s, w.pool))
    decreases h
  {
    hide Grows;
    match h
    case Branch(test, yes, no) =>
      RunHookIsPre(env, hooks, i, l, if Test(test, m, s.pool) then yes else no, m, last, s);
    case Edit(edit, rest) =>
      RunHookIsPre(env, hooks, i, l, rest, m, last, WithPool(s, EditPool(edit, m, s.pool)));
    case Next(arg, onOk, onErr) =>
      NextIgnoresLast(env, hooks, i, l, h, m, last, s);
  }

  lemma NextIgnoresLast<F(!new), N, S>(
    env: Env<F, N, S>, hooks: Hooks<F>, i: nat, l: nat, h: Hook<F>, m: Option<nat>, last: Outcome,
    s: State<F, N, S>)
    requires i < |hooks| && l < |hooks[i]|
    requires Valid(s, |hooks|) && Filled(s, i) && InPool(m, s) && h.Next?
    ensures RunHook(env, hooks, i, l, h, m, last, s) == RunHook(env, hooks, i, l, h, m, Ok, s)
  {
    hide Grows;
  }

  lemma {:induction false} RunHookIsPost<F(!new), N, S>(
    env: Env<F, N, S>, hooks: Hooks<F>, i: nat, l: nat, h: Hook<F>, m: Option<nat>, last: Outcome, s: State<F, N, S>)
    requires i < |hooks| && l < |hooks[i]|
    requires Valid(s, |hooks|) && Filled(s, i) && Tail(h, last.Ok?) && InPool(m, s)
    ensures
      var p := Post(h, m, last, s.pool);
      RunHook(env, hooks, i, l, h, m, last, s) == Run(WithPool(s, p.pool), p.out, [])
    decreases h
  {
    hide Grows;
    match h
    case Return(result) =>
    case Branch(test, yes, no) =>
      RunHookIsPost(env, hooks, i, l, if Test(test, m, s.pool) then yes else no, m, last, s);
    case Edit(edit, rest) =>
      RunHookIsPost(env, hooks, i, l, rest, m, last, WithPool(s, EditPool(edit, m, s.pool)));
  }

  lemma Splice(a: Event, d: seq<Event>, u: seq<Event>, b: Event)
    ensures [a] + (d + u + []) + [b] == [a] + d + (u + [b])
    ensures [a] + (d + u) + [b] == [a] + d + (u + [b])
  {
  }

  // A disciplined hook is its edits, the rest of the chain, then its tail.
  lemma {:induction false} HookAround<F(!new), N, S>(
    env: Env<F, N, S>, hooks: Hooks<F>, i: nat, l: nat, m: Option<nat>, s: State<F, N, S>)
    requires i < |hooks| && l < |hooks[i]| && AllDisciplined(hooks)
    requires Valid(s, |hooks|) && Filled(s, i) && InPool(m, s)
    ensures
      var w := Pre(hooks[i][l], m, s.pool);
      var r := Mutate(env, hooks, i, l + 1, Resolve(w.arg, m, |s.pool|), WithPool(s, w.pool));
      var p := Post(if r.out.Ok? then w.onOk else w.onErr, m, r.out, r.s.pool);
      RunHook(env, hooks, i, l, hooks[i][l], m, Ok, s) == Run(WithPool(r.s, p.pool), p.out, r.trace + [])
  {
    var w := Pre(hooks[i][l], m, s.pool);
    var s1 := WithPool(s, w.pool);
    RunHookIsPre(env, hooks, i, l, hooks[i][l], m, Ok, s);
    var r := Mutate(env, hooks, i, l + 1, Resolve(w.arg, m, |s.pool|), s1);
    RunHookIsPost(env, hooks, i, l, if r.out.Ok? then w.onOk else w.onErr, m, r.out, r.s);
  }

  lemma {:induction false} HookStep<F(!new), N, S>(
    env: Env<F, N, S>, hooks: Hooks<F>, i: nat, l: nat, m: Option<nat>, s: State<F, N, S>)
    requires i < |hooks| && l < |hooks[i]| && AllDisciplined(hooks)
    requires Valid(s, |hooks|) && Filled(s, i) && InPool(m, s)
    requires
      var w := Pre(hooks[i][l], m, s.pool);
      var s1, m1 := WithPool(s, w.pool), Resolve(w.arg, m, |s.pool|);
      Mutate(env, hooks, i, l + 1, m1, s1) == TwoPhase(env, hooks, i, l + 1, m1, s1)
    ensures Mutate(env, hooks, i, l, m, s) == TwoPhase(env, hooks, i, l, m, s)
  {
    hide Grows; hide Filled;
    var w := Pre(hooks[i][l], m, s.pool);
    var d1 := Down(env, hooks, i, l + 1, Resolve(w.arg, m, |s.pool|), WithPool(s, w.pool));
    var u1 := Up(d1.open, d1.s, d1.out);
    HookAround(env, hooks, i, l, m, s);
    Splice(HookIn(i, l), d1.trace, u1.trace, HookOut(i, l));
  }

  // Core i around whatever it calls.
  lemma {:induction false} CoreCalls<F(!new), N, S>(
    env: Env<F, N, S>, hooks: Hooks<F>, i: nat, m: nat, s: State<F, N, S>)
    requires i < |hooks| && AllDisciplined(hooks)
    requires Valid(s, |hooks|) && Filled(s, i) && InPool(Some(m), s) && env.check(s.pool[s.cur[i]].fields).Ok?
    requires i < |hooks| - 1 ==>
      var s1 := Build(env, i, m, s);
      Mutate(env, hooks, i + 1, 0, Some(s1.cur[i + 1]), s1) == TwoPhase(env, hooks, i + 1, 0, Some(s1.cur[i + 1]), s1)
    ensures
      var d := Below(env, hooks, i + 1, Build(env, i, m, s));
      var u := Up(d.open, d.s, d.out);
      var r := Core(env, hooks, i, Some(m), s);
      && Valid(u.s, |hooks|) && m < |u.s.pool| && u.s.specs[i].Some?
      && r.trace == d.trace + u.trace && r.out == u.out
      && r.s == if u.out.Ok? then Publish(i, m, u.s) else u.s
  {
    var s1 := Build(env, i, m, s);
    var d := Below(env, hooks, i + 1, s1);
    if i < |hooks| - 1 {
      assert d == Down(env, hooks, i + 1, 0, Some(s1.cur[i + 1]), s1);
    } else {
      assert d.trace + [] == d.trace;
    }
  }

  lemma {:induction false} CoreStep<F(!new), N, S>(
    env: Env<F, N, S>, hooks: Hooks<F>, i: nat, m: Option<nat>, s: State<F, N, S>)
    requires i < |hooks| && AllDisciplined(hooks)
    requires Valid(s, |hooks|) && Filled(s, i) && InPool(m, s)
    requires m.Some? && env.check(s.pool[s.cur[i]].fields).Ok? && i < |hooks| - 1 ==>
      var s1 := Build(env, i, m.value, s);
      Mutate(env, hooks, i + 1, 0, Some(s1.cur[i + 1]), s1) == TwoPhase(env, hooks, i + 1, 0, Some(s1.cur[i + 1]), s1)
    ensures Mutate(env, hooks, i, |hooks[i]|, m, s) == TwoPhase(env, hooks, i, |hooks[i]|, m, s)
  {
    hide Grows; hide Resumable;
    assert Down(env, hooks, i, |hooks[i]|, m, s) == DownCore(env, hooks, i, m, s);
    if m.Some? && env.check(s.pool[s.cur[i]].fields).Ok? {
      var s1 := Build(env, i, m.value, s);
      var d1 := Below(env, hooks, i + 1, s1);
      var u1 := Up(d1.open, d1.s, d1.out);
      CoreCalls(env, hooks, i, m.value, s);
      Splice(CoreIn(i), d1.trace, u1.trace, CoreOut(i));
    }
  }

  // With disciplined hooks the chain of callbacks is the two-phase loop.
  lemma {:induction false} ChainIsTwoPhase<F(!new), N, S>(
    env: Env<F, N, S>, hooks: Hooks<F>, i: nat, l: nat, m: Option<nat>, s: State<F, N, S>)
    requires i < |hooks| && l <= |hooks[i]| && AllDisciplined(hooks)
    requires Valid(s, |hooks|) && Filled(s, i) && InPool(m, s)
    ensures Mutate(env, hooks, i, l, m, s) == TwoPhase(env, hooks, i, l, m, s)
    decreases |hooks| - i, |hooks[i]| - l
  {
    hide Mutate; hide TwoPhase; hide Grows;
    if l < |hooks[i]| {
      var w := Pre(hooks[i][l], m, s.pool);
      ChainIsTwoPhase(env, hooks, i, l + 1, Resolve(w.arg, m, |s.pool|), WithPool(s, w.pool));
      HookStep(env, hooks, i, l, m, s);
    } else {
      if m.Some? && env.check(s.pool[s.cur[i]].fields).Ok? && i < |hooks| - 1 {
        var s1 := Build(env, i, m.value, s);
        ChainIsTwoPhase(env, hooks, i + 1, 0, Some(s1.cur[i + 1]), s1);
      }
      CoreStep(env, hooks, i, m, s);
    }
  }
}
