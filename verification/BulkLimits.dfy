// Where the guarantees of a bulk save end: ignored errors of `defaults`, mutations swapped by
// hooks, and hooks outside the discipline.

module BulkLimits {
  import opened Wrappers
  import opened BulkSpec
  import opened BulkRefinement
  import opened BulkTheorems

  // Some builder's defaults() returns an error, in the order Save calls them.
  ghost predicate DefaultsFail<F(!new)>(defaults: F -> (F, Outcome), cur: seq<nat>, k: nat, pool: seq<Mutation<F>>)
    requires k <= |cur| && forall i | 0 <= i < |cur| :: cur[i] < |pool|
    decreases |cur| - k
  {
    k < |cur| &&
    var m := cur[k];
    var d := defaults(pool[m].fields);
    d.1.Err? || DefaultsFail(defaults, cur, k + 1, pool[m := pool[m].(fields := d.0)])
  }

  // Fields on which defaults fails stay so, and do not pass check.
  ghost predicate FailureSticks<F(!new), N, S>(env: Env<F, N, S>) {
    forall f :: env.defaults(f).1.Err? ==> env.check(f).Err? && env.defaults(env.defaults(f).0).1.Err?
  }

  lemma {:induction false} StuckStaysStuck<F(!new), N, S>(
    env: Env<F, N, S>, cur: seq<nat>, k: nat, pool: seq<Mutation<F>>, a: nat)
    requires k <= |cur| && forall i | 0 <= i < |cur| :: cur[i] < |pool|
    requires FailureSticks(env) && a < |pool| && env.defaults(pool[a].fields).1.Err?
    ensures env.defaults(WithDefaults(env.defaults, cur, k, pool)[a].fields).1.Err?
    decreases |cur| - k
  {
    if k < |cur| {
      var m := cur[k];
      var p := pool[m := pool[m].(fields := env.defaults(pool[m].fields).0)];
      StuckStaysStuck(env, cur, k + 1, p, a);
    }
  }

  lemma {:induction false} FailureLeavesStuck<F(!new), N, S>(
    env: Env<F, N, S>, cur: seq<nat>, k: nat, pool: seq<Mutation<F>>) returns (i: nat)
    requires k <= |cur| && forall i | 0 <= i < |cur| :: cur[i] < |pool|
    requires FailureSticks(env) && DefaultsFail(env.defaults, cur, k, pool)
    ensures i < |cur| && env.check(WithDefaults(env.defaults, cur, k, pool)[cur[i]].fields).Err?
    decreases |cur| - k
  {
    var m := cur[k];
    var d := env.defaults(pool[m].fields);
    var p := pool[m := pool[m].(fields := d.0)];
    if d.1.Err? {
      i := k;
      StuckStaysStuck(env, cur, k + 1, p, m);
    } else {
      i := FailureLeavesStuck(env, cur, k + 1, p);
    }
  }

  ghost predicate HookFree<F(!new)>(hooks: Hooks<F>) {
    forall i | 0 <= i < |hooks| :: hooks[i] == []
  }

  lemma {:induction false} RouteHookFree<F(!new)>(hooks: Hooks<F>, i: nat, pool: seq<Mutation<F>>, cur: seq<nat>)
    requires HookFree(hooks) && |cur| == |hooks| && i < |hooks|
    requires forall k | 0 <= k < |cur| :: cur[k] < |pool|
    ensures
      var r := Route(hooks, i, 0, Some(cur[i]), pool, cur);
      r.complete && forall k | i <= k < |hooks| :: r.visits[k - i].held == pool[cur[k]].fields
    decreases |hooks| - i
  {
    hide Route; hide Framed;
    RouteCore(hooks, i, Some(cur[i]), pool, cur);
    assert cur[i := cur[i]] == cur;
    if i + 1 < |hooks| {
      RouteHookFree(hooks, i + 1, pool, cur);
      var r, r' := Route(hooks, i, 0, Some(cur[i]), pool, cur), Route(hooks, i + 1, 0, Some(cur[i + 1]), pool, cur);
      forall k | i <= k < |hooks| ensures r.visits[k - i].held == pool[cur[k]].fields {
        if k > i { assert r.visits[k - i] == r'.visits[k - (i + 1)]; }
      }
    }
  }

  // Save drops the errors of defaults(), but without hooks a failing defaults() still makes
  // Save fail before BatchCreate is called.
  lemma {:induction false} DefaultsFailureIsNotLost<F(!new), N, S>(
    env: Env<F, N, S>, hooks: Hooks<F>, pool: seq<Mutation<F>>, cur: seq<nat>, calls: seq<seq<S>>)
    requires |hooks| == |cur| && forall i | 0 <= i < |cur| :: cur[i] < |pool|
    requires HookFree(hooks) && FailureSticks(env)
    requires DefaultsFail(env.defaults, cur, 0, pool)
    ensures
      var r := Save(env, None, hooks, pool, cur, calls);
      r.out.Err? && r.s.calls == calls && SameMarks(pool, r.s.pool)
  {
    hide Save; hide Route; hide FailureSticks; hide Settled;
    var start := WithDefaults(env.defaults, cur, 0, pool);
    var i := FailureLeavesStuck(env, cur, 0, pool);
    RouteHookFree(hooks, 0, start, cur);
    var r := SaveRoute(env, hooks, pool, cur);
    assert r.visits[i - 0].held == start[cur[i]].fields;
    assert !AllPass(env, r);
    SaveIsAllOrNothing(env, hooks, pool, cur, calls);
  }

  // ----- Unchecked fields -----

  // A core was handed fields that do not pass the check.
  ghost predicate HandsDownUnchecked<F(!new), N, S>(env: Env<F, N, S>, r: Routed<F>) {
    exists k :: 0 <= k < |r.visits| && env.check(r.visits[k].given).Err?
  }

  // A call carried the spec of such fields, in the place of the core that was handed them.
  ghost predicate CarriesUnchecked<F(!new), N, S>(env: Env<F, N, S>, r: Routed<F>, call: seq<S>) {
    exists k :: 0 <= k < |r.visits| && k < |call| && call[k] == env.spec(r.visits[k].given) && env.check(r.visits[k].given).Err?
  }

  // Each core checks the fields its builder holds and sends those it was handed. With hooks
  // that call next once and pass its error on, BatchCreate is called exactly when all held
  // fields pass, whatever was handed down. So unchecked fields are sent exactly when all held
  // fields pass and some handed ones do not, and never when every hook hands down its own
  // mutation.
  lemma SubstitutionBypassesCheck<F(!new), N, S>(
    env: Env<F, N, S>, hooks: Hooks<F>, pool: seq<Mutation<F>>, cur: seq<nat>, calls: seq<seq<S>>)
    requires |hooks| == |cur| > 0 && forall i | 0 <= i < |cur| :: cur[i] < |pool|
    requires AllDisciplined(hooks)
    ensures
      var route := SaveRoute(env, hooks, pool, cur);
      var r := Save(env, None, hooks, pool, cur, calls);
      && (r.s.calls != calls <==> AllPass(env, route))
      && (r.s.calls != calls ==>
            && |r.s.calls| == |calls| + 1 && |r.s.calls[|calls|]| == |route.visits| == |cur|
            && forall k | 0 <= k < |cur| :: r.s.calls[|calls|][k] == env.spec(route.visits[k].given))
      && (r.s.calls != calls && CarriesUnchecked(env, route, r.s.calls[|calls|])
          <==> AllPass(env, route) && HandsDownUnchecked(env, route))
      && (AllFaithful(hooks) && r.s.calls != calls ==> !HandsDownUnchecked(env, route))
  {
    hide Save; hide Route; hide Settled; hide Framed;
    SaveIsAllOrNothing(env, hooks, pool, cur, calls);
    var route := SaveRoute(env, hooks, pool, cur);
    var r := Save(env, None, hooks, pool, cur, calls);
    if k :| r.s.calls != calls && 0 <= k < |route.visits| && env.check(route.visits[k].given).Err? {
      assert r.s.calls[|calls|][k] == env.spec(Given(route.visits)[k]);
    }
    if AllFaithful(hooks) {
      FaithfulRoute(hooks, 0, 0, WithDefaults(env.defaults, cur, 0, pool), cur);
    }
  }

  // ----- Hooks that keep their mutation, whatever else they do -----

  ghost predicate FromChecked<F(!new), N, S>(env: Env<F, N, S>, x: S) {
    exists f :: env.check(f).Ok? && x == env.spec(f)
  }

  // Every spec that is filled in, and every spec of a call from the n-th on, was made from
  // fields that pass the check.
  ghost predicate AllFromChecked<F(!new), N, S>(env: Env<F, N, S>, n: nat, s: State<F, N, S>) {
    && (forall j | 0 <= j < |s.specs| :: s.specs[j].Some? ==> FromChecked(env, s.specs[j].value.data))
    && (forall c, j | n <= c < |s.calls| && 0 <= j < |s.calls[c]| :: FromChecked(env, s.calls[c][j]))
  }

  ghost predicate KeepsChecked<F(!new), N, S>(env: Env<F, N, S>, n: nat, s: State<F, N, S>, t: State<F, N, S>) {
    t.cur == s.cur && |s.calls| <= |t.calls| && AllFromChecked(env, n, t)
  }

  lemma {:induction false} FaithfulMutate<F(!new), N, S>(
    env: Env<F, N, S>, hooks: Hooks<F>, i: nat, l: nat, n: nat, s: State<F, N, S>)
    requires i < |hooks| && l <= |hooks[i]| && AllFaithful(hooks)
    requires Valid(s, |hooks|) && Filled(s, i) && AllFromChecked(env, n, s)
    ensures KeepsChecked(env, n, s, Mutate(env, hooks, i, l, Some(s.cur[i]), s).s)
    decreases |hooks| - i, |hooks[i]| - l, 1
  {
    hide Grows; hide Filled; hide AllFromChecked; hide AllFaithful;
    if l == |hooks[i]| {
      FaithfulCore(env, hooks, i, n, s);
    } else {
      assert Faithful(hooks[i][l]) by { FaithfulAt(hooks, i, l); }
      FaithfulHook(env, hooks, i, l, hooks[i][l], Ok, n, s);
    }
  }

  lemma FaithfulAt<F(!new)>(hooks: Hooks<F>, i: nat, l: nat)
    requires AllFaithful(hooks) && i < |hooks| && l < |hooks[i]|
    ensures Faithful(hooks[i][l])
  {
  }

  lemma {:induction false} FaithfulHook<F(!new), N, S>(
    env: Env<F, N, S>, hooks: Hooks<F>, i: nat, l: nat, h: Hook<F>, last: Outcome, n: nat, s: State<F, N, S>)
    requires i < |hooks| && l < |hooks[i]| && AllFaithful(hooks) && Faithful(h)
    requires Valid(s, |hooks|) && Filled(s, i) && AllFromChecked(env, n, s)
    ensures KeepsChecked(env, n, s, RunHook(env, hooks, i, l, h, Some(s.cur[i]), last, s).s)
    decreases |hooks| - i, |hooks[i]| - l, 0, h
  {
    hide AllFromChecked; hide AllFaithful; hide Mutate;
    var m := Some(s.cur[i]);
    match h
    case Return(_) =>
    case Branch(test, yes, no) =>
      FaithfulHook(env, hooks, i, l, if Test(test, m, s.pool) then yes else no, last, n, s);
    case Edit(edit, rest) =>
      var s1 := s.(pool := EditPool(edit, m, s.pool));
      PoolIsNotSent(env, n, s, s1);
      FaithfulHook(env, hooks, i, l, rest, last, n, s1);
    case Next(_, onOk, onErr) =>
      var r := Mutate(env, hooks, i, l + 1, m, s);
      FaithfulMutate(env, hooks, i, l + 1, n, s);
      FaithfulHook(env, hooks, i, l, if r.out.Ok? then onOk else onErr, r.out, n, r.s);
  }

  lemma PoolIsNotSent<F(!new), N, S>(env: Env<F, N, S>, n: nat, s: State<F, N, S>, t: State<F, N, S>)
    requires AllFromChecked(env, n, s) && t == s.(pool := t.pool)
    ensures AllFromChecked(env, n, t)
  {
  }

  lemma {:induction false} FaithfulCore<F(!new), N, S>(
    env: Env<F, N, S>, hooks: Hooks<F>, i: nat, n: nat, s: State<F, N, S>)
    requires i < |hooks| && AllFaithful(hooks)
    requires Valid(s, |hooks|) && Filled(s, i) && AllFromChecked(env, n, s)
    ensures KeepsChecked(env, n, s, Core(env, hooks, i, Some(s.cur[i]), s).s)
    decreases |hooks| - i, 0, 0
  {
    hide AllFromChecked; hide AllFaithful; hide Mutate; hide Batch; hide Build; hide Publish;
    var m := s.cur[i];
    if env.check(s.pool[m].fields).Ok? {
      var s1 := Build(env, i, m, s);
      BuildsFromChecked(env, i, n, s);
      if i < |hooks| - 1 {
        FaithfulMutate(env, hooks, i + 1, 0, n, s1);
      } else {
        SendsFromChecked(env, n, s1);
      }
      var r := if i < |hooks| - 1 then Mutate(env, hooks, i + 1, 0, Some(s1.cur[i + 1]), s1) else Batch(env, s1);
      if r.out.Ok? { PublishIsNotSent(env, i, m, n, r.s); }
    }
  }

  lemma BuildsFromChecked<F(!new), N, S>(env: Env<F, N, S>, i: nat, n: nat, s: State<F, N, S>)
    requires Valid(s, |s.cur|) && i < |s.cur| && Filled(s, i) && AllFromChecked(env, n, s)
    requires env.check(s.pool[s.cur[i]].fields).Ok?
    ensures KeepsChecked(env, n, s, Build(env, i, s.cur[i], s))
  {
  }

  lemma SendsFromChecked<F(!new), N, S>(env: Env<F, N, S>, n: nat, s: State<F, N, S>)
    requires Valid(s, |s.cur|) && Filled(s, |s.cur|) && AllFromChecked(env, n, s)
    ensures KeepsChecked(env, n, s, Batch(env, s).s)
  {
    var t := Batch(env, s).s;
    var data := SpecData(s.specs);
    forall c, j | n <= c < |t.calls| && 0 <= j < |t.calls[c]| ensures FromChecked(env, t.calls[c][j]) {
      if c == |s.calls| { assert t.calls[c][j] == data[j] == s.specs[j].value.data; }
    }
  }

  lemma PublishIsNotSent<F(!new), N, S>(env: Env<F, N, S>, i: nat, m: nat, n: nat, s: State<F, N, S>)
    requires Valid(s, |s.cur|) && m < |s.pool| && i < |s.cur| && s.specs[i].Some?
    requires AllFromChecked(env, n, s)
    ensures AllFromChecked(env, n, Publish(i, m, s))
  {
  }

  // No discipline is needed for what faithful hooks send: they may call next any number of
  // times, refuse, swallow errors or invent them, and still every spec in every call was made
  // from fields that pass the check.
  lemma FaithfulHooksSendChecked<F(!new), N, S>(
    env: Env<F, N, S>, hooks: Hooks<F>, pool: seq<Mutation<F>>, cur: seq<nat>, calls: seq<seq<S>>)
    requires |hooks| == |cur| && forall i | 0 <= i < |cur| :: cur[i] < |pool|
    requires AllFaithful(hooks)
    ensures
      var r := Save(env, None, hooks, pool, cur, calls);
      forall c, j | |calls| <= c < |r.s.calls| && 0 <= j < |r.s.calls[c]| :: FromChecked(env, r.s.calls[c][j])
  {
    hide Mutate; hide AllFaithful; hide FromChecked;
    if |hooks| > 0 {
      FaithfulMutate(env, hooks, 0, 0, |calls|, Initial(WithDefaults(env.defaults, cur, 0, pool), cur, calls));
    }
  }

  // A hook that hands next the second of two mutations gets its fields to BatchCreate although
  // they do not pass the check.
  lemma UncheckedFieldsAreSent<F(!new), N, S>(env: Env<F, N, S>, f: F, g: F, calls: seq<seq<S>>)
    requires env.check(f).Ok? && env.check(g).Err?
    ensures
      var swap: Hook<F> := Next(Other(1), Return(o => o), Return(o => o));
      var s: State<F, N, S> := Initial([Mutation(f, None, false), Mutation(g, None, false)], [0], calls);
      Chain(env, [[swap]], s).s.calls == calls + [[env.spec(g)]]
  {
    var pass: Hook<F> := Return(o => o);
    var swap: Hook<F> := Next(Other(1), pass, pass);
    var hooks := [[swap]];
    var s: State<F, N, S> := Initial([Mutation(f, None, false), Mutation(g, None, false)], [0], calls);
    var s1 := Build(env, 0, 1, s);
    assert SpecData(s1.specs) == [env.spec(g)];
    var r := Mutate(env, hooks, 0, 1, Some(1), s);
    assert r.s == Core(env, hooks, 0, Some(1), s).s;
    assert RunHook(env, hooks, 0, 0, if r.out.Ok? then pass else pass, Some(0), r.out, r.s).s == r.s;
    assert RunHook(env, hooks, 0, 0, swap, Some(0), Ok, s).s == r.s;
  }

  // ----- Where all or nothing ends -----

  function One<F, N, S>(f: F, calls: seq<seq<S>>): (s: State<F, N, S>) {
    Initial([Mutation(f, None, false)], [0], calls)
  }

  // One builder with one hook: what a call of next does.
  lemma OneCall<F(!new), N, S>(env: Env<F, N, S>, h: Hook<F>, s: State<F, N, S>)
    requires |s.pool| == 1 && s.cur == [0] && Valid(s, 1) && env.check(s.pool[0].fields).Ok?
    ensures
      var f := s.pool[0].fields;
      var r := Mutate(env, [[h]], 0, 1, Some(0), s);
      && r.s.calls == s.calls + [[env.spec(f)]] && r.s.nodes == [Some(|s.heap|)]
      && |r.s.pool| == 1 && r.s.pool[0].fields == f && r.s.cur == [0]
      && (r.out.Ok? <==> env.driver(|s.calls|, [env.spec(f)]).Created?)
      && (r.out.Err? ==> r.s.pool == s.pool)
  {
    var f := s.pool[0].fields;
    var s1 := Build(env, 0, 0, s);
    assert s1.specs == [Some(Spec(env.spec(f), None))];
    assert SpecData(s1.specs) == [env.spec(f)];
    assert Mutate(env, [[h]], 0, 1, Some(0), s).s == Core(env, [[h]], 0, Some(0), s).s;
  }

  // A hook that hands next a mutation of another type makes Save fail before any call.
  lemma ForeignMutationIsRefused<F(!new), N, S>(env: Env<F, N, S>, f: F, calls: seq<seq<S>>)
    ensures
      var stray: Hook<F> := Next(Foreign, Return(o => o), Return(o => o));
      var r := Chain(env, [[stray]], One(f, calls));
      r.out == Err(UnexpectedMutationType) && r.s.calls == calls && r.s.nodes == [None]
  {
    var stray: Hook<F> := Next(Foreign, Return(o => o), Return(o => o));
    var s: State<F, N, S> := One(f, calls);
    assert Core(env, [[stray]], 0, None, s) == Run(s, Err(UnexpectedMutationType), []);
    var r := Mutate(env, [[stray]], 0, 1, None, s);
    assert r.s == s && r.out == Err(UnexpectedMutationType);
    assert RunHook(env, [[stray]], 0, 0, Return(o => o), Some(0), r.out, r.s) == Run(s, r.out, []);
    assert RunHook(env, [[stray]], 0, 0, stray, Some(0), Ok, s).s == s;
  }

  // A hook decides by the fields of its mutation, and what it changes there is what is sent.
  lemma HooksSeeAndEdit<F(!new), N, S>(env: Env<F, N, S>, test: F -> bool, edit: F -> F, f: F, calls: seq<seq<S>>)
    requires env.check(edit(f)).Ok?
    ensures
      var pass: Hook<F> := Return(o => o);
      var h: Hook<F> := Branch(test, Edit(edit, Next(Same, pass, pass)), Return(_ => Err(HookError(1))));
      var r := Chain(env, [[h]], One(f, calls));
      if test(f) then r.s.calls == calls + [[env.spec(edit(f))]]
      else r.out == Err(HookError(1)) && r.s.calls == calls
  {
    var pass: Hook<F> := Return(o => o);
    var call: Hook<F> := Next(Same, pass, pass);
    var h: Hook<F> := Branch(test, Edit(edit, call), Return(_ => Err(HookError(1))));
    var s: State<F, N, S> := One(f, calls);
    var hooks := [[h]];
    if test(f) {
      var s1 := s.(pool := EditPool(edit, Some(0), s.pool));
      OneCall(env, h, s1);
      var r := Mutate(env, hooks, 0, 1, Some(0), s1);
      assert RunHook(env, hooks, 0, 0, pass, Some(0), r.out, r.s) == Run(r.s, r.out, []);
      assert RunHook(env, hooks, 0, 0, call, Some(0), Ok, s1).s == r.s;
      assert RunHook(env, hooks, 0, 0, Edit(edit, call), Some(0), Ok, s) == RunHook(env, hooks, 0, 0, call, Some(0), Ok, s1);
    } else {
      assert RunHook(env, hooks, 0, 0, Return(_ => Err(HookError(1))), Some(0), Ok, s) == Run(s, Err(HookError(1)), []);
    }
    assert RunHook(env, hooks, 0, 0, h, Some(0), Ok, s)
        == RunHook(env, hooks, 0, 0, if test(f) then Edit(edit, call) else Return(_ => Err(HookError(1))), Some(0), Ok, s);
  }

  // A hook that calls next twice makes two BatchCreate calls.
  lemma CallingNextTwice<F(!new), N, S>(env: Env<F, N, S>, f: F, calls: seq<seq<S>>)
    requires env.check(f).Ok?
    requires env.driver(|calls|, [env.spec(f)]).Created?
    ensures
      var pass: Outcome -> Outcome := o => o;
      var twice: Hook<F> := Next(Same, Next(Same, Return(pass), Return(pass)), Return(pass));
      var r := Chain(env, [[twice]], One(f, calls));
      r.s.calls == calls + [[env.spec(f)]] + [[env.spec(f)]]
  {
    var pass: Outcome -> Outcome := o => o;
    var again: Hook<F> := Next(Same, Return(pass), Return(pass));
    var twice: Hook<F> := Next(Same, again, Return(pass));
    var hooks := [[twice]];
    var s: State<F, N, S> := One(f, calls);
    OneCall(env, twice, s);
    var r1 := Mutate(env, hooks, 0, 1, Some(0), s);
    OneCall(env, twice, r1.s);
    var r2 := Mutate(env, hooks, 0, 1, Some(0), r1.s);
    assert RunHook(env, hooks, 0, 0, again, Some(0), r1.out, r1.s).s == r2.s;
    assert RunHook(env, hooks, 0, 0, twice, Some(0), Ok, s).s == r2.s;
  }

  // A hook that returns without calling next makes Save succeed with nothing created and
  // nil in place of the node.
  lemma SkippingNext<F(!new), N, S>(env: Env<F, N, S>, f: F, calls: seq<seq<S>>)
    ensures
      var skip: Hook<F> := Return(o => o);
      var r := Chain(env, [[skip]], One(f, calls));
      r.out.Ok? && r.s.calls == calls && r.s.nodes == [None] && !r.s.pool[0].done
  {
  }

  // A hook that swallows next's error makes Save succeed although BatchCreate failed.
  lemma SwallowingTheError<F(!new), N, S>(env: Env<F, N, S>, f: F, calls: seq<seq<S>>)
    requires env.check(f).Ok? && env.driver(|calls|, [env.spec(f)]).Rejected?
    ensures
      var swallow: Hook<F> := Next(Same, Return(o => o), Return(_ => Ok));
      var r := Chain(env, [[swallow]], One(f, calls));
      r.out.Ok? && r.s.nodes == [Some(0)] && !r.s.pool[0].done
  {
    var fail: Hook<F> := Return(_ => Ok);
    var swallow: Hook<F> := Next(Same, Return(o => o), fail);
    var s: State<F, N, S> := One(f, calls);
    OneCall(env, swallow, s);
    var r := Mutate(env, [[swallow]], 0, 1, Some(0), s);
    assert RunHook(env, [[swallow]], 0, 0, fail, Some(0), r.out, r.s) == Run(r.s, Ok, []);
    assert RunHook(env, [[swallow]], 0, 0, swallow, Some(0), Ok, s).s == r.s;
  }

  // A hook that errs after next succeeded makes Save fail with the node created and its
  // mutation done.
  lemma FailingAfterSuccess<F(!new), N, S>(env: Env<F, N, S>, f: F, code: int, calls: seq<seq<S>>)
    requires env.check(f).Ok? && env.driver(|calls|, [env.spec(f)]).Created?
    ensures
      var late: Hook<F> := Next(Same, Return(_ => Err(HookError(code))), Return(o => o));
      var r := Chain(env, [[late]], One(f, calls));
      && Disciplined(late)
      && r.out == Err(HookError(code)) && r.s.calls == calls + [[env.spec(f)]] && r.s.pool[0].done
  {
    var fail: Hook<F> := Return(_ => Err(HookError(code)));
    var late: Hook<F> := Next(Same, fail, Return(o => o));
    var s: State<F, N, S> := One(f, calls);
    OneCall(env, late, s);
    var r := Mutate(env, [[late]], 0, 1, Some(0), s);
    assert r.out.Ok? && r.s.pool[0].done;
    assert RunHook(env, [[late]], 0, 0, fail, Some(0), r.out, r.s) == Run(r.s, Err(HookError(code)), []);
    assert RunHook(env, [[late]], 0, 0, late, Some(0), Ok, s).s == r.s;
  }

  // ----- Hooks that may refuse -----

  // A script without a call of next.
  ghost predicate Silent<F(!new)>(h: Hook<F>) {
    match h
    case Return(_) => true
    case Branch(_, yes, no) => Silent(yes) && Silent(no)
    case Edit(_, rest) => Silent(rest)
    case Next(_, _, _) => false
  }

  // A script that calls next at most once; it may refuse, and do what it likes with errors.
  ghost predicate Once<F(!new)>(h: Hook<F>) {
    match h
    case Return(_) => true
    case Branch(_, yes, no) => Once(yes) && Once(no)
    case Edit(_, rest) => Once(rest)
    case Next(_, onOk, onErr) => Silent(onOk) && Silent(onErr)
  }

  ghost predicate AllOnce<F(!new)>(hooks: Hooks<F>) {
    forall i, l | 0 <= i < |hooks| && 0 <= l < |hooks[i]| :: Once(hooks[i][l])
  }

  // Every hook and core from mutator (i, l) down was entered.
  ghost predicate EntersAll<F(!new)>(hooks: Hooks<F>, i: nat, l: nat, trace: seq<Event>)
    requires i <= |hooks|
  {
    && (forall k | i <= k < |hooks| :: CoreIn(k) in trace)
    && (forall k, j | i <= k < |hooks| && 0 <= j < |hooks[k]| && (k == i ==> l <= j) :: HookIn(k, j) in trace)
  }

  ghost predicate OneCallAtMost<F(!new), S>(hooks: Hooks<F>, i: nat, l: nat, calls: seq<seq<S>>, after: seq<seq<S>>, trace: seq<Event>)
    requires i <= |hooks|
  {
    after == calls || (|after| == |calls| + 1 && calls <= after && EntersAll(hooks, i, l, trace))
  }

  lemma {:induction false} SilentCallsNothing<F(!new), N, S>(
    env: Env<F, N, S>, hooks: Hooks<F>, i: nat, l: nat, h: Hook<F>, m: Option<nat>, last: Outcome, s: State<F, N, S>)
    requires i < |hooks| && l < |hooks[i]| && Silent(h)
    requires Valid(s, |hooks|) && Filled(s, i) && InPool(m, s)
    ensures
      var r := RunHook(env, hooks, i, l, h, m, last, s);
      r.s.calls == s.calls && r.trace == []
    decreases h
  {
    hide Grows;
    match h
    case Return(_) =>
    case Branch(test, yes, no) =>
      SilentCallsNothing(env, hooks, i, l, if Test(test, m, s.pool) then yes else no, m, last, s);
    case Edit(edit, rest) =>
      SilentCallsNothing(env, hooks, i, l, rest, m, last, s.(pool := EditPool(edit, m, s.pool)));
  }

  // With hooks that call next at most once, BatchCreate is called at most once, and only if
  // every hook was entered and passed control on: one that refuses keeps the call from being
  // made.
  lemma {:induction false} NoCallAfterRefusal<F(!new), N, S>(
    env: Env<F, N, S>, hooks: Hooks<F>, i: nat, l: nat, m: Option<nat>, s: State<F, N, S>)
    requires i < |hooks| && l <= |hooks[i]| && AllOnce(hooks)
    requires Valid(s, |hooks|) && Filled(s, i) && InPool(m, s)
    ensures
      var r := Mutate(env, hooks, i, l, m, s);
      OneCallAtMost(hooks, i, l, s.calls, r.s.calls, r.trace)
    decreases |hooks| - i, |hooks[i]| - l, 1
  {
    hide Grows; hide Filled;
    if l == |hooks[i]| {
      NoCallBelow(env, hooks, i, m, s);
    } else {
      NoCallInHook(env, hooks, i, l, hooks[i][l], m, Ok, s);
    }
  }

  lemma {:induction false} NoCallInHook<F(!new), N, S>(
    env: Env<F, N, S>, hooks: Hooks<F>, i: nat, l: nat, h: Hook<F>, m: Option<nat>, last: Outcome, s: State<F, N, S>)
    requires i < |hooks| && l < |hooks[i]| && AllOnce(hooks) && Once(h)
    requires Valid(s, |hooks|) && Filled(s, i) && InPool(m, s)
    ensures
      var r := RunHook(env, hooks, i, l, h, m, last, s);
      OneCallAtMost(hooks, i, l + 1, s.calls, r.s.calls, r.trace)
    decreases |hooks| - i, |hooks[i]| - l, 0, h
  {
    hide EntersAll; hide AllOnce;
    match h
    case Return(_) =>
    case Branch(test, yes, no) =>
      NoCallInHook(env, hooks, i, l, if Test(test, m, s.pool) then yes else no, m, last, s);
    case Edit(edit, rest) =>
      NoCallInHook(env, hooks, i, l, rest, m, last, s.(pool := EditPool(edit, m, s.pool)));
    case Next(arg, onOk, onErr) =>
      var m1 := Resolve(arg, m, |s.pool|);
      var r := Mutate(env, hooks, i, l + 1, m1, s);
      NoCallAfterRefusal(env, hooks, i, l + 1, m1, s);
      SilentCallsNothing(env, hooks, i, l, if r.out.Ok? then onOk else onErr, m, r.out, r.s);
      assert r.trace + [] == r.trace;
  }

  lemma {:induction false} NoCallBelow<F(!new), N, S>(
    env: Env<F, N, S>, hooks: Hooks<F>, i: nat, m: Option<nat>, s: State<F, N, S>)
    requires i < |hooks| && AllOnce(hooks)
    requires Valid(s, |hooks|) && Filled(s, i) && InPool(m, s)
    ensures
      var r := Core(env, hooks, i, m, s);
      OneCallAtMost(hooks, i, |hooks[i]|, s.calls, r.s.calls, [CoreIn(i)] + r.trace + [CoreOut(i)])
    decreases |hooks| - i, 0, 0
  {
    hide Grows; hide Filled; hide AllOnce;
    if m.Some? && env.check(s.pool[s.cur[i]].fields).Ok? && i + 1 < |hooks| {
      var s1 := Build(env, i, m.value, s);
      NoCallAfterRefusal(env, hooks, i + 1, 0, Some(s1.cur[i + 1]), s1);
    }
  }
}
