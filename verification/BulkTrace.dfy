// The order of events in a bulk save.

module BulkTrace {
  import opened Wrappers
  import opened BulkSpec
  import opened BulkRefinement
  import opened BulkTheorems

  // ----- Any hooks: the trace is well nested -----

  // Where a call of mutator (i, l) may start, given the calls that are open: hook l inside
  // hook l-1, hook 0 (or a core without hooks) of builder i inside core i-1.
  predicate Entry<F>(hooks: Hooks<F>, open: seq<Event>, i: nat, l: nat) {
    if l > 0 then open != [] && open[|open| - 1] == HookIn(i, l - 1)
    else if i > 0 then open != [] && open[|open| - 1] == CoreIn(i - 1)
    else open == []
  }

  // One event against the stack of open calls; None when the event is out of place.
  function Step<F>(hooks: Hooks<F>, open: seq<Event>, e: Event): Option<seq<Event>> {
    match e
    case HookIn(i, l) =>
      if i < |hooks| && l < |hooks[i]| && Entry(hooks, open, i, l) then Some(open + [e]) else None
    case CoreIn(i) =>
      if i < |hooks| && Entry(hooks, open, i, |hooks[i]|) then Some(open + [e]) else None
    case HookOut(i, l) =>
      if open != [] && open[|open| - 1] == HookIn(i, l) then Some(open[..|open| - 1]) else None
    case CoreOut(i) =>
      if open != [] && open[|open| - 1] == CoreIn(i) then Some(open[..|open| - 1]) else None
    case BatchCreate =>
      if |hooks| > 0 && open != [] && open[|open| - 1] == CoreIn(|hooks| - 1) then Some(open) else None
  }

  function Replay<F>(hooks: Hooks<F>, open: seq<Event>, trace: seq<Event>): Option<seq<Event>>
    decreases |trace|
  {
    if trace == [] then Some(open)
    else
      match Step(hooks, open, trace[0])
      case None => None
      case Some(open') => Replay(hooks, open', trace[1..])
  }

  lemma {:induction false} ReplayConcat<F>(hooks: Hooks<F>, open: seq<Event>, a: seq<Event>, b: seq<Event>)
    ensures Replay(hooks, open, a + b)
         == match Replay(hooks, open, a) case None => None case Some(o) => Replay(hooks, o, b)
    decreases |a|
  {
    if a == [] {
      assert a + b == b;
    } else {
      assert (a + b)[1..] == a[1..] + b;
      match Step(hooks, open, a[0])
      case None =>
      case Some(o) => ReplayConcat(hooks, o, a[1..], b);
    }
  }

  lemma {:induction false} ReplayBracket<F>(hooks: Hooks<F>, open: seq<Event>, e: Event, t: seq<Event>, e': Event)
    requires Step(hooks, open, e) == Some(open + [e])
    requires Replay(hooks, open + [e], t) == Some(open + [e])
    requires Step(hooks, open + [e], e') == Some(open)
    ensures Replay(hooks, open, [e] + t + [e']) == Some(open)
  {
    assert ([e] + t)[1..] == t;
    ReplayConcat(hooks, open, [e] + t, [e']);
    assert [e'][1..] == [];
  }

  // Whatever the hooks do, calls and returns of hooks and cores nest: hooks[0] outermost,
  // all of builder i+1 inside core i, BatchCreate inside the last core.
  lemma {:induction false} WellNested<F(!new), N, S>(
    env: Env<F, N, S>, hooks: Hooks<F>, i: nat, l: nat, m: Option<nat>, s: State<F, N, S>, open: seq<Event>)
    requires i < |hooks| && l <= |hooks[i]|
    requires Valid(s, |hooks|) && Filled(s, i) && InPool(m, s)
    requires Entry(hooks, open, i, l)
    ensures Replay(hooks, open, Mutate(env, hooks, i, l, m, s).trace) == Some(open)
    decreases |hooks| - i, |hooks[i]| - l, 1
  {
    hide Grows; hide Filled;
    if l == |hooks[i]| {
      var r := Core(env, hooks, i, m, s);
      CoreNested(env, hooks, i, m, s, open + [CoreIn(i)]);
      assert (open + [CoreIn(i)])[..|open|] == open;
      ReplayBracket(hooks, open, CoreIn(i), r.trace, CoreOut(i));
    } else {
      var r := RunHook(env, hooks, i, l, hooks[i][l], m, Ok, s);
      HookNested(env, hooks, i, l, hooks[i][l], m, Ok, s, open + [HookIn(i, l)]);
      assert (open + [HookIn(i, l)])[..|open|] == open;
      ReplayBracket(hooks, open, HookIn(i, l), r.trace, HookOut(i, l));
    }
  }

  lemma {:induction false} HookNested<F(!new), N, S>(
    env: Env<F, N, S>, hooks: Hooks<F>, i: nat, l: nat, h: Hook<F>, m: Option<nat>, last: Outcome,
    s: State<F, N, S>, open: seq<Event>)
    requires i < |hooks| && l < |hooks[i]|
    requires Valid(s, |hooks|) && Filled(s, i) && InPool(m, s)
    requires Entry(hooks, open, i, l + 1)
    ensures Replay(hooks, open, RunHook(env, hooks, i, l, h, m, last, s).trace) == Some(open)
    decreases |hooks| - i, |hooks[i]| - l, 0, h
  {
    match h
    case Return(_) =>
    case Branch(test, yes, no) =>
      HookNested(env, hooks, i, l, if Test(test, m, s.pool) then yes else no, m, last, s, open);
    case Edit(edit, rest) =>
      HookNested(env, hooks, i, l, rest, m, last, s.(pool := EditPool(edit, m, s.pool)), open);
    case Next(arg, onOk, onErr) =>
      var r := Mutate(env, hooks, i, l + 1, Resolve(arg, m, |s.pool|), s);
      WellNested(env, hooks, i, l + 1, Resolve(arg, m, |s.pool|), s, open);
      var h' := if r.out.Ok? then onOk else onErr;
      HookNested(env, hooks, i, l, h', m, r.out, r.s, open);
      ReplayConcat(hooks, open, r.trace, RunHook(env, hooks, i, l, h', m, r.out, r.s).trace);
  }

  lemma TraceOfCore<F(!new), N, S>(env: Env<F, N, S>, hooks: Hooks<F>, i: nat, m: Option<nat>, s: State<F, N, S>)
    requires i < |hooks|
    requires Valid(s, |hooks|) && Filled(s, i) && InPool(m, s)
    ensures
      Core(env, hooks, i, m, s).trace
      == if m.None? || env.check(s.pool[s.cur[i]].fields).Err? then []
         else
           var s1 := Build(env, i, m.value, s);
           if i < |hooks| - 1 then Mutate(env, hooks, i + 1, 0, Some(s1.cur[i + 1]), s1).trace else [BatchCreate]
  {
    hide Grows;
  }

  lemma {:induction false} CoreNested<F(!new), N, S>(
    env: Env<F, N, S>, hooks: Hooks<F>, i: nat, m: Option<nat>, s: State<F, N, S>, open: seq<Event>)
    requires i < |hooks|
    requires Valid(s, |hooks|) && Filled(s, i) && InPool(m, s)
    requires open != [] && open[|open| - 1] == CoreIn(i)
    ensures Replay(hooks, open, Core(env, hooks, i, m, s).trace) == Some(open)
    decreases |hooks| - i, 0, 0
  {
    hide Core; hide Grows;
    TraceOfCore(env, hooks, i, m, s);
    if m.Some? && env.check(s.pool[s.cur[i]].fields).Ok? {
      var s1 := Build(env, i, m.value, s);
      if i < |hooks| - 1 {
        WellNested(env, hooks, i + 1, 0, Some(s1.cur[i + 1]), s1, open);
      } else {
        assert [BatchCreate][1..] == [];
      }
    }
  }

  // ----- Disciplined hooks: the exact trace -----

  // Calls entered from mutator (i, l) down to core `stop`.
  function Ins<F>(hooks: Hooks<F>, i: nat, l: nat, stop: nat): (r: seq<Event>)
    requires i <= stop < |hooks| && l <= |hooks[i]|
    decreases stop - i, |hooks[i]| - l
  {
    if l < |hooks[i]| then [HookIn(i, l)] + Ins(hooks, i, l + 1, stop)
    else [CoreIn(i)] + if i < stop then Ins(hooks, i + 1, 0, stop) else []
  }

  function Out(e: Event): Event {
    match e
    case HookIn(i, l) => HookOut(i, l)
    case CoreIn(i) => CoreOut(i)
    case _ => e
  }

  // The matching returns, last entered first.
  function Outs(ins: seq<Event>): (r: seq<Event>)
    ensures |r| == |ins| && forall k | 0 <= k < |ins| :: r[k] == Out(ins[|ins| - 1 - k])
  {
    if ins == [] then [] else Outs(ins[1..]) + [Out(ins[0])]
  }

  // Where the descent through n cores stops: at the first that finds its check failing or is
  // handed a foreign mutation, else at the last.
  ghost function Stop<F(!new), N, S>(env: Env<F, N, S>, vs: seq<Visit<F>>, n: nat): (k: nat)
    requires n > 0 && |vs| <= n
    ensures k < n && k <= |vs|
    ensures forall j | 0 <= j < k :: env.check(vs[j].held).Ok?
    ensures k < n - 1 && k < |vs| ==> env.check(vs[k].held).Err?
  {
    if vs == [] || n == 1 || env.check(vs[0].held).Err? then 0 else 1 + Stop(env, vs[1..], n - 1)
  }

  function Ladder<F>(hooks: Hooks<F>, i: nat, l: nat, stop: nat, sent: bool): seq<Event>
    requires i <= stop < |hooks| && l <= |hooks[i]|
  {
    var ins := Ins(hooks, i, l, stop);
    ins + (if sent then [BatchCreate] else []) + Outs(ins)
  }

  lemma LadderRung(e: Event, ins: seq<Event>, mid: seq<Event>)
    ensures ([e] + ins) + mid + Outs([e] + ins) == [e] + (ins + mid + Outs(ins)) + [Out(e)]
  {
    assert ([e] + ins)[1..] == ins;
  }

  lemma StopNow<F(!new), N, S>(env: Env<F, N, S>, vs: seq<Visit<F>>, n: nat)
    requires n > 0 && |vs| <= n
    ensures vs == [] || n == 1 || env.check(vs[0].held).Err? ==> Stop(env, vs, n) == 0
  {
  }

  lemma StopStep<F(!new), N, S>(env: Env<F, N, S>, v: Visit<F>, vs: seq<Visit<F>>, n: nat)
    requires env.check(v.held).Ok? && n > 0 && |vs| <= n
    ensures Stop(env, [v] + vs, n + 1) == 1 + Stop(env, vs, n)
  {
    assert ([v] + vs)[1..] == vs;
  }

  // Each hook of each builder up to the stop runs once, outermost first; then comes at most
  // one BatchCreate; then everything returns in reverse order.
  lemma {:induction false} ExactTrace<F(!new), N, S>(
    env: Env<F, N, S>, hooks: Hooks<F>, i: nat, l: nat, m: Option<nat>, s: State<F, N, S>)
    requires i < |hooks| && l <= |hooks[i]| && AllDisciplined(hooks)
    requires Valid(s, |hooks|) && Filled(s, i) && InPool(m, s)
    ensures
      var r := Route(hooks, i, l, m, s.pool, s.cur);
      Climbs(env, hooks, i, l, r, Mutate(env, hooks, i, l, m, s).trace)
    decreases |hooks| - i, |hooks[i]| - l, 1
  {
    hide Grows; hide AllPass; hide Route; hide Mutate; hide Filled; hide Pre; hide Disciplined; hide WithPool; hide Climbs;
    if l < |hooks[i]| {
      var w := Pre(hooks[i][l], m, s.pool);
      var m1 := Resolve(w.arg, m, |s.pool|);
      RouteHook(hooks, i, l, m, s.pool, s.cur);
      WithPoolIs(s, w.pool);
      HookTrace(env, hooks, i, l, m, s);
      var r := Route(hooks, i, l + 1, m1, w.pool, s.cur);
      ExactTrace(env, hooks, i, l + 1, m1, WithPool(s, w.pool));
      ClimbsOut(env, hooks, i, l, r, HookOpen(i, l, m, w.onOk, w.onErr, r.open),
                Mutate(env, hooks, i, l + 1, m1, WithPool(s, w.pool)).trace);
    } else {
      ExactTraceCore(env, hooks, i, m, s);
    }
  }

  lemma ClimbsOut<F(!new), N, S>(
    env: Env<F, N, S>, hooks: Hooks<F>, i: nat, l: nat, r: Routed<F>, o: Open<F>, inner: seq<Event>)
    requires i < |hooks| && l < |hooks[i]| && |r.visits| <= |hooks| - i
    requires Climbs(env, hooks, i, l + 1, r, inner)
    ensures Climbs(env, hooks, i, l, r.(open := o), [HookIn(i, l)] + inner + [HookOut(i, l)])
  {
    hide Ladder; hide Stop; hide AllPass;
    AllPassIgnoresOpen(env, r, o);
    LadderHook(hooks, i, l, i + Stop(env, r.visits, |hooks| - i), AllPass(env, r));
  }

  lemma HookTrace<F(!new), N, S>(env: Env<F, N, S>, hooks: Hooks<F>, i: nat, l: nat, m: Option<nat>, s: State<F, N, S>)
    requires i < |hooks| && l < |hooks[i]| && AllDisciplined(hooks)
    requires Valid(s, |hooks|) && Filled(s, i) && InPool(m, s)
    ensures
      var w := Pre(hooks[i][l], m, s.pool);
      var r := Mutate(env, hooks, i, l + 1, Resolve(w.arg, m, |s.pool|), WithPool(s, w.pool));
      Mutate(env, hooks, i, l, m, s).trace == [HookIn(i, l)] + r.trace + [HookOut(i, l)]
  {
    hide Grows;
    var w := Pre(hooks[i][l], m, s.pool);
    HookAround(env, hooks, i, l, m, s);
    var t := Mutate(env, hooks, i, l + 1, Resolve(w.arg, m, |s.pool|), WithPool(s, w.pool)).trace;
    assert t + [] == t;
  }

  lemma LadderHook<F>(hooks: Hooks<F>, i: nat, l: nat, stop: nat, sent: bool)
    requires i <= stop < |hooks| && l < |hooks[i]|
    ensures Ladder(hooks, i, l, stop, sent)
         == [HookIn(i, l)] + Ladder(hooks, i, l + 1, stop, sent) + [HookOut(i, l)]
  {
    LadderRung(HookIn(i, l), Ins(hooks, i, l + 1, stop), if sent then [BatchCreate] else []);
  }

  lemma CoreTrace<F(!new), N, S>(env: Env<F, N, S>, hooks: Hooks<F>, i: nat, m: Option<nat>, s: State<F, N, S>)
    requires i < |hooks| && Valid(s, |hooks|) && Filled(s, i) && InPool(m, s)
    ensures
      var t := Mutate(env, hooks, i, |hooks[i]|, m, s).trace;
      if m.None? || env.check(s.pool[s.cur[i]].fields).Err? then t == [CoreIn(i)] + [] + [CoreOut(i)]
      else if i == |hooks| - 1 then t == [CoreIn(i)] + [BatchCreate] + [CoreOut(i)]
      else
        var s1 := Build(env, i, m.value, s);
        t == [CoreIn(i)] + Mutate(env, hooks, i + 1, 0, Some(s1.cur[i + 1]), s1).trace + [CoreOut(i)]
  {
    hide Grows; hide Core;
    TraceOfCore(env, hooks, i, m, s);
  }

  // The trace of mutator (i, l) is the ladder of its route.
  ghost predicate Climbs<F(!new), N, S>(env: Env<F, N, S>, hooks: Hooks<F>, i: nat, l: nat, r: Routed<F>, trace: seq<Event>)
    requires i < |hooks| && l <= |hooks[i]| && |r.visits| <= |hooks| - i
  {
    trace == Ladder(hooks, i, l, i + Stop(env, r.visits, |hooks| - i), AllPass(env, r))
  }

  lemma ClimbsNoFurther<F(!new), N, S>(env: Env<F, N, S>, hooks: Hooks<F>, i: nat, r: Routed<F>, trace: seq<Event>)
    requires i < |hooks| && |r.visits| <= |hooks| - i
    requires Stop(env, r.visits, |hooks| - i) == 0
    requires trace == [CoreIn(i)] + (if AllPass(env, r) then [BatchCreate] else []) + [CoreOut(i)]
    ensures Climbs(env, hooks, i, |hooks[i]|, r, trace)
  {
    hide Ladder; hide Stop; hide AllPass;
    LadderCore(hooks, i, i, AllPass(env, r));
  }

  lemma ClimbsOn<F(!new), N, S>(
    env: Env<F, N, S>, hooks: Hooks<F>, i: nat, v: Visit<F>, r: Routed<F>, o: Open<F>, inner: seq<Event>)
    requires i + 1 < |hooks| && |r.visits| <= |hooks| - i - 1 && env.check(v.held).Ok?
    requires Climbs(env, hooks, i + 1, 0, r, inner)
    ensures
      Climbs(env, hooks, i, |hooks[i]|, r.(visits := [v] + r.visits, open := o), [CoreIn(i)] + inner + [CoreOut(i)])
  {
    hide Ladder; hide Stop; hide AllPass;
    StopStep(env, v, r.visits, |hooks| - i - 1);
    AllPassNext(env, v, r, o);
    LadderCore(hooks, i, i + 1 + Stop(env, r.visits, |hooks| - i - 1), AllPass(env, r));
  }

  lemma {:induction false} ExactTraceCore<F(!new), N, S>(
    env: Env<F, N, S>, hooks: Hooks<F>, i: nat, m: Option<nat>, s: State<F, N, S>)
    requires i < |hooks| && AllDisciplined(hooks)
    requires Valid(s, |hooks|) && Filled(s, i) && InPool(m, s)
    ensures
      var r := Route(hooks, i, |hooks[i]|, m, s.pool, s.cur);
      Climbs(env, hooks, i, |hooks[i]|, r, Mutate(env, hooks, i, |hooks[i]|, m, s).trace)
    decreases |hooks| - i, 0, 0
  {
    hide Grows; hide Mutate; hide Route; hide Build; hide Filled; hide AllPass; hide Stop; hide Onward; hide Climbs;
    RouteCore(hooks, i, m, s.pool, s.cur);
    CoreTrace(env, hooks, i, m, s);
    var r := Route(hooks, i, |hooks[i]|, m, s.pool, s.cur);
    StopNow(env, r.visits, |hooks| - i);
    if m.None? {
      if AllPass(env, r) { PassIsComplete(env, r); }
      ClimbsNoFurther(env, hooks, i, r, Mutate(env, hooks, i, |hooks[i]|, m, s).trace);
    } else {
      var v := Visit(s.pool[s.cur[i]].fields, m.value, s.pool[m.value].fields);
      var r1 := Onward(hooks, i + 1, s.pool, s.cur[i := m.value]);
      AllPassNext(env, v, r1, CoreOpen(i, m.value, r1.open));
      if i == |hooks| - 1 || env.check(v.held).Err? {
        if i == |hooks| - 1 { NothingToPass(env, r1); }
        ClimbsNoFurther(env, hooks, i, r, Mutate(env, hooks, i, |hooks[i]|, m, s).trace);
      } else {
        var s1 := Build(env, i, m.value, s);
        BuildIs(env, i, m.value, s);
        BelowIs(env, hooks, i + 1, s1);
        ExactTrace(env, hooks, i + 1, 0, Some(s1.cur[i + 1]), s1);
        ClimbsOn(env, hooks, i, v, r1, CoreOpen(i, m.value, r1.open),
                 Mutate(env, hooks, i + 1, 0, Some(s1.cur[i + 1]), s1).trace);
      }
    }
  }

  lemma LadderCore<F>(hooks: Hooks<F>, i: nat, stop: nat, sent: bool)
    requires i <= stop < |hooks|
    ensures
      var inner := if i < stop then Ladder(hooks, i + 1, 0, stop, sent) else if sent then [BatchCreate] else [];
      Ladder(hooks, i, |hooks[i]|, stop, sent) == [CoreIn(i)] + inner + [CoreOut(i)]
  {
    LadderRung(CoreIn(i), if i < stop then Ins(hooks, i + 1, 0, stop) else [], if sent then [BatchCreate] else []);
  }
}
