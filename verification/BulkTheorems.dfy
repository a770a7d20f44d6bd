// Main results about APIKeyCreateBulk.Save.

module BulkTheorems {
  import opened Wrappers
  import opened BulkSpec
  import opened BulkRefinement

  // ----- Where disciplined hooks route the descent -----

  // Core k: the fields its builder holds when it is reached, which it checks, and the
  // mutation its hooks hand it, from whose fields it builds the node and the spec.
  datatype Visit<F> = Visit(held: F, to: nat, given: F)

  // visits: the cores reached if every check passes, all of them when complete; otherwise
  // the next core was handed a foreign mutation. pool and cur: the mutations and the
  // builders' pointers after that; open: the calls open then.
  datatype Routed<!F> =
    Routed(visits: seq<Visit<F>>, complete: bool, pool: seq<Mutation<F>>, cur: seq<nat>, open: Open<F>)

  // A plain loop over the builders and their hooks that applies the edits made before next.
  // Neither the checks nor BatchCreate play a part in it.
  ghost function Route<F(!new)>(hooks: Hooks<F>, i: nat, l: nat, m: Option<nat>, pool: seq<Mutation<F>>,
                                cur: seq<nat>): (r: Routed<F>)
    requires AllDisciplined(hooks) && |cur| == |hooks| && i < |hooks| && l <= |hooks[i]|
    requires (forall k | 0 <= k < |cur| :: cur[k] < |pool|) && Names(m, pool)
    ensures SameMarks(pool, r.pool) && Framed(r.open, |pool|) && |r.cur| == |cur|
    ensures r.cur[..i] == cur[..i] && forall k | 0 <= k < |cur| :: r.cur[k] < |pool|
    ensures |r.visits| <= |hooks| - i && (r.complete <==> |r.visits| == |hooks| - i)
    ensures forall k | 0 <= k < |r.visits| :: r.cur[i + k] == r.visits[k].to
    decreases |hooks| - i, |hooks[i]| - l, 1
  {
    if l < |hooks[i]| then
      var w := Pre(hooks[i][l], m, pool);
      var r := Route(hooks, i, l + 1, Resolve(w.arg, m, |pool|), w.pool, cur);
      r.(open := HookOpen(i, l, m, w.onOk, w.onErr, r.open))
    else if m.None? then Routed([], false, pool, cur, Bottom)
    else
      var r := Onward(hooks, i + 1, pool, cur[i := m.value]);
      assert r.cur[..i] == r.cur[..i + 1][..i] && r.cur[i] == r.cur[..i + 1][i];
      Routed([Visit(pool[cur[i]].fields, m.value, pool[m.value].fields)] + r.visits, r.complete, r.pool, r.cur,
             CoreOpen(i, m.value, r.open))
  }

  ghost function Onward<F(!new)>(hooks: Hooks<F>, i: nat, pool: seq<Mutation<F>>, cur: seq<nat>): (r: Routed<F>)
    requires AllDisciplined(hooks) && |cur| == |hooks| && i <= |hooks|
    requires forall k | 0 <= k < |cur| :: cur[k] < |pool|
    ensures SameMarks(pool, r.pool) && Framed(r.open, |pool|) && |r.cur| == |cur|
    ensures r.cur[..i] == cur[..i] && forall k | 0 <= k < |cur| :: r.cur[k] < |pool|
    ensures |r.visits| <= |hooks| - i && (r.complete <==> |r.visits| == |hooks| - i)
    ensures forall k | 0 <= k < |r.visits| :: r.cur[i + k] == r.visits[k].to
    decreases |hooks| - i, if i < |hooks| then |hooks[i]| else 0, 2
  {
    if i == |hooks| then Routed([], true, pool, cur, Bottom) else Route(hooks, i, 0, Some(cur[i]), pool, cur)
  }

  // Every core is reached with a mutation of the right type and finds its check passing.
  ghost predicate AllPass<F(!new), N, S>(env: Env<F, N, S>, r: Routed<F>) {
    r.complete && forall k | 0 <= k < |r.visits| :: env.check(r.visits[k].held).Ok?
  }

  ghost function Given<F(!new)>(vs: seq<Visit<F>>): (fs: seq<F>)
    ensures |fs| == |vs| && forall k | 0 <= k < |vs| :: fs[k] == vs[k].given
  {
    seq(|vs|, k requires 0 <= k < |vs| => vs[k].given)
  }

  ghost function Nodes<F(!new), N, S>(env: Env<F, N, S>, fs: seq<F>): (r: seq<Node<N>>)
    ensures |r| == |fs| && forall k | 0 <= k < |fs| :: r[k] == Node(env.node(fs[k]), 0)
  {
    seq(|fs|, k requires 0 <= k < |fs| => Node(env.node(fs[k]), 0))
  }

  ghost function Slots(base: nat, n: nat): (r: seq<Option<nat>>)
    ensures |r| == n && forall k | 0 <= k < n :: r[k] == Some(base + k)
  {
    seq(n, k requires 0 <= k < n => Some(base + k))
  }

  ghost function Specs<F(!new), N, S>(env: Env<F, N, S>, fs: seq<F>): (r: seq<Option<Spec<S>>>)
    ensures |r| == |fs| && forall k | 0 <= k < |fs| :: r[k] == Some(Spec(env.spec(fs[k]), None))
  {
    seq(|fs|, k requires 0 <= k < |fs| => Some(Spec(env.spec(fs[k]), None)))
  }

  // The state handed to BatchCreate when every check passed.
  ghost function Full<F(!new), N, S>(env: Env<F, N, S>, i: nat, r: Routed<F>, s: State<F, N, S>): State<F, N, S>
    requires i <= |s.nodes| && i <= |s.specs|
  {
    var fs := Given(r.visits);
    s.(pool := r.pool,
       cur := r.cur,
       heap := s.heap + Nodes(env, fs),
       nodes := s.nodes[..i] + Slots(|s.heap|, |fs|),
       specs := s.specs[..i] + Specs(env, fs))
  }

  lemma Shifted<T>(a: seq<T>, i: nat, x: T, xs: seq<T>, ys: seq<T>)
    requires i < |a| && |ys| == |xs| + 1 && ys[0] == x && forall k | 0 <= k < |xs| :: ys[k + 1] == xs[k]
    ensures a[i := x][..i + 1] + xs == a[..i] + ys
  {
  }

  lemma FullNext<F(!new), N, S>(env: Env<F, N, S>, i: nat, r: Routed<F>, v: Visit<F>, o: Open<F>, s: State<F, N, S>)
    requires Valid(s, |s.cur|) && i < |s.cur| && Filled(s, i) && |r.visits| == |s.cur| - i - 1
    requires v.to < |s.pool| && v.given == s.pool[v.to].fields
    ensures
      Full(env, i, r.(visits := [v] + r.visits, open := o), s) == Full(env, i + 1, r, Build(env, i, v.to, s))
  {
    hide Given; hide Nodes; hide Slots; hide Specs;
    var vs := [v] + r.visits;
    var fs, gs := Given(r.visits), Given(vs);
    GivenNext(v, r.visits);
    NodesNext(env, v.given, fs);
    Shifted(s.nodes, i, Some(|s.heap|), Slots(|s.heap| + 1, |fs|), Slots(|s.heap|, |gs|));
    Shifted(s.specs, i, Some(Spec(env.spec(v.given), None)), Specs(env, fs), Specs(env, gs));
    AppendCons(s.heap, Node(env.node(v.given), 0), Nodes(env, fs));
  }

  lemma GivenNext<F(!new)>(v: Visit<F>, vs: seq<Visit<F>>)
    ensures Given([v] + vs) == [v.given] + Given(vs)
  {
  }

  lemma NodesNext<F(!new), N, S>(env: Env<F, N, S>, f: F, fs: seq<F>)
    ensures Nodes(env, [f] + fs) == [Node(env.node(f), 0)] + Nodes(env, fs)
  {
  }

  lemma AppendCons<T>(a: seq<T>, x: T, b: seq<T>)
    ensures a + ([x] + b) == a + [x] + b
  {
  }

  lemma FullDone<F(!new), N, S>(env: Env<F, N, S>, s: State<F, N, S>)
    requires |s.nodes| == |s.specs|
    ensures Full(env, |s.specs|, Routed([], true, s.pool, s.cur, Bottom), s) == s
  {
    assert s.nodes[..|s.nodes|] == s.nodes && s.specs[..|s.specs|] == s.specs;
  }

  lemma FullIgnoresPool<F(!new), N, S>(env: Env<F, N, S>, i: nat, r: Routed<F>, o: Open<F>, s: State<F, N, S>, t: State<F, N, S>)
    requires i <= |s.nodes| && i <= |s.specs| && t == s.(pool := t.pool)
    ensures Full(env, i, r, t) == Full(env, i, r.(open := o), s)
  {
  }

  // ----- The descent follows the route -----

  lemma RouteHook<F(!new)>(hooks: Hooks<F>, i: nat, l: nat, m: Option<nat>, pool: seq<Mutation<F>>, cur: seq<nat>)
    requires AllDisciplined(hooks) && |cur| == |hooks| && i < |hooks| && l < |hooks[i]|
    requires (forall k | 0 <= k < |cur| :: cur[k] < |pool|) && Names(m, pool)
    ensures
      var w := Pre(hooks[i][l], m, pool);
      var r := Route(hooks, i, l + 1, Resolve(w.arg, m, |pool|), w.pool, cur);
      Route(hooks, i, l, m, pool, cur) == r.(open := HookOpen(i, l, m, w.onOk, w.onErr, r.open))
  {
  }

  lemma RouteCore<F(!new)>(hooks: Hooks<F>, i: nat, m: Option<nat>, pool: seq<Mutation<F>>, cur: seq<nat>)
    requires AllDisciplined(hooks) && |cur| == |hooks| && i < |hooks|
    requires (forall k | 0 <= k < |cur| :: cur[k] < |pool|) && Names(m, pool)
    ensures
      var r := Route(hooks, i, |hooks[i]|, m, pool, cur);
      match m
      case None => r == Routed([], false, pool, cur, Bottom)
      case Some(to) =>
        var r' := Onward(hooks, i + 1, pool, cur[i := to]);
        r == r'.(visits := [Visit(pool[cur[i]].fields, to, pool[to].fields)] + r'.visits, open := CoreOpen(i, to, r'.open))
  {
  }

  lemma AllPassNext<F(!new), N, S>(env: Env<F, N, S>, v: Visit<F>, r: Routed<F>, o: Open<F>)
    ensures AllPass(env, r.(visits := [v] + r.visits, open := o)) <==> env.check(v.held).Ok? && AllPass(env, r)
  {
    var vs := [v] + r.visits;
    assert vs[0] == v && forall k | 0 <= k < |r.visits| :: vs[k + 1] == r.visits[k];
  }

  lemma DownHook<F(!new), N, S>(env: Env<F, N, S>, hooks: Hooks<F>, i: nat, l: nat, m: Option<nat>, s: State<F, N, S>)
    requires i < |hooks| && l < |hooks[i]| && AllDisciplined(hooks)
    requires Valid(s, |hooks|) && Filled(s, i) && InPool(m, s)
    ensures
      var w := Pre(hooks[i][l], m, s.pool);
      var d := Down(env, hooks, i, l, m, s);
      var d' := Down(env, hooks, i, l + 1, Resolve(w.arg, m, |s.pool|), WithPool(s, w.pool));
      d.s == d'.s && d.out == d'.out && d.open == HookOpen(i, l, m, w.onOk, w.onErr, d'.open)
  {
    hide Grows; hide Filled; hide Resumable;
  }

  lemma DownAtCore<F(!new), N, S>(env: Env<F, N, S>, hooks: Hooks<F>, i: nat, m: Option<nat>, s: State<F, N, S>)
    requires i < |hooks| && AllDisciplined(hooks)
    requires Valid(s, |hooks|) && Filled(s, i) && InPool(m, s)
    ensures
      var d := Down(env, hooks, i, |hooks[i]|, m, s);
      if m.None? || env.check(s.pool[s.cur[i]].fields).Err? then
        && d.s == s && d.open == Bottom
        && d.out == if m.None? then Err(UnexpectedMutationType) else env.check(s.pool[s.cur[i]].fields)
      else
        var d' := Below(env, hooks, i + 1, Build(env, i, m.value, s));
        d.s == d'.s && d.out == d'.out && d.open == CoreOpen(i, m.value, d'.open)
  {
    hide Grows; hide Filled; hide Resumable; hide Build; hide Below;
  }

  lemma WithPoolIs<F(!new), N, S>(s: State<F, N, S>, pool: seq<Mutation<F>>)
    requires SameMarks(s.pool, pool)
    ensures WithPool(s, pool) == s.(pool := pool)
  {
  }

  lemma BuildIs<F(!new), N, S>(env: Env<F, N, S>, i: nat, m: nat, s: State<F, N, S>)
    requires Valid(s, |s.cur|) && i < |s.cur| && m < |s.pool| && Filled(s, i)
    ensures
      var t := Build(env, i, m, s);
      t.pool == s.pool && t.cur == s.cur[i := m] && t.calls == s.calls
  {
  }

  lemma BelowIs<F(!new), N, S>(env: Env<F, N, S>, hooks: Hooks<F>, i: nat, s: State<F, N, S>)
    requires i < |hooks| && AllDisciplined(hooks)
    requires Valid(s, |hooks|) && Filled(s, i)
    ensures Below(env, hooks, i, s) == Down(env, hooks, i, 0, Some(s.cur[i]), s)
    ensures Onward(hooks, i, s.pool, s.cur) == Route(hooks, i, 0, Some(s.cur[i]), s.pool, s.cur)
  {
  }

  ghost predicate Rejects<F(!new), N, S>(s: State<F, N, S>, d: Descent<F, N, S>) {
    d.out.Err? && d.s.calls == s.calls && SameMarks(s.pool, d.s.pool)
  }

  // The descent stops, before any call, as soon as one check fails or one core is handed a
  // foreign mutation.
  lemma {:induction false} DownRejects<F(!new), N, S>(
    env: Env<F, N, S>, hooks: Hooks<F>, i: nat, l: nat, m: Option<nat>, s: State<F, N, S>)
    requires i < |hooks| && l <= |hooks[i]| && AllDisciplined(hooks)
    requires Valid(s, |hooks|) && Filled(s, i) && InPool(m, s)
    requires !AllPass(env, Route(hooks, i, l, m, s.pool, s.cur))
    ensures Rejects(s, Down(env, hooks, i, l, m, s))
    decreases |hooks| - i, |hooks[i]| - l
  {
    hide Grows; hide Filled; hide Resumable; hide AllPass; hide Down; hide Route; hide Build; hide WithPool; hide Below;
    if l < |hooks[i]| {
      var w := Pre(hooks[i][l], m, s.pool);
      DownHook(env, hooks, i, l, m, s);
      RouteHook(hooks, i, l, m, s.pool, s.cur);
      WithPoolIs(s, w.pool);
      var r := Route(hooks, i, l + 1, Resolve(w.arg, m, |s.pool|), w.pool, s.cur);
      AllPassIgnoresOpen(env, r, HookOpen(i, l, m, w.onOk, w.onErr, r.open));
      DownRejects(env, hooks, i, l + 1, Resolve(w.arg, m, |s.pool|), WithPool(s, w.pool));
    } else {
      DownAtCore(env, hooks, i, m, s);
      if m.Some? && env.check(s.pool[s.cur[i]].fields).Ok? {
        RouteCore(hooks, i, m, s.pool, s.cur);
        var r := Onward(hooks, i + 1, s.pool, s.cur[i := m.value]);
        AllPassNext(env, Visit(s.pool[s.cur[i]].fields, m.value, s.pool[m.value].fields), r, CoreOpen(i, m.value, r.open));
        BuildIs(env, i, m.value, s);
        if i + 1 < |hooks| {
          var s1 := Build(env, i, m.value, s);
          BelowIs(env, hooks, i + 1, s1);
          DownRejects(env, hooks, i + 1, 0, Some(s1.cur[i + 1]), s1);
        } else {
          NothingToPass(env, r);
        }
      }
    }
  }

  lemma AllPassIgnoresOpen<F(!new), N, S>(env: Env<F, N, S>, r: Routed<F>, o: Open<F>)
    ensures AllPass(env, r.(open := o)) <==> AllPass(env, r)
  {
  }

  lemma NothingToPass<F(!new), N, S>(env: Env<F, N, S>, r: Routed<F>)
    requires r.complete && r.visits == []
    ensures AllPass(env, r)
  {
  }

  ghost predicate Sends<F(!new), N, S>(env: Env<F, N, S>, t: State<F, N, S>, d: Descent<F, N, S>) {
    && Valid(t, |t.cur|) && Filled(t, |t.cur|)
    && d.s == Batch(env, t).s && d.out == Batch(env, t).out
  }

  lemma SameSends<F(!new), N, S>(env: Env<F, N, S>, t: State<F, N, S>, d: Descent<F, N, S>, d': Descent<F, N, S>)
    requires Sends(env, t, d) && d'.s == d.s && d'.out == d.out
    ensures Sends(env, t, d')
  {
  }

  // Otherwise it makes one call, on the state with every node and spec built in order, and
  // leaves open the calls of the route.
  lemma {:induction false} DownSends<F(!new), N, S>(
    env: Env<F, N, S>, hooks: Hooks<F>, i: nat, l: nat, m: Option<nat>, s: State<F, N, S>)
    requires i < |hooks| && l <= |hooks[i]| && AllDisciplined(hooks)
    requires Valid(s, |hooks|) && Filled(s, i) && InPool(m, s)
    requires AllPass(env, Route(hooks, i, l, m, s.pool, s.cur))
    ensures
      var r := Route(hooks, i, l, m, s.pool, s.cur);
      var d := Down(env, hooks, i, l, m, s);
      Sends(env, Full(env, i, r, s), d) && d.open == r.open
    decreases |hooks| - i, |hooks[i]| - l
  {
    hide Grows; hide Filled; hide Resumable; hide Sends; hide Full; hide AllPass; hide Down; hide Route; hide Build;
    hide WithPool; hide Below;
    if l < |hooks[i]| {
      var w := Pre(hooks[i][l], m, s.pool);
      DownHook(env, hooks, i, l, m, s);
      RouteHook(hooks, i, l, m, s.pool, s.cur);
      WithPoolIs(s, w.pool);
      var m1, s1 := Resolve(w.arg, m, |s.pool|), WithPool(s, w.pool);
      var r := Route(hooks, i, l + 1, m1, w.pool, s.cur);
      var o := HookOpen(i, l, m, w.onOk, w.onErr, r.open);
      AllPassIgnoresOpen(env, r, o);
      DownSends(env, hooks, i, l + 1, m1, s1);
      FullIgnoresPool(env, i, r, o, s, s1);
      SameSends(env, Full(env, i, r, s1), Down(env, hooks, i, l + 1, m1, s1), Down(env, hooks, i, l, m, s));
    } else {
      SendsAtCore(env, hooks, i, m, s);
      if i + 1 < |hooks| {
        var s1 := Build(env, i, m.value, s);
        PassIsComplete(env, Route(hooks, i + 1, 0, Some(s1.cur[i + 1]), s1.pool, s1.cur));
        DownSends(env, hooks, i + 1, 0, Some(s1.cur[i + 1]), s1);
        CoreSends(env, hooks, i, m.value, s);
      }
    }
  }

  // The last core makes the call; the others leave it to the route that follows.
  lemma SendsAtCore<F(!new), N, S>(env: Env<F, N, S>, hooks: Hooks<F>, i: nat, m: Option<nat>, s: State<F, N, S>)
    requires i < |hooks| && AllDisciplined(hooks)
    requires Valid(s, |hooks|) && Filled(s, i) && InPool(m, s)
    requires AllPass(env, Route(hooks, i, |hooks[i]|, m, s.pool, s.cur))
    ensures m.Some? && env.check(s.pool[s.cur[i]].fields).Ok?
    ensures
      i + 1 < |hooks| ==>
        var s1 := Build(env, i, m.value, s);
        AllPass(env, Route(hooks, i + 1, 0, Some(s1.cur[i + 1]), s1.pool, s1.cur))
    ensures
      i + 1 == |hooks| ==>
        var r := Route(hooks, i, |hooks[i]|, m, s.pool, s.cur);
        var d := Down(env, hooks, i, |hooks[i]|, m, s);
        Sends(env, Full(env, i, r, s), d) && d.open == r.open
  {
    hide Grows; hide Resumable; hide Full; hide AllPass; hide Down; hide Route; hide Build; hide Batch; hide Filled;
    RouteCore(hooks, i, m, s.pool, s.cur);
    PassIsComplete(env, Route(hooks, i, |hooks[i]|, m, s.pool, s.cur));
    if m.Some? {
      var r := Onward(hooks, i + 1, s.pool, s.cur[i := m.value]);
      var v := Visit(s.pool[s.cur[i]].fields, m.value, s.pool[m.value].fields);
      AllPassNext(env, v, r, CoreOpen(i, m.value, r.open));
      BuildIs(env, i, m.value, s);
      var s1 := Build(env, i, m.value, s);
      if i + 1 < |hooks| {
        BelowIs(env, hooks, i + 1, s1);
      } else {
        DownAtCore(env, hooks, i, m, s);
        FullNext(env, i, r, v, CoreOpen(i, m.value, r.open), s);
        FullDone(env, s1);
      }
    }
  }

  lemma PassIsComplete<F(!new), N, S>(env: Env<F, N, S>, r: Routed<F>)
    requires AllPass(env, r)
    ensures r.complete
  {
  }

  lemma CoreSends<F(!new), N, S>(env: Env<F, N, S>, hooks: Hooks<F>, i: nat, to: nat, s: State<F, N, S>)
    requires i + 1 < |hooks| && AllDisciplined(hooks)
    requires Valid(s, |hooks|) && Filled(s, i) && InPool(Some(to), s) && env.check(s.pool[s.cur[i]].fields).Ok?
    requires
      var s1 := Build(env, i, to, s);
      var r := Route(hooks, i + 1, 0, Some(s1.cur[i + 1]), s1.pool, s1.cur);
      var d := Down(env, hooks, i + 1, 0, Some(s1.cur[i + 1]), s1);
      r.complete && Sends(env, Full(env, i + 1, r, s1), d) && d.open == r.open
    ensures
      var r := Route(hooks, i, |hooks[i]|, Some(to), s.pool, s.cur);
      var d := Down(env, hooks, i, |hooks[i]|, Some(to), s);
      Sends(env, Full(env, i, r, s), d) && d.open == r.open
  {
    hide Grows; hide Resumable; hide Full; hide Sends; hide Down; hide Route; hide Build; hide Filled; hide Below;
    var s1 := Build(env, i, to, s);
    var v := Visit(s.pool[s.cur[i]].fields, to, s.pool[to].fields);
    BuildIs(env, i, to, s);
    BelowIs(env, hooks, i + 1, s1);
    RouteCore(hooks, i, Some(to), s.pool, s.cur);
    DownAtCore(env, hooks, i, Some(to), s);
    var r := Onward(hooks, i + 1, s1.pool, s1.cur);
    FullNext(env, i, r, v, CoreOpen(i, to, r.open), s);
    SameSends(env, Full(env, i + 1, r, s1), Down(env, hooks, i + 1, 0, Some(s1.cur[i + 1]), s1),
              Down(env, hooks, i, |hooks[i]|, Some(to), s));
  }

  // The open calls hold exactly the cores i, .., |cur|-1, outermost first, each inside the
  // hooks of its builder.
  ghost predicate Spine<F(!new)>(o: Open<F>, i: nat, cur: seq<nat>) {
    match o
    case Bottom => i == |cur|
    case HookOpen(k, _, _, _, _, inner) => k == i < |cur| && Spine(inner, i, cur)
    case CoreOpen(k, to, inner) => k == i < |cur| && to == cur[i] && Spine(inner, i + 1, cur)
  }

  lemma {:induction false} RouteSpine<F(!new)>(
    hooks: Hooks<F>, i: nat, l: nat, m: Option<nat>, pool: seq<Mutation<F>>, cur: seq<nat>)
    requires AllDisciplined(hooks) && |cur| == |hooks| && i < |hooks| && l <= |hooks[i]|
    requires (forall k | 0 <= k < |cur| :: cur[k] < |pool|) && Names(m, pool)
    requires Route(hooks, i, l, m, pool, cur).complete
    ensures
      var r := Route(hooks, i, l, m, pool, cur);
      Spine(r.open, i, r.cur)
    decreases |hooks| - i, |hooks[i]| - l
  {
    hide Framed; hide Route;
    if l < |hooks[i]| {
      RouteHook(hooks, i, l, m, pool, cur);
      var w := Pre(hooks[i][l], m, pool);
      RouteSpine(hooks, i, l + 1, Resolve(w.arg, m, |pool|), w.pool, cur);
    } else {
      RouteCore(hooks, i, m, pool, cur);
      var r := Onward(hooks, i + 1, pool, cur[i := m.value]);
      assert r.cur[i] == r.cur[..i + 1][i];
      if i + 1 < |hooks| { RouteSpine(hooks, i + 1, 0, Some(cur[i + 1]), pool, cur[i := m.value]); }
    }
  }

  // ----- The way back -----

  // What the tails of the open hooks do after a success below them, and the first of them,
  // innermost first, that turns it into an error. The cores play no part in it.
  datatype Risen<F> = Risen(pool: seq<Mutation<F>>, out: Outcome, failed: Option<(nat, nat)>)

  ghost function Rise<F(!new)>(o: Open<F>, pool: seq<Mutation<F>>): (r: Risen<F>)
    requires Framed(o, |pool|)
    ensures SameMarks(pool, r.pool) && (r.out.Ok? <==> r.failed.None?)
  {
    match o
    case Bottom => Risen(pool, Ok, None)
    case HookOpen(i, l, m, onOk, onErr, inner) =>
      var r := Rise(inner, pool);
      var p := Post(if r.out.Ok? then onOk else onErr, m, r.out, r.pool);
      Risen(p.pool, p.out, if r.out.Ok? && p.out.Err? then Some((i, l)) else r.failed)
    case CoreOpen(_, _, inner) => Rise(inner, pool)
  }

  ghost predicate SameFields<F(!new)>(p: seq<Mutation<F>>, q: seq<Mutation<F>>) {
    |p| == |q| && forall a | 0 <= a < |p| :: p[a].fields == q[a].fields
  }

  lemma {:induction false} PostSeesFields<F(!new)>(
    h: Hook<F>, m: Option<nat>, last: Outcome, p: seq<Mutation<F>>, q: seq<Mutation<F>>)
    requires Tail(h, last.Ok?) && Names(m, p) && SameFields(p, q)
    ensures Post(h, m, last, p).out == Post(h, m, last, q).out
    ensures SameFields(Post(h, m, last, p).pool, Post(h, m, last, q).pool)
  {
    match h
    case Return(_) =>
    case Branch(test, yes, no) => PostSeesFields(if Test(test, m, p) then yes else no, m, last, p, q);
    case Edit(edit, rest) => PostSeesFields(rest, m, last, EditPool(edit, m, p), EditPool(edit, m, q));
  }

  // On the way up an error marks no mutation and touches no node.
  lemma {:induction false} UpFails<F(!new), N, S>(o: Open<F>, s: State<F, N, S>, out: Outcome)
    requires Resumable(o, s) && Valid(s, |s.cur|) && out.Err?
    ensures Up(o, s, out).out.Err?
    ensures SameMarks(s.pool, Up(o, s, out).s.pool) && Up(o, s, out).s.heap == s.heap
    decreases o
  {
    match o
    case Bottom =>
    case HookOpen(_, _, _, _, _, inner) => UpFails(inner, s, out);
    case CoreOpen(_, _, inner) => UpFails(inner, s, out);
  }

  // Node k got the ID of spec k, mutation k is done, and its ID points into node k unless
  // an earlier published builder shares the mutation and published later.
  ghost predicate Published<F(!new), N, S>(from: nat, k: nat, s: State<F, N, S>, t: State<F, N, S>)
    requires from <= k < |s.cur| && Valid(s, |s.cur|) && Valid(t, |s.cur|) && Filled(s, |s.cur|)
    requires t.nodes == s.nodes && t.cur == s.cur && |t.heap| == |s.heap| && |t.pool| == |s.pool|
  {
    var n := s.nodes[k].value;
    && t.heap[n] == Node(s.heap[n].data, s.specs[k].value.id.GetOr(s.heap[n].id))
    && t.pool[s.cur[k]].done
    && ((forall j | from <= j < k :: s.cur[j] != s.cur[k]) ==> t.pool[s.cur[k]].id == Some(n))
  }

  // Only the builders from `from` on were published.
  ghost predicate OnlyFrom<F(!new)>(from: nat, cur: seq<nat>, p: seq<Mutation<F>>, q: seq<Mutation<F>>) {
    && |p| == |q|
    && forall a | 0 <= a < |p| :: (forall k | from <= k < |cur| :: cur[k] != a) ==> p[a].done == q[a].done && p[a].id == q[a].id
  }

  ghost predicate DistinctNodes<F(!new), N, S>(s: State<F, N, S>) {
    forall j, k | 0 <= j < k < |s.nodes| :: s.nodes[j] != s.nodes[k]
  }

  // The first builder that is published: that of the hook that fails, else the first.
  ghost function From<F(!new)>(r: Risen<F>, i: nat): nat {
    if r.failed.Some? then r.failed.value.0 else i
  }

  // What the way back from core |cur|-1 up to builder i leaves when BatchCreate succeeded.
  ghost predicate Ascended<F(!new), N, S>(from: nat, i: nat, s: State<F, N, S>, u: Run<F, N, S>, r: Risen<F>)
    requires Valid(s, |s.cur|) && Filled(s, |s.cur|) && Valid(u.s, |s.cur|)
    requires u.s.nodes == s.nodes && u.s.cur == s.cur && |u.s.heap| == |s.heap| && |u.s.pool| == |s.pool|
  {
    && i <= from <= |s.cur| && u.out == r.out && SameFields(u.s.pool, r.pool)
    && OnlyFrom(from, s.cur, s.pool, u.s.pool)
    && (forall k | 0 <= k < from :: u.s.heap[s.nodes[k].value] == s.heap[s.nodes[k].value])
    && (forall k | from <= k < |s.cur| :: Published(from, k, s, u.s))
  }

  lemma AscendedHook<F(!new), N, S>(o: Open<F>, i: nat, s: State<F, N, S>)
    requires o.HookOpen? && Resumable(o, s) && Valid(s, |s.cur|) && Filled(s, |s.cur|) && Spine(o, i, s.cur)
    requires Ascended(From(Rise(o.inner, s.pool), i), i, s, Up(o.inner, s, Ok), Rise(o.inner, s.pool))
    ensures Ascended(From(Rise(o, s.pool), i), i, s, Up(o, s, Ok), Rise(o, s.pool))
  {
    hide Grows; hide Published; hide OnlyFrom; hide SameFields; hide SameMarks;
    var u, r := Up(o.inner, s, Ok), Rise(o.inner, s.pool);
    var h := if r.out.Ok? then o.onOk else o.onErr;
    PostSeesFields(h, o.m, r.out, u.s.pool, r.pool);
    var from := From(r, i);
    assert From(Rise(o, s.pool), i) == from;
    var v := Up(o, s, Ok);
    forall k | from <= k < |s.cur| ensures Published(from, k, s, v.s) {
      PublishedKept(from, k, s, u.s, v.s);
    }
    OnlyFromKept(from, s.cur, s.pool, u.s.pool, v.s.pool);
  }

  lemma PublishedKept<F(!new), N, S>(from: nat, k: nat, s: State<F, N, S>, t: State<F, N, S>, t': State<F, N, S>)
    requires from <= k < |s.cur| && Valid(s, |s.cur|) && Valid(t, |s.cur|) && Filled(s, |s.cur|)
    requires t.nodes == s.nodes && t.cur == s.cur && |t.heap| == |s.heap| && |t.pool| == |s.pool|
    requires Published(from, k, s, t) && SameMarks(t.pool, t'.pool) && t' == t.(pool := t'.pool)
    ensures Valid(t', |s.cur|) && Published(from, k, s, t')
  {
  }

  lemma OnlyFromKept<F(!new)>(from: nat, cur: seq<nat>, p: seq<Mutation<F>>, q: seq<Mutation<F>>, q': seq<Mutation<F>>)
    requires OnlyFrom(from, cur, p, q) && SameMarks(q, q')
    ensures OnlyFrom(from, cur, p, q')
  {
  }

  lemma AscendedCore<F(!new), N, S>(o: Open<F>, i: nat, s: State<F, N, S>)
    requires o.CoreOpen? && Resumable(o, s) && Valid(s, |s.cur|) && Filled(s, |s.cur|) && DistinctNodes(s)
    requires Spine(o, i, s.cur)
    requires Ascended(From(Rise(o.inner, s.pool), i + 1), i + 1, s, Up(o.inner, s, Ok), Rise(o.inner, s.pool))
    ensures Ascended(From(Rise(o, s.pool), i), i, s, Up(o, s, Ok), Rise(o, s.pool))
  {
    hide Grows;
    var u, r := Up(o.inner, s, Ok), Rise(o.inner, s.pool);
    if r.out.Ok? {
      assert Up(o, s, Ok).s == Publish(i, s.cur[i], u.s);
      forall k | i <= k < |s.cur| ensures Published(i, k, s, Publish(i, s.cur[i], u.s)) {
        if k > i { assert Published(i + 1, k, s, u.s); }
      }
      PublishMarks(i, s, u.s);
    }
  }

  lemma PublishMarks<F(!new), N, S>(i: nat, s: State<F, N, S>, t: State<F, N, S>)
    requires Valid(t, |t.cur|) && i < |t.cur| == |s.cur| && t.specs[i].Some? && t.cur == s.cur
    requires OnlyFrom(i + 1, s.cur, s.pool, t.pool)
    ensures OnlyFrom(i, s.cur, s.pool, Publish(i, s.cur[i], t).pool)
    ensures SameFields(t.pool, Publish(i, s.cur[i], t).pool)
  {
  }

  // After a successful BatchCreate every core from the failing hook's builder on, all of them
  // when no hook fails, marks its mutation and numbers its node, and nothing else is marked.
  lemma {:induction false} UpSucceeds<F(!new), N, S>(o: Open<F>, i: nat, s: State<F, N, S>)
    requires Resumable(o, s) && Valid(s, |s.cur|) && Filled(s, |s.cur|)
    requires DistinctNodes(s) && Spine(o, i, s.cur)
    ensures Ascended(From(Rise(o, s.pool), i), i, s, Up(o, s, Ok), Rise(o, s.pool))
    decreases o
  {
    hide Ascended; hide Rise; hide Grows;
    match o
    case Bottom => AscendedBottom(i, s);
    case HookOpen(_, _, _, _, _, inner) =>
      UpSucceeds(inner, i, s);
      AscendedHook(o, i, s);
    case CoreOpen(_, _, inner) =>
      UpSucceeds(inner, i + 1, s);
      AscendedCore(o, i, s);
  }

  lemma AscendedBottom<F(!new), N, S>(i: nat, s: State<F, N, S>)
    requires Valid(s, |s.cur|) && Filled(s, |s.cur|) && i == |s.cur|
    ensures Ascended(From(Rise(Bottom, s.pool), i), i, s, Up(Bottom, s, Ok), Rise(Bottom, s.pool))
  {
  }

  // ----- Save -----

  ghost function Data<F(!new), N, S>(env: Env<F, N, S>, fs: seq<F>): (r: seq<S>)
    ensures |r| == |fs|
  {
    seq(|fs|, k requires 0 <= k < |fs| => env.spec(fs[k]))
  }

  // Builder k's node is the one built from f, carries its ID, and the mutation handed to core
  // k is done, with its ID in that node unless an earlier builder from `from` on shares it.
  ghost predicate Stored<F(!new), N, S>(env: Env<F, N, S>, f: F, id: Option<int>, from: nat, k: nat, s: State<F, N, S>) {
    && k < |s.cur| && k < |s.nodes| && s.cur[k] < |s.pool|
    && s.nodes[k].Some? && s.nodes[k].value < |s.heap|
    && s.heap[s.nodes[k].value] == Node(env.node(f), id.GetOr(0))
    && s.pool[s.cur[k]].done
    && ((forall j | from <= j < k :: s.cur[j] != s.cur[k]) ==> s.pool[s.cur[k]].id == s.nodes[k])
  }

  ghost function IdAt(ids: seq<Option<int>>, k: nat): Option<int> {
    if k < |ids| then ids[k] else None
  }

  // What a successful BatchCreate leaves behind.
  ghost predicate Numbered<F(!new), N, S>(env: Env<F, N, S>, fs: seq<F>, ids: seq<Option<int>>, s: State<F, N, S>) {
    && Valid(s, |s.cur|) && |fs| == |s.cur| == |s.heap|
    && (forall k | 0 <= k < |fs| ::
          && s.nodes[k] == Some(k) && s.heap[k] == Node(env.node(fs[k]), 0)
          && s.specs[k] == Some(Spec(env.spec(fs[k]), IdAt(ids, k))))
  }

  lemma BatchNumbers<F(!new), N, S>(env: Env<F, N, S>, r: Routed<F>, s: State<F, N, S>)
    requires Valid(s, |s.cur|) && |r.visits| == |s.cur| == |r.cur| && SameMarks(s.pool, r.pool)
    requires |s.heap| == 0 && forall k | 0 <= k < |r.cur| :: r.cur[k] < |r.pool|
    ensures
      var fs := Given(r.visits);
      var t := Full(env, 0, r, s);
      && Valid(t, |s.cur|) && Filled(t, |s.cur|)
      && var b := Batch(env, t);
      && b.s.calls == s.calls + [Data(env, fs)] && b.s.pool == r.pool && b.s.cur == r.cur
      && match env.driver(|s.calls|, Data(env, fs))
         case Rejected(constraint) => b.out == Err(if constraint then ConstraintError else DriverError)
         case Created(ids) => b.out.Ok? && Numbered(env, fs, ids, b.s)
  {
    assert SpecData(Full(env, 0, r, s).specs) == Data(env, Given(r.visits));
  }

  // What Save leaves after a successful BatchCreate.
  ghost predicate Settled<F(!new), N, S>(env: Env<F, N, S>, r: Routed<F>, ids: seq<Option<int>>, t: State<F, N, S>, out: Outcome)
    requires Framed(r.open, |r.pool|)
  {
    var after := Rise(r.open, r.pool);
    var from := From(after, 0);
    && out == after.out && t.cur == r.cur
    && (after.failed.Some? ==> from < |r.cur|)
    && OnlyFrom(from, r.cur, r.pool, t.pool)
    && forall k | from <= k < |r.visits| :: Stored(env, r.visits[k].given, IdAt(ids, k), from, k, t)
  }

  lemma {:induction false} AscentSettles<F(!new), N, S>(
    env: Env<F, N, S>, r: Routed<F>, ids: seq<Option<int>>, s: State<F, N, S>)
    requires Numbered(env, Given(r.visits), ids, s) && Resumable(r.open, s) && Spine(r.open, 0, s.cur)
    requires Framed(r.open, |r.pool|)
    requires r.pool == s.pool && r.cur == s.cur && |s.cur| > 0
    ensures Settled(env, r, ids, Up(r.open, s, Ok).s, Up(r.open, s, Ok).out)
  {
    hide Grows; hide Resumable; hide Rise; hide Up; hide OnlyFrom;
    UpSucceeds(r.open, 0, s);
    var after := Rise(r.open, r.pool);
    FailedInside(r.open, 0, s.pool, s.cur);
    var from, t := From(after, 0), Up(r.open, s, Ok).s;
    forall k | from <= k < |s.cur| ensures Stored(env, r.visits[k].given, IdAt(ids, k), from, k, t) {
      assert Published(from, k, s, t);
      assert Given(r.visits)[k] == r.visits[k].given;
    }
  }

  lemma {:induction false} FailedInside<F(!new)>(o: Open<F>, i: nat, pool: seq<Mutation<F>>, cur: seq<nat>)
    requires Framed(o, |pool|) && Spine(o, i, cur)
    ensures Rise(o, pool).failed.Some? ==> i <= Rise(o, pool).failed.value.0 < |cur|
  {
    match o
    case Bottom =>
    case HookOpen(_, _, _, _, _, inner) => FailedInside(inner, i, pool, cur);
    case CoreOpen(_, _, inner) => FailedInside(inner, i + 1, pool, cur);
  }

  lemma {:induction false} DescentSent<F(!new), N, S>(env: Env<F, N, S>, hooks: Hooks<F>, s: State<F, N, S>)
    requires |hooks| == |s.cur| > 0 && AllDisciplined(hooks)
    requires Valid(s, |hooks|) && |s.heap| == 0
    requires AllPass(env, Route(hooks, 0, 0, Some(s.cur[0]), s.pool, s.cur))
    ensures
      var r := Route(hooks, 0, 0, Some(s.cur[0]), s.pool, s.cur);
      var data := Data(env, Given(r.visits));
      var t := TwoPhase(env, hooks, 0, 0, Some(s.cur[0]), s);
      && t.s.calls == s.calls + [data]
      && match env.driver(|s.calls|, data)
         case Rejected(_) => t.out.Err? && SameMarks(s.pool, t.s.pool)
         case Created(ids) => Settled(env, r, ids, t.s, t.out)
  {
    hide Resumable; hide Down; hide Grows; hide Up; hide Batch; hide Full; hide Numbered; hide Settled; hide AllPass;
    hide Route; hide Framed; hide Spine;
    var m := Some(s.cur[0]);
    var r := Route(hooks, 0, 0, m, s.pool, s.cur);
    var d := Down(env, hooks, 0, 0, m, s);
    PassIsComplete(env, r);
    DownSends(env, hooks, 0, 0, m, s);
    BatchNumbers(env, r, s);
    if d.out.Err? {
      UpFails(d.open, d.s, d.out);
    } else {
      RouteSpine(hooks, 0, 0, m, s.pool, s.cur);
      AscentSettles(env, r, env.driver(|s.calls|, Data(env, Given(r.visits))).ids, d.s);
    }
  }

  // The route Save takes through the builders, after their defaults.
  ghost function SaveRoute<F(!new), N, S>(env: Env<F, N, S>, hooks: Hooks<F>, pool: seq<Mutation<F>>, cur: seq<nat>): (r: Routed<F>)
    requires |hooks| == |cur| > 0 && forall i | 0 <= i < |cur| :: cur[i] < |pool|
    requires AllDisciplined(hooks)
    ensures SameMarks(pool, r.pool) && Framed(r.open, |r.pool|)
  {
    Route(hooks, 0, 0, Some(cur[0]), WithDefaults(env.defaults, cur, 0, pool), cur)
  }

  // Bulk save with hooks that call next once, with whatever mutation, and pass its error on.
  // BatchCreate is called exactly when every core gets a mutation of the right type and finds
  // the check of its own passing, and then once, with the specs of the mutations handed down,
  // in builder order; if it is not called, or fails, Save fails and nothing is marked. If it
  // succeeds, Save succeeds exactly when no hook turns that success into an error, and then
  // every builder is stored; otherwise exactly those from the failing hook's builder on are.
  lemma {:induction false} SaveIsAllOrNothing<F(!new), N, S>(
    env: Env<F, N, S>, hooks: Hooks<F>, pool: seq<Mutation<F>>, cur: seq<nat>, calls: seq<seq<S>>)
    requires |hooks| == |cur| > 0 && forall i | 0 <= i < |cur| :: cur[i] < |pool|
    requires AllDisciplined(hooks)
    ensures
      var route := SaveRoute(env, hooks, pool, cur);
      var data := Data(env, Given(route.visits));
      var r := Save(env, None, hooks, pool, cur, calls);
      && (!AllPass(env, route) ==> r.out.Err? && r.s.calls == calls && SameMarks(pool, r.s.pool))
      && (AllPass(env, route) ==>
            && |route.visits| == |cur| && r.s.calls == calls + [data]
            && match env.driver(|calls|, data)
               case Rejected(_) => r.out.Err? && SameMarks(pool, r.s.pool)
               case Created(ids) => Settled(env, route, ids, r.s, r.out))
  {
    hide Grows; hide Resumable; hide AllPass; hide Down; hide Mutate; hide Settled; hide Route; hide Framed;
    var start := WithDefaults(env.defaults, cur, 0, pool);
    var s: State<F, N, S> := Initial(start, cur, calls);
    var m := Some(cur[0]);
    var route := SaveRoute(env, hooks, pool, cur);
    ChainIsTwoPhase(env, hooks, 0, 0, m, s);
    if !AllPass(env, route) {
      var d := Down(env, hooks, 0, 0, m, s);
      DownRejects(env, hooks, 0, 0, m, s);
      UpFails(d.open, d.s, d.out);
    } else {
      PassIsComplete(env, route);
      DescentSent(env, hooks, s);
    }
  }

  // ----- Hooks that also keep the mutation, or the success, they were given -----

  // next is handed the hook's own mutation.
  ghost predicate Faithful<F(!new)>(h: Hook<F>) {
    match h
    case Return(_) => true
    case Branch(_, yes, no) => Faithful(yes) && Faithful(no)
    case Edit(_, rest) => Faithful(rest)
    case Next(arg, onOk, onErr) => arg.Same? && Faithful(onOk) && Faithful(onErr)
  }

  // A success of next stays one.
  ghost predicate Keeps<F(!new)>(h: Hook<F>) {
    match h
    case Return(result) => result(Ok).Ok?
    case Branch(_, yes, no) => Keeps(yes) && Keeps(no)
    case Edit(_, rest) => Keeps(rest)
    case Next(_, _, _) => false
  }

  ghost predicate Steadfast<F(!new)>(h: Hook<F>) {
    match h
    case Return(_) => false
    case Branch(_, yes, no) => Steadfast(yes) && Steadfast(no)
    case Edit(_, rest) => Steadfast(rest)
    case Next(_, onOk, _) => Keeps(onOk)
  }

  ghost predicate AllFaithful<F(!new)>(hooks: Hooks<F>) {
    forall i, l | 0 <= i < |hooks| && 0 <= l < |hooks[i]| :: Faithful(hooks[i][l])
  }

  ghost predicate AllSteadfast<F(!new)>(hooks: Hooks<F>) {
    forall i, l | 0 <= i < |hooks| && 0 <= l < |hooks[i]| :: Steadfast(hooks[i][l])
  }

  ghost predicate FramesKeep<F(!new)>(o: Open<F>) {
    match o
    case Bottom => true
    case HookOpen(_, _, _, onOk, _, inner) => Keeps(onOk) && FramesKeep(inner)
    case CoreOpen(_, _, inner) => FramesKeep(inner)
  }

  lemma {:induction false} PreKeeps<F(!new)>(h: Hook<F>, m: Option<nat>, pool: seq<Mutation<F>>)
    requires Disciplined(h) && Names(m, pool)
    ensures Steadfast(h) ==> Keeps(Pre(h, m, pool).onOk)
    ensures Faithful(h) ==> Pre(h, m, pool).arg.Same?
  {
    match h
    case Branch(test, yes, no) => PreKeeps(if Test(test, m, pool) then yes else no, m, pool);
    case Edit(edit, rest) => PreKeeps(rest, m, EditPool(edit, m, pool));
    case Next(_, _, _) =>
  }

  lemma {:induction false} PostKeeps<F(!new)>(h: Hook<F>, m: Option<nat>, pool: seq<Mutation<F>>)
    requires Tail(h, true) && Keeps(h) && Names(m, pool)
    ensures Post(h, m, Ok, pool).out.Ok?
  {
    match h
    case Return(_) =>
    case Branch(test, yes, no) => PostKeeps(if Test(test, m, pool) then yes else no, m, pool);
    case Edit(edit, rest) => PostKeeps(rest, m, EditPool(edit, m, pool));
  }

  lemma {:induction false} RiseKeeps<F(!new)>(o: Open<F>, pool: seq<Mutation<F>>)
    requires Framed(o, |pool|) && FramesKeep(o)
    ensures Rise(o, pool).failed.None?
  {
    match o
    case Bottom =>
    case HookOpen(_, _, m, onOk, _, inner) =>
      RiseKeeps(inner, pool);
      PostKeeps(onOk, m, Rise(inner, pool).pool);
    case CoreOpen(_, _, inner) => RiseKeeps(inner, pool);
  }

  lemma {:induction false} RouteKeeps<F(!new)>(
    hooks: Hooks<F>, i: nat, l: nat, m: Option<nat>, pool: seq<Mutation<F>>, cur: seq<nat>)
    requires AllDisciplined(hooks) && AllSteadfast(hooks) && |cur| == |hooks| && i < |hooks| && l <= |hooks[i]|
    requires (forall k | 0 <= k < |cur| :: cur[k] < |pool|) && Names(m, pool)
    ensures FramesKeep(Route(hooks, i, l, m, pool, cur).open)
    decreases |hooks| - i, |hooks[i]| - l
  {
    hide Route;
    if l < |hooks[i]| {
      RouteHook(hooks, i, l, m, pool, cur);
      PreKeeps(hooks[i][l], m, pool);
      var w := Pre(hooks[i][l], m, pool);
      RouteKeeps(hooks, i, l + 1, Resolve(w.arg, m, |pool|), w.pool, cur);
    } else {
      RouteCore(hooks, i, m, pool, cur);
      if m.Some? && i + 1 < |hooks| { RouteKeeps(hooks, i + 1, 0, Some(cur[i + 1]), pool, cur[i := m.value]); }
    }
  }

  // With hooks that keep their mutation every core is handed the one it checks.
  lemma {:induction false} FaithfulRoute<F(!new)>(
    hooks: Hooks<F>, i: nat, l: nat, pool: seq<Mutation<F>>, cur: seq<nat>)
    requires AllDisciplined(hooks) && AllFaithful(hooks) && |cur| == |hooks| && i < |hooks| && l <= |hooks[i]|
    requires forall k | 0 <= k < |cur| :: cur[k] < |pool|
    ensures
      var r := Route(hooks, i, l, Some(cur[i]), pool, cur);
      r.complete && r.cur == cur && forall k | 0 <= k < |r.visits| :: r.visits[k].held == r.visits[k].given
    decreases |hooks| - i, |hooks[i]| - l
  {
    hide Route;
    var m := Some(cur[i]);
    if l < |hooks[i]| {
      RouteHook(hooks, i, l, m, pool, cur);
      PreKeeps(hooks[i][l], m, pool);
      FaithfulRoute(hooks, i, l + 1, Pre(hooks[i][l], m, pool).pool, cur);
    } else {
      RouteCore(hooks, i, m, pool, cur);
      assert cur[i := cur[i]] == cur;
      if i + 1 < |hooks| { FaithfulRoute(hooks, i + 1, 0, pool, cur); }
    }
  }

  // With steadfast hooks Save is all or nothing in the plain sense: it errs and marks
  // nothing, or it succeeds and every builder is stored.
  lemma {:induction false} SteadfastSave<F(!new), N, S>(
    env: Env<F, N, S>, hooks: Hooks<F>, pool: seq<Mutation<F>>, cur: seq<nat>, calls: seq<seq<S>>)
    requires |hooks| == |cur| > 0 && forall i | 0 <= i < |cur| :: cur[i] < |pool|
    requires AllDisciplined(hooks) && AllSteadfast(hooks)
    ensures
      var route := SaveRoute(env, hooks, pool, cur);
      var data := Data(env, Given(route.visits));
      var r := Save(env, None, hooks, pool, cur, calls);
      if !AllPass(env, route) then r.out.Err? && r.s.calls == calls && SameMarks(pool, r.s.pool)
      else
        && |route.visits| == |cur| && r.s.calls == calls + [data]
        && match env.driver(|calls|, data)
           case Rejected(_) => r.out.Err? && SameMarks(pool, r.s.pool)
           case Created(ids) =>
             && r.out.Ok? && r.s.cur == route.cur
             && forall k | 0 <= k < |cur| :: Stored(env, route.visits[k].given, IdAt(ids, k), 0, k, r.s)
  {
    hide Save; hide Route; hide Framed; hide AllPass; hide Stored;
    SaveIsAllOrNothing(env, hooks, pool, cur, calls);
    var start := WithDefaults(env.defaults, cur, 0, pool);
    RouteKeeps(hooks, 0, 0, Some(cur[0]), start, cur);
    var route := SaveRoute(env, hooks, pool, cur);
    RiseKeeps(route.open, route.pool);
  }

  // ----- Which error Save ends with -----

  // An error of next is returned as it is.
  ghost predicate Passes<F(!new)>(h: Hook<F>) {
    match h
    case Return(result) => forall e :: result(Err(e)) == Err(e)
    case Branch(_, yes, no) => Passes(yes) && Passes(no)
    case Edit(_, rest) => Passes(rest)
    case Next(_, _, _) => false
  }

  ghost predicate Relays<F(!new)>(h: Hook<F>) {
    match h
    case Return(_) => false
    case Branch(_, yes, no) => Relays(yes) && Relays(no)
    case Edit(_, rest) => Relays(rest)
    case Next(_, _, onErr) => Passes(onErr)
  }

  ghost predicate AllRelay<F(!new)>(hooks: Hooks<F>) {
    forall i, l | 0 <= i < |hooks| && 0 <= l < |hooks[i]| :: Relays(hooks[i][l])
  }

  ghost predicate FramesRelay<F(!new)>(o: Open<F>) {
    match o
    case Bottom => true
    case HookOpen(_, _, _, _, onErr, inner) => Passes(onErr) && FramesRelay(inner)
    case CoreOpen(_, _, inner) => FramesRelay(inner)
  }

  lemma {:induction false} PreRelays<F(!new)>(h: Hook<F>, m: Option<nat>, pool: seq<Mutation<F>>)
    requires Disciplined(h) && Names(m, pool) && Relays(h)
    ensures Passes(Pre(h, m, pool).onErr)
  {
    match h
    case Branch(test, yes, no) => PreRelays(if Test(test, m, pool) then yes else no, m, pool);
    case Edit(edit, rest) => PreRelays(rest, m, EditPool(edit, m, pool));
    case Next(_, _, _) =>
  }

  lemma {:induction false} PostPasses<F(!new)>(h: Hook<F>, m: Option<nat>, e: Error, pool: seq<Mutation<F>>)
    requires Tail(h, false) && Passes(h) && Names(m, pool)
    ensures Post(h, m, Err(e), pool).out == Err(e)
  {
    match h
    case Return(_) =>
    case Branch(test, yes, no) => PostPasses(if Test(test, m, pool) then yes else no, m, e, pool);
    case Edit(edit, rest) => PostPasses(rest, m, e, EditPool(edit, m, pool));
  }

  lemma {:induction false} UpRelays<F(!new), N, S>(o: Open<F>, s: State<F, N, S>, e: Error)
    requires Resumable(o, s) && Valid(s, |s.cur|) && FramesRelay(o)
    ensures Up(o, s, Err(e)).out == Err(e)
    decreases o
  {
    match o
    case Bottom =>
    case HookOpen(_, _, m, _, onErr, inner) =>
      UpRelays(inner, s, e);
      PostPasses(onErr, m, e, Up(inner, s, Err(e)).s.pool);
    case CoreOpen(_, _, inner) => UpRelays(inner, s, e);
  }

  // The error of the first core whose check fails; a core that is not visited was handed a
  // foreign mutation.
  ghost function StopError<F(!new), N, S>(env: Env<F, N, S>, vs: seq<Visit<F>>): Outcome {
    if vs == [] then Err(UnexpectedMutationType)
    else if env.check(vs[0].held).Err? then env.check(vs[0].held)
    else StopError(env, vs[1..])
  }

  ghost predicate Stops<F(!new), N, S>(env: Env<F, N, S>, r: Routed<F>, d: Descent<F, N, S>) {
    FramesRelay(d.open) && (!AllPass(env, r) ==> d.out == StopError(env, r.visits))
  }

  lemma StopsAfter<F(!new), N, S>(env: Env<F, N, S>, v: Visit<F>, r: Routed<F>, o: Open<F>, d: Descent<F, N, S>, d': Descent<F, N, S>)
    requires env.check(v.held).Ok? && Stops(env, r, d) && d'.out == d.out && FramesRelay(d'.open)
    ensures Stops(env, r.(visits := [v] + r.visits, open := o), d')
  {
    hide AllPass;
    AllPassNext(env, v, r, o);
    assert ([v] + r.visits)[1..] == r.visits;
  }

  lemma {:induction false} DownStops<F(!new), N, S>(
    env: Env<F, N, S>, hooks: Hooks<F>, i: nat, l: nat, m: Option<nat>, s: State<F, N, S>)
    requires i < |hooks| && l <= |hooks[i]| && AllDisciplined(hooks) && AllRelay(hooks)
    requires Valid(s, |hooks|) && Filled(s, i) && InPool(m, s)
    ensures Stops(env, Route(hooks, i, l, m, s.pool, s.cur), Down(env, hooks, i, l, m, s))
    decreases |hooks| - i, |hooks[i]| - l
  {
    hide Grows; hide Filled; hide Resumable; hide AllPass; hide Down; hide Route; hide Build; hide WithPool; hide Below;
    if l < |hooks[i]| {
      var w := Pre(hooks[i][l], m, s.pool);
      DownHook(env, hooks, i, l, m, s);
      RouteHook(hooks, i, l, m, s.pool, s.cur);
      WithPoolIs(s, w.pool);
      PreRelays(hooks[i][l], m, s.pool);
      var r := Route(hooks, i, l + 1, Resolve(w.arg, m, |s.pool|), w.pool, s.cur);
      AllPassIgnoresOpen(env, r, HookOpen(i, l, m, w.onOk, w.onErr, r.open));
      DownStops(env, hooks, i, l + 1, Resolve(w.arg, m, |s.pool|), WithPool(s, w.pool));
    } else {
      if m.None? || env.check(s.pool[s.cur[i]].fields).Err? || i + 1 == |hooks| {
        StopsAtCore(env, hooks, i, m, s);
      } else {
        var s1 := Build(env, i, m.value, s);
        BuildIs(env, i, m.value, s);
        DownStops(env, hooks, i + 1, 0, Some(s1.cur[i + 1]), s1);
        BelowIs(env, hooks, i + 1, s1);
        RouteCore(hooks, i, m, s.pool, s.cur);
        DownAtCore(env, hooks, i, m, s);
        var r := Onward(hooks, i + 1, s.pool, s.cur[i := m.value]);
        StopsAfter(env, Visit(s.pool[s.cur[i]].fields, m.value, s.pool[m.value].fields), r, CoreOpen(i, m.value, r.open),
                   Down(env, hooks, i + 1, 0, Some(s1.cur[i + 1]), s1), Down(env, hooks, i, |hooks[i]|, m, s));
      }
    }
  }

  lemma StopsHere<F(!new), N, S>(env: Env<F, N, S>, r: Routed<F>, d: Descent<F, N, S>)
    requires FramesRelay(d.open)
    requires || (r.visits == [] && d.out == Err(UnexpectedMutationType))
             || (r.visits != [] && env.check(r.visits[0].held).Err? && d.out == env.check(r.visits[0].held))
             || AllPass(env, r)
    ensures Stops(env, r, d)
  {
  }

  // A core that stops the descent, or is the last.
  lemma StopsAtCore<F(!new), N, S>(env: Env<F, N, S>, hooks: Hooks<F>, i: nat, m: Option<nat>, s: State<F, N, S>)
    requires i < |hooks| && AllDisciplined(hooks)
    requires Valid(s, |hooks|) && Filled(s, i) && InPool(m, s)
    requires m.None? || env.check(s.pool[s.cur[i]].fields).Err? || i + 1 == |hooks|
    ensures Stops(env, Route(hooks, i, |hooks[i]|, m, s.pool, s.cur), Down(env, hooks, i, |hooks[i]|, m, s))
  {
    hide Grows; hide Filled; hide Resumable; hide AllPass; hide Route; hide Build; hide Onward; hide Down; hide Below;
    hide Stops;
    RouteCore(hooks, i, m, s.pool, s.cur);
    DownAtCore(env, hooks, i, m, s);
    var r, d := Route(hooks, i, |hooks[i]|, m, s.pool, s.cur), Down(env, hooks, i, |hooks[i]|, m, s);
    if m.Some? && env.check(s.pool[s.cur[i]].fields).Ok? {
      var v := Visit(s.pool[s.cur[i]].fields, m.value, s.pool[m.value].fields);
      var r' := Onward(hooks, i + 1, s.pool, s.cur[i := m.value]);
      LastComplete(hooks, s.pool, s.cur[i := m.value]);
      NothingToPass(env, r');
      AllPassNext(env, v, r', CoreOpen(i, m.value, r'.open));
      NothingBelow(env, hooks, Build(env, i, m.value, s));
    }
    StopsHere(env, r, d);
  }

  lemma NothingBelow<F(!new), N, S>(env: Env<F, N, S>, hooks: Hooks<F>, s: State<F, N, S>)
    requires AllDisciplined(hooks) && Valid(s, |hooks|) && Filled(s, |hooks|)
    ensures Below(env, hooks, |hooks|, s).open == Bottom
  {
    hide Grows; hide Filled; hide Resumable; hide Batch;
  }

  lemma LastComplete<F(!new)>(hooks: Hooks<F>, pool: seq<Mutation<F>>, cur: seq<nat>)
    requires AllDisciplined(hooks) && |cur| == |hooks| && forall k | 0 <= k < |cur| :: cur[k] < |pool|
    ensures Onward(hooks, |hooks|, pool, cur).complete && Onward(hooks, |hooks|, pool, cur).visits == []
  {
  }

  lemma {:induction false} StopErrorIs<F(!new), N, S>(env: Env<F, N, S>, vs: seq<Visit<F>>)
    ensures (forall k | 0 <= k < |vs| :: env.check(vs[k].held).Ok?) ==> StopError(env, vs) == Err(UnexpectedMutationType)
    ensures forall k | 0 <= k < |vs| && env.check(vs[k].held).Err? && (forall j | 0 <= j < k :: env.check(vs[j].held).Ok?) ::
              StopError(env, vs) == env.check(vs[k].held)
  {
    if vs != [] && env.check(vs[0].held).Ok? {
      var rest := vs[1..];
      StopErrorIs(env, rest);
      assert forall j | 0 <= j < |rest| :: rest[j] == vs[j + 1];
      forall k | 0 <= k < |vs| && env.check(vs[k].held).Err? && (forall j | 0 <= j < k :: env.check(vs[j].held).Ok?)
        ensures StopError(env, vs) == env.check(vs[k].held)
      {
        assert rest[k - 1] == vs[k];
      }
    }
  }

  lemma RejectedErr<F(!new), N, S>(env: Env<F, N, S>, hooks: Hooks<F>, s: State<F, N, S>)
    requires |hooks| == |s.cur| > 0 && AllDisciplined(hooks)
    requires Valid(s, |hooks|) && |s.heap| == 0
    requires AllPass(env, Route(hooks, 0, 0, Some(s.cur[0]), s.pool, s.cur))
    ensures
      var r := Route(hooks, 0, 0, Some(s.cur[0]), s.pool, s.cur);
      var answer := env.driver(|s.calls|, Data(env, Given(r.visits)));
      answer.Rejected? ==>
        Down(env, hooks, 0, 0, Some(s.cur[0]), s).out == Err(if answer.constraint then ConstraintError else DriverError)
  {
    hide Resumable; hide Down; hide Grows; hide Batch; hide Full; hide Numbered; hide AllPass; hide Route;
    var m := Some(s.cur[0]);
    var r := Route(hooks, 0, 0, m, s.pool, s.cur);
    PassIsComplete(env, r);
    DownSends(env, hooks, 0, 0, m, s);
    BatchNumbers(env, r, s);
  }

  // With hooks that return an error of next as it is, Save ends in the error of the first core
  // whose check fails; or, if a core was handed a foreign mutation before any check failed, in
  // the one for unexpected mutations; or, if the driver rejects the call, in a constraint error
  // exactly when that was a constraint violation, and in the driver's otherwise.
  lemma {:induction false} SaveErrsWith<F(!new), N, S>(
    env: Env<F, N, S>, hooks: Hooks<F>, pool: seq<Mutation<F>>, cur: seq<nat>, calls: seq<seq<S>>)
    requires |hooks| == |cur| > 0 && forall i | 0 <= i < |cur| :: cur[i] < |pool|
    requires AllDisciplined(hooks) && AllRelay(hooks)
    ensures
      var route := SaveRoute(env, hooks, pool, cur);
      var vs := route.visits;
      var r := Save(env, None, hooks, pool, cur, calls);
      && (forall k | 0 <= k < |vs| && env.check(vs[k].held).Err? && (forall j | 0 <= j < k :: env.check(vs[j].held).Ok?) ::
            r.out == env.check(vs[k].held))
      && (!route.complete && (forall k | 0 <= k < |vs| :: env.check(vs[k].held).Ok?) ==>
            r.out == Err(UnexpectedMutationType))
      && (route.complete && (forall k | 0 <= k < |vs| :: env.check(vs[k].held).Ok?) ==>
            forall constraint | env.driver(|calls|, Data(env, Given(vs))) == Rejected(constraint) ::
              r.out == Err(if constraint then ConstraintError else DriverError))
  {
    hide Grows; hide Resumable; hide Down; hide Mutate; hide Route; hide Framed; hide Up;
    var start := WithDefaults(env.defaults, cur, 0, pool);
    var s: State<F, N, S> := Initial(start, cur, calls);
    var m := Some(cur[0]);
    var route := SaveRoute(env, hooks, pool, cur);
    var d := Down(env, hooks, 0, 0, m, s);
    ChainIsTwoPhase(env, hooks, 0, 0, m, s);
    DownStops(env, hooks, 0, 0, m, s);
    StopErrorIs(env, route.visits);
    if AllPass(env, route) { RejectedErr(env, hooks, s); }
    if d.out.Err? { UpRelays(d.open, d.s, d.out.error); }
  }

  // ----- The defaults before the chain -----

  // A mutation no builder holds is left alone; one that a single builder holds gets its
  // defaults once; and where defaults twice are defaults once, so does any other.
  lemma {:induction false} DefaultsReachEachBuilder<F(!new)>(
    defaults: F -> (F, Outcome), cur: seq<nat>, k: nat, pool: seq<Mutation<F>>, a: nat)
    requires k <= |cur| && (forall i | 0 <= i < |cur| :: cur[i] < |pool|) && a < |pool|
    ensures
      var q := WithDefaults(defaults, cur, k, pool);
      && (a !in cur[k..] ==> q[a] == pool[a])
      && (forall i | k <= i < |cur| && cur[i] == a && (forall j | k <= j < |cur| && j != i :: cur[j] != a) ::
            q[a].fields == defaults(pool[a].fields).0)
      && ((forall f :: defaults(defaults(f).0).0 == defaults(f).0) && a in cur[k..] ==> q[a].fields == defaults(pool[a].fields).0)
    decreases |cur| - k
  {
    if k < |cur| {
      var m := cur[k];
      var p := pool[m := pool[m].(fields := defaults(pool[m].fields).0)];
      DefaultsReachEachBuilder(defaults, cur, k + 1, p, a);
      assert cur[k..] == [m] + cur[k + 1..];
      if a == m && a in cur[k + 1..] {
        var i :| k + 1 <= i < |cur| && cur[i] == a;
      } else if a == m {
        assert forall j | k + 1 <= j < |cur| :: cur[j] in cur[k + 1..];
      }
    }
  }

  // A bulk builder that was created with an error returns it and does nothing.
  lemma PendingErrorIsReturned<F(!new), N, S>(
    env: Env<F, N, S>, e: Error, hooks: Hooks<F>, pool: seq<Mutation<F>>, cur: seq<nat>, calls: seq<seq<S>>)
    requires |hooks| == |cur| && forall i | 0 <= i < |cur| :: cur[i] < |pool|
    ensures
      var r := Save(env, Some(e), hooks, pool, cur, calls);
      r.out == Err(e) && r.s.calls == calls && r.s.pool == pool && r.s.heap == [] && r.trace == []
  {
  }
}
