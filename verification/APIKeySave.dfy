// The bulk save of API keys: the mutator chain put together with the builder's own
// defaults, check and createSpec, and with the reading of what was written.

module APIKeySave {
  import opened Wrappers
  import opened APIKeyModel
  import opened APIKeyCodec
  import opened APIKeyChecks
  import B = BulkSpec
  import R = BulkRefinement
  import T = BulkTheorems
  import L = BulkLimits

  // createSpec as two functions.
  function NodeOf(m: Mutation): (node: Struct) {
    map f | f in FIELDS :: FieldOf(m, f)
  }

  function SpecOf(m: Mutation): (spec: Spec) {
    Spec(map c | c in STANZAS && StanzaOf(c).Some? && StanzaOf(c).value.accessor in m.set_
           :: Encode(m.set_[StanzaOf(c).value.accessor]),
         EdgesOf(m))
  }

  // They are what the method CreateSpec returns, and nothing else is.
  lemma CreateSpecReturns(m: Mutation, node: Struct, spec: Spec)
    ensures Created(m, node, spec) <==> node == NodeOf(m) && spec == SpecOf(m)
  {
    hide StanzaOf; hide STANZAS; hide FIELDS; hide FieldOf; hide EdgesOf; hide Encode;
    forall c | StanzaOf(c).Some? ensures c in STANZAS { StanzaListed(c); }
    if Created(m, node, spec) {
      assert spec.fields == SpecOf(m).fields;
    }
  }

  function Env(config: Config, driver: (nat, seq<Spec>) -> B.BatchResult): B.Env<Mutation, Struct, Spec> {
    B.Env((m: Mutation) => Defaulted(config, m), (m: Mutation) => Checked(config, m),
          (m: Mutation) => NodeOf(m), (m: Mutation) => SpecOf(m), driver)
  }

  lemma DefaultsFailuresStick(config: Config, driver: (nat, seq<Spec>) -> B.BatchResult)
    ensures L.FailureSticks(Env(config, driver))
  {
    hide Defaulted; hide Checked;
    forall m | Defaulted(config, m).1.Err?
      ensures Checked(config, m).Err?
      ensures Defaulted(config, Defaulted(config, m).0).1.Err?
    {
      DefaultsFailureIsChecked(config, m);
      DefaultsTwice(config, m);
    }
  }

  // Save drops the errors of defaults. For API keys without hooks that loses nothing: the
  // field left unset is one that check requires, so Save fails before BatchCreate is called.
  lemma UninitializedDefaultsFailSave(
    config: Config, driver: (nat, seq<Spec>) -> B.BatchResult, hooks: B.Hooks<Mutation>,
    pool: seq<B.Mutation<Mutation>>, cur: seq<nat>, calls: seq<seq<Spec>>)
    requires |hooks| == |cur| && forall i | 0 <= i < |cur| :: cur[i] < |pool|
    requires L.HookFree(hooks)
    requires L.DefaultsFail(m => Defaulted(config, m), cur, 0, pool)
    ensures
      var r := B.Save(Env(config, driver), None, hooks, pool, cur, calls);
      r.out.Err? && r.s.calls == calls && R.SameMarks(pool, r.s.pool)
  {
    hide B.Save; hide Defaulted; hide Checked; hide L.FailureSticks;
    DefaultsFailuresStick(config, driver);
    L.DefaultsFailureIsNotLost(Env(config, driver), hooks, pool, cur, calls);
  }

  // The row written from the spec under the given ID reads back as the data of the node with
  // that ID.
  ghost predicate ReadsBack(data: Struct, spec: Spec, id: int) {
    var a := Assign(New(), map[], COLUMNS, Scanned(spec, id, COLUMNS));
    a.error.None? && data.Keys == FIELDS && a.data == Target(data, id)
  }

  lemma CreatedReadsBack(m: Mutation, newId: int)
    requires WellTyped(m)
    ensures ReadsBack(NodeOf(m), SpecOf(m), newId)
  {
    hide Assign; hide Scanned; hide COLUMNS; hide SpecOf; hide WellTyped; hide FieldOf;
    CreateSpecReturns(m, NodeOf(m), SpecOf(m));
    WholeRowRoundTrip(m, NodeOf(m), SpecOf(m), newId);
  }

  // If a bulk save of API keys succeeds, it made one BatchCreate with one spec for each
  // builder, in order, which the driver answered with IDs. Every returned node carries the ID
  // the driver gave its spec, or 0 if it gave none, and, whatever the ID of its row, reading
  // the row of its spec gives the node's data under that ID. So a node whose ID the driver
  // gave is what reading its row gives.
  lemma SavedKeysReadBack(
    config: Config, driver: (nat, seq<Spec>) -> B.BatchResult, hooks: B.Hooks<Mutation>,
    pool: seq<B.Mutation<Mutation>>, cur: seq<nat>, calls: seq<seq<Spec>>)
    requires |hooks| == |cur| > 0 && forall i | 0 <= i < |cur| :: cur[i] < |pool|
    requires R.AllDisciplined(hooks)
    ensures
      var env := Env(config, driver);
      var visits := T.SaveRoute(env, hooks, pool, cur).visits;
      var r := B.Save(env, None, hooks, pool, cur, calls);
      r.out.Ok? ==>
        && |r.s.calls| == |calls| + 1 && |r.s.calls[|calls|]| == |cur| == |visits|
        && driver(|calls|, r.s.calls[|calls|]).Created?
        && var ids := driver(|calls|, r.s.calls[|calls|]).ids;
        forall k | 0 <= k < |cur| && WellTyped(visits[k].given) ::
          && r.s.nodes[k].Some? && r.s.nodes[k].value < |r.s.heap|
          && r.s.heap[r.s.nodes[k].value].id == T.IdAt(ids, k).GetOr(0)
          && forall id :: ReadsBack(r.s.heap[r.s.nodes[k].value].data, r.s.calls[|calls|][k], id)
  {
    hide B.Save; hide Defaulted; hide Checked; hide ReadsBack; hide T.Route; hide T.AllPass; hide NodeOf; hide SpecOf;
    hide WellTyped; hide T.SaveRoute; hide T.Rise; hide R.Framed;
    var env := Env(config, driver);
    var visits := T.SaveRoute(env, hooks, pool, cur).visits;
    T.SaveIsAllOrNothing(env, hooks, pool, cur, calls);
    var r := B.Save(env, None, hooks, pool, cur, calls);
    if r.out.Ok? {
      var ids := driver(|calls|, r.s.calls[|calls|]).ids;
      forall k | 0 <= k < |cur| && WellTyped(visits[k].given)
        ensures r.s.nodes[k].Some? && r.s.nodes[k].value < |r.s.heap|
        ensures r.s.heap[r.s.nodes[k].value].id == T.IdAt(ids, k).GetOr(0)
        ensures forall id :: ReadsBack(r.s.heap[r.s.nodes[k].value].data, r.s.calls[|calls|][k], id)
      {
        assert T.Given(visits)[k] == visits[k].given;
        forall id { CreatedReadsBack(visits[k].given, id); }
      }
    }
  }
}
