// Writing and reading an API key: createSpec against scanValues and assignValues.

module APIKeyCodec {
  import opened Wrappers
  import opened APIKeyModel

  // ----- createSpec -----

  datatype FieldType = TypeTime | TypeBool | TypeString | TypeInt64 | TypeFloat64 | TypeJSON

  // One stanza of createSpec: if the mutation's accessor has a value, set the column of the
  // spec and the target field of the node.
  datatype Stanza = Stanza(accessor: Field, t: FieldType, target: Field)

  function StanzaOf(c: Column): Option<Stanza> {
    match c
    case created_at => Some(Stanza(CreatedAt, TypeTime, CreatedAt))
    case updated_at => Some(Stanza(UpdatedAt, TypeTime, UpdatedAt))
    case deleted_at => Some(Stanza(DeletedAt, TypeTime, DeletedAt))
    case team_owner_disabled => Some(Stanza(TeamOwnerDisabled, TypeBool, TeamOwnerDisabled))
    case key => Some(Stanza(Key, TypeString, Key))
    case name => Some(Stanza(Name, TypeString, Name))
    case is_composite => Some(Stanza(IsComposite, TypeBool, IsComposite))
    case status => Some(Stanza(Status, TypeString, Status))
    case fast_mode_policy => Some(Stanza(FastModePolicy, TypeString, FastModePolicy))
    case billing_mode => Some(Stanza(BillingMode, TypeString, BillingMode))
    case preferred_subscription_id => Some(Stanza(PreferredSubscriptionID, TypeInt64, PreferredSubscriptionID))
    case model_mapping => Some(Stanza(ModelMapping, TypeJSON, ModelMapping))
    case last_used_at => Some(Stanza(LastUsedAt, TypeTime, LastUsedAt))
    case ip_whitelist => Some(Stanza(IPWhitelist, TypeJSON, IPWhitelist))
    case ip_blacklist => Some(Stanza(IPBlacklist, TypeJSON, IPBlacklist))
    case quota => Some(Stanza(Quota, TypeFloat64, Quota))
    case quota_used => Some(Stanza(QuotaUsed, TypeFloat64, QuotaUsed))
    case expires_at => Some(Stanza(ExpiresAt, TypeTime, ExpiresAt))
    case rate_limit_5h => Some(Stanza(RateLimit5h, TypeFloat64, RateLimit5h))
    case rate_limit_1d => Some(Stanza(RateLimit1d, TypeFloat64, RateLimit1d))
    case rate_limit_7d => Some(Stanza(RateLimit7d, TypeFloat64, RateLimit7d))
    case usage_5h => Some(Stanza(Usage5h, TypeFloat64, Usage5h))
    case usage_1d => Some(Stanza(Usage1d, TypeFloat64, Usage1d))
    case usage_7d => Some(Stanza(Usage7d, TypeFloat64, Usage7d))
    case window_5h_start => Some(Stanza(Window5hStart, TypeTime, Window5hStart))
    case window_1d_start => Some(Stanza(Window1dStart, TypeTime, Window1dStart))
    case window_7d_start => Some(Stanza(Window7dStart, TypeTime, Window7dStart))
    case fallback_when_group_unavailable => Some(Stanza(FallbackWhenGroupUnavailable, TypeBool, FallbackWhenGroupUnavailable))
    case managed_by => Some(Stanza(ManagedBy, TypeString, ManagedBy))
    case _ => None
  }

  // The order of the stanzas.
  const STANZAS: seq<Column> := [
    created_at, updated_at, deleted_at, team_owner_disabled, key, name, is_composite, status,
    fast_mode_policy, billing_mode, preferred_subscription_id, model_mapping, last_used_at,
    ip_whitelist, ip_blacklist, quota, quota_used, expires_at, rate_limit_5h, rate_limit_1d,
    rate_limit_7d, usage_5h, usage_1d, usage_7d, window_5h_start, window_1d_start, window_7d_start,
    fallback_when_group_unavailable, managed_by]

  lemma StanzaListed(c: Column)
    requires StanzaOf(c).Some?
    ensures c in STANZAS
  {
    match c
    case created_at => assert STANZAS[0] == c;
    case updated_at => assert STANZAS[1] == c;
    case deleted_at => assert STANZAS[2] == c;
    case team_owner_disabled => assert STANZAS[3] == c;
    case key => assert STANZAS[4] == c;
    case name => assert STANZAS[5] == c;
    case is_composite => assert STANZAS[6] == c;
    case status => assert STANZAS[7] == c;
    case fast_mode_policy => assert STANZAS[8] == c;
    case billing_mode => assert STANZAS[9] == c;
    case preferred_subscription_id => assert STANZAS[10] == c;
    case model_mapping => assert STANZAS[11] == c;
    case last_used_at => assert STANZAS[12] == c;
    case ip_whitelist => assert STANZAS[13] == c;
    case ip_blacklist => assert STANZAS[14] == c;
    case quota => assert STANZAS[15] == c;
    case quota_used => assert STANZAS[16] == c;
    case expires_at => assert STANZAS[17] == c;
    case rate_limit_5h => assert STANZAS[18] == c;
    case rate_limit_1d => assert STANZAS[19] == c;
    case rate_limit_7d => assert STANZAS[20] == c;
    case usage_5h => assert STANZAS[21] == c;
    case usage_1d => assert STANZAS[22] == c;
    case usage_7d => assert STANZAS[23] == c;
    case window_5h_start => assert STANZAS[24] == c;
    case window_1d_start => assert STANZAS[25] == c;
    case window_7d_start => assert STANZAS[26] == c;
    case fallback_when_group_unavailable => assert STANZAS[27] == c;
    case managed_by => assert STANZAS[28] == c;
  }

  // JSON documents as far as these fields need them.
  datatype Json = JsonNull | JsonObject(members: map<string, string>) | JsonArray(items: seq<string>)

  // A cell of a row.
  datatype Cell = Null | Scalar(v: Value) | Text(json: Json)

  function Encode(v: Value): Cell {
    match v
    case MapV(None) => Text(JsonNull)
    case MapV(Some(m)) => Text(JsonObject(m))
    case ListV(None) => Text(JsonNull)
    case ListV(Some(l)) => Text(JsonArray(l))
    case _ => Scalar(v)
  }

  datatype Rel = M2O | O2M

  datatype EdgeSpec = EdgeSpec(rel: Rel, column: Column, targets: seq<int>)

  datatype Spec = Spec(fields: map<Column, Cell>, edges: seq<EdgeSpec>)

  // The setters give every accessor a value of its declared type.
  ghost predicate WellTyped(m: Mutation) {
    forall f | f in m.set_ :: TypeOf(m.set_[f]) == Declared(f).t
  }

  // What createSpec promises about its two results.
  ghost predicate Created(m: Mutation, node: Struct, spec: Spec) {
    && node.Keys == FIELDS
    && (forall f | f in FIELDS :: node[f] == FieldOf(m, f))
    && (forall c :: c in spec.fields <==> StanzaOf(c).Some? && StanzaOf(c).value.accessor in m.set_)
    && (forall c | c in spec.fields :: spec.fields[c] == Encode(m.set_[StanzaOf(c).value.accessor]))
    && spec.edges == EdgesOf(m)
  }

  // The value of a field of the new node: what the mutation sets, or zero.
  function FieldOf(m: Mutation, f: Field): Slot {
    match f
    case ID => ZeroSlot(ID)
    case UserID => if m.user.Some? then Store(UserID, IntV(m.user.value)) else ZeroSlot(UserID)
    case GroupID => if m.group.Some? then Store(GroupID, IntV(m.group.value)) else ZeroSlot(GroupID)
    case TeamID => if m.team.Some? then Store(TeamID, IntV(m.team.value)) else ZeroSlot(TeamID)
    case _ => if f in m.set_ then Store(f, m.set_[f]) else ZeroSlot(f)
  }

  function OneEdge(column: Column, target: Option<int>): seq<EdgeSpec> {
    if target.Some? then [EdgeSpec(M2O, column, [target.value])] else []
  }

  function ManyEdge(column: Column, targets: seq<int>): seq<EdgeSpec> {
    if targets != [] then [EdgeSpec(O2M, column, targets)] else []
  }

  const USAGE_LOGS := Extra("usage_logs.api_key_id")
  const COMPOSITE_GROUPS := Extra("api_key_composite_groups.api_key_id")

  function EdgesOf(m: Mutation): seq<EdgeSpec> {
    OneEdge(user_id, m.user) + OneEdge(group_id, m.group) + ManyEdge(USAGE_LOGS, m.usageLogs)
    + ManyEdge(COMPOSITE_GROUPS, m.compositeGroups) + OneEdge(team_id, m.team)
  }

  // The first k stanzas were run.
  ghost predicate Ran(m: Mutation, k: nat, node: Struct, fields: map<Column, Cell>)
    requires k <= |STANZAS|
  {
    && node.Keys == FIELDS
    && (forall f | f in FIELDS :: node[f] == if ColumnOf(f) in STANZAS[..k] then FieldOf(m, f) else ZeroSlot(f))
    && (forall c :: c in fields <==> c in STANZAS[..k] && StanzaOf(c).Some? && StanzaOf(c).value.accessor in m.set_)
    && (forall c | c in fields :: fields[c] == Encode(m.set_[StanzaOf(c).value.accessor]))
  }

  lemma StanzaStep(m: Mutation, k: nat, node: Struct, fields: map<Column, Cell>)
    requires k < |STANZAS| && Ran(m, k, node, fields)
    ensures StanzaOf(STANZAS[k]).Some?
    ensures
      var s := StanzaOf(STANZAS[k]).value;
      if s.accessor in m.set_ then
        var v := m.set_[s.accessor];
        Ran(m, k + 1, node[s.target := Store(s.target, v)], fields[STANZAS[k] := Encode(v)])
      else Ran(m, k + 1, node, fields)
  {
    hide StanzaOf; hide ColumnOf; hide FieldOf; hide Store; hide ZeroSlot; hide Encode; hide STANZAS; hide FIELDS;
    var c := STANZAS[k];
    StanzaAt(k);
    TablesAgree(c);
    var s := StanzaOf(c).value;
    FieldOfStanza(m, c);
    AllFields(s.target);
    assert STANZAS[..k + 1] == STANZAS[..k] + [c];
    forall f | ColumnOf(f) == c ensures f == s.target { ColumnOfField(f); ColumnOfField(s.target); }
  }

  lemma FieldOfStanza(m: Mutation, c: Column)
    requires StanzaOf(c).Some?
    ensures
      var f := StanzaOf(c).value.target;
      FieldOf(m, f) == if f in m.set_ then Store(f, m.set_[f]) else ZeroSlot(f)
  {
  }

  method RunStanzas(m: Mutation) returns (node: Struct, fields: map<Column, Cell>)
    ensures Ran(m, |STANZAS|, node, fields)
  {
    hide Ran;
    node, fields := New(), map[];
    RanNone(m);
    for k := 0 to |STANZAS|
      invariant Ran(m, k, node, fields)
    {
      StanzaStep(m, k, node, fields);
      var stanza := StanzaOf(STANZAS[k]).value;
      if stanza.accessor in m.set_ {
        var value := m.set_[stanza.accessor];
        fields := fields[STANZAS[k] := Encode(value)];
        node := node[stanza.target := Store(stanza.target, value)];
      }
    }
  }

  lemma RanNone(m: Mutation)
    ensures Ran(m, 0, New(), map[])
  {
    hide ColumnOf; hide FieldOf; hide ZeroSlot;
  }

  lemma AllAfterStanzas(m: Mutation, node: Struct, fields: map<Column, Cell>)
    requires Ran(m, |STANZAS|, node, fields)
    ensures forall f | f in node ::
              node[f] == if f == ID || f == UserID || f == GroupID || f == TeamID then ZeroSlot(f) else FieldOf(m, f)
  {
    hide Ran; hide FieldOf; hide ZeroSlot;
    forall f | f in node
      ensures node[f] == if f == ID || f == UserID || f == GroupID || f == TeamID then ZeroSlot(f) else FieldOf(m, f)
    {
      AfterStanzas(m, node, fields, f);
    }
  }

  lemma AfterStanzas(m: Mutation, node: Struct, fields: map<Column, Cell>, f: Field)
    requires Ran(m, |STANZAS|, node, fields)
    ensures f in node
    ensures node[f] == if f == ID || f == UserID || f == GroupID || f == TeamID then ZeroSlot(f) else FieldOf(m, f)
  {
    hide StanzaOf; hide ColumnOf; hide FieldOf; hide ZeroSlot; hide FIELDS; hide STANZAS;
    AllFields(f);
    assert STANZAS[..|STANZAS|] == STANZAS;
    ColumnOfField(f);
    if StanzaOf(ColumnOf(f)).Some? {
      StanzaListed(ColumnOf(f));
    } else if ColumnOf(f) in STANZAS {
      var k :| 0 <= k < |STANZAS| && STANZAS[k] == ColumnOf(f);
      StanzaAt(k);
    }
  }

  predicate IsEdgeField(f: Field) {
    f == UserID || f == GroupID || f == TeamID
  }

  function SetEdge(node: Struct, f: Field, target: Option<int>): Struct {
    if target.Some? then node[f := Store(f, IntV(target.value))] else node
  }

  lemma EdgesSet(m: Mutation, base: Struct)
    requires UserID in base && GroupID in base && TeamID in base
    requires forall f | f in base && IsEdgeField(f) :: base[f] == ZeroSlot(f)
    ensures
      var node := SetEdge(SetEdge(SetEdge(base, UserID, m.user), GroupID, m.group), TeamID, m.team);
      && node.Keys == base.Keys
      && forall f | f in node :: node[f] == if IsEdgeField(f) then FieldOf(m, f) else base[f]
  {
    hide Store; hide ZeroSlot; hide FieldOf;
    EdgeFields(m);
  }

  lemma EdgeFields(m: Mutation)
    ensures FieldOf(m, UserID) == if m.user.Some? then Store(UserID, IntV(m.user.value)) else ZeroSlot(UserID)
    ensures FieldOf(m, GroupID) == if m.group.Some? then Store(GroupID, IntV(m.group.value)) else ZeroSlot(GroupID)
    ensures FieldOf(m, TeamID) == if m.team.Some? then Store(TeamID, IntV(m.team.value)) else ZeroSlot(TeamID)
  {
  }

  // The edge stanzas at the end of createSpec.
  method RunEdges(m: Mutation, base: Struct) returns (node: Struct, edges: seq<EdgeSpec>)
    requires UserID in base && GroupID in base && TeamID in base
    requires forall f | f in base && IsEdgeField(f) :: base[f] == ZeroSlot(f)
    ensures edges == EdgesOf(m) && node.Keys == base.Keys
    ensures forall f | f in node :: node[f] == if IsEdgeField(f) then FieldOf(m, f) else base[f]
  {
    hide SetEdge; hide OneEdge; hide ManyEdge; hide ZeroSlot; hide FieldOf;
    node, edges := base, [];
    node, edges := AddOne(node, edges, UserID, user_id, m.user);
    node, edges := AddOne(node, edges, GroupID, group_id, m.group);
    edges := AddMany(edges, USAGE_LOGS, m.usageLogs);
    edges := AddMany(edges, COMPOSITE_GROUPS, m.compositeGroups);
    node, edges := AddOne(node, edges, TeamID, team_id, m.team);
    assert [] + OneEdge(user_id, m.user) == OneEdge(user_id, m.user);
    EdgesSet(m, base);
  }

  // The stanza of a many-to-one edge.
  method AddOne(node: Struct, edges: seq<EdgeSpec>, f: Field, column: Column, target: Option<int>)
    returns (node': Struct, edges': seq<EdgeSpec>)
    ensures node' == SetEdge(node, f, target) && edges' == edges + OneEdge(column, target)
  {
    node', edges' := node, edges;
    if target.Some? {
      node' := node'[f := Store(f, IntV(target.value))];
      edges' := edges' + [EdgeSpec(M2O, column, [target.value])];
    }
  }

  // The stanza of a one-to-many edge.
  method AddMany(edges: seq<EdgeSpec>, column: Column, targets: seq<int>) returns (edges': seq<EdgeSpec>)
    ensures edges' == edges + ManyEdge(column, targets)
  {
    edges' := edges;
    if targets != [] {
      edges' := edges' + [EdgeSpec(O2M, column, targets)];
    }
  }

  method CreateSpec(m: Mutation) returns (node: Struct, spec: Spec)
    ensures Created(m, node, spec)
  {
    hide Ran; hide FIELDS; hide StanzaOf; hide STANZAS; hide ZeroSlot; hide FieldOf; hide EdgesOf;
    var base, fields := RunStanzas(m);
    RanFields(m, base, fields);
    AllAfterStanzas(m, base, fields);
    AllFields(UserID); AllFields(GroupID); AllFields(TeamID);
    var edges;
    node, edges := RunEdges(m, base);
    IdIsZero(m);
    spec := Spec(fields, edges);
  }

  lemma IdIsZero(m: Mutation)
    ensures FieldOf(m, ID) == ZeroSlot(ID)
  {
  }

  lemma RanFields(m: Mutation, node: Struct, fields: map<Column, Cell>)
    requires Ran(m, |STANZAS|, node, fields)
    ensures node.Keys == FIELDS
    ensures forall c :: c in fields <==> StanzaOf(c).Some? && StanzaOf(c).value.accessor in m.set_
    ensures forall c | c in fields :: fields[c] == Encode(m.set_[StanzaOf(c).value.accessor])
  {
    hide StanzaOf; hide STANZAS; hide FIELDS;
    assert STANZAS[..|STANZAS|] == STANZAS;
    forall c | StanzaOf(c).Some? { StanzaListed(c); }
  }

  // ----- scanValues and assignValues -----

  datatype Kind = Bytes | NullBool | NullFloat64 | NullInt64 | NullString | NullTime | UnknownType

  // scanValues' switch.
  function KindOf(c: Column): Kind {
    match c
    case model_mapping | ip_whitelist | ip_blacklist => Bytes
    case team_owner_disabled | is_composite | fallback_when_group_unavailable => NullBool
    case quota | quota_used | rate_limit_5h | rate_limit_1d | rate_limit_7d | usage_5h | usage_1d | usage_7d => NullFloat64
    case id | user_id | team_id | group_id | preferred_subscription_id => NullInt64
    case key | name | status | fast_mode_policy | billing_mode | managed_by => NullString
    case created_at | updated_at | deleted_at | last_used_at | expires_at | window_5h_start | window_1d_start | window_7d_start => NullTime
    case Extra(_) => UnknownType
  }

  // A holder made by scanValues, filled from a row.
  datatype Holder = Holder(kind: Kind, cell: Cell)

  // assignValues' switch: the kind of holder a case expects and the field it writes.
  datatype Case = Case(kind: Kind, field: Field)

  function CaseOf(c: Column): Option<Case> {
    match c
    case id => Some(Case(NullInt64, ID))
    case created_at => Some(Case(NullTime, CreatedAt))
    case updated_at => Some(Case(NullTime, UpdatedAt))
    case deleted_at => Some(Case(NullTime, DeletedAt))
    case user_id => Some(Case(NullInt64, UserID))
    case team_id => Some(Case(NullInt64, TeamID))
    case team_owner_disabled => Some(Case(NullBool, TeamOwnerDisabled))
    case key => Some(Case(NullString, Key))
    case name => Some(Case(NullString, Name))
    case group_id => Some(Case(NullInt64, GroupID))
    case is_composite => Some(Case(NullBool, IsComposite))
    case status => Some(Case(NullString, Status))
    case fast_mode_policy => Some(Case(NullString, FastModePolicy))
    case billing_mode => Some(Case(NullString, BillingMode))
    case preferred_subscription_id => Some(Case(NullInt64, PreferredSubscriptionID))
    case model_mapping => Some(Case(Bytes, ModelMapping))
    case last_used_at => Some(Case(NullTime, LastUsedAt))
    case ip_whitelist => Some(Case(Bytes, IPWhitelist))
    case ip_blacklist => Some(Case(Bytes, IPBlacklist))
    case quota => Some(Case(NullFloat64, Quota))
    case quota_used => Some(Case(NullFloat64, QuotaUsed))
    case expires_at => Some(Case(NullTime, ExpiresAt))
    case rate_limit_5h => Some(Case(NullFloat64, RateLimit5h))
    case rate_limit_1d => Some(Case(NullFloat64, RateLimit1d))
    case rate_limit_7d => Some(Case(NullFloat64, RateLimit7d))
    case usage_5h => Some(Case(NullFloat64, Usage5h))
    case usage_1d => Some(Case(NullFloat64, Usage1d))
    case usage_7d => Some(Case(NullFloat64, Usage7d))
    case window_5h_start => Some(Case(NullTime, Window5hStart))
    case window_1d_start => Some(Case(NullTime, Window1dStart))
    case window_7d_start => Some(Case(NullTime, Window7dStart))
    case fallback_when_group_unavailable => Some(Case(NullBool, FallbackWhenGroupUnavailable))
    case managed_by => Some(Case(NullString, ManagedBy))
    case Extra(_) => None
  }

  // The column of a field.
  function ColumnOf(f: Field): Column {
    match f
    case ID => id
    case CreatedAt => created_at
    case UpdatedAt => updated_at
    case DeletedAt => deleted_at
    case UserID => user_id
    case TeamID => team_id
    case TeamOwnerDisabled => team_owner_disabled
    case Key => key
    case Name => name
    case GroupID => group_id
    case IsComposite => is_composite
    case Status => status
    case FastModePolicy => fast_mode_policy
    case BillingMode => billing_mode
    case PreferredSubscriptionID => preferred_subscription_id
    case ModelMapping => model_mapping
    case LastUsedAt => last_used_at
    case IPWhitelist => ip_whitelist
    case IPBlacklist => ip_blacklist
    case Quota => quota
    case QuotaUsed => quota_used
    case ExpiresAt => expires_at
    case RateLimit5h => rate_limit_5h
    case RateLimit1d => rate_limit_1d
    case RateLimit7d => rate_limit_7d
    case Usage5h => usage_5h
    case Usage1d => usage_1d
    case Usage7d => usage_7d
    case Window5hStart => window_5h_start
    case Window1dStart => window_1d_start
    case Window7dStart => window_7d_start
    case FallbackWhenGroupUnavailable => fallback_when_group_unavailable
    case ManagedBy => managed_by
  }

  // The four tables agree: a stanza reads, writes and targets one field, assignValues writes
  // a column back to the field it came from, and expects the holder scanValues made.
  lemma TablesAgree(c: Column)
    ensures StanzaOf(c).Some? ==>
              var s := StanzaOf(c).value;
              s.accessor == s.target && ColumnOf(s.target) == c
    ensures CaseOf(c).Some? ==> CaseOf(c).value.kind == KindOf(c) && ColumnOf(CaseOf(c).value.field) == c
    ensures CaseOf(c).None? <==> c.Extra?
  {
  }

  lemma ColumnOfField(f: Field)
    ensures CaseOf(ColumnOf(f)) == Some(Case(KindOf(ColumnOf(f)), f))
    ensures StanzaOf(ColumnOf(f)).None? <==> f == ID || f == UserID || f == GroupID || f == TeamID
    ensures StanzaOf(ColumnOf(f)).Some? ==> StanzaOf(ColumnOf(f)).value.target == f
  {
    hide *;
    CaseOfColumn(f);
    StanzaOfColumn(f);
  }

  lemma CaseOfColumn(f: Field)
    ensures CaseOf(ColumnOf(f)) == Some(Case(KindOf(ColumnOf(f)), f))
  {
  }

  lemma StanzaOfColumn(f: Field)
    ensures StanzaOf(ColumnOf(f)).None? <==> f == ID || f == UserID || f == GroupID || f == TeamID
    ensures StanzaOf(ColumnOf(f)).Some? ==> StanzaOf(ColumnOf(f)).value.target == f
  {
  }

  lemma StanzaAt(k: nat)
    requires k < |STANZAS|
    ensures StanzaOf(STANZAS[k]).Some?
    ensures STANZAS[k] !in STANZAS[..k]
  {
  }

  method ScanValues(columns: seq<Column>) returns (values: array<Kind>)
    ensures fresh(values) && values.Length == |columns|
    ensures forall i | 0 <= i < |columns| :: values[i] == KindOf(columns[i])
  {
    values := new Kind[|columns|](_ => UnknownType);
    for i := 0 to |columns|
      invariant forall j | 0 <= j < i :: values[j] == KindOf(columns[j])
    {
      values[i] := KindOf(columns[i]);
    }
  }

  datatype AssignError = TooFewValues | UnexpectedType(column: Column) | BadJson(column: Column)

  // The struct so far, what went to selectValues, and the error that ended the assignment.
  datatype Assignment = Assignment(data: Struct, extra: map<string, Holder>, error: Option<AssignError>)

  // What a document is as a map or a slice; null is nil.
  function Decode(t: Type, json: Json): Option<Value> {
    match json
    case JsonNull => Some(Zero(t))
    case JsonObject(m) => if t == StringMap then Some(MapV(Some(m))) else None
    case JsonArray(l) => if t == StringList then Some(ListV(Some(l))) else None
  }

  // The entries of a map field.
  function Entries(was: Slot): map<string, string> {
    if was.Plain? && was.v.MapV? && was.v.m.Some? then was.v.m.value else map[]
  }

  // json.Unmarshal into a field that holds `was`: an object is added to the map that is there,
  // null and arrays replace what is there.
  function Unmarshal(t: Type, json: Json, was: Slot): Option<Value> {
    var v := Decode(t, json);
    if v.Some? && json.JsonObject? then Some(MapV(Some(Entries(was) + json.members))) else v
  }

  // So a map field of a struct that was filled before takes on the document exactly when the
  // document names every entry that is already there.
  lemma UnmarshalMerges(json: Json, was: Slot)
    requires json.JsonObject?
    ensures Unmarshal(StringMap, json, was) == Decode(StringMap, json) <==> Entries(was).Keys <= json.members.Keys
  {
    var merged := Entries(was) + json.members;
    if Entries(was).Keys <= json.members.Keys {
      assert merged == json.members;
    } else {
      var k :| k in Entries(was) && k !in json.members;
      assert k in merged;
    }
  }

  lemma UnmarshalAgain(f: Field, json: Json, was: Slot)
    requires Decode(Declared(f).t, json).Some?
    requires was == ZeroSlot(f) || was == Store(f, Decode(Declared(f).t, json).value)
    ensures Unmarshal(Declared(f).t, json, was) == Decode(Declared(f).t, json)
  {
    if json.JsonObject? {
      assert map[] + json.members == json.members && json.members + json.members == json.members;
    }
  }

  // One turn of assignValues' switch. NULL leaves a field as it is, except the id.
  function AssignOne(d: Struct, extra: map<string, Holder>, c: Column, h: Holder): Assignment {
    match CaseOf(c)
    case None => Assignment(d, if c.Extra? then extra[c.name := h] else extra, None)
    case Some(Case(kind, f)) =>
      if h.kind != kind then Assignment(d, extra, Some(UnexpectedType(c)))
      else
        match h.cell {
          case Null => Assignment(if f == ID then d[ID := Plain(IntV(0))] else d, extra, None)
          case Scalar(v) => Assignment(d[f := Store(f, v)], extra, None)
          case Text(json) =>
            var v := Unmarshal(Declared(f).t, json, if f in d then d[f] else Nil);
            if v.None? then Assignment(d, extra, Some(BadJson(c))) else Assignment(d[f := Store(f, v.value)], extra, None)
        }
  }

  // The first i columns assigned in order, stopping at the first error.
  function AssignUpTo(d: Struct, extra: map<string, Holder>, columns: seq<Column>, values: seq<Holder>, i: nat): Assignment
    requires i <= |columns| <= |values|
  {
    if i == 0 then Assignment(d, extra, None)
    else
      var a := AssignUpTo(d, extra, columns, values, i - 1);
      if a.error.Some? then a else AssignOne(a.data, a.extra, columns[i - 1], values[i - 1])
  }

  function Assign(d: Struct, extra: map<string, Holder>, columns: seq<Column>, values: seq<Holder>): Assignment {
    if |values| < |columns| then Assignment(d, extra, Some(TooFewValues))
    else AssignUpTo(d, extra, columns, values, |columns|)
  }

  class Entity {
    var data: Struct
    var selectValues: map<string, Holder>

    constructor ()
      ensures data == New() && selectValues == map[]
    {
      data, selectValues := New(), map[];
    }

    method AssignValues(columns: seq<Column>, values: seq<Holder>) returns (error: Option<AssignError>)
      modifies this
      ensures Assignment(data, selectValues, error) == Assign(old(data), old(selectValues), columns, values)
    {
      hide AssignOne;
      if |values| < |columns| { return Some(TooFewValues); }
      error := None;
      for i := 0 to |columns|
        invariant error.None?
        invariant Assignment(data, selectValues, None) == AssignUpTo(old(data), old(selectValues), columns, values, i)
      {
        var a := AssignOne(data, selectValues, columns[i], values[i]);
        data, selectValues, error := a.data, a.extra, a.error;
        if error.Some? {
          StopsAt(old(data), old(selectValues), columns, values, i + 1, |columns|);
          return;
        }
      }
    }
  }

  lemma {:induction false} StopsAt(d: Struct, extra: map<string, Holder>, columns: seq<Column>, values: seq<Holder>, i: nat, j: nat)
    requires i <= j <= |columns| <= |values| && AssignUpTo(d, extra, columns, values, i).error.Some?
    ensures AssignUpTo(d, extra, columns, values, j) == AssignUpTo(d, extra, columns, values, i)
    decreases j - i
  {
    hide AssignOne;
    if i < j { StopsAt(d, extra, columns, values, i, j - 1); }
  }

  // A case rejects a holder exactly when it is not the one scanValues makes for the column.
  lemma RejectsWrongHolder(d: Struct, extra: map<string, Holder>, c: Column, h: Holder)
    requires !c.Extra?
    ensures AssignOne(d, extra, c, h).error == Some(UnexpectedType(c)) <==> h.kind != KindOf(c)
  {
    hide CaseOf; hide KindOf; hide Store; hide Declared;
    TablesAgree(c);
  }

  // ----- The round trip -----

  function EdgeCell(edges: seq<EdgeSpec>, c: Column): Cell {
    if edges == [] then Null
    else if edges[0].rel.M2O? && edges[0].column == c && edges[0].targets != [] then Scalar(IntV(edges[0].targets[0]))
    else EdgeCell(edges[1..], c)
  }

  // The cell the insert writes for a column: the new ID, a field of the spec, the foreign
  // key of a many-to-one edge, or NULL.
  function CellOf(spec: Spec, newId: int, c: Column): Cell {
    if c == id then Scalar(IntV(newId))
    else if c in spec.fields then spec.fields[c]
    else EdgeCell(spec.edges, c)
  }

  // The row scanned back into the holders scanValues makes.
  function Scanned(spec: Spec, newId: int, columns: seq<Column>): (hs: seq<Holder>)
    ensures |hs| == |columns|
    ensures forall i | 0 <= i < |hs| :: hs[i] == Holder(KindOf(columns[i]), CellOf(spec, newId, columns[i]))
  {
    seq(|columns|, i requires 0 <= i < |columns| => Holder(KindOf(columns[i]), CellOf(spec, newId, columns[i])))
  }

  // The node after its ID was published.
  function Target(node: Struct, newId: int): Struct {
    node[ID := Plain(IntV(newId))]
  }

  lemma EdgeCellConcat(a: seq<EdgeSpec>, b: seq<EdgeSpec>, c: Column)
    ensures EdgeCell(a + b, c) == if EdgeCell(a, c) == Null then EdgeCell(b, c) else EdgeCell(a, c)
  {
    if a == [] {
      assert a + b == b;
    } else {
      assert (a + b)[1..] == a[1..] + b;
    }
  }

  lemma EdgeCells(m: Mutation, c: Column)
    ensures EdgeCell(EdgesOf(m), c)
         == if c == user_id && m.user.Some? then Scalar(IntV(m.user.value))
            else if c == group_id && m.group.Some? then Scalar(IntV(m.group.value))
            else if c == team_id && m.team.Some? then Scalar(IntV(m.team.value))
            else Null
  {
    var e1, e2, e3 := OneEdge(user_id, m.user), OneEdge(group_id, m.group), ManyEdge(USAGE_LOGS, m.usageLogs);
    var e4, e5 := ManyEdge(COMPOSITE_GROUPS, m.compositeGroups), OneEdge(team_id, m.team);
    EdgeCellConcat(e1, e2, c);
    EdgeCellConcat(e1 + e2, e3, c);
    EdgeCellConcat(e1 + e2 + e3, e4, c);
    EdgeCellConcat(e1 + e2 + e3 + e4, e5, c);
    OneCell(user_id, m.user, c);
    OneCell(group_id, m.group, c);
    OneCell(team_id, m.team, c);
    ManyCell(USAGE_LOGS, m.usageLogs, c);
    ManyCell(COMPOSITE_GROUPS, m.compositeGroups, c);
  }

  lemma OneCell(column: Column, target: Option<int>, c: Column)
    ensures EdgeCell(OneEdge(column, target), c)
         == if c == column && target.Some? then Scalar(IntV(target.value)) else Null
  {
  }

  lemma ManyCell(column: Column, targets: seq<int>, c: Column)
    ensures EdgeCell(ManyEdge(column, targets), c) == Null
  {
  }

  lemma EncodeDecode(v: Value)
    ensures match Encode(v)
            case Null => false
            case Scalar(u) => u == v
            case Text(json) => Decode(TypeOf(v), json) == Some(v)
  {
  }

  // What the cell of a field's column holds is what the node holds.
  ghost predicate Holds(cell: Cell, f: Field, s: Slot, zero: Slot) {
    match cell
    case Null => f != ID && s == zero
    case Scalar(u) => s == Store(f, u)
    case Text(json) => var u := Decode(Declared(f).t, json); u.Some? && s == Store(f, u.value)
  }

  lemma CellHoldsField(m: Mutation, node: Struct, spec: Spec, newId: int, f: Field)
    requires WellTyped(m) && Created(m, node, spec)
    ensures f in node
    ensures Holds(CellOf(spec, newId, ColumnOf(f)), f, Target(node, newId)[f], ZeroSlot(f))
  {
    hide StanzaOf; hide FIELDS; hide EdgesOf; hide EdgeCell; hide Decode; hide Encode; hide Store; hide ZeroSlot;
    hide FieldOf; hide Declared; hide ColumnOf; hide CaseOf; hide KindOf; hide Holds;
    AllFields(f);
    ColumnOfField(f);
    IdColumn(f);
    EdgeCells(m, ColumnOf(f));
    if f == ID {
      HoldsScalar(f, IntV(newId), ZeroSlot(f));
    } else if StanzaOf(ColumnOf(f)).Some? {
      StanzaFieldHolds(m, f);
    } else {
      EdgeFieldHolds(m, f);
    }
  }

  lemma IdColumn(f: Field)
    ensures ColumnOf(f) == id <==> f == ID
    ensures ColumnOf(f) == user_id <==> f == UserID
    ensures ColumnOf(f) == group_id <==> f == GroupID
    ensures ColumnOf(f) == team_id <==> f == TeamID
  {
  }

  lemma HoldsScalar(f: Field, u: Value, zero: Slot)
    requires f == ID
    ensures Holds(Scalar(u), f, Plain(u), zero)
  {
  }

  lemma StanzaFieldHolds(m: Mutation, f: Field)
    requires WellTyped(m) && StanzaOf(ColumnOf(f)).Some?
    ensures StanzaOf(ColumnOf(f)).value.accessor == f
    ensures Holds(if f in m.set_ then Encode(m.set_[f]) else EdgeCell(EdgesOf(m), ColumnOf(f)), f, FieldOf(m, f), ZeroSlot(f))
  {
    hide StanzaOf; hide EdgesOf; hide EdgeCell; hide Decode; hide Encode; hide Store; hide ZeroSlot;
    hide FieldOf; hide Declared; hide ColumnOf; hide CaseOf; hide KindOf;
    ColumnOfField(f);
    TablesAgree(ColumnOf(f));
    FieldOfStanza(m, ColumnOf(f));
    IdColumn(f);
    EdgeCells(m, ColumnOf(f));
    if f in m.set_ { EncodeDecode(m.set_[f]); }
  }

  lemma EdgeFieldHolds(m: Mutation, f: Field)
    requires f == UserID || f == GroupID || f == TeamID
    ensures Holds(EdgeCell(EdgesOf(m), ColumnOf(f)), f, FieldOf(m, f), ZeroSlot(f))
  {
    hide EdgesOf; hide EdgeCell; hide Store; hide ZeroSlot; hide Declared; hide Decode;
    EdgeCells(m, ColumnOf(f));
  }

  // The struct after some columns were read back: those fields as in the node, the others zero.
  ghost predicate ReadBack(d: Struct, node: Struct, newId: int, columns: seq<Column>) {
    d.Keys == FIELDS && node.Keys == FIELDS &&
    forall f | f in FIELDS :: d[f] == if ColumnOf(f) in columns then Target(node, newId)[f] else ZeroSlot(f)
  }

  lemma ReadOne(m: Mutation, node: Struct, spec: Spec, newId: int, columns: seq<Column>, d: Struct,
                extra: map<string, Holder>, c: Column)
    requires WellTyped(m) && Created(m, node, spec) && ReadBack(d, node, newId, columns)
    ensures
      var a := AssignOne(d, extra, c, Holder(KindOf(c), CellOf(spec, newId, c)));
      a.error.None? && ReadBack(a.data, node, newId, columns + [c])
  {
    hide Store; hide FIELDS; hide StanzaOf; hide CaseOf; hide KindOf; hide ColumnOf; hide ZeroSlot; hide CellOf;
    hide Created; hide WellTyped; hide Decode; hide Declared; hide Unmarshal;
    TablesAgree(c);
    if CaseOf(c).Some? {
      var f := CaseOf(c).value.field;
      CellHoldsField(m, node, spec, newId, f);
      AllFields(f);
      forall g | ColumnOf(g) == c ensures g == f { ColumnOfField(g); }
      var cell := CellOf(spec, newId, c);
      if cell.Text? { UnmarshalAgain(f, cell.json, d[f]); }
    } else {
      forall g ensures ColumnOf(g) != c { ColumnOfField(g); TablesAgree(ColumnOf(g)); }
    }
  }

  // Reading the row a create wrote gives back the node that createSpec returned, field by
  // field: any selection of columns, in any order, repeated or not, fills exactly its own
  // fields and never fails. Unset nullable columns come back as nil.
  lemma {:induction false} WriteReadRoundTrip(
    m: Mutation, node: Struct, spec: Spec, newId: int, columns: seq<Column>, i: nat)
    requires WellTyped(m) && Created(m, node, spec) && i <= |columns|
    ensures
      var a := AssignUpTo(New(), map[], columns, Scanned(spec, newId, columns), i);
      a.error.None? && ReadBack(a.data, node, newId, columns[..i])
  {
    hide AssignOne; hide ReadBack; hide CellOf; hide KindOf; hide Created; hide WellTyped; hide FIELDS; hide ZeroSlot;
    if i == 0 {
      NothingRead(m, node, spec, newId);
    } else {
      WriteReadRoundTrip(m, node, spec, newId, columns, i - 1);
      var a := AssignUpTo(New(), map[], columns, Scanned(spec, newId, columns), i - 1);
      ReadOne(m, node, spec, newId, columns[..i - 1], a.data, a.extra, columns[i - 1]);
      assert columns[..i] == columns[..i - 1] + [columns[i - 1]];
    }
  }

  lemma NothingRead(m: Mutation, node: Struct, spec: Spec, newId: int)
    requires Created(m, node, spec)
    ensures ReadBack(New(), node, newId, [])
  {
    hide ColumnOf; hide ZeroSlot;
  }

  // All columns of the table, in their declared order.
  const COLUMNS: seq<Column> := [
    id,

    created_at, updated_at, deleted_at, user_id, team_id, team_owner_disabled, key, name, group_id,
    is_composite, status, fast_mode_policy, billing_mode, preferred_subscription_id, model_mapping,
    last_used_at, ip_whitelist, ip_blacklist, quota, quota_used, expires_at, rate_limit_5h,
    rate_limit_1d, rate_limit_7d, usage_5h, usage_1d, usage_7d, window_5h_start, window_1d_start,
    window_7d_start, fallback_when_group_unavailable, managed_by]

  lemma ColumnListed(f: Field)
    ensures ColumnOf(f) in COLUMNS
  {
    match f
    case ID => assert COLUMNS[0] == id;
    case CreatedAt => assert COLUMNS[1] == created_at;
    case UpdatedAt => assert COLUMNS[2] == updated_at;
    case DeletedAt => assert COLUMNS[3] == deleted_at;
    case UserID => assert COLUMNS[4] == user_id;
    case TeamID => assert COLUMNS[5] == team_id;
    case TeamOwnerDisabled => assert COLUMNS[6] == team_owner_disabled;
    case Key => assert COLUMNS[7] == key;
    case Name => assert COLUMNS[8] == name;
    case GroupID => assert COLUMNS[9] == group_id;
    case IsComposite => assert COLUMNS[10] == is_composite;
    case Status => assert COLUMNS[11] == status;
    case FastModePolicy => assert COLUMNS[12] == fast_mode_policy;
    case BillingMode => assert COLUMNS[13] == billing_mode;
    case PreferredSubscriptionID => assert COLUMNS[14] == preferred_subscription_id;
    case ModelMapping => assert COLUMNS[15] == model_mapping;
    case LastUsedAt => assert COLUMNS[16] == last_used_at;
    case IPWhitelist => assert COLUMNS[17] == ip_whitelist;
    case IPBlacklist => assert COLUMNS[18] == ip_blacklist;
    case Quota => assert COLUMNS[19] == quota;
    case QuotaUsed => assert COLUMNS[20] == quota_used;
    case ExpiresAt => assert COLUMNS[21] == expires_at;
    case RateLimit5h => assert COLUMNS[22] == rate_limit_5h;
    case RateLimit1d => assert COLUMNS[23] == rate_limit_1d;
    case RateLimit7d => assert COLUMNS[24] == rate_limit_7d;
    case Usage5h => assert COLUMNS[25] == usage_5h;
    case Usage1d => assert COLUMNS[26] == usage_1d;
    case Usage7d => assert COLUMNS[27] == usage_7d;
    case Window5hStart => assert COLUMNS[28] == window_5h_start;
    case Window1dStart => assert COLUMNS[29] == window_1d_start;
    case Window7dStart => assert COLUMNS[30] == window_7d_start;
    case FallbackWhenGroupUnavailable => assert COLUMNS[31] == fallback_when_group_unavailable;
    case ManagedBy => assert COLUMNS[32] == managed_by;
  }

  // With all columns the whole struct comes back.
  lemma WholeRowRoundTrip(m: Mutation, node: Struct, spec: Spec, newId: int)
    requires WellTyped(m) && Created(m, node, spec)
    ensures Assign(New(), map[], COLUMNS, Scanned(spec, newId, COLUMNS)).error == None
    ensures Assign(New(), map[], COLUMNS, Scanned(spec, newId, COLUMNS)).data == Target(node, newId)
  {
    hide AssignOne; hide Scanned; hide COLUMNS; hide FIELDS; hide ColumnOf; hide Created; hide WellTyped;
    WriteReadRoundTrip(m, node, spec, newId, COLUMNS, |COLUMNS|);
    assert COLUMNS[..|COLUMNS|] == COLUMNS;
    AllFields(ID);
    forall f | f in FIELDS ensures ColumnOf(f) in COLUMNS { ColumnListed(f); }
  }

  // ----- What each edge of the spec carries -----

  // The targets of the edges with this relation and column, one after another.
  function TargetsOf(edges: seq<EdgeSpec>, rel: Rel, column: Column): seq<int> {
    if edges == [] then []
    else (if edges[0].rel == rel && edges[0].column == column then edges[0].targets else []) + TargetsOf(edges[1..], rel, column)
  }

  lemma {:induction false} TargetsConcat(a: seq<EdgeSpec>, b: seq<EdgeSpec>, rel: Rel, column: Column)
    ensures TargetsOf(a + b, rel, column) == TargetsOf(a, rel, column) + TargetsOf(b, rel, column)
  {
    if a == [] {
      assert a + b == b;
    } else {
      assert (a + b)[1..] == a[1..] + b;
      TargetsConcat(a[1..], b, rel, column);
    }
  }

  lemma OneTargets(column: Column, target: Option<int>, rel: Rel, c: Column)
    ensures TargetsOf(OneEdge(column, target), rel, c) == if rel.M2O? && c == column && target.Some? then [target.value] else []
  {
    var edges := OneEdge(column, target);
    if target.Some? { assert edges[1..] == []; }
  }

  lemma ManyTargets(column: Column, targets: seq<int>, rel: Rel, c: Column)
    ensures TargetsOf(ManyEdge(column, targets), rel, c) == if rel.O2M? && c == column then targets else []
  {
    var edges := ManyEdge(column, targets);
    if targets != [] { assert edges[1..] == []; }
  }

  // The spec carries the IDs of each edge of the mutation under the foreign key column of that
  // edge, and nothing under any other.
  lemma SpecCarriesEdges(m: Mutation, node: Struct, spec: Spec, rel: Rel, c: Column)
    requires Created(m, node, spec)
    ensures
      TargetsOf(spec.edges, rel, c)
      == match rel
         case M2O =>
           if c == user_id && m.user.Some? then [m.user.value]
           else if c == group_id && m.group.Some? then [m.group.value]
           else if c == team_id && m.team.Some? then [m.team.value]
           else []
         case O2M =>
           if c == Extra("usage_logs.api_key_id") then m.usageLogs
           else if c == Extra("api_key_composite_groups.api_key_id") then m.compositeGroups
           else []
  {
    hide TargetsOf; hide Created; hide EdgesOf;
    CreatedEdges(m, node, spec);
    EdgesCarry(m, rel, c);
    match rel
    case M2O => CarryOne(m, c);
    case O2M => CarryMany(m, c);
  }

  lemma CreatedEdges(m: Mutation, node: Struct, spec: Spec)
    requires Created(m, node, spec)
    ensures spec.edges == EdgesOf(m)
  {
    hide EdgesOf; hide FIELDS; hide StanzaOf; hide FieldOf; hide Encode;
  }

  lemma CarryOne(m: Mutation, c: Column)
    ensures
      TargetsOf(OneEdge(user_id, m.user), M2O, c) + TargetsOf(OneEdge(group_id, m.group), M2O, c)
      + TargetsOf(ManyEdge(USAGE_LOGS, m.usageLogs), M2O, c) + TargetsOf(ManyEdge(COMPOSITE_GROUPS, m.compositeGroups), M2O, c)
      + TargetsOf(OneEdge(team_id, m.team), M2O, c)
      == if c == user_id && m.user.Some? then [m.user.value]
         else if c == group_id && m.group.Some? then [m.group.value]
         else if c == team_id && m.team.Some? then [m.team.value]
         else []
  {
    hide TargetsOf; hide OneEdge; hide ManyEdge;
    OneTargets(user_id, m.user, M2O, c);
    OneTargets(group_id, m.group, M2O, c);
    OneTargets(team_id, m.team, M2O, c);
    ManyTargets(USAGE_LOGS, m.usageLogs, M2O, c);
    ManyTargets(COMPOSITE_GROUPS, m.compositeGroups, M2O, c);
  }

  lemma CarryMany(m: Mutation, c: Column)
    ensures
      TargetsOf(OneEdge(user_id, m.user), O2M, c) + TargetsOf(OneEdge(group_id, m.group), O2M, c)
      + TargetsOf(ManyEdge(USAGE_LOGS, m.usageLogs), O2M, c) + TargetsOf(ManyEdge(COMPOSITE_GROUPS, m.compositeGroups), O2M, c)
      + TargetsOf(OneEdge(team_id, m.team), O2M, c)
      == if c == Extra("usage_logs.api_key_id") then m.usageLogs
         else if c == Extra("api_key_composite_groups.api_key_id") then m.compositeGroups
         else []
  {
    hide TargetsOf; hide OneEdge; hide ManyEdge;
    OneTargets(user_id, m.user, O2M, c);
    OneTargets(group_id, m.group, O2M, c);
    OneTargets(team_id, m.team, O2M, c);
    ManyTargets(USAGE_LOGS, m.usageLogs, O2M, c);
    ManyTargets(COMPOSITE_GROUPS, m.compositeGroups, O2M, c);
    assert USAGE_LOGS.name[0] != COMPOSITE_GROUPS.name[0];
  }

  lemma EdgesCarry(m: Mutation, rel: Rel, c: Column)
    ensures
      TargetsOf(EdgesOf(m), rel, c)
      == TargetsOf(OneEdge(user_id, m.user), rel, c) + TargetsOf(OneEdge(group_id, m.group), rel, c)
         + TargetsOf(ManyEdge(USAGE_LOGS, m.usageLogs), rel, c) + TargetsOf(ManyEdge(COMPOSITE_GROUPS, m.compositeGroups), rel, c)
         + TargetsOf(OneEdge(team_id, m.team), rel, c)
  {
    hide TargetsOf; hide OneEdge; hide ManyEdge;
    var e1, e2, e3 := OneEdge(user_id, m.user), OneEdge(group_id, m.group), ManyEdge(USAGE_LOGS, m.usageLogs);
    var e4, e5 := ManyEdge(COMPOSITE_GROUPS, m.compositeGroups), OneEdge(team_id, m.team);
    TargetsConcat(e1, e2, rel, c);
    TargetsConcat(e1 + e2, e3, rel, c);
    TargetsConcat(e1 + e2 + e3, e4, rel, c);
    TargetsConcat(e1 + e2 + e3 + e4, e5, rel, c);
  }

  // ----- Types -----

  // Column, struct field and holder of a field are of one type, and the fields that may be nil
  // are the nullable columns.
  lemma TypesAgree(f: Field)
    ensures
      var c := ColumnOf(f);
      match Declared(f).t
      case Time => KindOf(c) == NullTime && (StanzaOf(c).Some? ==> StanzaOf(c).value.t == TypeTime)
      case Int64 => KindOf(c) == NullInt64 && (StanzaOf(c).Some? ==> StanzaOf(c).value.t == TypeInt64)
      case Bool => KindOf(c) == NullBool && (StanzaOf(c).Some? ==> StanzaOf(c).value.t == TypeBool)
      case String => KindOf(c) == NullString && (StanzaOf(c).Some? ==> StanzaOf(c).value.t == TypeString)
      case Float64 => KindOf(c) == NullFloat64 && (StanzaOf(c).Some? ==> StanzaOf(c).value.t == TypeFloat64)
      case StringMap => KindOf(c) == Bytes && (StanzaOf(c).Some? ==> StanzaOf(c).value.t == TypeJSON)
      case StringList => KindOf(c) == Bytes && (StanzaOf(c).Some? ==> StanzaOf(c).value.t == TypeJSON)
    ensures Declared(f).pointer
       <==> f in {DeletedAt, TeamID, GroupID, PreferredSubscriptionID, LastUsedAt, ExpiresAt, Window5hStart,
                  Window1dStart, Window7dStart, ManagedBy}
  {
    hide StanzaOf; hide KindOf;
    ColumnTyped(f);
  }

  lemma ColumnTyped(f: Field)
    ensures
      var c := ColumnOf(f);
      match Declared(f).t
      case Time => KindOf(c) == NullTime && (StanzaOf(c).Some? ==> StanzaOf(c).value.t == TypeTime)
      case Int64 => KindOf(c) == NullInt64 && (StanzaOf(c).Some? ==> StanzaOf(c).value.t == TypeInt64)
      case Bool => KindOf(c) == NullBool && (StanzaOf(c).Some? ==> StanzaOf(c).value.t == TypeBool)
      case String => KindOf(c) == NullString && (StanzaOf(c).Some? ==> StanzaOf(c).value.t == TypeString)
      case Float64 => KindOf(c) == NullFloat64 && (StanzaOf(c).Some? ==> StanzaOf(c).value.t == TypeFloat64)
      case StringMap => KindOf(c) == Bytes && (StanzaOf(c).Some? ==> StanzaOf(c).value.t == TypeJSON)
      case StringList => KindOf(c) == Bytes && (StanzaOf(c).Some? ==> StanzaOf(c).value.t == TypeJSON)
  {
  }

  // A field the mutation leaves unset is nil when its column is nullable, and zero otherwise.
  lemma UnsetFields(m: Mutation, node: Struct, spec: Spec, f: Field)
    requires Created(m, node, spec)
    requires f !in m.set_ && f !in {UserID, GroupID, TeamID}
    ensures f in node
    ensures node[f] == if f in {DeletedAt, PreferredSubscriptionID, LastUsedAt, ExpiresAt, Window5hStart, Window1dStart,
                                Window7dStart, ManagedBy} then Nil else Plain(Zero(Declared(f).t))
  {
    hide FIELDS; hide StanzaOf; hide EdgesOf; hide Encode; hide Declared;
    AllFields(f);
    TypesAgree(f);
  }

  // ----- One column, case by case -----

  // A column of the table: NULL empties the ID and leaves any other field as it is; a value, or
  // a document of the right shape, goes into the field of the column and nowhere else; a
  // document of another shape is an error. Any other column goes to the extra values.
  lemma OneColumn(d: Struct, extra: map<string, Holder>, f: Field, h: Holder)
    requires h.kind == KindOf(ColumnOf(f))
    ensures
      var a := AssignOne(d, extra, ColumnOf(f), h);
      && a.extra == extra
      && match h.cell
         case Null => a.error.None? && a.data == if f == ID then d[ID := Plain(IntV(0))] else d
         case Scalar(v) => a.error.None? && a.data == d[f := if Declared(f).pointer then Pointer(v) else Plain(v)]
         case Text(JsonArray(_)) =>
           if Declared(f).t == StringList then a.error.None? && a.data.Keys == d.Keys + {f}
           else a.error == Some(BadJson(ColumnOf(f))) && a.data == d
         case Text(JsonObject(_)) =>
           if Declared(f).t == StringMap then a.error.None? && a.data.Keys == d.Keys + {f}
           else a.error == Some(BadJson(ColumnOf(f))) && a.data == d
         case Text(JsonNull) => a.error.None? && a.data.Keys == d.Keys + {f}
  {
    hide CaseOf; hide ColumnOf; hide KindOf; hide Declared; hide Zero;
    ColumnOfField(f);
  }

  lemma ExtraColumn(d: Struct, extra: map<string, Holder>, name: string, h: Holder)
    ensures AssignOne(d, extra, Extra(name), h) == Assignment(d, extra[name := h], None)
  {
  }

  // With fewer values than columns nothing is assigned.
  lemma TooFewToAssign(d: Struct, extra: map<string, Holder>, columns: seq<Column>, values: seq<Holder>)
    ensures Assign(d, extra, columns, values).error == Some(TooFewValues) ==> |values| < |columns|
    ensures |values| < |columns| ==> Assign(d, extra, columns, values) == Assignment(d, extra, Some(TooFewValues))
  {
    if |values| >= |columns| { NeverTooFew(d, extra, columns, values, |columns|); }
  }

  lemma {:induction false} NeverTooFew(d: Struct, extra: map<string, Holder>, columns: seq<Column>, values: seq<Holder>, i: nat)
    requires i <= |columns| <= |values|
    ensures AssignUpTo(d, extra, columns, values, i).error != Some(TooFewValues)
  {
    hide CaseOf; hide Unmarshal; hide Store; hide Declared;
    if i > 0 { NeverTooFew(d, extra, columns, values, i - 1); }
  }

  // Columns the struct does not know keep their last holder under their name.
  lemma {:induction false} ExtrasAreKept(d: Struct, extra: map<string, Holder>, columns: seq<Column>, values: seq<Holder>, i: nat)
    requires i <= |columns| <= |values| && AssignUpTo(d, extra, columns, values, i).error.None?
    ensures
      var after := AssignUpTo(d, extra, columns, values, i).extra;
      && (forall j, name | 0 <= j < i && columns[j] == Extra(name) && (forall k | j < k < i :: columns[k] != Extra(name)) ::
            name in after && after[name] == values[j])
      && (forall name | Extra(name) !in columns[..i] ::
            (name in after <==> name in extra) && (name in extra ==> after[name] == extra[name]))
  {
    hide AssignOne;
    if i > 0 {
      var c, h := columns[i - 1], values[i - 1];
      ExtrasAreKept(d, extra, columns, values, i - 1);
      var a := AssignUpTo(d, extra, columns, values, i - 1);
      assert columns[..i] == columns[..i - 1] + [c];
      if c.Extra? { ExtraColumn(a.data, a.extra, c.name, h); } else { KnownColumn(a.data, a.extra, c, h); }
      var after := AssignUpTo(d, extra, columns, values, i).extra;
      forall j, name | 0 <= j < i && columns[j] == Extra(name) && (forall k | j < k < i :: columns[k] != Extra(name))
        ensures name in after && after[name] == values[j]
      {
        if j < i - 1 { assert columns[i - 1] != Extra(name); }
      }
    }
  }

  lemma KnownColumn(d: Struct, extra: map<string, Holder>, c: Column, h: Holder)
    requires !c.Extra?
    ensures AssignOne(d, extra, c, h).extra == extra
  {
    hide Unmarshal; hide Store; hide KindOf;
    TablesAgree(c);
  }
}
