// The defaults and the checks of an API key builder.

module APIKeyChecks {
  import opened Wrappers
  import opened APIKeyModel
  import B = BulkSpec

  // The package variables of apikey that defaults and check read. Three defaults are
  // functions that stay nil, None here, until ent/runtime is imported.
  datatype Config = Config(
    createdAt: Option<Value>,
    updatedAt: Option<Value>,
    modelMapping: Option<Value>,
    constant: Field -> Value,
    accepts: (Field, Value) -> bool)

  function Default(config: Config, f: Field): Option<Value> {
    match f
    case CreatedAt => config.createdAt
    case UpdatedAt => config.updatedAt
    case ModelMapping => config.modelMapping
    case _ => Some(config.constant(f))
  }

  // What the mutation's accessor of a field returns. The foreign keys live in the edges.
  function Get(m: Mutation, f: Field): Option<Value> {
    match f
    case ID => None
    case UserID => if m.user.Some? then Some(IntV(m.user.value)) else None
    case GroupID => if m.group.Some? then Some(IntV(m.group.value)) else None
    case TeamID => if m.team.Some? then Some(IntV(m.team.value)) else None
    case _ => if f in m.set_ then Some(m.set_[f]) else None
  }

  // The fields defaults fills, in its order.
  const DEFAULTED: seq<Field> := [
    CreatedAt, UpdatedAt, TeamOwnerDisabled, IsComposite, Status, FastModePolicy, BillingMode,
    ModelMapping, Quota, QuotaUsed, RateLimit5h, RateLimit1d, RateLimit7d, Usage5h, Usage1d,
    Usage7d, FallbackWhenGroupUnavailable]

  // The tests of check, in its order: a field must be set, or must be accepted by its
  // validator if it is set, or the user edge must have an ID.
  datatype Rule = Required(f: Field) | Validated(f: Field) | UserEdge

  const RULES: seq<Rule> := [
    Required(CreatedAt), Required(UpdatedAt), Required(UserID), Required(TeamOwnerDisabled),
    Required(Key), Validated(Key), Required(Name), Validated(Name), Required(IsComposite),
    Required(Status), Validated(Status), Required(FastModePolicy), Validated(FastModePolicy),
    Required(BillingMode), Validated(BillingMode), Required(ModelMapping), Required(Quota),
    Required(QuotaUsed), Required(RateLimit5h), Required(RateLimit1d), Required(RateLimit7d),
    Required(Usage5h), Required(Usage1d), Required(Usage7d), Required(FallbackWhenGroupUnavailable),
    Validated(ManagedBy), UserEdge]

  const REQUIRED: set<Field> := {
    CreatedAt, UpdatedAt, UserID, TeamOwnerDisabled, Key, Name, IsComposite, Status, FastModePolicy,
    BillingMode, ModelMapping, Quota, QuotaUsed, RateLimit5h, RateLimit1d, RateLimit7d, Usage5h,
    Usage1d, Usage7d, FallbackWhenGroupUnavailable}

  const VALIDATED: set<Field> := {Key, Name, Status, FastModePolicy, BillingMode, ManagedBy}

  function NameOf(f: Field): string {
    match f
    case CreatedAt => "created_at"
    case UpdatedAt => "updated_at"
    case UserID => "user_id"
    case TeamOwnerDisabled => "team_owner_disabled"
    case Key => "key"
    case Name => "name"
    case IsComposite => "is_composite"
    case Status => "status"
    case FastModePolicy => "fast_mode_policy"
    case BillingMode => "billing_mode"
    case ModelMapping => "model_mapping"
    case Quota => "quota"
    case QuotaUsed => "quota_used"
    case RateLimit5h => "rate_limit_5h"
    case RateLimit1d => "rate_limit_1d"
    case RateLimit7d => "rate_limit_7d"
    case Usage5h => "usage_5h"
    case Usage1d => "usage_1d"
    case Usage7d => "usage_7d"
    case FallbackWhenGroupUnavailable => "fallback_when_group_unavailable"
    case ManagedBy => "managed_by"
    case _ => ""
  }

  predicate Holds(config: Config, m: Mutation, rule: Rule) {
    match rule
    case Required(f) => Get(m, f).Some?
    case Validated(f) => Get(m, f).Some? ==> config.accepts(f, Get(m, f).value)
    case UserEdge => m.user.Some?
  }

  function Report(rule: Rule): B.Error {
    match rule
    case Required(f) => B.ValidationError(NameOf(f))
    case Validated(f) => B.ValidationError(NameOf(f))
    case UserEdge => B.ValidationError("user")
  }

  // defaults from the k-th field on: it stops at the first unset field without a default.
  function DefaultsFrom(config: Config, k: nat, m: Mutation): (r: (Mutation, B.Outcome))
    requires k <= |DEFAULTED|
    decreases |DEFAULTED| - k
  {
    if k == |DEFAULTED| then (m, B.Ok)
    else
      var f := DEFAULTED[k];
      if f in m.set_ then DefaultsFrom(config, k + 1, m)
      else if Default(config, f).None? then (m, B.Err(B.UninitializedDefault(NameOf(f))))
      else DefaultsFrom(config, k + 1, m.(set_ := m.set_[f := Default(config, f).value]))
  }

  function Defaulted(config: Config, m: Mutation): (r: (Mutation, B.Outcome)) {
    DefaultsFrom(config, 0, m)
  }

  // check from the k-th rule on: the first rule that does not hold is reported.
  function CheckFrom(config: Config, k: nat, m: Mutation): (r: B.Outcome)
    requires k <= |RULES|
    decreases |RULES| - k
  {
    if k == |RULES| then B.Ok
    else if Holds(config, m, RULES[k]) then CheckFrom(config, k + 1, m)
    else B.Err(Report(RULES[k]))
  }

  function Checked(config: Config, m: Mutation): (r: B.Outcome) {
    CheckFrom(config, 0, m)
  }

  class Builder {
    var mutation: Mutation

    constructor (m: Mutation)
      ensures mutation == m
    {
      mutation := m;
    }

    method Defaults(config: Config) returns (out: B.Outcome)
      modifies this
      ensures (mutation, out) == Defaulted(config, old(mutation))
    {
      hide DEFAULTED;
      for k := 0 to |DEFAULTED|
        invariant Defaulted(config, old(mutation)) == DefaultsFrom(config, k, mutation)
      {
        var f := DEFAULTED[k];
        if f !in mutation.set_ {
          var default := Default(config, f);
          if default.None? {
            return B.Err(B.UninitializedDefault(NameOf(f)));
          }
          mutation := mutation.(set_ := mutation.set_[f := default.value]);
        }
      }
      return B.Ok;
    }

    // Passes exactly when every rule holds, and otherwise names the first that does not.
    method Check(config: Config) returns (out: B.Outcome)
      ensures out == Checked(config, mutation)
      ensures out.Ok? <==> forall k | 0 <= k < |RULES| :: Holds(config, mutation, RULES[k])
      ensures out.Err? ==>
                exists k :: 0 <= k < |RULES| && out.error == Report(RULES[k]) && !Holds(config, mutation, RULES[k])
                            && forall j | 0 <= j < k :: Holds(config, mutation, RULES[j])
    {
      hide RULES;
      for k := 0 to |RULES|
        invariant Checked(config, mutation) == CheckFrom(config, k, mutation)
        invariant forall j | 0 <= j < k :: Holds(config, mutation, RULES[j])
      {
        if !Holds(config, mutation, RULES[k]) {
          return B.Err(Report(RULES[k]));
        }
      }
      return B.Ok;
    }
  }

  // ----- What check accepts -----

  lemma {:induction false} AllRules(config: Config, k: nat, m: Mutation)
    requires k <= |RULES|
    ensures CheckFrom(config, k, m).Ok? <==> forall j | k <= j < |RULES| :: Holds(config, m, RULES[j])
    decreases |RULES| - k
  {
    hide RULES;
    if k < |RULES| { AllRules(config, k + 1, m); }
  }

  lemma RuleAt(k: nat)
    requires k < |RULES|
    ensures RULES[k].Required? ==> RULES[k].f in REQUIRED
    ensures RULES[k].Validated? ==> RULES[k].f in VALIDATED
  {
  }

  lemma RequiredIsListed(f: Field)
    requires f in REQUIRED
    ensures Required(f) in RULES
  {
    match f
    case CreatedAt => assert RULES[0] == Required(f);
    case UpdatedAt => assert RULES[1] == Required(f);
    case UserID => assert RULES[2] == Required(f);
    case TeamOwnerDisabled => assert RULES[3] == Required(f);
    case Key => assert RULES[4] == Required(f);
    case Name => assert RULES[6] == Required(f);
    case IsComposite => assert RULES[8] == Required(f);
    case Status => assert RULES[9] == Required(f);
    case FastModePolicy => assert RULES[11] == Required(f);
    case BillingMode => assert RULES[13] == Required(f);
    case ModelMapping => assert RULES[15] == Required(f);
    case Quota => assert RULES[16] == Required(f);
    case QuotaUsed => assert RULES[17] == Required(f);
    case RateLimit5h => assert RULES[18] == Required(f);
    case RateLimit1d => assert RULES[19] == Required(f);
    case RateLimit7d => assert RULES[20] == Required(f);
    case Usage5h => assert RULES[21] == Required(f);
    case Usage1d => assert RULES[22] == Required(f);
    case Usage7d => assert RULES[23] == Required(f);
    case FallbackWhenGroupUnavailable => assert RULES[24] == Required(f);
  }

  lemma ValidatedIsListed(f: Field)
    requires f in VALIDATED
    ensures Validated(f) in RULES
  {
    match f
    case Key => assert RULES[5] == Validated(f);
    case Name => assert RULES[7] == Validated(f);
    case Status => assert RULES[10] == Validated(f);
    case FastModePolicy => assert RULES[12] == Validated(f);
    case BillingMode => assert RULES[14] == Validated(f);
    case ManagedBy => assert RULES[25] == Validated(f);
  }

  // The order of the rules does not matter for what passes. The test of the user edge at the
  // end never fails alone: a missing user is found by the test of user_id first.
  lemma CheckPassesExactlyWhen(config: Config, m: Mutation)
    ensures Checked(config, m).Ok?
       <==> && (forall f | f in REQUIRED :: Get(m, f).Some?)
            && (forall f | f in VALIDATED && Get(m, f).Some? :: config.accepts(f, Get(m, f).value))
  {
    hide RULES; hide REQUIRED; hide VALIDATED; hide Get;
    AllRules(config, 0, m);
    UserIsRequired(m);
    if Checked(config, m).Ok? {
      forall f | f in REQUIRED ensures Get(m, f).Some? {
        RequiredIsListed(f);
        assert Holds(config, m, Required(f));
      }
      forall f | f in VALIDATED && Get(m, f).Some? ensures config.accepts(f, Get(m, f).value) {
        ValidatedIsListed(f);
        assert Holds(config, m, Validated(f));
      }
    } else {
      var j :| 0 <= j < |RULES| && !Holds(config, m, RULES[j]);
      RuleAt(j);
    }
  }

  // The same on the values of the mutation: the user has an ID, the other required fields are
  // set, and the validators accept what is set.
  lemma CheckPassesOnValues(config: Config, m: Mutation)
    ensures Checked(config, m).Ok?
       <==> && m.user.Some?
            && (forall f | f in {CreatedAt, UpdatedAt, TeamOwnerDisabled, Key, Name, IsComposite, Status, FastModePolicy,
                                 BillingMode, ModelMapping, Quota, QuotaUsed, RateLimit5h, RateLimit1d, RateLimit7d,
                                 Usage5h, Usage1d, Usage7d, FallbackWhenGroupUnavailable} :: f in m.set_)
            && (forall f | f in {Key, Name, Status, FastModePolicy, BillingMode, ManagedBy} && f in m.set_ ::
                  config.accepts(f, m.set_[f]))
  {
    hide Checked; hide Get; hide REQUIRED; hide VALIDATED;
    CheckPassesExactlyWhen(config, m);
    RequiredAre();
    UserIsRequired(m);
    forall f | f !in {ID, UserID, GroupID, TeamID} ensures Get(m, f) == if f in m.set_ then Some(m.set_[f]) else None {
      ValueOf(m, f);
    }
  }

  lemma RequiredAre()
    ensures REQUIRED == {UserID} + {
              CreatedAt, UpdatedAt, TeamOwnerDisabled, Key, Name, IsComposite, Status, FastModePolicy, BillingMode,
              ModelMapping, Quota, QuotaUsed, RateLimit5h, RateLimit1d, RateLimit7d, Usage5h, Usage1d, Usage7d,
              FallbackWhenGroupUnavailable}
    ensures VALIDATED == {Key, Name, Status, FastModePolicy, BillingMode, ManagedBy}
  {
  }

  lemma ValueOf(m: Mutation, f: Field)
    requires f !in {ID, UserID, GroupID, TeamID}
    ensures Get(m, f) == if f in m.set_ then Some(m.set_[f]) else None
  {
  }

  // The names under which the rules are reported, in the order of the rules.
  const REPORTED: seq<string> := [
    "created_at", "updated_at", "user_id", "team_owner_disabled", "key", "key", "name", "name",
    "is_composite", "status", "status", "fast_mode_policy", "fast_mode_policy", "billing_mode",
    "billing_mode", "model_mapping", "quota", "quota_used", "rate_limit_5h", "rate_limit_1d",
    "rate_limit_7d", "usage_5h", "usage_1d", "usage_7d", "fallback_when_group_unavailable",
    "managed_by", "user"]

  lemma RulesAreNamed(k: nat)
    requires k < |RULES|
    ensures |REPORTED| == |RULES| && Report(RULES[k]) == B.ValidationError(REPORTED[k])
  {
    RuleNamed(k);
  }

  ghost predicate Named(k: nat) {
    k < |RULES| && k < |REPORTED| &&
    match RULES[k]
    case Required(f) => NameOf(f) == REPORTED[k]
    case Validated(f) => NameOf(f) == REPORTED[k]
    case UserEdge => REPORTED[k] == "user"
  }

  lemma RuleNamed(k: nat)
    requires k < |RULES|
    ensures Named(k)
  {
    hide Named; hide RULES;
    if k < 7 { NamedTo7(k); } else if k < 14 { NamedTo14(k); } else if k < 21 { NamedTo21(k); } else { NamedFrom21(k); }
  }

  lemma NamedTo7(k: nat)
    requires k < 7
    ensures Named(k)
  {
  }

  lemma NamedTo14(k: nat)
    requires 7 <= k < 14
    ensures Named(k)
  {
  }

  lemma NamedTo21(k: nat)
    requires 14 <= k < 21
    ensures Named(k)
  {
  }

  lemma NamedFrom21(k: nat)
    requires 21 <= k < |RULES|
    ensures Named(k)
  {
  }

  // An error of check names the first rule that does not hold.
  lemma CheckErrsWith(config: Config, m: Mutation, k: nat)
    requires k < |RULES| && !Holds(config, m, RULES[k]) && forall j | 0 <= j < k :: Holds(config, m, RULES[j])
    ensures |REPORTED| == |RULES| && Checked(config, m) == B.Err(B.ValidationError(REPORTED[k]))
  {
    hide RULES; hide REPORTED; hide Holds; hide Report;
    RulesAreNamed(k);
    FirstRule(config, m, 0, k);
  }

  lemma {:induction false} FirstRule(config: Config, m: Mutation, i: nat, k: nat)
    requires i <= k < |RULES| && !Holds(config, m, RULES[k]) && forall j | i <= j < k :: Holds(config, m, RULES[j])
    ensures CheckFrom(config, i, m) == B.Err(Report(RULES[k]))
    decreases k - i
  {
    hide RULES; hide Holds; hide Report;
    if i < k { FirstRule(config, m, i + 1, k); }
  }

  lemma UserIsRequired(m: Mutation)
    ensures UserID in REQUIRED
    ensures Get(m, UserID).Some? <==> m.user.Some?
  {
  }

  // ----- What defaults promises -----

  // m and n agree but for some unset fields of DEFAULTED that n gives their default.
  ghost predicate Filled(config: Config, k: nat, m: Mutation, n: Mutation) {
    && n == m.(set_ := n.set_)
    && (forall f | f in m.set_ :: f in n.set_ && n.set_[f] == m.set_[f])
    && (forall f | f in n.set_ && f !in m.set_ ::
          f in DEFAULTED && Default(config, f).Some? && n.set_[f] == Default(config, f).value)
  }

  // No set field is overwritten and only defaults are added. All fields of DEFAULTED end up
  // set exactly when defaults returns no error, exactly when each was set or has a default.
  lemma {:induction false} DefaultsFill(config: Config, k: nat, m: Mutation)
    requires k <= |DEFAULTED|
    ensures
      var (n, out) := DefaultsFrom(config, k, m);
      && Filled(config, k, m, n)
      && (out.Ok? <==> forall j | k <= j < |DEFAULTED| :: DEFAULTED[j] in n.set_)
      && (out.Ok? <==> forall j | k <= j < |DEFAULTED| :: DEFAULTED[j] in m.set_ || Default(config, DEFAULTED[j]).Some?)
    decreases |DEFAULTED| - k
  {
    hide DEFAULTED; hide Default;
    if k < |DEFAULTED| {
      var f := DEFAULTED[k];
      if f in m.set_ {
        DefaultsFill(config, k + 1, m);
      } else if Default(config, f).Some? {
        DefaultsFill(config, k + 1, m.(set_ := m.set_[f := Default(config, f).value]));
      }
    }
  }

  lemma {:induction false} DefaultsKeepFull(config: Config, k: nat, m: Mutation)
    requires k <= |DEFAULTED| && forall j | k <= j < |DEFAULTED| :: DEFAULTED[j] in m.set_
    ensures DefaultsFrom(config, k, m) == (m, B.Ok)
    decreases |DEFAULTED| - k
  {
    hide DEFAULTED;
    if k < |DEFAULTED| { DefaultsKeepFull(config, k + 1, m); }
  }

  lemma {:induction false} DefaultsStop(config: Config, k: nat, m: Mutation)
    requires k <= |DEFAULTED| && DefaultsFrom(config, k, m).1.Err?
    ensures
      var n := DefaultsFrom(config, k, m).0;
      DefaultsFrom(config, k, n) == DefaultsFrom(config, k, m)
    decreases |DEFAULTED| - k
  {
    hide DEFAULTED; hide Default;
    var f := DEFAULTED[k];
    if f in m.set_ {
      DefaultsStop(config, k + 1, m);
      DefaultsFill(config, k + 1, m);
    } else if Default(config, f).Some? {
      var m' := m.(set_ := m.set_[f := Default(config, f).value]);
      DefaultsStop(config, k + 1, m');
      DefaultsFill(config, k + 1, m');
    }
  }

  // Calling defaults again changes nothing and returns the same outcome.
  lemma DefaultsTwice(config: Config, m: Mutation)
    ensures Defaulted(config, Defaulted(config, m).0) == Defaulted(config, m)
  {
    DefaultsFill(config, 0, m);
    if Defaulted(config, m).1.Ok? {
      DefaultsKeepFull(config, 0, Defaulted(config, m).0);
    } else {
      DefaultsStop(config, 0, m);
    }
  }

  lemma DefaultedIsRequired(k: nat)
    requires k < |DEFAULTED|
    ensures DEFAULTED[k] in REQUIRED && DEFAULTED[k] !in {ID, UserID, GroupID, TeamID}
  {
  }

  // A field defaults fails to fill is one that check requires, before defaults as well as after.
  lemma DefaultsFailureIsChecked(config: Config, m: Mutation)
    requires Defaulted(config, m).1.Err?
    ensures Checked(config, m).Err? && Checked(config, Defaulted(config, m).0).Err?
  {
    hide DEFAULTED; hide REQUIRED; hide VALIDATED; hide Checked; hide Default;
    var n := Defaulted(config, m).0;
    DefaultsFill(config, 0, m);
    var j :| 0 <= j < |DEFAULTED| && DEFAULTED[j] !in n.set_;
    DefaultedIsRequired(j);
    CheckPassesExactlyWhen(config, m);
    CheckPassesExactlyWhen(config, n);
  }

  // After defaults succeed only the user, the key, the name and the validators are left to
  // check.
  lemma AfterDefaults(config: Config, m: Mutation)
    requires Defaulted(config, m).1.Ok?
    ensures
      var n := Defaulted(config, m).0;
      Checked(config, n).Ok?
      <==> && m.user.Some? && Key in m.set_ && Name in m.set_
           && (forall f | f in VALIDATED && Get(n, f).Some? :: config.accepts(f, Get(n, f).value))
  {
    hide REQUIRED; hide VALIDATED; hide DEFAULTED; hide Checked; hide Default;
    var n := Defaulted(config, m).0;
    DefaultsFill(config, 0, m);
    CheckPassesExactlyWhen(config, n);
    NotDefaulted();
    forall f | f in REQUIRED ensures f == UserID || f == Key || f == Name || f in DEFAULTED { RequiredSplit(f); }
    forall f | f in DEFAULTED ensures Get(n, f).Some? {
      var j :| 0 <= j < |DEFAULTED| && DEFAULTED[j] == f;
      DefaultedIsRequired(j);
    }
  }

  lemma NotDefaulted()
    ensures UserID in REQUIRED && Key in REQUIRED && Name in REQUIRED
    ensures Key !in DEFAULTED && Name !in DEFAULTED
  {
  }

  lemma RequiredSplit(f: Field)
    requires f in REQUIRED
    ensures f == UserID || f == Key || f == Name || f in DEFAULTED
  {
    match f
    case UserID | Key | Name =>
    case CreatedAt => assert DEFAULTED[0] == f;
    case UpdatedAt => assert DEFAULTED[1] == f;
    case TeamOwnerDisabled => assert DEFAULTED[2] == f;
    case IsComposite => assert DEFAULTED[3] == f;
    case Status => assert DEFAULTED[4] == f;
    case FastModePolicy => assert DEFAULTED[5] == f;
    case BillingMode => assert DEFAULTED[6] == f;
    case ModelMapping => assert DEFAULTED[7] == f;
    case Quota => assert DEFAULTED[8] == f;
    case QuotaUsed => assert DEFAULTED[9] == f;
    case RateLimit5h => assert DEFAULTED[10] == f;
    case RateLimit1d => assert DEFAULTED[11] == f;
    case RateLimit7d => assert DEFAULTED[12] == f;
    case Usage5h => assert DEFAULTED[13] == f;
    case Usage1d => assert DEFAULTED[14] == f;
    case Usage7d => assert DEFAULTED[15] == f;
    case FallbackWhenGroupUnavailable => assert DEFAULTED[16] == f;
  }

  // ----- Which values defaults gives -----

  // After defaults succeeded each of the fourteen fields with a constant default that was unset
  // holds the constant of that same field, and the other three what their own functions gave.
  lemma DefaultsGive(config: Config, m: Mutation)
    requires Defaulted(config, m).1.Ok?
    ensures
      var n := Defaulted(config, m).0;
      && (forall f | f in m.set_ :: f in n.set_ && n.set_[f] == m.set_[f])
      && (forall f | f in {TeamOwnerDisabled, IsComposite, Status, FastModePolicy, BillingMode, Quota, QuotaUsed,
                           RateLimit5h, RateLimit1d, RateLimit7d, Usage5h, Usage1d, Usage7d,
                           FallbackWhenGroupUnavailable} && f !in m.set_ ::
            f in n.set_ && n.set_[f] == config.constant(f))
      && (CreatedAt !in m.set_ ==> CreatedAt in n.set_ && Some(n.set_[CreatedAt]) == config.createdAt)
      && (UpdatedAt !in m.set_ ==> UpdatedAt in n.set_ && Some(n.set_[UpdatedAt]) == config.updatedAt)
      && (ModelMapping !in m.set_ ==> ModelMapping in n.set_ && Some(n.set_[ModelMapping]) == config.modelMapping)
      && (n.user, n.group, n.team, n.usageLogs, n.compositeGroups) == (m.user, m.group, m.team, m.usageLogs, m.compositeGroups)
  {
    hide Defaulted; hide DEFAULTED;
    DefaultsFillAll(config, m);
  }

  lemma DefaultsFillAll(config: Config, m: Mutation)
    requires Defaulted(config, m).1.Ok?
    ensures
      var n := Defaulted(config, m).0;
      && n == m.(set_ := n.set_)
      && (forall f | f in m.set_ :: f in n.set_ && n.set_[f] == m.set_[f])
      && (forall f | f !in {ID, DeletedAt, UserID, TeamID, Key, Name, GroupID, PreferredSubscriptionID, LastUsedAt,
                            IPWhitelist, IPBlacklist, ExpiresAt, Window5hStart, Window1dStart, Window7dStart, ManagedBy}
            && f !in m.set_ :: f in n.set_ && Some(n.set_[f]) == Default(config, f))
  {
    hide DEFAULTED; hide Default;
    DefaultsFill(config, 0, m);
    var n := Defaulted(config, m).0;
    forall f | f !in {ID, DeletedAt, UserID, TeamID, Key, Name, GroupID, PreferredSubscriptionID, LastUsedAt,
                      IPWhitelist, IPBlacklist, ExpiresAt, Window5hStart, Window1dStart, Window7dStart, ManagedBy}
      ensures f in DEFAULTED
    {
      OthersDefaulted(f);
    }
    forall f | f in DEFAULTED ensures f in n.set_ {
      var j :| 0 <= j < |DEFAULTED| && DEFAULTED[j] == f;
    }
  }

  lemma OthersDefaulted(f: Field)
    requires f !in {ID, DeletedAt, UserID, TeamID, Key, Name, GroupID, PreferredSubscriptionID, LastUsedAt,
                    IPWhitelist, IPBlacklist, ExpiresAt, Window5hStart, Window1dStart, Window7dStart, ManagedBy}
    ensures f in DEFAULTED
  {
    RequiredSplit(f);
  }

  lemma {:induction false} FirstUninitialized(config: Config, k: nat, j: nat, m: Mutation)
    requires k <= j < |DEFAULTED| && DEFAULTED[j] !in m.set_ && Default(config, DEFAULTED[j]).None?
    requires forall i | k <= i < j :: DEFAULTED[i] in m.set_ || Default(config, DEFAULTED[i]).Some?
    ensures DefaultsFrom(config, k, m).1 == B.Err(B.UninitializedDefault(NameOf(DEFAULTED[j])))
    decreases j - k
  {
    hide DEFAULTED; hide Default; hide NameOf;
    if k < j {
      var f := DEFAULTED[k];
      FirstUninitialized(config, k + 1, j, if f in m.set_ then m else m.(set_ := m.set_[f := Default(config, f).value]));
    }
  }

  // An error of defaults names the first of the three fields with a default function that is
  // unset and whose function is missing.
  lemma DefaultsErrWith(config: Config, m: Mutation)
    ensures
      var out := Defaulted(config, m).1;
      out == if CreatedAt !in m.set_ && config.createdAt.None? then B.Err(B.UninitializedDefault("created_at"))
             else if UpdatedAt !in m.set_ && config.updatedAt.None? then B.Err(B.UninitializedDefault("updated_at"))
             else if ModelMapping !in m.set_ && config.modelMapping.None? then B.Err(B.UninitializedDefault("model_mapping"))
             else B.Ok
  {
    hide DefaultsFrom;
    assert DEFAULTED[0] == CreatedAt && DEFAULTED[1] == UpdatedAt && DEFAULTED[7] == ModelMapping;
    if CreatedAt !in m.set_ && config.createdAt.None? {
      FirstUninitialized(config, 0, 0, m);
    } else if UpdatedAt !in m.set_ && config.updatedAt.None? {
      FirstUninitialized(config, 0, 1, m);
    } else if ModelMapping !in m.set_ && config.modelMapping.None? {
      FirstUninitialized(config, 0, 7, m);
    } else {
      DefaultsFill(config, 0, m);
      DefaultsErrIsErr(config, m);
    }
  }

  lemma DefaultsErrIsErr(config: Config, m: Mutation)
    requires (CreatedAt in m.set_ || config.createdAt.Some?) && (UpdatedAt in m.set_ || config.updatedAt.Some?)
    requires ModelMapping in m.set_ || config.modelMapping.Some?
    ensures Defaulted(config, m).1 == B.Ok
  {
    hide DefaultsFrom; hide DEFAULTED;
    DefaultsFill(config, 0, m);
  }
}
