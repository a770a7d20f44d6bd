// An API key: its columns, its Go struct, and the mutation it is created from.

module APIKeyModel {
  import opened Wrappers

  // The columns of the table; Extra is any other column, e.g. one a modifier selects.
  datatype Column =
    | id | created_at | updated_at | deleted_at | user_id | team_id | team_owner_disabled | key | name
    | group_id | is_composite | status | fast_mode_policy | billing_mode | preferred_subscription_id
    | model_mapping | last_used_at | ip_whitelist | ip_blacklist | quota | quota_used | expires_at
    | rate_limit_5h | rate_limit_1d | rate_limit_7d | usage_5h | usage_1d | usage_7d | window_5h_start
    | window_1d_start | window_7d_start | fallback_when_group_unavailable | managed_by
    | Extra(name: string)

  // The fields of the struct, which are also the accessors of the mutation.
  datatype Field =
    | ID | CreatedAt | UpdatedAt | DeletedAt | UserID | TeamID | TeamOwnerDisabled | Key | Name
    | GroupID | IsComposite | Status | FastModePolicy | BillingMode | PreferredSubscriptionID
    | ModelMapping | LastUsedAt | IPWhitelist | IPBlacklist | Quota | QuotaUsed | ExpiresAt
    | RateLimit5h | RateLimit1d | RateLimit7d | Usage5h | Usage1d | Usage7d | Window5hStart
    | Window1dStart | Window7dStart | FallbackWhenGroupUnavailable | ManagedBy

  datatype Type = Time | Int64 | Bool | String | Float64 | StringMap | StringList

  // Times are instants; a nil map or slice is None.
  datatype Value =
    | TimeV(t: int)
    | IntV(i: int)
    | BoolV(b: bool)
    | StringV(s: string)
    | FloatV(f: real)
    | MapV(m: Option<map<string, string>>)
    | ListV(l: Option<seq<string>>)

  function TypeOf(v: Value): Type {
    match v
    case TimeV(_) => Time
    case IntV(_) => Int64
    case BoolV(_) => Bool
    case StringV(_) => String
    case FloatV(_) => Float64
    case MapV(_) => StringMap
    case ListV(_) => StringList
  }

  function Zero(t: Type): (v: Value)
    ensures TypeOf(v) == t
  {
    match t
    case Time => TimeV(0)
    case Int64 => IntV(0)
    case Bool => BoolV(false)
    case String => StringV("")
    case Float64 => FloatV(0.0)
    case StringMap => MapV(None)
    case StringList => ListV(None)
  }

  // A struct field holds a value, or a pointer that is nil or points to one.
  datatype Slot = Plain(v: Value) | Nil | Pointer(v: Value)

  type Struct = map<Field, Slot>

  // The declared type of a field and whether it is a pointer.
  datatype Decl = Decl(t: Type, pointer: bool)

  function Declared(f: Field): Decl {
    match f
    case ID => Decl(Int64, false)
    case CreatedAt => Decl(Time, false)
    case UpdatedAt => Decl(Time, false)
    case DeletedAt => Decl(Time, true)
    case UserID => Decl(Int64, false)
    case TeamID => Decl(Int64, true)
    case TeamOwnerDisabled => Decl(Bool, false)
    case Key => Decl(String, false)
    case Name => Decl(String, false)
    case GroupID => Decl(Int64, true)
    case IsComposite => Decl(Bool, false)
    case Status => Decl(String, false)
    case FastModePolicy => Decl(String, false)
    case BillingMode => Decl(String, false)
    case PreferredSubscriptionID => Decl(Int64, true)
    case ModelMapping => Decl(StringMap, false)
    case LastUsedAt => Decl(Time, true)
    case IPWhitelist => Decl(StringList, false)
    case IPBlacklist => Decl(StringList, false)
    case Quota => Decl(Float64, false)
    case QuotaUsed => Decl(Float64, false)
    case ExpiresAt => Decl(Time, true)
    case RateLimit5h => Decl(Float64, false)
    case RateLimit1d => Decl(Float64, false)
    case RateLimit7d => Decl(Float64, false)
    case Usage5h => Decl(Float64, false)
    case Usage1d => Decl(Float64, false)
    case Usage7d => Decl(Float64, false)
    case Window5hStart => Decl(Time, true)
    case Window1dStart => Decl(Time, true)
    case Window7dStart => Decl(Time, true)
    case FallbackWhenGroupUnavailable => Decl(Bool, false)
    case ManagedBy => Decl(String, true)
  }

  function ZeroSlot(f: Field): Slot {
    if Declared(f).pointer then Nil else Plain(Zero(Declared(f).t))
  }

  function Store(f: Field, v: Value): Slot {
    if Declared(f).pointer then Pointer(v) else Plain(v)
  }

  const FIELDS: set<Field> := {
    ID,
    CreatedAt, UpdatedAt, DeletedAt, UserID, TeamID, TeamOwnerDisabled, Key, Name, GroupID, IsComposite,
    Status, FastModePolicy, BillingMode, PreferredSubscriptionID, ModelMapping, LastUsedAt, IPWhitelist,
    IPBlacklist, Quota, QuotaUsed, ExpiresAt, RateLimit5h, RateLimit1d, RateLimit7d, Usage5h, Usage1d,
    Usage7d, Window5hStart, Window1dStart, Window7dStart, FallbackWhenGroupUnavailable, ManagedBy}

  lemma AllFields(f: Field)
    ensures f in FIELDS
  {
  }

  // A new, zeroed struct.
  function New(): (d: Struct)
    ensures d.Keys == FIELDS && forall f | f in FIELDS :: d[f] == ZeroSlot(f)
  {
    map f | f in FIELDS :: ZeroSlot(f)
  }

  // A create mutation: the fields that were set, and the IDs of its edges.
  datatype Mutation = Mutation(
    set_: map<Field, Value>,
    user: Option<int>,
    group: Option<int>,
    team: Option<int>,
    usageLogs: seq<int>,
    compositeGroups: seq<int>)
}
