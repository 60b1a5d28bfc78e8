/**
 * The decoded policy and its validation (config.go). A policy lists the
 * resource names and, per role, the actions it may perform on named
 * resources or on every resource ("*"). `validate` (config.go:92-141)
 * checks it fail-fast, in a fixed order, before anything is built.
 */
module Policy {
  import opened Wrappers
  import opened Constants

  /** resource (config.go:29-32): a grant of actions on one resource, or on every resource when the name is "*". */
  datatype Resource = Resource(name: string, actions: seq<string>)

  /** role (config.go:23-27). */
  datatype Role = Role(name: string, description: string, resources: seq<Resource>)

  /** config (config.go:17-21). */
  datatype Config = Config(description: string, roles: seq<Role>, resources: seq<string>)

  /**
   * The errors `validate` returns, one constructor per check, carrying the
   * values its message reports (ErrNoResources, ErrNoRoles and the
   * formatted messages of config.go:106, 119, 123, 128 and 136).
   */
  datatype ValidationError =
    | NoResources
    | TooManyResources(max: nat, count: nat)
    | NoRoles
    | EmptyRoleName(index: nat)
    | EmptyRoleResources(role: string)
    | UndefinedResource(resource: string, role: string)
    | TooManyRoles(max: nat, count: nat)

  /** The keys of the `resources` map built by `validate`: the non-empty resource names. */
  function DefinedResources(names: seq<string>): set<string> {
    set x | x in names && x != ""
  }

  /** A grant that names neither "*" nor a defined resource. */
  predicate Undefined(g: Resource, defined: set<string>) {
    g.name != AllResources && g.name !in defined
  }

  /** The name of the first undefined grant at or after position `from`, if any. */
  function FirstUndefined(grants: seq<Resource>, defined: set<string>, from: nat): (r: Option<string>)
    requires from <= |grants|
    ensures r.None? <==> forall k | from <= k < |grants| :: !Undefined(grants[k], defined)
    ensures r.Some? ==> exists k | from <= k < |grants| ::
      grants[k].name == r.value && Undefined(grants[k], defined)
      && forall k' | from <= k' < k :: !Undefined(grants[k'], defined)
    decreases |grants| - from
  {
    if from == |grants| then None
    else if Undefined(grants[from], defined) then Some(grants[from].name)
    else FirstUndefined(grants, defined, from + 1)
  }

  /** The error the per-role checks of `validate` report for role r at position i, if any. */
  function RoleError(r: Role, i: nat, defined: set<string>): (e: Option<ValidationError>)
    ensures e.None? <==> r.name != "" && |r.resources| > 0 && GrantsDefined(r, defined)
    ensures e.Some? ==> (e.value.EmptyRoleName? <==> r.name == "")
    ensures e.Some? && e.value.EmptyRoleName? ==> e.value.index == i
    ensures e.Some? && e.value.EmptyRoleResources? ==> e.value.role == r.name && |r.resources| == 0
    ensures e.Some? && e.value.UndefinedResource? ==>
      (e.value.role == r.name && exists g | g in r.resources :: g.name == e.value.resource && Undefined(g, defined))
    ensures e.Some? ==> e.value.EmptyRoleName? || e.value.EmptyRoleResources? || e.value.UndefinedResource?
  {
    if r.name == "" then Some(EmptyRoleName(i))
    else if |r.resources| == 0 then Some(EmptyRoleResources(r.name))
    else match FirstUndefined(r.resources, defined, 0)
      case Some(name) => Some(UndefinedResource(name, r.name))
      case None => None
  }

  /** The error of the first role, at or after position `from`, that fails its checks. */
  function FirstRoleError(roles: seq<Role>, defined: set<string>, from: nat): (r: Option<ValidationError>)
    requires from <= |roles|
    ensures r.None? <==> forall i | from <= i < |roles| :: RoleError(roles[i], i, defined).None?
    ensures r.Some? ==> exists i | from <= i < |roles| ::
      r == RoleError(roles[i], i, defined)
      && forall j | from <= j < i :: RoleError(roles[j], j, defined).None?
    decreases |roles| - from
  {
    if from == |roles| then None
    else
      var e := RoleError(roles[from], from, defined);
      if e.Some? then e else FirstRoleError(roles, defined, from + 1)
  }

  /**
   * The outcome of `validate`, check by check in the order of config.go:92-141.
   * Every error points at a real culprit: the counts are the policy's own,
   * and a role-level error names a role of the policy.
   */
  function ValidationResult(c: Config): (e: Option<ValidationError>)
    ensures e.Some? && e.value.TooManyResources? ==>
      e.value == TooManyResources(MaxResources, |c.resources|) && |DefinedResources(c.resources)| > MaxResources
    ensures e.Some? && e.value.TooManyRoles? ==>
      e.value == TooManyRoles(MaxRoles, |c.roles|) && |c.roles| > MaxRoles
    ensures e.Some? && e.value.EmptyRoleName? ==>
      e.value.index < |c.roles| && c.roles[e.value.index].name == ""
    ensures e.Some? && e.value.EmptyRoleResources? ==>
      exists r | r in c.roles :: r.name == e.value.role && |r.resources| == 0
    ensures e.Some? && e.value.UndefinedResource? ==>
      (&& e.value.resource != AllResources
       && e.value.resource !in DefinedResources(c.resources)
       && exists r, g | r in c.roles && g in r.resources :: r.name == e.value.role && g.name == e.value.resource)
  {
    var defined := DefinedResources(c.resources);
    if |c.resources| == 0 then Some(NoResources)
    else if |defined| > MaxResources then Some(TooManyResources(MaxResources, |c.resources|))
    else if |c.roles| == 0 then Some(NoRoles)
    else match FirstRoleError(c.roles, defined, 0)
      case Some(e) => Some(e)
      case None =>
        if |c.roles| > MaxRoles then Some(TooManyRoles(MaxRoles, |c.roles|)) else None
  }

  /**
   * validate (config.go:92-141): builds the set of non-empty resource names,
   * then checks the roles in order, returning the first error found.
   */
  method Validate(c: Config) returns (err: Option<ValidationError>)
    ensures err == ValidationResult(c)
  {
    if |c.resources| == 0 {
      return Some(NoResources);
    }
    var resources := CollectResources(c.resources);
    if |resources| > MaxResources {
      return Some(TooManyResources(MaxResources, |c.resources|));
    }
    if |c.roles| == 0 {
      return Some(NoRoles);
    }
    var roleCount := 0;
    for i := 0 to |c.roles|
      invariant roleCount == i
      invariant FirstRoleError(c.roles, resources, 0) == FirstRoleError(c.roles, resources, i)
    {
      var role := c.roles[i];
      if role.name == "" {
        return Some(EmptyRoleName(i));
      }
      if |role.resources| == 0 {
        return Some(EmptyRoleResources(role.name));
      }
      var undefined := FindUndefined(role.resources, resources);
      if undefined.Some? {
        return Some(UndefinedResource(undefined.value, role.name));
      }
      roleCount := roleCount + 1;
    }
    if roleCount > MaxRoles {
      return Some(TooManyRoles(MaxRoles, |c.roles|));
    }
    return None;
  }

  /** The map-building loop of `validate` (config.go:97-103): blank names are skipped. */
  method CollectResources(names: seq<string>) returns (resources: set<string>)
    ensures resources == DefinedResources(names)
  {
    resources := {};
    for i := 0 to |names|
      invariant resources == DefinedResources(names[..i])
    {
      var r := names[i];
      assert names[..i + 1] == names[..i] + [r];
      if r == "" {
        continue;
      }
      resources := resources + {r};
    }
    assert names[..|names|] == names;
  }

  /** The grants loop of `validate` (config.go:126-130): the name of the first grant that is neither "*" nor defined. */
  method FindUndefined(grants: seq<Resource>, defined: set<string>) returns (name: Option<string>)
    ensures name == FirstUndefined(grants, defined, 0)
  {
    for k := 0 to |grants|
      invariant FirstUndefined(grants, defined, 0) == FirstUndefined(grants, defined, k)
    {
      var re := grants[k];
      if re.name != AllResources && re.name !in defined {
        return Some(re.name);
      }
    }
    return None;
  }

  /** Every grant of a role names "*" or a defined resource. */
  ghost predicate GrantsDefined(r: Role, defined: set<string>) {
    forall g | g in r.resources :: g.name == AllResources || g.name in defined
  }

  /** What `validate` accepts, stated without reference to the order of its checks. */
  ghost predicate WellFormed(c: Config) {
    && |c.resources| > 0
    && |DefinedResources(c.resources)| <= MaxResources
    && 0 < |c.roles| <= MaxRoles
    && forall r | r in c.roles ::
         r.name != "" && |r.resources| > 0 && GrantsDefined(r, DefinedResources(c.resources))
  }

  /** `validate` returns nil exactly for the well-formed policies. */
  lemma ValidateAcceptsIff(c: Config)
    ensures ValidationResult(c).None? <==> WellFormed(c)
  {
    var defined := DefinedResources(c.resources);
    if WellFormed(c) {
      assert forall i | 0 <= i < |c.roles| :: c.roles[i] in c.roles;
    }
    if ValidationResult(c).None? {
      forall r | r in c.roles ensures r.name != "" && |r.resources| > 0 && GrantsDefined(r, defined) {
        var i :| 0 <= i < |c.roles| && c.roles[i] == r;
      }
    }
  }

  /**
   * The resource checks come first: no resource entry at all gives
   * ErrNoResources (the raw length counts, so a list holding only "" passes
   * it), too many distinct non-empty names give "resources exceeded" with the
   * raw length, and only then is an empty role list reported.
   */
  lemma ResourceChecksFirst(c: Config)
    ensures ValidationResult(c) == Some(NoResources) <==> |c.resources| == 0
    ensures ValidationResult(c) == Some(TooManyResources(MaxResources, |c.resources|)) <==>
      |c.resources| > 0 && |DefinedResources(c.resources)| > MaxResources
    ensures ValidationResult(c) == Some(NoRoles) <==>
      |c.resources| > 0 && |DefinedResources(c.resources)| <= MaxResources && |c.roles| == 0
  {
  }

  /**
   * Roles are checked in declaration order and the first failing role
   * decides the error, whatever later roles contain and however many roles
   * there are.
   */
  lemma FirstFailingRoleDecides(c: Config, i: nat)
    requires |c.resources| > 0 && |DefinedResources(c.resources)| <= MaxResources
    requires i < |c.roles|
    requires RoleError(c.roles[i], i, DefinedResources(c.resources)).Some?
    requires forall j | 0 <= j < i :: RoleError(c.roles[j], j, DefinedResources(c.resources)).None?
    ensures ValidationResult(c) == RoleError(c.roles[i], i, DefinedResources(c.resources))
  {
    var defined := DefinedResources(c.resources);
    var e := FirstRoleError(c.roles, defined, 0);
    var i' :| 0 <= i' < |c.roles| && e == RoleError(c.roles[i'], i', defined)
      && forall j | 0 <= j < i' :: RoleError(c.roles[j], j, defined).None?;
    assert i' == i;
  }

  /**
   * "roles exceeded" is reported only when every role passed its own
   * checks, and then with the number of roles; duplicate names are not a
   * reason for rejection.
   */
  lemma TooManyRolesLast(c: Config)
    ensures ValidationResult(c) == Some(TooManyRoles(MaxRoles, |c.roles|)) <==>
      && |c.resources| > 0
      && |DefinedResources(c.resources)| <= MaxResources
      && |c.roles| > MaxRoles
      && forall i | 0 <= i < |c.roles| :: RoleError(c.roles[i], i, DefinedResources(c.resources)).None?
  {
  }
}
