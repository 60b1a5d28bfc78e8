/**
 * The engine object (tinyrbac.go:46-50) with its build (tinyrbac.go:77-98)
 * and its query (tinyrbac.go:100-126). The three fixed-size arrays are the
 * ones of the Go struct; the ghost field `config` records the policy the
 * instance was built from, and Valid() ties the arrays to it.
 */
module Engine {
  import opened Wrappers
  import opened Constants
  import opened ResourceSets
  import opened Actions
  import opened Names
  import opened Policy
  import opened Access

  /** The build fails only on validation, wrapping the cause ("validate config: ..."). */
  datatype BuildError = ValidateConfig(cause: ValidationError)

  /** The errors of a query ("unknown role: X", "unknown resource: X"), naming the identifier not found. */
  datatype QueryError = UnknownRole(name: string) | UnknownResource(name: string)

  /**
   * slices.Index over an index map, and the scans of Check
   * (tinyrbac.go:104-109, 114-119): the first position holding x, or -1.
   */
  method Find(a: array<string>, x: string) returns (idx: int)
    ensures idx == IndexOf(a[..], x)
  {
    var i := 0;
    while i < a.Length
      invariant 0 <= i <= a.Length
      invariant x !in a[..i]
    {
      if a[i] == x {
        IndexOfAt(a[..], x, i);
        return i;
      }
      assert a[..i + 1] == a[..i] + [a[i]];
      i := i + 1;
    }
    assert a[..] == a[..i];
    return -1;
  }

  class Rbac {
    const accessMap: array<ResourceSet>
    const roleIdxMap: array<string>
    const resourceIdxMap: array<string>

    /** The policy this instance was built from. */
    ghost var config: Config

    /** The arrays hold exactly what buildFromConfig computes for a policy that `validate` accepts. */
    ghost predicate Valid()
      reads this, accessMap, roleIdxMap, resourceIdxMap
    {
      && accessMap.Length == AccessMapLen
      && roleIdxMap.Length == MaxRoles
      && resourceIdxMap.Length == MaxResources
      && WellFormed(config)
      && roleIdxMap[..] == RoleTable(config)
      && resourceIdxMap[..] == ResourceTable(config)
      && accessMap[..] == AccessWords(config)
    }

    /** `&Rbac{}`: every word zero, every name "". */
    constructor ()
      ensures fresh(accessMap) && fresh(roleIdxMap) && fresh(resourceIdxMap)
      ensures accessMap[..] == Zeros
      ensures roleIdxMap[..] == seq(MaxRoles, _ => "") && resourceIdxMap[..] == seq(MaxResources, _ => "")
    {
      accessMap := new ResourceSet[AccessMapLen](_ => Zero);
      roleIdxMap := new string[MaxRoles](_ => "");
      resourceIdxMap := new string[MaxResources](_ => "");
      config := Config("", [], []);
      new;
      assert accessMap[..] == Zeros;
    }

    /**
     * buildRoleAndResourceNames (called at tinyrbac.go:79): the role names in
     * ascending order and the distinct non-empty resource names in ascending
     * order, from index 0, the remaining slots "".
     */
    method BuildRoleAndResourceNames(c: Config)
      requires WellFormed(c)
      requires roleIdxMap.Length == MaxRoles && resourceIdxMap.Length == MaxResources
      requires roleIdxMap != resourceIdxMap
      modifies roleIdxMap, resourceIdxMap
      ensures roleIdxMap[..] == RoleTable(c)
      ensures resourceIdxMap[..] == ResourceTable(c)
    {
      var roles := RoleTable(c);
      for i := 0 to MaxRoles
        invariant roleIdxMap[..i] == roles[..i]
      {
        roleIdxMap[i] := roles[i];
      }
      var resources := ResourceTable(c);
      for i := 0 to MaxResources
        invariant resourceIdxMap[..i] == resources[..i]
        invariant roleIdxMap[..] == roles
      {
        resourceIdxMap[i] := resources[i];
      }
    }

    /**
     * The writes for a "*" grant (tinyrbac.go:84-87): allResourceAccess in
     * the word of each action. The offset is checked first, so that an
     * unrecognised action (the blank one included) writes nothing.
     */
    method FillAllResources(row: nat, actions: seq<string>)
      requires accessMap.Length == AccessMapLen && row < MaxRoles
      modifies accessMap
      ensures accessMap[..] == StampActions(old(accessMap[..]), row, AllOf, actions)
    {
      ghost var start := accessMap[..];
      var accessIdx := row * MaxActions;
      for a := 0 to |actions|
        invariant accessMap[..] == StampActions(start, row, AllOf, actions[..a])
      {
        var offset := ActionOffset(actions[a]);
        if offset != UnknownAction {
          accessMap[accessIdx + offset] := AllResourceAccess;
        }
        assert actions[..a + 1][..a] == actions[..a];
      }
      assert actions[..|actions|] == actions;
    }

    /**
     * The writes for a grant on one resource (tinyrbac.go:88-92): its bit is
     * OR-ed into the word of each action; an unrecognised action writes
     * nothing.
     */
    method FillResource(row: nat, resourceIdx: nat, actions: seq<string>)
      requires accessMap.Length == AccessMapLen && row < MaxRoles && resourceIdx < MaxResources
      modifies accessMap
      ensures accessMap[..] == StampActions(old(accessMap[..]), row, Only(resourceIdx), actions)
    {
      ghost var start := accessMap[..];
      var accessIdx := row * MaxActions;
      for a := 0 to |actions|
        invariant accessMap[..] == StampActions(start, row, Only(resourceIdx), actions[..a])
      {
        var offset := ActionOffset(actions[a]);
        if offset != UnknownAction {
          accessMap[accessIdx + offset] := Or(accessMap[accessIdx + offset], Bit(resourceIdx));
        }
        assert actions[..a + 1][..a] == actions[..a];
      }
      assert actions[..|actions|] == actions;
    }

    /** The writes for one grant (tinyrbac.go:84-93): its target is every resource or the named one's bit. */
    method FillGrant(row: nat, g: Resource, ghost st: seq<string>)
      requires accessMap.Length == AccessMapLen && row < MaxRoles
      requires resourceIdxMap[..] == st && |st| <= MaxResources && Placeable(st, g)
      modifies accessMap
      ensures accessMap[..] == StampActions(old(accessMap[..]), row, TargetOf(st, g), g.actions)
    {
      if g.name == AllResources {
        FillAllResources(row, g.actions);
      } else {
        var resourceIdx := Find(resourceIdxMap, g.name);
        FillResource(row, resourceIdx, g.actions);
      }
    }

    /** The writes for one role (tinyrbac.go:82-94): its row, then each grant in order. */
    method FillRole(role: Role, ghost rt: seq<string>, ghost st: seq<string>)
      requires accessMap.Length == AccessMapLen
      requires roleIdxMap[..] == rt && |rt| == MaxRoles && role.name in rt
      requires resourceIdxMap[..] == st && |st| <= MaxResources
      requires forall g | g in role.resources :: Placeable(st, g)
      modifies accessMap
      ensures accessMap[..] == StampGrants(old(accessMap[..]), IndexOf(rt, role.name), st, role.resources)
    {
      var row := Find(roleIdxMap, role.name);
      ghost var before := accessMap[..];
      for g := 0 to |role.resources|
        invariant accessMap[..] == StampGrants(before, row, st, role.resources[..g])
      {
        assert role.resources[g] in role.resources;
        FillGrant(row, role.resources[g], st);
        assert role.resources[..g + 1][..g] == role.resources[..g];
      }
      assert role.resources[..|role.resources|] == role.resources;
    }

    /** The fill loops of buildFromConfig (tinyrbac.go:81-95), role by role in declaration order. */
    method FillAccessMap(c: Config)
      requires WellFormed(c)
      requires accessMap.Length == AccessMapLen
      requires roleIdxMap[..] == RoleTable(c) && resourceIdxMap[..] == ResourceTable(c)
      requires accessMap[..] == Zeros
      modifies accessMap
      ensures accessMap[..] == AccessWords(c)
    {
      TablesIndex(c);
      ghost var rt, st := RoleTable(c), ResourceTable(c);
      assert c.roles[..0] == [];
      for i := 0 to |c.roles|
        invariant Indexed(rt, st, c.roles[..i])
        invariant accessMap[..] == StampRoles(Zeros, rt, st, c.roles[..i])
      {
        StampRolesStep(Zeros, rt, st, c.roles, i);
        FillRole(c.roles[i], rt, st);
      }
      assert c.roles[..|c.roles|] == c.roles;
    }

    /**
     * Check (tinyrbac.go:100-126), in the form its callers use: the role and
     * the resource are looked up by linear scan, and the resource's bit is
     * tested in the role's word for the action. An unknown role, or for a
     * known role an unknown resource, gives false with an error naming
     * exactly that identifier; the blank name is never found. An
     * unrecognised action gives false without an error and without reading
     * the access map.
     */
    method Check(role: string, resource: string, action: string) returns (allowed: bool, err: Option<QueryError>)
      requires Valid()
      ensures err == Some(UnknownRole(role)) <==> !IsRole(config, role)
      ensures err == Some(UnknownResource(resource)) <==>
        IsRole(config, role) && resource !in DefinedResources(config.resources)
      ensures err.None? <==> IsRole(config, role) && resource in DefinedResources(config.resources)
      ensures err.Some? ==> !allowed
      ensures err.None? ==> (allowed <==> IsMethod(action) && Permits(config, role, resource, action))
    {
      LookupAnswers(config, role, resource, action);
      var roleIdx := -1;
      if role != "" {
        roleIdx := Find(roleIdxMap, role);
      }
      if roleIdx == -1 {
        return false, Some(UnknownRole(role));
      }
      var resourceIdx := -1;
      if resource != "" {
        resourceIdx := Find(resourceIdxMap, resource);
      }
      if resourceIdx == -1 {
        return false, Some(UnknownResource(resource));
      }
      var offset := ActionOffset(action);
      if offset == UnknownAction {
        return false, None;
      }
      assert roleIdx == RoleIndex(config, role) && resourceIdx == ResourceIndex(config, resource);
      assert IsRole(config, role) && resource in DefinedResources(config.resources) && IsMethod(action);
      var accessIdx := roleIdx * MaxActions + offset;
      assert accessIdx == Slot(RoleIndex(config, role), ActionOffset(action));
      assert accessMap[accessIdx] == AccessWords(config)[accessIdx];
      allowed := Has(accessMap[accessIdx], resourceIdx);
      err := None;
    }
  }

  /**
   * buildFromConfig (tinyrbac.go:77-98) with the validation its callers
   * expect: a policy `validate` rejects yields no engine and the wrapped
   * validation error; otherwise the names are indexed and the access map is
   * filled. The Go struct holds its three arrays by value, so a built engine
   * shares them with nobody: here they are fresh.
   */
  method BuildFromConfig(c: Config) returns (r: Rbac?, err: Option<BuildError>)
    ensures err.Some? <==> ValidationResult(c).Some?
    ensures err.Some? ==> r == null && err.value == ValidateConfig(ValidationResult(c).value)
    ensures err.None? ==> r != null && fresh(r) && r.Valid() && r.config == c
    ensures err.None? ==> r != null && fresh(r.accessMap) && fresh(r.roleIdxMap) && fresh(r.resourceIdxMap)
  {
    var cause := Validate(c);
    if cause.Some? {
      return null, Some(ValidateConfig(cause.value));
    }
    ValidateAcceptsIff(c);
    r := new Rbac();
    r.BuildRoleAndResourceNames(c);
    r.FillAccessMap(c);
    r.config := c;
    err := None;
  }
}
