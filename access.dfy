/**
 * What buildFromConfig computes (tinyrbac.go:77-98), stated on values: the
 * two index tables and the access map as a sequence of words. The engine's
 * methods are proved to produce exactly these values; the lemmas here say
 * what they mean for the policy.
 *
 * Access map layout (tinyrbac.go:26-42): the word at Slot(i, o) holds, for
 * the role at index i and the action with offset o, one bit per resource
 * index.
 */
module Access {
  import opened Constants
  import opened ResourceSets
  import opened Actions
  import opened Names
  import opened Policy

  /** Fill unused slots with "", the zero value of a Go string, up to n entries. */
  function Pad(names: seq<string>, n: nat): (r: seq<string>)
    requires |names| <= n
    ensures |r| == n && r[..|names|] == names
    ensures forall i | |names| <= i < n :: r[i] == ""
  {
    names + seq(n - |names|, _ => "")
  }

  function RoleNames(roles: seq<Role>): (r: seq<string>)
    ensures |r| == |roles|
    ensures forall i | 0 <= i < |roles| :: r[i] == roles[i].name
  {
    seq(|roles|, i requires 0 <= i < |roles| => roles[i].name)
  }

  /** roleIdxMap once the names are assigned: the role names in ascending order, repeats kept. */
  function RoleTable(c: Config): (t: seq<string>)
    requires |c.roles| <= MaxRoles
    ensures |t| == MaxRoles
    ensures forall i | |c.roles| <= i < MaxRoles :: t[i] == ""
  {
    Pad(SortNames(RoleNames(c.roles)), MaxRoles)
  }

  /** The non-empty names of s, in their order. */
  function NonEmpty(s: seq<string>): (r: seq<string>)
    ensures forall x :: x in r <==> x in s && x != ""
  {
    if s == [] then []
    else if s[0] == "" then NonEmpty(s[1..])
    else [s[0]] + NonEmpty(s[1..])
  }

  /** The defined resources, each once, in ascending order. */
  function ResourceNames(c: Config): seq<string> {
    SortDistinct(NonEmpty(c.resources))
  }

  lemma ResourceNamesSpec(c: Config)
    ensures StrictlySorted(ResourceNames(c))
    ensures forall x :: x in ResourceNames(c) <==> x in DefinedResources(c.resources)
    ensures |ResourceNames(c)| == |DefinedResources(c.resources)|
  {
    var r := ResourceNames(c);
    SortDistinctSpec(NonEmpty(c.resources));
    StrictlySortedCard(r);
    assert (set x | x in r) == DefinedResources(c.resources);
  }

  /** resourceIdxMap once the names are assigned. */
  function ResourceTable(c: Config): (t: seq<string>)
    requires |DefinedResources(c.resources)| <= MaxResources
    ensures |t| == MaxResources
    ensures forall i | |DefinedResources(c.resources)| <= i < MaxResources :: t[i] == ""
  {
    ResourceNamesSpec(c);
    Pad(ResourceNames(c), MaxResources)
  }

  /** The resources a grant's bits go to: every resource for "*", one index otherwise. */
  datatype Target = AllOf | Only(index: nat)

  /**
   * An action recognised by the table reaches word k at bit j when k is the
   * action's slot in row `row` and the target includes j.
   */
  predicate Covers(row: nat, t: Target, action: string, k: nat, j: nat) {
    var o := ActionOffset(action);
    0 <= o && k == row * MaxActions + o && (t.AllOf? || t.index == j)
  }

  /**
   * One write of the fill loop (tinyrbac.go:86 and 91) with the offset
   * checked first: a wildcard stores allResourceAccess, a single resource is
   * OR-ed in, and an action the table does not know changes nothing.
   */
  function Stamp(m: seq<ResourceSet>, row: nat, t: Target, action: string): (out: seq<ResourceSet>)
    requires |m| == AccessMapLen && row < MaxRoles
    requires t.Only? ==> t.index < MaxResources
    ensures |out| == AccessMapLen
    ensures forall k, j | 0 <= k < AccessMapLen && 0 <= j < MaxResources ::
      out[k][j] <==> m[k][j] || Covers(row, t, action, k, j)
    ensures forall k | 0 <= k < AccessMapLen && k / MaxActions != row :: out[k] == m[k]
    ensures !IsMethod(action) ==> out == m
  {
    var o := ActionOffset(action);
    if o == UnknownAction then m
    else
      var k := Slot(row, o);
      match t
      case AllOf => m[k := AllResourceAccess]
      case Only(j) => m[k := Or(m[k], Bit(j))]
  }

  /** The writes for every action of one grant, in order: they only add bits, and only in the row. */
  function StampActions(m: seq<ResourceSet>, row: nat, t: Target, actions: seq<string>): (out: seq<ResourceSet>)
    requires |m| == AccessMapLen && row < MaxRoles
    requires t.Only? ==> t.index < MaxResources
    ensures |out| == AccessMapLen
    ensures forall k, j | 0 <= k < AccessMapLen && 0 <= j < MaxResources :: m[k][j] ==> out[k][j]
    ensures forall k | 0 <= k < AccessMapLen && k / MaxActions != row :: out[k] == m[k]
    decreases |actions|
  {
    if actions == [] then m
    else Stamp(StampActions(m, row, t, actions[..|actions| - 1]), row, t, actions[|actions| - 1])
  }

  /** The grant can be placed: it is the wildcard or names a resource of the table. */
  predicate Placeable(rt: seq<string>, g: Resource) {
    g.name == AllResources || g.name in rt
  }

  function TargetOf(rt: seq<string>, g: Resource): (t: Target)
    requires |rt| <= MaxResources && Placeable(rt, g)
    ensures t.Only? ==> t.index < |rt| <= MaxResources && rt[t.index] == g.name
    ensures t.AllOf? <==> g.name == AllResources
  {
    if g.name == AllResources then AllOf else Only(IndexOf(rt, g.name))
  }

  /** The writes for every grant of one role, in order: they only add bits, and only in the role's row. */
  function StampGrants(m: seq<ResourceSet>, row: nat, rt: seq<string>, grants: seq<Resource>): (out: seq<ResourceSet>)
    requires |m| == AccessMapLen && row < MaxRoles && |rt| <= MaxResources
    requires forall g | g in grants :: Placeable(rt, g)
    ensures |out| == AccessMapLen
    ensures forall k, j | 0 <= k < AccessMapLen && 0 <= j < MaxResources :: m[k][j] ==> out[k][j]
    ensures forall k | 0 <= k < AccessMapLen && k / MaxActions != row :: out[k] == m[k]
    decreases |grants|
  {
    if grants == [] then m
    else
      var g := grants[|grants| - 1];
      StampActions(StampGrants(m, row, rt, grants[..|grants| - 1]), row, TargetOf(rt, g), g.actions)
  }

  /** Every role has a row and every grant can be placed. */
  ghost predicate Indexed(roleTable: seq<string>, rt: seq<string>, roles: seq<Role>) {
    && |roleTable| == MaxRoles && |rt| <= MaxResources
    && forall r | r in roles :: r.name in roleTable && forall g | g in r.resources :: Placeable(rt, g)
  }

  /** The writes for every role, in order: a bit once set stays set. */
  function StampRoles(m: seq<ResourceSet>, roleTable: seq<string>, rt: seq<string>, roles: seq<Role>): (out: seq<ResourceSet>)
    requires |m| == AccessMapLen && Indexed(roleTable, rt, roles)
    ensures |out| == AccessMapLen
    ensures forall k, j | 0 <= k < AccessMapLen && 0 <= j < MaxResources :: m[k][j] ==> out[k][j]
    decreases |roles|
  {
    if roles == [] then m
    else
      var r := roles[|roles| - 1];
      assert r in roles;
      StampGrants(StampRoles(m, roleTable, rt, roles[..|roles| - 1]), IndexOf(roleTable, r.name), rt, r.resources)
  }

  /** One more role extends the fold by that role's writes; prefixes of an indexed list stay indexed. */
  lemma StampRolesStep(m: seq<ResourceSet>, roleTable: seq<string>, rt: seq<string>, roles: seq<Role>, i: nat)
    requires |m| == AccessMapLen && Indexed(roleTable, rt, roles) && i < |roles|
    ensures Indexed(roleTable, rt, roles[..i]) && Indexed(roleTable, rt, roles[..i + 1])
    ensures roles[i].name in roleTable && forall g | g in roles[i].resources :: Placeable(rt, g)
    ensures StampRoles(m, roleTable, rt, roles[..i + 1]) ==
      StampGrants(StampRoles(m, roleTable, rt, roles[..i]), IndexOf(roleTable, roles[i].name), rt, roles[i].resources)
  {
    assert roles[i] in roles;
    assert roles[..i + 1][..i] == roles[..i];
  }

  /** n zero words. */
  function ZeroWords(n: nat): (m: seq<ResourceSet>)
    ensures |m| == n && forall k | 0 <= k < n :: m[k] == Zero
  {
    seq(n, _ => Zero)
  }

  /** The access map of a freshly allocated Rbac: every word zero. */
  const Zeros: seq<ResourceSet> := ZeroWords(AccessMapLen)

  /** The access map buildFromConfig produces for a policy that `validate` accepts. */
  function AccessWords(c: Config): (m: seq<ResourceSet>)
    requires WellFormed(c)
    ensures |m| == AccessMapLen
  {
    TablesIndex(c);
    StampRoles(Zeros, RoleTable(c), ResourceTable(c), c.roles)
  }

  /** The tables of a well-formed policy give every role a row and every grant a place. */
  lemma TablesIndex(c: Config)
    requires WellFormed(c)
    ensures Indexed(RoleTable(c), ResourceTable(c), c.roles)
  {
    var names := SortNames(RoleNames(c.roles));
    SortNamesSpec(RoleNames(c.roles));
    forall r | r in c.roles ensures r.name in RoleTable(c) {
      var i :| 0 <= i < |c.roles| && c.roles[i] == r;
      assert RoleNames(c.roles)[i] == r.name;
      assert r.name in multiset(names);
      assert RoleTable(c)[..|names|] == names;
    }
    forall r, g | r in c.roles && g in r.resources ensures Placeable(ResourceTable(c), g) {
      if g.name != AllResources {
        ResourceNamesSpec(c);
        assert g.name in ResourceNames(c);
        assert ResourceTable(c)[..|ResourceNames(c)|] == ResourceNames(c);
      }
    }
  }

  /** After a grant's writes, bit j of word k is set iff it was set before or one of the grant's actions reaches it. */
  lemma {:induction false} StampActionsBits(m: seq<ResourceSet>, row: nat, t: Target, actions: seq<string>, k: nat, j: nat)
    requires |m| == AccessMapLen && row < MaxRoles
    requires t.Only? ==> t.index < MaxResources
    requires k < AccessMapLen && j < MaxResources
    ensures StampActions(m, row, t, actions)[k][j] <==>
      m[k][j] || exists a | a in actions :: Covers(row, t, a, k, j)
    decreases |actions|
  {
    if actions != [] {
      var init := actions[..|actions| - 1];
      StampActionsBits(m, row, t, init, k, j);
      assert actions == init + [actions[|actions| - 1]];
    }
  }

  /** After a role's writes, bit j of word k is set iff it was set before or some action of some grant reaches it. */
  lemma {:induction false} StampGrantsBits(m: seq<ResourceSet>, row: nat, rt: seq<string>, grants: seq<Resource>, k: nat, j: nat)
    requires |m| == AccessMapLen && row < MaxRoles && |rt| <= MaxResources
    requires forall g | g in grants :: Placeable(rt, g)
    requires k < AccessMapLen && j < MaxResources
    ensures StampGrants(m, row, rt, grants)[k][j] <==>
      m[k][j] || exists g, a | g in grants && a in g.actions :: Covers(row, TargetOf(rt, g), a, k, j)
    decreases |grants|
  {
    if grants != [] {
      var init := grants[..|grants| - 1];
      var g := grants[|grants| - 1];
      assert grants == init + [g];
      StampGrantsBits(m, row, rt, init, k, j);
      StampActionsBits(StampGrants(m, row, rt, init), row, TargetOf(rt, g), g.actions, k, j);
    }
  }

  /**
   * After every role's writes, bit j of word k is set iff it was set before
   * or some action of some grant of some role reaches it.
   */
  lemma {:induction false} StampRolesBits(m: seq<ResourceSet>, roleTable: seq<string>, rt: seq<string>, roles: seq<Role>, k: nat, j: nat)
    requires |m| == AccessMapLen && Indexed(roleTable, rt, roles)
    requires k < AccessMapLen && j < MaxResources
    ensures StampRoles(m, roleTable, rt, roles)[k][j] <==>
      m[k][j] || exists r, g, a | r in roles && g in r.resources && a in g.actions ::
        Covers(IndexOf(roleTable, r.name), TargetOf(rt, g), a, k, j)
    decreases |roles|
  {
    if roles != [] {
      var init := roles[..|roles| - 1];
      var r := roles[|roles| - 1];
      assert roles == init + [r];
      StampRolesBits(m, roleTable, rt, init, k, j);
      StampGrantsBits(StampRoles(m, roleTable, rt, init), IndexOf(roleTable, r.name), rt, r.resources, k, j);
    }
  }

  /** Some role of the policy has this name. */
  ghost predicate IsRole(c: Config, role: string) {
    exists r | r in c.roles :: r.name == role
  }

  /**
   * The role names occupy the first |roles| slots of roleIdxMap in ascending
   * order, as a permutation of the roles' names (repeats kept); the other
   * slots hold "".
   */
  lemma RoleTableSpec(c: Config)
    requires |c.roles| <= MaxRoles
    ensures Sorted(RoleTable(c)[..|c.roles|])
    ensures multiset(RoleTable(c)[..|c.roles|]) == multiset(RoleNames(c.roles))
    ensures forall i | |c.roles| <= i < MaxRoles :: RoleTable(c)[i] == ""
  {
    SortNamesSpec(RoleNames(c.roles));
  }

  /**
   * The distinct non-empty resource names occupy the first slots of
   * resourceIdxMap in strictly ascending order; the other slots hold "".
   */
  lemma ResourceTableSpec(c: Config)
    requires |DefinedResources(c.resources)| <= MaxResources
    ensures StrictlySorted(ResourceTable(c)[..|DefinedResources(c.resources)|])
    ensures forall x :: x in ResourceTable(c)[..|DefinedResources(c.resources)|] <==> x in DefinedResources(c.resources)
    ensures forall i | |DefinedResources(c.resources)| <= i < MaxResources :: ResourceTable(c)[i] == ""
  {
    ResourceNamesSpec(c);
  }

  /** In a well-formed policy the non-empty entries of the tables are exactly the role names and the defined resources. */
  lemma TableMembers(c: Config, role: string, resource: string)
    requires WellFormed(c)
    ensures role != "" && role in RoleTable(c) <==> IsRole(c, role)
    ensures resource != "" && resource in ResourceTable(c) <==> resource in DefinedResources(c.resources)
  {
    TablesIndex(c);
    RoleTableSpec(c);
    ResourceTableSpec(c);
    var n := |c.roles|;
    var t := RoleTable(c);
    if role != "" && role in t {
      var i :| 0 <= i < MaxRoles && t[i] == role;
      assert i < n;
      assert role in multiset(t[..n]);
      assert role in RoleNames(c.roles);
    }
    var rt := ResourceTable(c);
    var d := |DefinedResources(c.resources)|;
    if resource != "" && resource in rt {
      var i :| 0 <= i < MaxResources && rt[i] == resource;
      assert i < d;
      assert resource in rt[..d];
    }
    if resource in DefinedResources(c.resources) {
      assert resource in rt[..d];
    }
  }

  /**
   * The policy lets `role` perform `action` on `resource`: a role of that
   * name has a grant that lists the action, on that resource or on "*".
   */
  ghost predicate Permits(c: Config, role: string, resource: string, action: string) {
    exists r, g | r in c.roles && g in r.resources ::
      r.name == role && action in g.actions && (g.name == AllResources || g.name == resource)
  }

  /** The row of a role: its first position in roleIdxMap (slices.Index at tinyrbac.go:82). */
  function RoleIndex(c: Config, role: string): int
    requires |c.roles| <= MaxRoles
  {
    IndexOf(RoleTable(c), role)
  }

  /** The bit of a resource: its position in resourceIdxMap (tinyrbac.go:89). */
  function ResourceIndex(c: Config, resource: string): int
    requires |DefinedResources(c.resources)| <= MaxResources
  {
    IndexOf(ResourceTable(c), resource)
  }

  /** A role of the policy has a row, a defined resource has a bit. */
  lemma IndicesFound(c: Config, role: string, resource: string)
    requires WellFormed(c)
    requires IsRole(c, role)
    requires resource in DefinedResources(c.resources)
    ensures 0 <= RoleIndex(c, role) < MaxRoles
    ensures 0 <= ResourceIndex(c, resource) < MaxResources
  {
    TablesIndex(c);
    ResourceNamesSpec(c);
    assert resource in ResourceTable(c)[..|ResourceNames(c)|];
  }

  /** A grant whose action reaches the queried bit is a grant of that role, for that action, on that resource or on "*". */
  lemma CoverIsGrant(c: Config, role: string, resource: string, action: string, r: Role, g: Resource, a: string)
    requires WellFormed(c) && IsMethod(action)
    requires 0 <= RoleIndex(c, role) < MaxRoles && 0 <= ResourceIndex(c, resource) < MaxResources
    requires role in RoleTable(c) && resource in ResourceTable(c)
    requires r.name in RoleTable(c) && Placeable(ResourceTable(c), g)
    requires Covers(IndexOf(RoleTable(c), r.name), TargetOf(ResourceTable(c), g), a,
      Slot(RoleIndex(c, role), ActionOffset(action)), ResourceIndex(c, resource))
    ensures r.name == role && a == action && (g.name == AllResources || g.name == resource)
  {
    var rt, st := RoleTable(c), ResourceTable(c);
    SlotInjective(IndexOf(rt, r.name), ActionOffset(a), RoleIndex(c, role), ActionOffset(action));
  }

  /**
   * The access map answers the policy: for a role of the policy, a defined
   * resource and a recognised action, the bit the lookup reads is set
   * exactly when the policy permits the request.
   */
  lemma AccessMatchesPolicy(c: Config, role: string, resource: string, action: string)
    requires WellFormed(c)
    requires IsRole(c, role)
    requires resource in DefinedResources(c.resources)
    requires IsMethod(action)
    ensures 0 <= RoleIndex(c, role) < MaxRoles && 0 <= ResourceIndex(c, resource) < MaxResources
    ensures AccessWords(c)[Slot(RoleIndex(c, role), ActionOffset(action))][ResourceIndex(c, resource)]
      <==> Permits(c, role, resource, action)
  {
    IndicesFound(c, role, resource);
    TablesIndex(c);
    var rt, st := RoleTable(c), ResourceTable(c);
    var i, j, o := RoleIndex(c, role), ResourceIndex(c, resource), ActionOffset(action);
    var k := Slot(i, o);
    StampRolesBits(Zeros, rt, st, c.roles, k, j);
    assert !Zeros[k][j];
    if AccessWords(c)[k][j] {
      var r, g, a :| r in c.roles && g in r.resources && a in g.actions &&
        Covers(IndexOf(rt, r.name), TargetOf(st, g), a, k, j);
      CoverIsGrant(c, role, resource, action, r, g, a);
    }
    if Permits(c, role, resource, action) {
      var r, g :| r in c.roles && g in r.resources &&
        r.name == role && action in g.actions && (g.name == AllResources || g.name == resource);
      assert Covers(IndexOf(rt, r.name), TargetOf(st, g), action, k, j);
    }
  }

  /**
   * The three lookups of a query on a well-formed policy's tables: a
   * non-blank name is found in roleIdxMap exactly when it is a role's name,
   * in resourceIdxMap exactly when it is a defined resource, and for such a
   * pair and a recognised action the bit read answers the policy.
   */
  lemma LookupAnswers(c: Config, role: string, resource: string, action: string)
    requires WellFormed(c)
    ensures role != "" && RoleIndex(c, role) != -1 <==> IsRole(c, role)
    ensures resource != "" && ResourceIndex(c, resource) != -1 <==> resource in DefinedResources(c.resources)
    ensures IsRole(c, role) && resource in DefinedResources(c.resources) && IsMethod(action) ==>
      && 0 <= RoleIndex(c, role) < MaxRoles && 0 <= ResourceIndex(c, resource) < MaxResources
      && (AccessWords(c)[Slot(RoleIndex(c, role), ActionOffset(action))][ResourceIndex(c, resource)]
          <==> Permits(c, role, resource, action))
  {
    TableMembers(c, role, resource);
    if IsRole(c, role) && resource in DefinedResources(c.resources) && IsMethod(action) {
      AccessMatchesPolicy(c, role, resource, action);
    }
  }

  /**
   * A wildcard grant sets the whole word: for every recognised action it
   * lists, the role's word for that action is allResourceAccess, whatever
   * other grants of the policy say and in whatever order they come.
   */
  lemma WildcardWord(c: Config, r: Role, g: Resource, action: string)
    requires WellFormed(c)
    requires r in c.roles && g in r.resources && g.name == AllResources
    requires action in g.actions && IsMethod(action)
    ensures 0 <= RoleIndex(c, r.name) < MaxRoles
    ensures AccessWords(c)[Slot(RoleIndex(c, r.name), ActionOffset(action))] == AllResourceAccess
  {
    TablesIndex(c);
    var rt, st := RoleTable(c), ResourceTable(c);
    var k := Slot(RoleIndex(c, r.name), ActionOffset(action));
    forall j | 0 <= j < MaxResources ensures AccessWords(c)[k][j] {
      StampRolesBits(Zeros, rt, st, c.roles, k, j);
      assert Covers(IndexOf(rt, r.name), TargetOf(st, g), action, k, j);
    }
  }

  lemma OtherRowBit(c: Config, k: nat, j: nat)
    requires WellFormed(c) && k < AccessMapLen && j < MaxResources
    requires forall r | r in c.roles :: RoleIndex(c, r.name) != k / MaxActions
    ensures !AccessWords(c)[k][j]
  {
    TablesIndex(c);
    var rt, st := RoleTable(c), ResourceTable(c);
    StampRolesBits(Zeros, rt, st, c.roles, k, j);
    forall r, g, a | r in c.roles && g in r.resources && a in g.actions
      ensures !Covers(IndexOf(rt, r.name), TargetOf(st, g), a, k, j)
    {
      if 0 <= ActionOffset(a) {
        assert Slot(IndexOf(rt, r.name), ActionOffset(a)) / MaxActions == IndexOf(rt, r.name);
      }
    }
  }

  /**
   * Writes stay in the rows of the policy's roles: a word outside every
   * role's row [i * maxActions, i * maxActions + maxActions) is still zero.
   */
  lemma OtherRowsUntouched(c: Config, k: nat)
    requires WellFormed(c) && k < AccessMapLen
    requires forall r | r in c.roles :: RoleIndex(c, r.name) != k / MaxActions
    ensures AccessWords(c)[k] == Zero
  {
    forall j | 0 <= j < MaxResources ensures AccessWords(c)[k][j] == Zero[j] {
      OtherRowBit(c, k, j);
    }
  }

  /**
   * Bits past the named resources (the padding slots of resourceIdxMap) are
   * set only by wildcard grants: in a row whose role has no "*" grant they
   * stay clear.
   */
  lemma PaddingBitClear(c: Config, k: nat, j: nat)
    requires WellFormed(c) && k < AccessMapLen
    requires |DefinedResources(c.resources)| <= j < MaxResources
    requires forall r, g | r in c.roles && g in r.resources && RoleIndex(c, r.name) == k / MaxActions ::
      g.name != AllResources
    ensures !AccessWords(c)[k][j]
  {
    TablesIndex(c);
    var rt, st := RoleTable(c), ResourceTable(c);
    StampRolesBits(Zeros, rt, st, c.roles, k, j);
    forall r, g, a | r in c.roles && g in r.resources && a in g.actions
      ensures !Covers(IndexOf(rt, r.name), TargetOf(st, g), a, k, j)
    {
      PaddingNotCovered(c, r, g, a, k, j);
    }
  }

  /** One action of a grant that is not "*" in the row of word k does not reach a padding bit. */
  lemma PaddingNotCovered(c: Config, r: Role, g: Resource, a: string, k: nat, j: nat)
    requires WellFormed(c) && k < AccessMapLen
    requires |DefinedResources(c.resources)| <= j < MaxResources
    requires r in c.roles && g in r.resources && a in g.actions
    requires RoleIndex(c, r.name) == k / MaxActions ==> g.name != AllResources
    ensures Indexed(RoleTable(c), ResourceTable(c), c.roles)
    ensures !Covers(IndexOf(RoleTable(c), r.name), TargetOf(ResourceTable(c), g), a, k, j)
  {
    TablesIndex(c);
    ResourceTableSpec(c);
    var rt, st := RoleTable(c), ResourceTable(c);
    if 0 <= ActionOffset(a) {
      var row := IndexOf(rt, r.name);
      assert Slot(row, ActionOffset(a)) / MaxActions == row;
      if row == k / MaxActions {
        assert g.name in DefinedResources(c.resources);
        assert st[j] == "";
      }
    }
  }

  /**
   * A word in the row of a role without a "*" grant is the number spelled
   * by its bits for the named resources alone.
   */
  lemma NamedRowValue(c: Config, k: nat)
    requires WellFormed(c) && k < AccessMapLen
    requires forall r, g | r in c.roles && g in r.resources && RoleIndex(c, r.name) == k / MaxActions ::
      g.name != AllResources
    ensures |DefinedResources(c.resources)| <= MaxResources
    ensures Value(AccessWords(c)[k]) == Value(AccessWords(c)[k][..|DefinedResources(c.resources)|])
  {
    var n := |DefinedResources(c.resources)|;
    forall j | n <= j < MaxResources ensures !AccessWords(c)[k][j] {
      PaddingBitClear(c, k, j);
    }
    ValueOfLowBits(AccessWords(c)[k], n);
  }

  /**
   * The triples (role name, grant name, recognised action) a policy
   * declares. Blank and unrecognised actions are not part of it.
   */
  ghost predicate Declares(c: Config, role: string, name: string, action: string) {
    IsMethod(action) && exists r, g | r in c.roles && g in r.resources ::
      r.name == role && g.name == name && action in g.actions
  }

  lemma SameBits(c1: Config, c2: Config, k: nat, j: nat)
    requires WellFormed(c1) && WellFormed(c2)
    requires RoleTable(c1) == RoleTable(c2) && ResourceTable(c1) == ResourceTable(c2)
    requires forall role, name, action :: Declares(c1, role, name, action) ==> Declares(c2, role, name, action)
    requires k < AccessMapLen && j < MaxResources
    ensures AccessWords(c1)[k][j] ==> AccessWords(c2)[k][j]
  {
    TablesIndex(c1);
    TablesIndex(c2);
    var rt, st := RoleTable(c1), ResourceTable(c1);
    StampRolesBits(Zeros, rt, st, c1.roles, k, j);
    StampRolesBits(Zeros, rt, st, c2.roles, k, j);
    if AccessWords(c1)[k][j] {
      var r, g, a :| r in c1.roles && g in r.resources && a in g.actions &&
        Covers(IndexOf(rt, r.name), TargetOf(st, g), a, k, j);
      assert Declares(c1, r.name, g.name, a);
      CoverCarried(c2, rt, st, r.name, g, a, k, j);
    }
  }

  /** A grant another policy also declares reaches the same bit there, when the tables agree. */
  lemma CoverCarried(c: Config, rt: seq<string>, st: seq<string>, role: string, g: Resource, a: string, k: nat, j: nat)
    requires Indexed(rt, st, c.roles) && Placeable(st, g)
    requires Declares(c, role, g.name, a)
    requires Covers(IndexOf(rt, role), TargetOf(st, g), a, k, j)
    ensures exists r', g', a' | r' in c.roles && g' in r'.resources && a' in g'.actions ::
      Covers(IndexOf(rt, r'.name), TargetOf(st, g'), a', k, j)
  {
    var r', g' :| r' in c.roles && g' in r'.resources &&
      r'.name == role && g'.name == g.name && a in g'.actions;
    assert TargetOf(st, g') == TargetOf(st, g);
  }

  /**
   * The access map depends only on the multiset of role names, the set of
   * defined resources and the declared triples: not on the order of roles,
   * of grants within a role, of actions within a grant, nor on repeated or
   * unrecognised actions.
   */
  lemma SameDeclarationsSameAccessMap(c1: Config, c2: Config)
    requires WellFormed(c1) && WellFormed(c2)
    requires multiset(RoleNames(c1.roles)) == multiset(RoleNames(c2.roles))
    requires DefinedResources(c1.resources) == DefinedResources(c2.resources)
    requires forall role, name, action :: Declares(c1, role, name, action) <==> Declares(c2, role, name, action)
    ensures RoleTable(c1) == RoleTable(c2) && ResourceTable(c1) == ResourceTable(c2)
    ensures AccessWords(c1) == AccessWords(c2)
  {
    SortNamesSpec(RoleNames(c1.roles));
    SortNamesSpec(RoleNames(c2.roles));
    SortedUnique(SortNames(RoleNames(c1.roles)), SortNames(RoleNames(c2.roles)));
    ResourceNamesSpec(c1);
    ResourceNamesSpec(c2);
    StrictlySortedUnique(ResourceNames(c1), ResourceNames(c2));
    var m1, m2 := AccessWords(c1), AccessWords(c2);
    forall k | 0 <= k < AccessMapLen ensures m1[k] == m2[k] {
      forall j | 0 <= j < MaxResources ensures m1[k][j] == m2[k][j] {
        SameBits(c1, c2, k, j);
        SameBits(c2, c1, k, j);
      }
    }
  }

  lemma {:induction false} RoleNamesAppend(a: seq<Role>, b: seq<Role>)
    ensures RoleNames(a + b) == RoleNames(a) + RoleNames(b)
  {
  }

  /** Reordering roles reorders their names. */
  lemma {:induction false} RoleNamesPermutation(a: seq<Role>, b: seq<Role>)
    requires multiset(a) == multiset(b)
    ensures multiset(RoleNames(a)) == multiset(RoleNames(b))
    decreases |a|
  {
    if a == [] {
      assert |b| == |multiset(b)| == 0;
    } else {
      var x := a[0];
      assert x in multiset(b);
      var i :| 0 <= i < |b| && b[i] == x;
      var rest := b[..i] + b[i + 1..];
      assert b == b[..i] + [x] + b[i + 1..];
      assert a == [x] + a[1..];
      assert multiset(b) == multiset(b[..i]) + multiset{x} + multiset(b[i + 1..]);
      assert multiset(a) == multiset{x} + multiset(a[1..]);
      assert multiset(rest) == multiset(b[..i]) + multiset(b[i + 1..]);
      assert multiset(rest) == multiset(b) - multiset{x};
      assert multiset(a[1..]) == multiset(a) - multiset{x};
      RoleNamesPermutation(a[1..], rest);
      RoleNamesAppend([x], a[1..]);
      RoleNamesAppend(b[..i], [x]);
      RoleNamesAppend(b[..i] + [x], b[i + 1..]);
      RoleNamesAppend(b[..i], b[i + 1..]);
    }
  }

  /** The access map does not depend on the order in which roles are listed. */
  lemma RolesInAnyOrder(c1: Config, c2: Config)
    requires WellFormed(c1)
    requires multiset(c1.roles) == multiset(c2.roles) && c1.resources == c2.resources
    ensures WellFormed(c2)
    ensures RoleTable(c1) == RoleTable(c2) && AccessWords(c1) == AccessWords(c2)
  {
    assert |c2.roles| == |multiset(c2.roles)| == |c1.roles|;
    assert forall r :: r in c1.roles <==> r in c2.roles by {
      forall r ensures r in c1.roles <==> r in c2.roles {
        assert r in c1.roles <==> r in multiset(c1.roles);
      }
    }
    RoleNamesPermutation(c1.roles, c2.roles);
    SameDeclarationsSameAccessMap(c1, c2);
  }

  /** Two role lists that differ only in the order of the grants within each role. */
  predicate RegroupedGrants(a: seq<Role>, b: seq<Role>) {
    && |a| == |b|
    && forall i | 0 <= i < |a| :: b[i].name == a[i].name && multiset(b[i].resources) == multiset(a[i].resources)
  }

  lemma RegroupedSymmetric(a: seq<Role>, b: seq<Role>)
    requires RegroupedGrants(a, b)
    ensures RegroupedGrants(b, a)
  {
  }

  /** Reordering the grants keeps every declared triple. */
  lemma RegroupedDeclares(c1: Config, c2: Config, role: string, name: string, action: string)
    requires RegroupedGrants(c1.roles, c2.roles)
    requires Declares(c1, role, name, action)
    ensures Declares(c2, role, name, action)
  {
    var r, g :| r in c1.roles && g in r.resources && r.name == role && g.name == name && action in g.actions;
    var i :| 0 <= i < |c1.roles| && c1.roles[i] == r;
    assert g in multiset(c2.roles[i].resources);
    assert c2.roles[i] in c2.roles;
  }

  /** Reordering the grants keeps the policy well formed. */
  lemma RegroupedWellFormed(c1: Config, c2: Config)
    requires WellFormed(c1) && c1.resources == c2.resources
    requires RegroupedGrants(c1.roles, c2.roles)
    ensures WellFormed(c2)
  {
    forall r | r in c2.roles ensures r.name != "" && |r.resources| > 0 && GrantsDefined(r, DefinedResources(c2.resources)) {
      var i :| 0 <= i < |c2.roles| && c2.roles[i] == r;
      assert c1.roles[i] in c1.roles;
      assert |r.resources| == |multiset(r.resources)| == |c1.roles[i].resources|;
      forall g | g in r.resources ensures g.name == AllResources || g.name in DefinedResources(c2.resources) {
        assert g in multiset(c1.roles[i].resources);
      }
    }
  }

  /** The access map does not depend on the order of the grants within each role. */
  lemma GrantsInAnyOrder(c1: Config, c2: Config)
    requires WellFormed(c1)
    requires c1.resources == c2.resources && RegroupedGrants(c1.roles, c2.roles)
    ensures WellFormed(c2)
    ensures AccessWords(c1) == AccessWords(c2)
  {
    RegroupedWellFormed(c1, c2);
    RegroupedSymmetric(c1.roles, c2.roles);
    forall role, name, action ensures Declares(c1, role, name, action) <==> Declares(c2, role, name, action) {
      if Declares(c1, role, name, action) { RegroupedDeclares(c1, c2, role, name, action); }
      if Declares(c2, role, name, action) { RegroupedDeclares(c2, c1, role, name, action); }
    }
    assert RoleNames(c1.roles) == RoleNames(c2.roles);
    SameDeclarationsSameAccessMap(c1, c2);
  }
}
