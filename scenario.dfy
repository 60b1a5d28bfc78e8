/**
 * The policy of the engine's own tests (tinyrbac_test.go:12-51) and the
 * validation cases of config_test.go:302-406, worked through the model:
 * the index maps, the words of the access map, the answers of Check and
 * the error each rejected policy gets.
 */
module Scenario {
  import opened Wrappers
  import opened Constants
  import opened ResourceSets
  import opened Actions
  import opened Names
  import opened Policy
  import opened Access
  import opened Engine

  /** Three resources and three roles: Admin with "*", Instance Manager, Auditor. */
  const TestPolicy: Config := Config("", [
      Role("Admin", "", [Resource("*", ["GET", "POST", "PUT", "PATCH", "DELETE"])]),
      Role("Instance Manager", "", [
        Resource("instances", ["GET", "POST", "PUT", "PATCH", "DELETE"]),
        Resource("audit-logs", [""])]),
      Role("Auditor", "", [Resource("applications", ["GET"]), Resource("audit-logs", ["GET"])])
    ],
    ["instances", "applications", "audit-logs"])

  /** The defined resources of the test policy: its three distinct names. */
  lemma TestDefined()
    ensures DefinedResources(TestPolicy.resources) == {"instances", "applications", "audit-logs"}
    ensures |DefinedResources(TestPolicy.resources)| == 3
  {
    var d := DefinedResources(TestPolicy.resources);
    assert d == {"instances", "applications", "audit-logs"};
  }

  /** "orders" is not a resource of the test policy. */
  lemma OrdersUndefined()
    ensures "orders" !in DefinedResources(TestPolicy.resources)
  {
    TestDefined();
  }

  /** Every role of the test policy is named, has grants, and grants only "*" or defined resources. */
  lemma TestPolicyDefined()
    ensures DefinedResources(TestPolicy.resources) == {"instances", "applications", "audit-logs"}
    ensures |DefinedResources(TestPolicy.resources)| == 3
    ensures WellFormed(TestPolicy)
  {
    TestDefined();
    var defined := DefinedResources(TestPolicy.resources);
    forall r | r in TestPolicy.roles ensures r.name != "" && |r.resources| > 0 && GrantsDefined(r, defined) {
      forall g | g in r.resources ensures g.name == AllResources || g.name in defined {
        TestGrant(r, g);
      }
      assert r == TestPolicy.roles[0] || r == TestPolicy.roles[1] || r == TestPolicy.roles[2];
    }
  }

  /** `validate` accepts the test policy. */
  lemma TestPolicyValid()
    ensures ValidationResult(TestPolicy) == None
  {
    TestPolicyDefined();
    ValidateAcceptsIff(TestPolicy);
  }

  lemma SortedTestNames()
    ensures StrictlySorted(["Admin", "Auditor", "Instance Manager"])
    ensures StrictlySorted(["applications", "audit-logs", "instances"])
  {
    assert LexLe("Admin", "Auditor") && LexLe("Auditor", "Instance Manager") && LexLe("Admin", "Instance Manager");
    assert LexLe("applications", "audit-logs") && LexLe("audit-logs", "instances") && LexLe("applications", "instances");
  }

  /** roleIdxMap of the test (tinyrbac_test.go:102): the role names in ascending order, the rest blank. */
  lemma TestRoleTable()
    ensures RoleTable(TestPolicy)[..3] == ["Admin", "Auditor", "Instance Manager"]
    ensures forall i | 3 <= i < MaxRoles :: RoleTable(TestPolicy)[i] == ""
  {
    RoleTableSpec(TestPolicy);
    var roles: seq<string> := ["Admin", "Auditor", "Instance Manager"];
    assert RoleNames(TestPolicy.roles) == ["Admin", "Instance Manager", "Auditor"];
    assert multiset(roles) == multiset(RoleNames(TestPolicy.roles));
    SortedTestNames();
    SortedUnique(RoleTable(TestPolicy)[..3], roles);
  }

  /** resourceIdxMap of the test (tinyrbac_test.go:103): the resource names in ascending order, the rest blank. */
  lemma TestResourceTable()
    ensures |DefinedResources(TestPolicy.resources)| == 3
    ensures ResourceTable(TestPolicy)[..3] == ["applications", "audit-logs", "instances"]
    ensures forall i | 3 <= i < MaxResources :: ResourceTable(TestPolicy)[i] == ""
  {
    TestPolicyDefined();
    ResourceTableSpec(TestPolicy);
    SortedTestNames();
    StrictlySortedUnique(ResourceTable(TestPolicy)[..3], ["applications", "audit-logs", "instances"]);
  }

  /** The rows of the test policy: Admin 0, Auditor 1, Instance Manager 2. */
  lemma TestRoleIndices()
    ensures RoleIndex(TestPolicy, "Admin") == 0
    ensures RoleIndex(TestPolicy, "Auditor") == 1
    ensures RoleIndex(TestPolicy, "Instance Manager") == 2
  {
    TestRoleTable();
    IndexOfFirstThree(RoleTable(TestPolicy), "Admin", "Auditor", "Instance Manager");
  }

  /** The bits of the test policy's resources: applications 0, audit-logs 1, instances 2. */
  lemma TestResourceIndices()
    ensures |DefinedResources(TestPolicy.resources)| == 3
    ensures ResourceIndex(TestPolicy, "applications") == 0
    ensures ResourceIndex(TestPolicy, "audit-logs") == 1
    ensures ResourceIndex(TestPolicy, "instances") == 2
  {
    TestResourceTable();
    IndexOfFirstThree(ResourceTable(TestPolicy), "applications", "audit-logs", "instances");
  }

  /** Only Admin, in row 0, holds a "*" grant. */
  lemma TestWildcardOnlyAdmin(k: nat)
    requires MaxActions <= k < AccessMapLen
    ensures WellFormed(TestPolicy)
    ensures forall r, g | r in TestPolicy.roles && g in r.resources && RoleIndex(TestPolicy, r.name) == k / MaxActions ::
      g.name != AllResources
  {
    TestPolicyDefined();
    TestRoleIndices();
    forall r, g | r in TestPolicy.roles && g in r.resources && RoleIndex(TestPolicy, r.name) == k / MaxActions
      ensures g.name != AllResources
    {
      TestGrant(r, g);
    }
  }

  /**
   * In the rows of Auditor and Instance Manager a word is the number
   * spelled by its bits for the three resources.
   */
  lemma TestNamedRowWord(i: nat, o: nat)
    requires i == 1 || i == 2
    requires o < MaxActions
    ensures WellFormed(TestPolicy) && |AccessWords(TestPolicy)| == AccessMapLen
    ensures Value(AccessWords(TestPolicy)[Slot(i, o)]) == Value(AccessWords(TestPolicy)[Slot(i, o)][..3])
  {
    TestPolicyDefined();
    var k := Slot(i, o);
    assert k == i * MaxActions + o;
    TestWildcardOnlyAdmin(k);
    NamedRowValue(TestPolicy, k);
  }

  /** The roles of the test policy, and the grants of each. */
  lemma TestGrant(r: Role, g: Resource)
    requires r in TestPolicy.roles && g in r.resources
    ensures r.name == "Admin" ==> g == Resource("*", ["GET", "POST", "PUT", "PATCH", "DELETE"])
    ensures r.name == "Instance Manager" ==>
      g == Resource("instances", ["GET", "POST", "PUT", "PATCH", "DELETE"]) || g == Resource("audit-logs", [""])
    ensures r.name == "Auditor" ==> g == Resource("applications", ["GET"]) || g == Resource("audit-logs", ["GET"])
    ensures r.name == "Admin" || r.name == "Instance Manager" || r.name == "Auditor"
  {
    var roles := TestPolicy.roles;
    assert r == roles[0] || r == roles[1] || r == roles[2];
  }

  /** Auditor's two grants list GET. */
  lemma AuditorMayGet()
    ensures Permits(TestPolicy, "Auditor", "applications", "GET")
    ensures Permits(TestPolicy, "Auditor", "audit-logs", "GET")
  {
    var r := TestPolicy.roles[2];
    assert r in TestPolicy.roles;
    assert r.resources[0] in r.resources && r.resources[1] in r.resources;
  }

  /** Whatever Auditor is permitted is a GET on applications or audit-logs. */
  lemma AuditorOnlyGets(resource: string, action: string)
    ensures Permits(TestPolicy, "Auditor", resource, action) ==>
      action == "GET" && (resource == "applications" || resource == "audit-logs")
  {
    if Permits(TestPolicy, "Auditor", resource, action) {
      var r, g :| r in TestPolicy.roles && g in r.resources && r.name == "Auditor" && action in g.actions &&
        (g.name == AllResources || g.name == resource);
      TestGrant(r, g);
    }
  }

  /** Auditor may GET applications and audit-logs, and nothing else. */
  lemma AuditorGrants(action: string)
    ensures Permits(TestPolicy, "Auditor", "applications", action) <==> action == "GET"
    ensures Permits(TestPolicy, "Auditor", "audit-logs", action) <==> action == "GET"
    ensures !Permits(TestPolicy, "Auditor", "instances", action)
  {
    AuditorMayGet();
    AuditorOnlyGets("applications", action);
    AuditorOnlyGets("audit-logs", action);
    AuditorOnlyGets("instances", action);
  }

  /** Instance Manager may do every action on instances; its blank action on audit-logs grants nothing. */
  lemma InstanceManagerGrants(action: string)
    requires IsMethod(action)
    ensures !Permits(TestPolicy, "Instance Manager", "applications", action)
    ensures !Permits(TestPolicy, "Instance Manager", "audit-logs", action)
    ensures Permits(TestPolicy, "Instance Manager", "instances", action)
  {
    var c := TestPolicy;
    var r := c.roles[1];
    assert r.resources[0] in r.resources;
    forall r, g | r in c.roles && g in r.resources && r.name == "Instance Manager" && action in g.actions
      ensures g.name == "instances"
    {
      TestGrant(r, g);
    }
  }

  /** The role of each used row and the resource of each used bit, in the test policy. */
  const TestRows: seq<string> := ["Admin", "Auditor", "Instance Manager"]
  const TestBits: seq<string> := ["applications", "audit-logs", "instances"]

  /** Row i belongs to the i-th role of TestRows. */
  lemma TestRow(i: nat)
    requires i < 3
    ensures RoleIndex(TestPolicy, TestRows[i]) == i && IsRole(TestPolicy, TestRows[i])
  {
    TestRoleIndices();
    TestRoles();
    if i == 0 {
      assert TestRows[i] == "Admin";
    } else if i == 1 {
      assert TestRows[i] == "Auditor";
    } else {
      assert TestRows[i] == "Instance Manager";
    }
  }

  /** Bit j belongs to the j-th resource of TestBits. */
  lemma TestBitIndex(j: nat)
    requires j < 3
    ensures |DefinedResources(TestPolicy.resources)| == 3
    ensures ResourceIndex(TestPolicy, TestBits[j]) == j && TestBits[j] in DefinedResources(TestPolicy.resources)
  {
    TestPolicyDefined();
    TestResourceIndices();
    if j == 0 {
      assert TestBits[j] == "applications";
    } else if j == 1 {
      assert TestBits[j] == "audit-logs";
    } else {
      assert TestBits[j] == "instances";
    }
  }

  /** Bit j of the word of row i for method o answers whether the policy permits that request. */
  lemma TestBit(i: nat, j: nat, o: nat)
    requires i < 3 && j < 3 && o < MaxActions
    ensures WellFormed(TestPolicy) && |AccessWords(TestPolicy)| == AccessMapLen
    ensures AccessWords(TestPolicy)[Slot(i, o)][j] <==> Permits(TestPolicy, TestRows[i], TestBits[j], Methods[o])
  {
    TestPolicyDefined();
    TestRow(i);
    TestBitIndex(j);
    OffsetOfMethod(o);
    AccessMatchesPolicy(TestPolicy, TestRows[i], TestBits[j], Methods[o]);
  }

  /** A word whose bits past the third are clear is the number its first three bits spell. */
  lemma ThreeBitWord(w: ResourceSet, b0: bool, b1: bool, b2: bool)
    requires Value(w) == Value(w[..3])
    requires w[0] == b0 && w[1] == b1 && w[2] == b2
    ensures Value(w) == (if b0 then 1 else 0) + (if b1 then 2 else 0) + (if b2 then 4 else 0)
  {
    var s := w[..3];
    assert s[1..][1..][1..] == [];
    assert Value(s[1..][1..]) == if b2 then 1 else 0;
    assert Value(s[1..]) == (if b1 then 1 else 0) + 2 * Value(s[1..][1..]);
  }

  lemma GetIsFirst(o: nat)
    requires o < MaxActions
    ensures Methods[o] == "GET" <==> o == 0
  {
    OffsetOfMethod(o);
    assert ActionOffset("GET") == 0;
  }

  /** Auditor's bits: GET holds applications and audit-logs, no action holds instances. */
  lemma AuditorBits(o: nat)
    requires o < MaxActions
    ensures WellFormed(TestPolicy) && |AccessWords(TestPolicy)| == AccessMapLen
    ensures AccessWords(TestPolicy)[MaxActions + o][0] == (o == 0)
    ensures AccessWords(TestPolicy)[MaxActions + o][1] == (o == 0)
    ensures !AccessWords(TestPolicy)[MaxActions + o][2]
  {
    GetIsFirst(o);
    AuditorGrants(Methods[o]);
    assert Slot(1, o) == MaxActions + o;
    TestBit(1, 0, o);
    TestBit(1, 1, o);
    TestBit(1, 2, o);
  }

  /**
   * Auditor's row of the test's access map (tinyrbac_test.go:108): GET
   * holds applications and audit-logs (3), the other actions nothing.
   */
  lemma AuditorRow(k: nat)
    requires MaxActions <= k < 2 * MaxActions
    ensures WellFormed(TestPolicy) && |AccessWords(TestPolicy)| == AccessMapLen
    ensures Value(AccessWords(TestPolicy)[k]) == if k == MaxActions then 3 else 0
  {
    var o := k - MaxActions;
    assert Slot(1, o) == k;
    TestNamedRowWord(1, o);
    AuditorBits(o);
    ThreeBitWord(AccessWords(TestPolicy)[k], o == 0, o == 0, false);
  }

  /** Instance Manager's bits: every action holds instances and nothing else. */
  lemma InstanceManagerBits(o: nat)
    requires o < MaxActions
    ensures WellFormed(TestPolicy) && |AccessWords(TestPolicy)| == AccessMapLen
    ensures !AccessWords(TestPolicy)[2 * MaxActions + o][0]
    ensures !AccessWords(TestPolicy)[2 * MaxActions + o][1]
    ensures AccessWords(TestPolicy)[2 * MaxActions + o][2]
  {
    OffsetOfMethod(o);
    InstanceManagerGrants(Methods[o]);
    assert Slot(2, o) == 2 * MaxActions + o;
    TestBit(2, 0, o);
    TestBit(2, 1, o);
    TestBit(2, 2, o);
  }

  /**
   * Instance Manager's row (tinyrbac_test.go:108): every action holds
   * instances (4); its blank action on audit-logs adds nothing.
   */
  lemma InstanceManagerRow(k: nat)
    requires 2 * MaxActions <= k < 3 * MaxActions
    ensures WellFormed(TestPolicy) && |AccessWords(TestPolicy)| == AccessMapLen
    ensures Value(AccessWords(TestPolicy)[k]) == 4
  {
    var o := k - 2 * MaxActions;
    assert Slot(2, o) == k;
    TestNamedRowWord(2, o);
    InstanceManagerBits(o);
    ThreeBitWord(AccessWords(TestPolicy)[k], false, false, true);
  }

  /** Admin's row (tinyrbac_test.go:105-107): its "*" grant lists every method, so every word is allResourceAccess. */
  lemma AdminRow(k: nat)
    requires k < MaxActions
    ensures WellFormed(TestPolicy) && |AccessWords(TestPolicy)| == AccessMapLen
    ensures AccessWords(TestPolicy)[k] == AllResourceAccess
  {
    var c := TestPolicy;
    TestPolicyDefined();
    OffsetOfMethod(k);
    TestRoleIndices();
    var admin := c.roles[0];
    assert admin in c.roles && admin.resources[0] in admin.resources;
    WildcardWord(c, admin, admin.resources[0], Methods[k]);
  }

  /** No role has row 3 or beyond: those words stay zero. */
  lemma UnusedRows(k: nat)
    requires 3 * MaxActions <= k < AccessMapLen
    ensures WellFormed(TestPolicy) && |AccessWords(TestPolicy)| == AccessMapLen
    ensures AccessWords(TestPolicy)[k] == Zero
  {
    TestPolicyDefined();
    TestRowsUsed();
    assert k / MaxActions >= 3;
    OtherRowsUntouched(TestPolicy, k);
  }

  /** The three roles of the test policy occupy rows 0 to 2. */
  lemma TestRowsUsed()
    ensures forall r | r in TestPolicy.roles :: RoleIndex(TestPolicy, r.name) < 3
  {
    var c := TestPolicy;
    TestRoleIndices();
    forall r | r in c.roles ensures RoleIndex(c, r.name) < 3 {
      assert r == c.roles[0] || r == c.roles[1] || r == c.roles[2];
    }
  }

  /** Admin's five words (tinyrbac_test.go:105-107). */
  lemma TestAdminWords()
    ensures WellFormed(TestPolicy) && |AccessWords(TestPolicy)| == AccessMapLen
    ensures forall k | 0 <= k < 5 :: AccessWords(TestPolicy)[k] == AllResourceAccess
  {
    TestPolicyDefined();
    forall k | 0 <= k < 5 ensures AccessWords(TestPolicy)[k] == AllResourceAccess {
      AdminRow(k);
    }
  }

  /** Auditor's five words (tinyrbac_test.go:108): 3, 0, 0, 0, 0. */
  lemma TestAuditorWords()
    ensures WellFormed(TestPolicy) && |AccessWords(TestPolicy)| == AccessMapLen
    ensures Value(AccessWords(TestPolicy)[5]) == 3
    ensures forall k | 6 <= k < 10 :: Value(AccessWords(TestPolicy)[k]) == 0
  {
    TestPolicyDefined();
    AuditorRow(5);
    forall k | 6 <= k < 10 ensures Value(AccessWords(TestPolicy)[k]) == 0 {
      AuditorRow(k);
    }
  }

  /** Instance Manager's five words (tinyrbac_test.go:108): all 4. */
  lemma TestInstanceManagerWords()
    ensures WellFormed(TestPolicy) && |AccessWords(TestPolicy)| == AccessMapLen
    ensures forall k | 10 <= k < 15 :: Value(AccessWords(TestPolicy)[k]) == 4
  {
    TestPolicyDefined();
    forall k | 10 <= k < 15 ensures Value(AccessWords(TestPolicy)[k]) == 4 {
      InstanceManagerRow(k);
    }
  }

  /** The words of the rows no role has. */
  lemma TestUnusedWords()
    ensures WellFormed(TestPolicy) && |AccessWords(TestPolicy)| == AccessMapLen
    ensures forall k | 15 <= k < AccessMapLen :: AccessWords(TestPolicy)[k] == Zero
  {
    TestPolicyDefined();
    forall k | 15 <= k < AccessMapLen ensures AccessWords(TestPolicy)[k] == Zero {
      UnusedRows(k);
    }
  }

  /** The roles of the test policy are Admin, Instance Manager and Auditor; Operator is not one of them. */
  lemma TestRoles()
    ensures IsRole(TestPolicy, "Admin") && IsRole(TestPolicy, "Instance Manager") && IsRole(TestPolicy, "Auditor")
    ensures !IsRole(TestPolicy, "Operator")
  {
    var c := TestPolicy;
    assert c.roles[0].name == "Admin" && c.roles[1].name == "Instance Manager" && c.roles[2].name == "Auditor";
    forall r | r in c.roles ensures r.name != "Operator" {
      assert r == c.roles[0] || r == c.roles[1] || r == c.roles[2];
    }
  }

  /** The engine of the tests: built from the test policy, which `validate` accepts. */
  method BuildTestEngine() returns (rbac: Rbac)
    ensures fresh(rbac) && rbac.Valid() && rbac.config == TestPolicy
  {
    TestPolicyValid();
    var r, err := BuildFromConfig(TestPolicy);
    rbac := r;
  }

  // The query cases of tinyrbac_test.go:253-282 against the test engine.

  /** "role has action access for resource": Instance Manager may POST instances. */
  method CheckGranted(rbac: Rbac) returns (allowed: bool, err: Option<QueryError>)
    requires rbac.Valid() && rbac.config == TestPolicy
    ensures allowed && err == None
  {
    TestPolicyDefined();
    TestRoles();
    InstanceManagerGrants("POST");
    allowed, err := rbac.Check("Instance Manager", "instances", "POST");
  }

  /** "role does not have action access for resource": Auditor may not POST instances, and no error is reported. */
  method CheckDenied(rbac: Rbac) returns (allowed: bool, err: Option<QueryError>)
    requires rbac.Valid() && rbac.config == TestPolicy
    ensures !allowed && err == None
  {
    TestPolicyDefined();
    TestRoles();
    AuditorGrants("POST");
    allowed, err := rbac.Check("Auditor", "instances", "POST");
  }

  /** "role not found": Operator is denied with "unknown role: Operator". */
  method CheckUnknownRole(rbac: Rbac) returns (allowed: bool, err: Option<QueryError>)
    requires rbac.Valid() && rbac.config == TestPolicy
    ensures !allowed && err == Some(UnknownRole("Operator"))
  {
    TestRoles();
    allowed, err := rbac.Check("Operator", "instances", "POST");
  }

  /** "resource not found": orders is denied with "unknown resource: orders". */
  method CheckUnknownResource(rbac: Rbac) returns (allowed: bool, err: Option<QueryError>)
    requires rbac.Valid() && rbac.config == TestPolicy
    ensures !allowed && err == Some(UnknownResource("orders"))
  {
    TestRoles();
    OrdersUndefined();
    allowed, err := rbac.Check("Instance Manager", "orders", "POST");
  }

  /** The successful case of config_test.go:302-326: a blank resource entry is tolerated. */
  lemma ValidationAccepts()
    ensures ValidationResult(Config("", [
        Role("Admin", "", [Resource("*", ["GET", "POST", "PUT", "PATCH", "DELETE"])]),
        Role("Instance Manager", "", [Resource("instances", ["GET", "POST", "PUT", "PATCH", "DELETE"])])
      ], ["instances", "applications", "audit-logs", ""])) == None
  {
    var c := Config("", [
        Role("Admin", "", [Resource("*", ["GET", "POST", "PUT", "PATCH", "DELETE"])]),
        Role("Instance Manager", "", [Resource("instances", ["GET", "POST", "PUT", "PATCH", "DELETE"])])
      ], ["instances", "applications", "audit-logs", ""]);
    var d := DefinedResources(c.resources);
    assert d == {"instances", "applications", "audit-logs"};
    assert |d| == 3;
    assert RoleError(c.roles[0], 0, d) == None;
    assert RoleError(c.roles[1], 1, d) == None;
    assert FirstRoleError(c.roles, d, 2) == None;
    assert FirstRoleError(c.roles, d, 0) == None;
  }

  /** "missing resources" (config_test.go:329-335): nothing is defined. */
  lemma RejectsNoResources()
    ensures ValidationResult(Config("", [], [])) == Some(NoResources)
  {
  }

  /** "missing roles" (config_test.go:345-352). */
  lemma RejectsNoRoles()
    ensures ValidationResult(Config("", [], ["instances", "applications", "audit-logs"])) == Some(NoRoles)
  {
    var names: seq<string> := ["instances", "applications", "audit-logs"];
    assert DefinedResources(names) == {"instances", "applications", "audit-logs"};
  }

  /** "role name is empty" (config_test.go:354-365): the error reports the role's position. */
  lemma RejectsEmptyRoleName()
    ensures ValidationResult(Config("", [Role("", "", [])], ["instances", "applications", "audit-logs"]))
      == Some(EmptyRoleName(0))
  {
    var names: seq<string> := ["instances", "applications", "audit-logs"];
    assert DefinedResources(names) == {"instances", "applications", "audit-logs"};
  }

  /** "role has no resources" (config_test.go:367-378). */
  lemma RejectsEmptyRoleResources()
    ensures ValidationResult(Config("", [Role("Auditor", "", [])], ["instances", "applications", "audit-logs"]))
      == Some(EmptyRoleResources("Auditor"))
  {
    var names: seq<string> := ["instances", "applications", "audit-logs"];
    assert DefinedResources(names) == {"instances", "applications", "audit-logs"};
  }

  /** "undefined resource" (config_test.go:380-397): the grant's name and the role's are reported. */
  lemma RejectsUndefinedResource()
    ensures ValidationResult(Config("", [Role("Auditor", "", [Resource("storage", ["GET"])])],
      ["instances", "applications", "audit-logs"])) == Some(UndefinedResource("storage", "Auditor"))
  {
    var names: seq<string> := ["instances", "applications", "audit-logs"];
    assert DefinedResources(names) == {"instances", "applications", "audit-logs"};
  }

  /** maxRoles + 1 copies of one valid role (config_test.go:280-294, 399-406). */
  function Auditors(n: nat): (roles: seq<Role>)
    ensures |roles| == n
    ensures forall i | 0 <= i < n :: roles[i] == Role("Auditor", "", [Resource("instances", [])])
  {
    seq(n, _ => Role("Auditor", "", [Resource("instances", [])]))
  }

  /** Every role passes its own checks, so the count decides: "roles exceeded" with 21. */
  lemma ValidationRejectsTooManyRoles()
    ensures ValidationResult(Config("", Auditors(MaxRoles + 1), ["instances"])) == Some(TooManyRoles(20, 21))
  {
    var c := Config("", Auditors(MaxRoles + 1), ["instances"]);
    assert DefinedResources(c.resources) == {"instances"};
    forall i | 0 <= i < |c.roles| ensures RoleError(c.roles[i], i, {"instances"}).None? {
      assert FirstUndefined(c.roles[i].resources, {"instances"}, 1) == None;
    }
    TooManyRolesLast(c);
  }
}
