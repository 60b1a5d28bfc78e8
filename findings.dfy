/**
 * Two places where the code, as written, does not do what its tests and
 * comments expect, each modelled as written next to a counterexample. The
 * rest of the model uses the corrected behaviour: Access.Stamp (through
 * Engine.Rbac.FillAccessMap) and Engine.Rbac.Check.
 */
module Findings {
  import opened Wrappers
  import opened Constants
  import opened ResourceSets
  import opened Actions
  import opened Names
  import opened Policy
  import opened Access
  import opened Scenario

  /**
   * The index of the fill loop as written (tinyrbac.go:82, 86, 91): the
   * row start plus the offset, with unknownAction (-1) added like any other
   * offset.
   */
  function RawSlot(row: nat, action: string): (k: int)
    requires row < MaxRoles
    ensures k < AccessMapLen
    ensures IsMethod(action) ==> k == Slot(row, ActionOffset(action))
    ensures !IsMethod(action) ==> k == row * MaxActions - 1
  {
    row * MaxActions + ActionOffset(action)
  }

  /** The result of one write as written: the new map, or Go's index-out-of-range panic. */
  datatype Write = Written(words: seq<ResourceSet>) | IndexPanic(index: int)

  /** One write of the fill loop as written, without the offset check. */
  function StampAsWritten(m: seq<ResourceSet>, row: nat, t: Target, action: string): (r: Write)
    requires |m| == AccessMapLen && row < MaxRoles
    requires t.Only? ==> t.index < MaxResources
    ensures r.IndexPanic? <==> RawSlot(row, action) < 0
    ensures IsMethod(action) ==> r == Written(Stamp(m, row, t, action))
  {
    var k := RawSlot(row, action);
    if k < 0 then IndexPanic(k)
    else match t
      case AllOf => Written(m[k := AllResourceAccess])
      case Only(j) => Written(m[k := Or(m[k], Bit(j))])
  }

  /**
   * As written, an action the table does not know writes into the last
   * (DELETE) word of the row before, or panics in row 0; the corrected
   * write leaves the map unchanged.
   */
  lemma UnknownActionWritesPreviousRow(m: seq<ResourceSet>, row: nat, j: nat, action: string)
    requires |m| == AccessMapLen && row < MaxRoles && j < MaxResources
    requires !IsMethod(action)
    ensures row == 0 ==> StampAsWritten(m, row, Only(j), action) == IndexPanic(-1)
    ensures row > 0 ==> (StampAsWritten(m, row, Only(j), action) ==
      Written(m[Slot(row - 1, MaxActions - 1) := Or(m[Slot(row - 1, MaxActions - 1)], Bit(j))]))
    ensures Stamp(m, row, Only(j), action) == m
  {
  }

  /**
   * The test policy's Instance Manager (row 2) lists the blank action on
   * audit-logs (bit 1): as written, bit 1 of word 9, Auditor's DELETE word,
   * is set, where the test expects 0. The lemma shows this one write; the
   * writes after it only OR bits in (StampActions, StampGrants and
   * StampRoles are monotone), so word 9 stays non-zero in the whole fill.
   */
  lemma BlankActionOfTestPolicy(m: seq<ResourceSet>)
    requires |m| == AccessMapLen
    ensures StampAsWritten(m, 2, Only(1), "").Written?
    ensures StampAsWritten(m, 2, Only(1), "").words[9][1]
    ensures Stamp(m, 2, Only(1), "") == m
  {
    UnrecognisedSpellings();
    UnknownActionWritesPreviousRow(m, 2, 1, "");
  }

  /**
   * Check as written (tinyrbac.go:100-126), on an engine's three arrays:
   * the scans accept the first slot equal to the name, the blank padding
   * slots included, and the action's offset is added unchecked. None is
   * Go's index-out-of-range panic.
   */
  function CheckAsWritten(roleTable: seq<string>, resourceTable: seq<string>, words: seq<ResourceSet>,
                          role: string, resource: string, action: string): (r: Option<bool>)
    requires |roleTable| == MaxRoles && |resourceTable| == MaxResources && |words| == AccessMapLen
    ensures r.None? <==> IndexOf(roleTable, role) == 0 && 0 <= IndexOf(resourceTable, resource) && !IsMethod(action)
    ensures IndexOf(roleTable, role) < 0 || IndexOf(resourceTable, resource) < 0 ==> r == Some(false)
  {
    var roleIdx := IndexOf(roleTable, role);
    if roleIdx == -1 then Some(false)
    else
      var resourceIdx := IndexOf(resourceTable, resource);
      if resourceIdx == -1 then Some(false)
      else
        var k := roleIdx * MaxActions + ActionOffset(action);
        if k < 0 then None else Some(words[k][resourceIdx])
  }

  /**
   * The blank resource name matches the first padding slot of
   * resourceIdxMap whenever fewer than maxResources names are defined, and a
   * "*" grant sets every bit of its word: Check as written then allows the
   * blank resource for that role and action, although "" is not a resource
   * of the policy; the corrected Check denies it.
   */
  lemma BlankResourceAllowed(c: Config, r: Role, g: Resource, action: string)
    requires WellFormed(c) && |DefinedResources(c.resources)| < MaxResources
    requires r in c.roles && g in r.resources && g.name == AllResources
    requires action in g.actions && IsMethod(action)
    ensures CheckAsWritten(RoleTable(c), ResourceTable(c), AccessWords(c), r.name, "", action) == Some(true)
    ensures "" !in DefinedResources(c.resources)
  {
    BlankMatchesPadding(c);
    WildcardWord(c, r, g, action);
    var i, o, n := RoleIndex(c, r.name), ActionOffset(action), |DefinedResources(c.resources)|;
    assert AccessWords(c)[Slot(i, o)][n];
    CheckAsWrittenReadsSlot(RoleTable(c), ResourceTable(c), AccessWords(c), r.name, "", action);
  }

  /** For names both found and a method, Check as written reads the method's word of the role's row. */
  lemma CheckAsWrittenReadsSlot(roleTable: seq<string>, resourceTable: seq<string>, words: seq<ResourceSet>,
                                role: string, resource: string, action: string)
    requires |roleTable| == MaxRoles && |resourceTable| == MaxResources && |words| == AccessMapLen
    requires 0 <= IndexOf(roleTable, role) && 0 <= IndexOf(resourceTable, resource) && IsMethod(action)
    ensures CheckAsWritten(roleTable, resourceTable, words, role, resource, action) ==
      Some(words[Slot(IndexOf(roleTable, role), ActionOffset(action))][IndexOf(resourceTable, resource)])
  {
  }

  /**
   * For names both found and an unrecognised action, Check as written
   * panics in row 0 and otherwise reads the DELETE word of the row before.
   */
  lemma CheckAsWrittenReadsPrevious(roleTable: seq<string>, resourceTable: seq<string>, words: seq<ResourceSet>,
                                    role: string, resource: string, action: string)
    requires |roleTable| == MaxRoles && |resourceTable| == MaxResources && |words| == AccessMapLen
    requires 0 <= IndexOf(roleTable, role) && 0 <= IndexOf(resourceTable, resource) && !IsMethod(action)
    ensures IndexOf(roleTable, role) == 0 ==> CheckAsWritten(roleTable, resourceTable, words, role, resource, action).None?
    ensures IndexOf(roleTable, role) > 0 ==>
      CheckAsWritten(roleTable, resourceTable, words, role, resource, action) ==
      Some(words[Slot(IndexOf(roleTable, role) - 1, MaxActions - 1)][IndexOf(resourceTable, resource)])
  {
  }

  /** The blank name is found at the first padding slot of resourceIdxMap. */
  lemma BlankMatchesPadding(c: Config)
    requires |DefinedResources(c.resources)| < MaxResources
    ensures IndexOf(ResourceTable(c), "") == |DefinedResources(c.resources)|
    ensures "" !in DefinedResources(c.resources)
  {
    var n := |DefinedResources(c.resources)|;
    ResourceTableSpec(c);
    var st := ResourceTable(c);
    assert "" !in st[..n];
    IndexOfAt(st, "", n);
  }

  /**
   * As written, an unrecognised action reads the last (DELETE) word of the
   * row before: for a role in row i > 0 and a defined resource, Check as
   * written answers with that word's bit, and panics for the role in row 0.
   * The corrected Check denies every unrecognised action.
   */
  lemma UnknownActionReadsPreviousRow(c: Config, role: string, resource: string, action: string)
    requires WellFormed(c) && IsRole(c, role) && resource in DefinedResources(c.resources)
    requires !IsMethod(action)
    ensures 0 <= RoleIndex(c, role) < MaxRoles && 0 <= ResourceIndex(c, resource) < MaxResources
    ensures RoleIndex(c, role) == 0 ==>
      CheckAsWritten(RoleTable(c), ResourceTable(c), AccessWords(c), role, resource, action).None?
    ensures RoleIndex(c, role) > 0 ==>
      (CheckAsWritten(RoleTable(c), ResourceTable(c), AccessWords(c), role, resource, action) ==
       Some(AccessWords(c)[Slot(RoleIndex(c, role) - 1, MaxActions - 1)][ResourceIndex(c, resource)]))
  {
    IndicesFound(c, role, resource);
    CheckAsWrittenReadsPrevious(RoleTable(c), ResourceTable(c), AccessWords(c), role, resource, action);
  }

  /**
   * In the test policy, Auditor (row 1) asking for the lower-case "get" on
   * instances reads Admin's DELETE word, which is allResourceAccess: allowed
   * as written, though Auditor has no grant on instances at all. The words
   * are the corrected fill's; the fill as written gives the same word 4,
   * since no action in row 0 is unrecognised and a stray write into row 0
   * would come from row 1, whose actions are all methods, and could only
   * add bits to a word that is already all ones.
   */
  lemma AuditorLowerCaseGet()
    ensures WellFormed(TestPolicy)
    ensures CheckAsWritten(RoleTable(TestPolicy), ResourceTable(TestPolicy), AccessWords(TestPolicy),
      "Auditor", "instances", "get") == Some(true)
    ensures !Permits(TestPolicy, "Auditor", "instances", "get")
  {
    TestPolicyDefined();
    TestRoles();
    TestRoleIndices();
    UnrecognisedSpellings();
    UnknownActionReadsPreviousRow(TestPolicy, "Auditor", "instances", "get");
    AdminRow(4);
    AllResourceAccessIsMaxUint64();
    AuditorGrants("get");
  }
}
