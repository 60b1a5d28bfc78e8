# tinyrbac permission engine in Dafny

tinyrbac answers one question: may a role perform an HTTP action on a
resource? The answer comes from a policy. A policy lists the resource names
and, for each role, grants: a resource name, or `*` for every resource,
together with the actions allowed on it.

This project models the core of the engine:

- `validate` (config.go), the fail-fast check of a decoded policy;
- the engine object `Rbac` with its three fixed-size arrays: `roleIdxMap`
  (20 role names), `resourceIdxMap` (64 resource names) and `accessMap`
  (100 words of type `resourceSet`, one per role and action, one bit per
  resource);
- `buildFromConfig`, which assigns the indices and fills the access map;
- `Check`, which looks up a role, a resource and an action and tests one bit;
- the action table `getHTTPActionOffset` and the constants of constants.go.

The files are:

| file | module | models |
|---|---|---|
| constants.dfy | `Constants` | constants.go: sizes, `unknownAction`, `*`, the cell of a (role, action) pair |
| resource_set.dfy | `ResourceSets` | `resourceSet`: a 64-bit word kept bit by bit, with its unsigned value |
| actions.dfy | `Actions` | `getHTTPActionOffset` (utils.go) |
| names.dfy | `Names` | the ascending order of the index maps, and first-match lookup (`slices.Index`) |
| policy.dfy | `Policy` | the policy types and `validate` (config.go) |
| access.dfy | `Access` | what `buildFromConfig` computes, stated on values, and what it means for the policy |
| rbac.dfy | `Engine` | the `Rbac` class: the build, the fill loops and `Check`, on arrays |
| scenario.dfy | `Scenario` | the policy and cases of the engine's own tests |
| findings.dfy | `Findings` | two places where the code as written departs from what its tests expect |

The key results are these:

- `Policy.ValidateAcceptsIff` shows that `validate` accepts exactly the
  well-formed policies.
- `Engine.Rbac.Check` is proved to answer exactly what the policy permits.
  It reports an unknown role or an unknown resource as an error naming it,
  and denies an unrecognised action without an error.
- `Access.SameDeclarationsSameAccessMap` shows that the access map depends
  only on what the policy declares. It does not depend on the order of roles,
  grants or actions.
- The scenario proves the access map that the engine's test expects: Admin
  gets all-ones words, then `3, 0, 0, 0, 0` and five `4`s.

Where the code and its tests disagree, the model follows the tests. There
are four such places. In the two bugs listed under "## Findings", the code as
written is modelled beside the corrected behaviour the rest of the model uses.
In the two places below, only the tests' behaviour is modelled.

- `Check` at tinyrbac.go:102 returns only a `bool`. The test of `Check`
  (tinyrbac_test.go:253-292) expects a second, error result: "unknown role:
  Operator" and "unknown resource: orders". `Engine.Rbac.Check` returns
  `(allowed, err)`, and the error names the unknown role or resource.
- `buildFromConfig` and `readFromJson` never call `validate`. The tests,
  however, expect a rejected policy to fail the build with
  "validate config: …" (tinyrbac_test.go:129, 198, 211). So
  `Engine.BuildFromConfig` validates first and wraps the cause.

The role and resource index maps are filled by `buildRoleAndResourceNames`
(tinyrbac.go:79), whose body is not part of this model. Its effect is taken
from the expected index maps in tinyrbac_test.go:102-103:

- role names in ascending order, with repeats kept, because `validate`
  does not reject duplicate role names;
- the distinct non-empty resource names in ascending order;
- every other slot holds `""`.

## Model

| member | source | states |
|---|---|---|
| Constants.Slot | tinyrbac.go:82 | the cell `roleIdx * maxActions + offset` of a role and an action lies inside the 100-word access map, and division by maxActions recovers both the role and the action |
| Constants.SlotInjective | tinyrbac.go:26-42 | two different (role, action) pairs never share a word of the access map |
| ResourceSets.BitValue | tinyrbac.go:91 | `1 << j` has value 2^j, which is below 2^64 for every index under maxResources, so the shift never overflows the uint64 |
| ResourceSets.ValueBound | tinyrbac.go:44 | a 64-bit word spells a number below 2^64, so it fits a uint64 |
| ResourceSets.AllResourceAccessIsMaxUint64 | constants.go:16 | allResourceAccess has every resource bit set and the value math.MaxUint64; the zero word has value 0 |
| ResourceSets.Bit | tinyrbac.go:91 | `1 << j` is the number 2^j: bit j set and every other bit clear |
| ResourceSets.Or | tinyrbac.go:91 | each bit of the bitwise OR of a and b is set exactly when it is set in a or in b, and as numbers the OR plus the AND of a and b equals a + b |
| ResourceSets.OrAndSum | tinyrbac.go:91 | for words of any common width, OR plus AND equals the sum of the two numbers |
| ResourceSets.OrBitValue | tinyrbac.go:91 | OR-ing `1 << j` into w adds 2^j to the number exactly when bit j was clear, and leaves it unchanged otherwise |
| ResourceSets.Has | tinyrbac.go:125 | the test `w & (1 << j) != 0` holds exactly when bit j of w is set |
| ResourceSets.AndBit | tinyrbac.go:125 | the word `w & (1 << j)` is non-zero exactly when bit j of w is set |
| ResourceSets.HasOr | tinyrbac.go:91 | after OR-ing `1 << k` into w, bit k is set and every other bit is what it was |
| ResourceSets.OrAbsorbs | tinyrbac.go:84-92 | OR-ing into allResourceAccess leaves it all-ones, so a later named grant cannot undo a `*` grant |
| ResourceSets.ValueOfLowBits | tinyrbac.go:44 | clear high bits add nothing to the value of a word |
| ResourceSets.ValueOfBit | tinyrbac.go:91 | a word with only bit j set has value 2^j |
| ResourceSets.ValueOfOnes | constants.go:16 | n set bits spell 2^n - 1 |
| Actions.ActionOffset | utils.go:5-20 | every string gets unknownAction or an offset in [0, maxActions); an offset o means the string is exactly the o-th method; unknownAction comes back exactly for strings that are not one of the five methods |
| Actions.OffsetOfMethod | utils.go:7-16 | each of GET, POST, PUT, PATCH, DELETE maps back to its own position 0..4 |
| Actions.OffsetInjective | utils.go:7-16 | two methods share an offset only if they are the same method |
| Actions.UnknownActionOutOfRange | constants.go:11 | unknownAction lies outside the valid offsets [0, maxActions) |
| Actions.UnrecognisedSpellings | utils.go:17-18 | the blank action, "get" and "Delete" are not recognised: the match is exact and case-sensitive |
| Names.LexLeTotal | tinyrbac_test.go:102-103 | any two names are ordered one way or the other |
| Names.LexLeAntisymmetric | tinyrbac_test.go:102-103 | two names ordered both ways are equal |
| Names.LexLeTransitive | tinyrbac_test.go:102-103 | the name order is transitive |
| Names.LexLeReflexive | tinyrbac_test.go:102-103 | every name is ordered before or equal to itself |
| Names.InsertSpec | tinyrbac_test.go:102 | inserting a name into an ascending list keeps it ascending and adds exactly that name |
| Names.InsertMembers | tinyrbac_test.go:102 | insertion adds exactly the inserted name to the members and the multiset |
| Names.SortNamesSpec | tinyrbac_test.go:102 | the role names are sorted into an ascending permutation of themselves |
| Names.SortedUnique | tinyrbac_test.go:102 | two ascending lists with the same multiset of names are equal, so the role map does not depend on the input order |
| Names.SortedHeads | tinyrbac_test.go:102 | two ascending lists with the same multiset of names start with the same name |
| Names.InsertNewSpec | tinyrbac_test.go:103 | inserting a name into a strictly ascending list keeps it strictly ascending and adds exactly that name |
| Names.SortDistinctSpec | tinyrbac_test.go:103 | the resource names are turned into a strictly ascending list of exactly the distinct names |
| Names.StrictlySortedUnique | tinyrbac_test.go:103 | two strictly ascending lists with the same members are equal |
| Names.StrictlySortedCard | tinyrbac_test.go:103 | a strictly ascending list has no repeats, and its length is its number of distinct names |
| Names.DistinctCard | config.go:97-105 | a list without repeats has as many elements as distinct names, the count `len(resources)` uses |
| Names.IndexOf | tinyrbac.go:104-109 | the first position holding the name, with no earlier occurrence; -1 exactly when the name is absent |
| Names.IndexOfAt | tinyrbac.go:104-109 | a position holding the name with no earlier occurrence is the one the scan returns |
| Names.IndexOfFirstThree | tinyrbac.go:104-109 | in a map that starts with three distinct names, the scan finds them at 0, 1 and 2 |
| Policy.FirstUndefined | config.go:126-130 | none exactly when every grant names "*" or a defined resource; otherwise the name of the first grant that does not |
| Policy.FirstRoleError | config.go:117-133 | none exactly when every role passes its checks; otherwise the error of the first failing role, all earlier roles passing |
| Policy.Validate | config.go:92-141 | the method returns the outcome of the checks in source order: no resources, too many distinct resources (reporting the raw length), no roles, then per role an empty name (with its index), no grants, or an undefined grant, and finally too many roles (reporting the role count) |
| Policy.CollectResources | config.go:97-103 | the map-building loop yields exactly the non-empty resource names |
| Policy.FindUndefined | config.go:126-130 | the grants loop yields the first grant that is neither "*" nor defined |
| Policy.RoleError | config.go:118-130 | a role passes its checks exactly when it has a name, has grants, and each grant is "*" or a defined resource; otherwise an empty name is reported with the role's index, no grants with the role's name, and an undefined grant with the role's name and the name of one of its grants that is neither "*" nor defined |
| Policy.ValidationResult | config.go:92-141 | every error points at a real culprit: the reported counts are the policy's own and exceed the maxima, an empty-name index holds an unnamed role, and a role-level error names a role of the policy (and, for an undefined grant, one of its grants on a name that is neither "*" nor defined) |
| Policy.ValidateAcceptsIff | config.go:92-141 | `validate` returns nil exactly for a well-formed policy: at least one resource entry, at most 64 distinct names, 1 to 20 roles, each named, with grants, all of them "*" or defined |
| Policy.ResourceChecksFirst | config.go:93-111 | ErrNoResources exactly when the list is empty (a list holding only "" passes); "resources exceeded" exactly when there are more than 64 distinct names; ErrNoRoles only after both |
| Policy.FirstFailingRoleDecides | config.go:117-133 | the first role that fails decides the error, whatever later roles contain and however many roles there are |
| Policy.TooManyRolesLast | config.go:135-137 | "roles exceeded" comes exactly when more than 20 roles all pass their own checks, and it reports their number |
| Access.Pad | tinyrbac.go:47-49 | the unused slots of an index map keep Go's zero string "" |
| Access.NonEmpty | config.go:99-101 | blank resource names are dropped and every other name is kept |
| Access.ResourceNamesSpec | tinyrbac_test.go:103 | the resource names are strictly ascending, are exactly the defined resources, and number as many |
| Access.RoleTableSpec | tinyrbac_test.go:102 | roleIdxMap holds the role names in ascending order as a permutation of the roles' names, followed by "" |
| Access.ResourceTableSpec | tinyrbac_test.go:103 | resourceIdxMap holds exactly the defined resources, strictly ascending, followed by "" |
| Access.RoleTable | tinyrbac.go:48 | roleIdxMap has 20 slots, and those past the number of roles hold ""; its contents are stated by Access.RoleTableSpec |
| Access.ResourceTable | tinyrbac.go:49 | resourceIdxMap has 64 slots, and those past the number of defined resources hold ""; its contents are stated by Access.ResourceTableSpec |
| Access.TableMembers | tinyrbac.go:104-119 | a non-blank name is in roleIdxMap exactly when it names a role, and in resourceIdxMap exactly when it is a defined resource |
| Access.Stamp | tinyrbac.go:84-92 | one write sets exactly the bits its target covers in the action's word, touches no other role's row, and changes nothing for an unrecognised action |
| Access.TargetOf | tinyrbac.go:84-89 | a `*` grant targets every resource; a named grant targets the index of that name in resourceIdxMap |
| Access.StampRolesStep | tinyrbac.go:81 | the fill over one more role is the fill over the previous roles followed by that role's writes |
| Access.StampActions | tinyrbac.go:85-92 | a grant's writes keep the 100 words, only add bits, and change no word outside the role's row |
| Access.StampGrants | tinyrbac.go:83-94 | a role's writes keep the 100 words, only add bits, and change no word outside the role's row |
| Access.StampRoles | tinyrbac.go:81-95 | the fill keeps the 100 words and only adds bits; which bits it adds is stated by Access.StampRolesBits |
| Access.AccessWords | tinyrbac.go:77-98 | the access map of a well-formed policy has 100 words; what each bit means is stated by Access.AccessMatchesPolicy |
| Access.StampActionsBits | tinyrbac.go:85-92 | after a grant's writes, a bit is set exactly when it was set before or one of the grant's actions reaches it |
| Access.StampGrantsBits | tinyrbac.go:83-94 | after a role's writes, a bit is set exactly when it was set before or an action of one of its grants reaches it |
| Access.StampRolesBits | tinyrbac.go:81-95 | after all writes, a bit is set exactly when it was set before or an action of a grant of some role reaches it |
| Access.TablesIndex | tinyrbac.go:82-89 | in a well-formed policy every role has a row and every grant is "*" or a name found in resourceIdxMap |
| Access.IndicesFound | tinyrbac.go:104-119 | a role of the policy has a row and a defined resource has a bit |
| Access.CoverIsGrant | tinyrbac.go:124-125 | a grant that reaches the bit a query reads belongs to that role and action, on that resource or on "*" |
| Access.AccessMatchesPolicy | tinyrbac.go:77-98 | for a role, a defined resource and a method, the bit read is set exactly when a grant of that role lists the action on that resource or on "*" |
| Access.LookupAnswers | tinyrbac.go:102-125 | the three lookups of a query agree with the policy in both directions |
| Access.WildcardWord | tinyrbac.go:84-87 | a `*` grant makes the word of each listed method allResourceAccess, whatever other grants say and in whatever order they come |
| Access.OtherRowBit | tinyrbac.go:82 | a bit in a row that belongs to no role stays clear |
| Access.OtherRowsUntouched | tinyrbac.go:82 | a word outside every role's row stays zero |
| Access.PaddingBitClear | tinyrbac.go:88-92 | bits past the named resources are set only by `*` grants |
| Access.PaddingNotCovered | tinyrbac.go:88-92 | an action of a named grant does not reach a padding bit |
| Access.NamedRowValue | tinyrbac.go:88-92 | in a row without a `*` grant, a word's value is spelled by its bits for the named resources alone |
| Access.SameBits | tinyrbac.go:81-95 | with equal tables, a policy that declares at least the triples of another sets at least its bits |
| Access.CoverCarried | tinyrbac.go:84-92 | a declared triple reaches the same bit in any policy with the same tables that also declares it |
| Access.SameDeclarationsSameAccessMap | tinyrbac.go:77-98 | equal role-name multisets, defined resources and declared (role, resource, method) triples give equal tables and an equal access map |
| Access.RoleNamesPermutation | tinyrbac.go:81 | reordering the roles reorders their names |
| Access.RolesInAnyOrder | tinyrbac.go:81 | the order in which roles are listed changes neither validity, nor the role map, nor the access map |
| Access.RegroupedSymmetric | tinyrbac.go:83 | reordering grants within each role is a symmetric relation |
| Access.RegroupedDeclares | tinyrbac.go:83 | reordering grants within each role keeps every declared triple |
| Access.RegroupedWellFormed | config.go:117-133 | reordering grants within each role keeps the policy valid |
| Access.GrantsInAnyOrder | tinyrbac.go:83 | the order of grants within each role does not change the access map |
| Engine.Find | tinyrbac.go:104-119 | the linear scan returns the first index holding the name, or -1 |
| Engine.Rbac.constructor | tinyrbac.go:78 | `&Rbac{}`: fresh arrays, every word zero and every name "" |
| Engine.Rbac.BuildRoleAndResourceNames | tinyrbac.go:79 | roleIdxMap and resourceIdxMap end up holding the two index tables |
| Engine.Rbac.FillAllResources | tinyrbac.go:84-87 | the access map becomes the old one with allResourceAccess in the word of each recognised action |
| Engine.Rbac.FillResource | tinyrbac.go:88-92 | the access map becomes the old one with the resource's bit OR-ed into the word of each recognised action |
| Engine.Rbac.FillGrant | tinyrbac.go:84-93 | the access map becomes the old one with one grant's writes |
| Engine.Rbac.FillRole | tinyrbac.go:82-94 | the access map becomes the old one with one role's grants written in its row |
| Engine.Rbac.FillAccessMap | tinyrbac.go:81-95 | starting from zeros, the access map becomes exactly the policy's access words |
| Engine.Rbac.Check | tinyrbac.go:100-126 | the error is UnknownRole(role) exactly when the role is not one of the policy's roles, UnknownResource(resource) exactly when the role is known and the resource is not defined, and none otherwise; with an error the answer is false; without one, allowed exactly when the action is a method and the policy permits it (an unrecognised action is denied without an error); blank names are never found |
| Engine.BuildFromConfig | tinyrbac.go:77-98 | fails exactly when `validate` does, with the wrapped cause; otherwise returns a fresh engine with three fresh arrays, shared with no one as Go's by-value arrays are, holding the tables and the access map of the policy |
| Scenario.TestPolicyDefined | tinyrbac_test.go:12-51 | the test policy defines applications, audit-logs and instances, and is well formed |
| Scenario.TestPolicyValid | tinyrbac_test.go:12-51 | `validate` accepts the test policy |
| Scenario.TestRoleTable | tinyrbac_test.go:102 | roleIdxMap is Admin, Auditor, Instance Manager, then blanks |
| Scenario.TestResourceTable | tinyrbac_test.go:103 | resourceIdxMap is applications, audit-logs, instances, then blanks |
| Scenario.TestRoleIndices | tinyrbac_test.go:102 | Admin, Auditor and Instance Manager get rows 0, 1 and 2 |
| Scenario.TestResourceIndices | tinyrbac_test.go:103 | applications, audit-logs and instances get bits 0, 1 and 2 |
| Scenario.TestGrant | tinyrbac_test.go:14-49 | each role of the test policy has exactly its listed grants |
| Scenario.AuditorGrants | tinyrbac_test.go:37-48 | Auditor may GET applications and audit-logs, do nothing else on them, and do nothing on instances |
| Scenario.InstanceManagerGrants | tinyrbac_test.go:24-35 | Instance Manager may do every method on instances and nothing elsewhere; its blank action grants nothing |
| Scenario.TestBit | tinyrbac_test.go:104-109 | each bit of the test's used words answers the policy for its role, resource and method |
| Scenario.AdminRow | tinyrbac_test.go:105-107 | Admin's five words are allResourceAccess |
| Scenario.AuditorRow | tinyrbac_test.go:108 | Auditor's words are 3, 0, 0, 0, 0 |
| Scenario.InstanceManagerRow | tinyrbac_test.go:108 | Instance Manager's words are all 4 |
| Scenario.UnusedRows | tinyrbac_test.go:104-109 | the rows of no role stay zero |
| Scenario.TestAdminWords | tinyrbac_test.go:105-107 | words 0-4 are allResourceAccess |
| Scenario.TestAuditorWords | tinyrbac_test.go:108 | words 5-9 have values 3, 0, 0, 0, 0 |
| Scenario.TestInstanceManagerWords | tinyrbac_test.go:108 | words 10-14 have value 4 |
| Scenario.TestUnusedWords | tinyrbac_test.go:104-109 | words 15-99 are zero |
| Scenario.TestRoles | tinyrbac_test.go:268-273 | Admin, Instance Manager and Auditor are roles; Operator is not |
| Scenario.BuildTestEngine | tinyrbac_test.go:285-288 | the test engine builds without error, holding the test policy |
| Scenario.CheckGranted | tinyrbac_test.go:253-259 | Instance Manager may POST instances, with no error |
| Scenario.CheckDenied | tinyrbac_test.go:260-266 | Auditor may not POST instances, with no error |
| Scenario.CheckUnknownRole | tinyrbac_test.go:267-274 | Operator is denied with the error "unknown role: Operator" |
| Scenario.OrdersUndefined | tinyrbac_test.go:275-282 | orders is not a resource of the test policy |
| Scenario.CheckUnknownResource | tinyrbac_test.go:275-282 | orders is denied with the error "unknown resource: orders" |
| Scenario.ValidationAccepts | config_test.go:302-326 | the valid test configuration, which has a blank resource entry, is accepted |
| Scenario.RejectsNoResources | config_test.go:328-335 | an empty resource list gives ErrNoResources |
| Scenario.RejectsNoRoles | config_test.go:344-352 | an empty role list gives ErrNoRoles |
| Scenario.RejectsEmptyRoleName | config_test.go:353-365 | an unnamed role is reported with its index 0 |
| Scenario.RejectsEmptyRoleResources | config_test.go:366-378 | a role without grants is reported by name |
| Scenario.RejectsUndefinedResource | config_test.go:379-397 | a grant on "storage" is reported with the resource and the role |
| Scenario.ValidationRejectsTooManyRoles | config_test.go:280-294 | 21 valid roles give "roles exceeded: maximum 20 but config has 21" |
| Findings.RawSlot | tinyrbac.go:82-91 | the index as written: the method's cell for a method, and for any other action the cell just before the role's row |
| Findings.StampAsWritten | tinyrbac.go:84-92 | the write as written panics exactly when that index is negative, and agrees with the corrected write for every method |
| Findings.UnknownActionWritesPreviousRow | tinyrbac.go:84-92 | as written, an unrecognised action panics in row 0 and sets the bit in the DELETE word of the row before; the corrected write changes nothing |
| Findings.BlankActionOfTestPolicy | tinyrbac_test.go:31-34 | as written, Instance Manager's blank action sets bit 1 of word 9, Auditor's DELETE word, which the test expects to be 0 |
| Findings.CheckAsWritten | tinyrbac.go:102-126 | Check as written: an unknown role or resource gives false, and it panics exactly for a row-0 role with a found resource and an unrecognised action |
| Findings.CheckAsWrittenReadsSlot | tinyrbac.go:102-125 | as written, for a found role, a found resource and a method, Check reads the method's word of the role's row at the resource's bit |
| Findings.CheckAsWrittenReadsPrevious | tinyrbac.go:102-125 | as written, for a found role and resource and an unrecognised action, Check panics in row 0 and otherwise reads the DELETE word of the row before |
| Findings.BlankMatchesPadding | tinyrbac.go:114-119 | the blank resource name is found at the first padding slot of resourceIdxMap, although it is not a resource |
| Findings.BlankResourceAllowed | tinyrbac.go:114-125 | as written, a role with a `*` grant is allowed its methods on the blank resource "" |
| Findings.UnknownActionReadsPreviousRow | tinyrbac.go:124-125 | as written, an unrecognised action reads the DELETE word of the row before, or panics in row 0 |
| Findings.AuditorLowerCaseGet | tinyrbac.go:124-125 | in the test policy, Auditor asking to "get" instances is allowed as written, although Auditor has no grant on instances |

## Left out

- Reading the policy from JSON or YAML, file I/O and the wrapped read errors
  (config_json.go, config_yaml.go, yaml.go, errors.go) are left out. The model
  starts from the decoded `config` value.
- Error messages are not formatted. Each `validate` error is a constructor
  carrying the values its message reports.
- Concurrent use of an engine is left out. Check only reads; the build is
  single-threaded.
- `buildRoleAndResourceNames` is not part of this model. Its result is taken
  from the expected index maps of tinyrbac_test.go:102-103.
- Role descriptions and the policy description are carried but never read.
- The "resources exceed maximum" case of config_test.go:336-343 is not worked
  through. Its input is the hand-written list of 66 names "aa" to "cn"
  (config_test.go:13-21). The rule
  itself is covered by Policy.ResourceChecksFirst.
- The JSON and YAML test cases are not worked through: config_json_test.go,
  yaml_test.go, and the YAML and error cases of tinyrbac_test.go. They
  exercise decoding and file handling.
- Engine.Rbac.Check: returns the error result the tests expect, where the
  code returns only a `bool`. It also follows the corrected behaviour
  described under "## Findings": it does not panic and does not read the
  access map for an unrecognised action or a blank name.
  Findings.CheckAsWritten models the code as written.
- Engine.Rbac.FillAccessMap: skips unrecognised actions instead of writing at
  offset -1. Findings.StampAsWritten models the code as written.
- Engine.Rbac.BuildRoleAndResourceNames: copies precomputed tables into the
  arrays. Sorting is specified as a function, Access.RoleTable and
  Access.ResourceTable, not as an in-place algorithm.
- Engine.BuildFromConfig: the source builds without validating. The model
  validates first, because the tests expect that.
- Findings.StampAsWritten and Findings.CheckAsWritten: a Go index-out-of-range
  panic is a result value, `IndexPanic` or `None`, not a crash.

## Findings

| source | as written | input that shows it | evidently intended | confidence | as-written member | corrected member |
|---|---|---|---|---|---|---|
| tinyrbac.go:84-92 | the fill adds getHTTPActionOffset's -1 to the row start without checking it, so an unrecognised or blank action writes into the DELETE word of the previous role's row (and indexes -1 in row 0) | the engine's test policy: Instance Manager (row 2) lists the action "" on audit-logs, so bit 1 of word 9 (Auditor's DELETE) is set where tinyrbac_test.go:108 expects that word to be 0 | an unrecognised action grants nothing and writes nothing | not executed | Findings.StampAsWritten, Findings.UnknownActionWritesPreviousRow, Findings.BlankActionOfTestPolicy | Access.Stamp, Engine.Rbac.FillAccessMap, Scenario.TestAuditorWords |
| tinyrbac.go:104-125 | Check scans the whole index maps, so "" matches the first blank padding slot, and it adds the offset -1 of an unrecognised action unchecked | Check("Auditor", "instances", "get") on the test policy reads Admin's DELETE word (allResourceAccess) and allows; Check(r, "", m) allows when role r has a `*` grant listing the method m and fewer than 64 resources are defined | unknown or blank names and unrecognised actions are denied | not executed | Findings.CheckAsWritten, Findings.AuditorLowerCaseGet, Findings.BlankResourceAllowed, Findings.UnknownActionReadsPreviousRow | Engine.Rbac.Check |
