/**
 * The compile-time sizes of the engine (constants.go). The access map is a
 * row-major table: one row of MaxActions cells per role, one cell per action.
 */
module Constants {

  const MaxRoles: nat := 20
  const MaxActions: nat := 5
  const MaxResources: nat := 64
  const UnknownAction: int := -1

  /** The resource name that grants an action on every resource. */
  const AllResources: string := "*"

  /** Length of the access map: one cell per (role, action) pair. */
  const AccessMapLen: nat := MaxActions * MaxRoles

  /**
   * The cell of role `roleIdx` and action `offset`. It lies inside the
   * access map, and division by MaxActions recovers both coordinates, so
   * every (role, action) pair owns exactly one cell and a role's cells form
   * the row [roleIdx * MaxActions, roleIdx * MaxActions + MaxActions).
   */
  function Slot(roleIdx: nat, offset: nat): (k: nat)
    requires roleIdx < MaxRoles && offset < MaxActions
    ensures k < AccessMapLen
    ensures k / MaxActions == roleIdx && k % MaxActions == offset
    ensures roleIdx * MaxActions <= k < roleIdx * MaxActions + MaxActions
  {
    roleIdx * MaxActions + offset
  }

  /** Distinct (role, action) pairs never share a cell. */
  lemma SlotInjective(i: nat, o: nat, i': nat, o': nat)
    requires i < MaxRoles && o < MaxActions && i' < MaxRoles && o' < MaxActions
    ensures Slot(i, o) == Slot(i', o') <==> i == i' && o == o'
  {
    if Slot(i, o) == Slot(i', o') {
      assert i == Slot(i, o) / MaxActions == i';
    }
  }
}
