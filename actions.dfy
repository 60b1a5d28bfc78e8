/**
 * The closed table from HTTP method names to action offsets
 * (getHTTPActionOffset, utils.go:5-20). The offset selects one of the
 * maxActions words of a role's row in the access map.
 */
module Actions {
  import opened Constants

  /** The recognised actions, in offset order: Methods[o] is the action with offset o. */
  const Methods: seq<string> := ["GET", "POST", "PUT", "PATCH", "DELETE"]

  /** An action is recognised when it is spelled exactly as one of the five methods. */
  predicate IsMethod(action: string) {
    action in Methods
  }

  /**
   * getHTTPActionOffset: the offset of a recognised method, unknownAction for
   * every other string (the empty string and other spellings included).
   */
  function ActionOffset(action: string): (o: int)
    ensures o == UnknownAction || 0 <= o < MaxActions
    ensures 0 <= o ==> o < |Methods| && Methods[o] == action
    ensures o == UnknownAction <==> !IsMethod(action)
  {
    match action
    case "GET" => 0
    case "POST" => 1
    case "PUT" => 2
    case "PATCH" => 3
    case "DELETE" => 4
    case _ => UnknownAction
  }

  /** Every method is mapped back to its own position in the table. */
  lemma {:induction false} OffsetOfMethod(o: nat)
    requires o < MaxActions
    ensures |Methods| == MaxActions
    ensures ActionOffset(Methods[o]) == o
  {
    var m := Methods[o];
    assert IsMethod(m);
    assert Methods[ActionOffset(m)] == m;
    // The five names are pairwise distinct, so the position of m is o.
    assert forall p, q | 0 <= p < q < |Methods| :: Methods[p] != Methods[q];
  }

  /** Distinct methods get distinct offsets. */
  lemma OffsetInjective(a: string, b: string)
    requires IsMethod(a) && IsMethod(b)
    ensures ActionOffset(a) == ActionOffset(b) <==> a == b
  {
  }

  /** unknownAction lies outside the valid offset range [0, maxActions). */
  lemma UnknownActionOutOfRange()
    ensures !(0 <= UnknownAction < MaxActions)
  {
  }

  /** The blank action and a lower-case spelling are not recognised. */
  lemma UnrecognisedSpellings()
    ensures ActionOffset("") == UnknownAction
    ensures ActionOffset("get") == UnknownAction
    ensures ActionOffset("Delete") == UnknownAction
  {
  }
}
