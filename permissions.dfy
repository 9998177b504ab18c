/** internals/models/permissions.go: the permission codes a user holds. */
module Permissions {

  /** Permissions.Include: a search from the front that stops at the first
      code equal to the one asked for. */
  function Include(permissions: seq<string>, code: string): (r: bool)
    ensures r <==> code in permissions
    ensures permissions == [] ==> !r
    decreases |permissions|
  {
    if permissions == [] then false
    else if code == permissions[0] then true
    else Include(permissions[1..], code)
  }

  /** A code added to a list is included, whatever the list held before. */
  lemma IncludeAdded(permissions: seq<string>, code: string)
    ensures Include(permissions + [code], code)
  {
    assert (permissions + [code])[|permissions|] == code;
  }

  /** A code different from every element is not included. */
  lemma IncludeOther(permissions: seq<string>, code: string)
    requires forall i :: 0 <= i < |permissions| ==> permissions[i] != code
    ensures !Include(permissions, code)
  {
  }
}
