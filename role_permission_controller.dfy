/**
 * Assigning permissions to a role
 * (server/controllers/role.permission.controller.js). The handler loads
 * the role document, overwrites its permission list with the one sent and
 * saves it; the document is the `found` parameter (null for an unknown id).
 */
module RolePermissionController {
  import opened Common
  import opened Records

  /** A loaded role document, changed in place and saved. */
  class RoleDocument {
    var name: string
    var description: string
    var permissions: seq<Id>

    /** The stored role this document holds. */
    function Value(): Role
      reads this
    {
      Role(name, description, permissions)
    }
  }

  datatype Assigned = Assigned(message: string, role: RoleDocument)

  /**
   * `assignPermissionsToRole`: 404 for an unknown role; a missing list
   * makes the handler throw (500); 400 when the count check fails; otherwise
   * the role's list becomes exactly the list sent, whatever it held before,
   * and its other fields stay.
   */
  method AssignPermissionsToRole(found: RoleDocument?, stored: seq<Permission>, permissions: Option<seq<Id>>)
    returns (resp: Response<Assigned>)
    modifies found
    ensures found == null ==> resp == Fail(404, "Role not found")
    ensures found != null && permissions.None? ==> resp == Fail(500, "Server error") && unchanged(found)
    ensures found != null && permissions.Some? && !PermissionsResolve(stored, permissions.value) ==>
              resp == Fail(400, "Some permissions are invalid") && unchanged(found)
    ensures found != null && permissions.Some? && PermissionsResolve(stored, permissions.value) ==>
              && resp == Ok(200, Assigned("Permissions assigned", found))
              && found.Value() == old(found.Value()).(permissions := permissions.value)
  {
    if found == null {
      return Fail(404, "Role not found");
    }
    if permissions.None? {
      return Fail(500, "Server error");
    }
    var ids := permissions.value;
    if |Found(ids, |stored|)| != |ids| {
      return Fail(400, "Some permissions are invalid");
    }
    found.permissions := ids;
    resp := Ok(200, Assigned("Permissions assigned", found));
  }
}
