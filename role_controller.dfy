/**
 * Role creation and update (server/controllers/role.controller.js). Unlike
 * permission creation, a batch of roles is all or nothing at the checks:
 * one blank name, one name already stored, or one unresolvable permission
 * list rejects the whole request before anything is written.
 */
module RoleController {
  import opened Common
  import opened Records

  /** One role of the request as sent. */
  datatype RoleInput = RoleInput(name: Option<string>, description: Option<string>, permissions: Option<seq<Id>>)

  /** The request body: a single object, or an array of roles. */
  datatype RoleBody = One(entry: RoleInput) | Many(entries: seq<RoleInput>)

  function Entries(body: RoleBody): seq<RoleInput> {
    match body
    case One(entry) => [entry]
    case Many(entries) => entries
  }

  /** `!r.name || r.name.trim() === ""` fails. */
  predicate Named(r: RoleInput) {
    r.name.Some? && !IsBlank(r.name.value)
  }

  predicate AllNamed(entries: seq<RoleInput>) {
    forall i :: 0 <= i < |entries| ==> Named(entries[i])
  }

  /** The role the handler builds: name trimmed, description trimmed or "", permissions or an empty list. */
  function Format(r: RoleInput): Role
    requires Named(r)
  {
    Role(Trim(r.name.value), if r.description.Some? then Trim(r.description.value) else "", r.permissions.GetOr([]))
  }

  /** The name the handler builds is non-empty and already trimmed. */
  lemma FormatTrimmed(r: RoleInput)
    requires Named(r)
    ensures Format(r).name != "" && Trim(Format(r).name) == Format(r).name
  {
    TrimIdempotent(r.name.value);
  }

  function FormatAll(entries: seq<RoleInput>): (r: seq<Role>)
    requires AllNamed(entries)
    ensures |r| == |entries| && forall i :: 0 <= i < |entries| ==> r[i] == Format(entries[i])
  {
    if entries == [] then [] else [Format(entries[0])] + FormatAll(entries[1..])
  }

  function Names(roles: seq<Role>): (r: seq<string>)
    ensures |r| == |roles| && forall i :: 0 <= i < |roles| ==> r[i] == roles[i].name
  {
    if roles == [] then [] else [roles[0].name] + Names(roles[1..])
  }

  /**
   * `Role.find({name: {$in: names}})` mapped to names: the stored roles
   * whose name is requested, in the order of the collection.
   */
  function ExistingNames(store: seq<Role>, names: seq<string>): (r: seq<string>)
    ensures r == [] <==> forall i :: 0 <= i < |store| ==> store[i].name !in names
    ensures forall n :: n in r ==> n in names && RoleExists(store, n)
  {
    if store == [] then []
    else
      var rest := ExistingNames(store[1..], names);
      assert forall i :: 1 <= i < |store| ==> store[i] == store[1..][i - 1];
      if store[0].name in names then [store[0].name] + rest else rest
  }

  /** `names.join(sep)`. */
  function Join(names: seq<string>, sep: string): string {
    if names == [] then ""
    else if |names| == 1 then names[0]
    else names[0] + sep + Join(names[1..], sep)
  }

  /**
   * The position of the first role whose non-empty permission list does
   * not pass the count check, if any.
   */
  function FirstInvalid(permissions: seq<Permission>, roles: seq<Role>): (r: Option<nat>)
    ensures r.Some? ==> r.value < |roles| && |roles[r.value].permissions| > 0
                        && !PermissionsResolve(permissions, roles[r.value].permissions)
    ensures r.Some? ==> forall k :: 0 <= k < r.value ==> PermissionsResolve(permissions, roles[k].permissions)
    ensures r.None? <==> forall k :: 0 <= k < |roles| ==> PermissionsResolve(permissions, roles[k].permissions)
  {
    if roles == [] then None
    else if |roles[0].permissions| > 0 && !PermissionsResolve(permissions, roles[0].permissions) then Some(0)
    else
      assert PermissionsResolve(permissions, roles[0].permissions) by {
        if roles[0].permissions == [] { assert Found([], |permissions|) == {}; }
      }
      assert forall k :: 1 <= k < |roles| ==> roles[k] == roles[1..][k - 1];
      match FirstInvalid(permissions, roles[1..])
      case None => None
      case Some(k) => Some(k + 1)
  }

  /** The `name` key of the role collection's unique index. */
  function RoleName(r: Role): string {
    r.name
  }

  /** The 201 body: the message, the number of roles created and the roles themselves. */
  datatype RolesCreated = RolesCreated(message: string, count: nat, data: seq<Role>)

  /** A handler's answer together with the role collection afterwards. */
  datatype Handled<T> = Handled(resp: Response<T>, store: seq<Role>)

  function CreatedMessage(many: bool): string {
    if many then "Roles created successfully" else "Role created successfully"
  }

  /**
   * `createRole` once every entry is named and formatted: 400 naming the
   * stored roles when any requested name exists, 400 for the first role
   * with an invalid permission list, then an ordered insert, where a name
   * repeated within the batch is a 500 after the roles before it.
   */
  function CreateFormatted(store: seq<Role>, permissions: seq<Permission>, formatted: seq<Role>, many: bool): (r: Handled<RolesCreated>)
    ensures store <= r.store && r.store <= store + formatted
    ensures ExistingNames(store, Names(formatted)) != [] ==>
              r == Handled(Fail(400, "These roles already exist: " + Join(ExistingNames(store, Names(formatted)), ", ")), store)
    ensures ExistingNames(store, Names(formatted)) == [] && FirstInvalid(permissions, formatted).Some? ==>
              r == Handled(Fail(400, "Invalid permissions for role \"" + formatted[FirstInvalid(permissions, formatted).value].name + "\""), store)
    ensures r.resp.Ok? ==> && r.resp == Ok(201, RolesCreated(CreatedMessage(many), |formatted|, formatted))
                           && r.store == store + formatted
  {
    var existing := ExistingNames(store, Names(formatted));
    if existing != [] then Handled(Fail(400, "These roles already exist: " + Join(existing, ", ")), store)
    else match FirstInvalid(permissions, formatted)
      case Some(k) => Handled(Fail(400, "Invalid permissions for role \"" + formatted[k].name + "\""), store)
      case None =>
        match InsertOrdered(store, formatted, RoleName)
        case DuplicateKey(partial) => Handled(Fail(500, "Server error"), partial)
        case AllInserted(grown) => Handled(Ok(201, RolesCreated(CreatedMessage(many), |formatted|, formatted)), grown)
  }

  /** `createRole`: 400 for any blank name before anything else, otherwise as above. */
  function CreateRole(store: seq<Role>, permissions: seq<Permission>, body: RoleBody): (r: Handled<RolesCreated>)
    ensures !AllNamed(Entries(body)) ==> r == Handled(Fail(400, "Each role must have a name"), store)
    ensures store <= r.store
  {
    var entries := Entries(body);
    if !AllNamed(entries) then Handled(Fail(400, "Each role must have a name"), store)
    else CreateFormatted(store, permissions, FormatAll(entries), body.Many?)
  }

  /** A single stored name among the requested ones rejects the whole batch, and nothing is written. */
  lemma CreateRejectsWholeBatch(store: seq<Role>, permissions: seq<Permission>, formatted: seq<Role>, many: bool, k: nat)
    requires k < |formatted| && RoleExists(store, formatted[k].name)
    ensures CreateFormatted(store, permissions, formatted, many).resp.Fail?
    ensures CreateFormatted(store, permissions, formatted, many).resp.code == 400
    ensures CreateFormatted(store, permissions, formatted, many).store == store
  {
    var i :| 0 <= i < |store| && store[i].name == formatted[k].name;
    assert store[i].name in Names(formatted) by { assert Names(formatted)[k] == formatted[k].name; }
  }

  /**
   * A batch whose names are new and pairwise different, and whose
   * permission lists all resolve, is stored whole, in order.
   */
  lemma CreateStoresWholeBatch(store: seq<Role>, permissions: seq<Permission>, formatted: seq<Role>, many: bool)
    requires forall k :: 0 <= k < |formatted| ==> !RoleExists(store, formatted[k].name)
    requires DistinctKeys(formatted, RoleName)
    requires forall k :: 0 <= k < |formatted| ==> PermissionsResolve(permissions, formatted[k].permissions)
    ensures CreateFormatted(store, permissions, formatted, many) ==
              Handled(Ok(201, RolesCreated(CreatedMessage(many), |formatted|, formatted)), store + formatted)
  {
    InsertOrderedIff(store, formatted, RoleName);
  }

  /**
   * Whatever the outcome, every role the call stored lists only stored
   * permissions, each once.
   */
  lemma CreateStoresResolvedPermissions(store: seq<Role>, permissions: seq<Permission>, formatted: seq<Role>, many: bool)
    ensures forall k :: |store| <= k < |CreateFormatted(store, permissions, formatted, many).store| ==>
              var ids := CreateFormatted(store, permissions, formatted, many).store[k].permissions;
              (forall x :: x in ids ==> x < |permissions|) && Distinct(ids)
  {
    var r := CreateFormatted(store, permissions, formatted, many);
    if |r.store| > |store| {
      assert FirstInvalid(permissions, formatted).None?;
      forall k | |store| <= k < |r.store|
        ensures (forall x :: x in r.store[k].permissions ==> x < |permissions|) && Distinct(r.store[k].permissions)
      {
        assert r.store[k] == formatted[k - |store|];
        PermissionsResolveIff(permissions, formatted[k - |store|].permissions);
      }
    }
  }

  // ------------------------------------------------------------ update

  /** The fields of an update request; an absent field is left out of the update. */
  datatype RoleUpdate = RoleUpdate(name: Option<string>, description: Option<string>, permissions: Option<seq<Id>>)

  datatype RoleUpdated = RoleUpdated(message: string, role: Role)

  /** The stored role after `$set` of the present fields; the name goes through its `trim` setter. */
  function Apply(r: Role, u: RoleUpdate): Role {
    Role(if u.name.Some? then Trim(u.name.value) else r.name,
         u.description.GetOr(r.description),
         u.permissions.GetOr(r.permissions))
  }

  /**
   * `updateRole`: 400 when a non-empty permission list does not resolve; a
   * name that trims to nothing fails the `required` validator (500) before
   * the lookup; 404 for an unknown id; a name taken by another role breaks
   * the unique index (500); otherwise the role gets the present fields.
   */
  function UpdateRole(store: seq<Role>, permissions: seq<Permission>, id: Id, u: RoleUpdate): (r: Handled<RoleUpdated>)
    ensures u.permissions.Some? && |u.permissions.value| > 0 && !PermissionsResolve(permissions, u.permissions.value) ==>
              r == Handled(Fail(400, "Some permissions are invalid"), store)
    ensures r.resp.Fail? ==> r.store == store
    ensures r.resp.Ok? ==> && id < |store|
                           && r.store == store[id := Apply(store[id], u)]
                           && r.resp == Ok(200, RoleUpdated("Role updated successfully", Apply(store[id], u)))
    ensures && (u.permissions.Some? && |u.permissions.value| > 0 ==> PermissionsResolve(permissions, u.permissions.value))
            && u.name.Some? && IsBlank(u.name.value) ==>
              r == Handled(Fail(500, "Server error"), store)
    ensures && id >= |store|
            && (u.permissions.Some? && |u.permissions.value| > 0 ==> PermissionsResolve(permissions, u.permissions.value))
            && (u.name.Some? ==> !IsBlank(u.name.value)) ==>
              r == Handled(Fail(404, "Role not found"), store)
    ensures && id < |store|
            && (u.permissions.Some? && |u.permissions.value| > 0 ==> PermissionsResolve(permissions, u.permissions.value))
            && u.name.Some? && !IsBlank(u.name.value)
            && (exists j :: 0 <= j < |store| && j != id && store[j].name == Trim(u.name.value)) ==>
              r == Handled(Fail(500, "Server error"), store)
  {
    if u.permissions.Some? && |u.permissions.value| > 0 && !PermissionsResolve(permissions, u.permissions.value) then
      Handled(Fail(400, "Some permissions are invalid"), store)
    else if u.name.Some? && IsBlank(u.name.value) then
      Handled(Fail(500, "Server error"), store)
    else if id >= |store| then
      Handled(Fail(404, "Role not found"), store)
    else if u.name.Some? && exists j :: 0 <= j < |store| && j != id && store[j].name == Trim(u.name.value) then
      Handled(Fail(500, "Server error"), store)
    else
      Handled(Ok(200, RoleUpdated("Role updated successfully", Apply(store[id], u))), store[id := Apply(store[id], u)])
  }

  /** An update of a known role with valid fields changes that role only, and only in the fields sent. */
  lemma UpdateRoleChangesOnlyThatRole(store: seq<Role>, permissions: seq<Permission>, id: Id, u: RoleUpdate)
    requires id < |store|
    requires u.permissions.Some? ==> PermissionsResolve(permissions, u.permissions.value)
    requires u.name.Some? ==> !IsBlank(u.name.value) && forall j :: 0 <= j < |store| && j != id ==> store[j].name != Trim(u.name.value)
    ensures UpdateRole(store, permissions, id, u).resp.Ok?
    ensures forall j :: 0 <= j < |store| && j != id ==> UpdateRole(store, permissions, id, u).store[j] == store[j]
    ensures u.name.None? ==> UpdateRole(store, permissions, id, u).store[id].name == store[id].name
    ensures u.description.None? ==> UpdateRole(store, permissions, id, u).store[id].description == store[id].description
    ensures u.permissions.None? ==> UpdateRole(store, permissions, id, u).store[id].permissions == store[id].permissions
  {
  }

  /** An unknown id with valid fields is a 404. */
  lemma UpdateUnknownRole(store: seq<Role>, permissions: seq<Permission>, id: Id, u: RoleUpdate)
    requires id >= |store|
    requires u.permissions.Some? ==> PermissionsResolve(permissions, u.permissions.value)
    requires u.name.Some? ==> !IsBlank(u.name.value)
    ensures UpdateRole(store, permissions, id, u) == Handled(Fail(404, "Role not found"), store)
  {
  }
}
