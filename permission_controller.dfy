/**
 * Permission creation (server/controllers/permission.controller.js,
 * `createPermission`). The body is one permission or a list of them; every
 * entry must carry a non-blank name; names are trimmed and lower-cased;
 * entries whose name is already stored are dropped; the rest go to an
 * ordered `insertMany` on the unique name.
 */
module PermissionController {
  import opened Common
  import opened Records

  /** One entry of the request as sent. */
  datatype PermissionInput = PermissionInput(name: Option<string>, description: Option<string>)

  /** The request body: a single object, or an array of entries. */
  datatype PermissionBody = One(entry: PermissionInput) | Many(entries: seq<PermissionInput>)

  /** The entries to handle: a single object becomes a one-element list, an array is used as it is. */
  function Entries(body: PermissionBody): seq<PermissionInput> {
    match body
    case One(entry) => [entry]
    case Many(entries) => entries
  }

  /** `!p.name || p.name.trim() === ""` fails. */
  predicate Named(p: PermissionInput) {
    p.name.Some? && !IsBlank(p.name.value)
  }

  predicate AllNamed(entries: seq<PermissionInput>) {
    forall i :: 0 <= i < |entries| ==> Named(entries[i])
  }

  /** A name as the handler stores it: no surrounding whitespace, no upper-case ASCII letter, not empty. */
  predicate NormalName(n: string) {
    n != "" && Trim(n) == n && ToLower(n) == n
  }

  /** The entry the handler builds: name trimmed then lower-cased, description trimmed or "". */
  function Format(p: PermissionInput): Permission
    requires Named(p)
  {
    Permission(ToLower(Trim(p.name.value)), if Truthy(p.description) then Trim(p.description.value) else "")
  }

  /** Every name the handler builds is normal. */
  lemma FormatNormal(p: PermissionInput)
    requires Named(p)
    ensures NormalName(Format(p).name)
  {
    LowerTrimmedIsNormal(p.name.value);
  }

  function FormatAll(entries: seq<PermissionInput>): (r: seq<Permission>)
    requires AllNamed(entries)
    ensures |r| == |entries| && forall i :: 0 <= i < |entries| ==> r[i] == Format(entries[i])
  {
    seq(|entries|, i requires 0 <= i < |entries| && AllNamed(entries) => Format(entries[i]))
  }

  lemma LowerCharIdempotent(c: char)
    ensures LowerChar(LowerChar(c)) == LowerChar(c)
    ensures IsSpace(LowerChar(c)) <==> IsSpace(c)
  {
  }

  /** Lower-casing a trimmed, non-blank name gives a normal name. */
  lemma LowerTrimmedIsNormal(s: string)
    requires !IsBlank(s)
    ensures NormalName(ToLower(Trim(s)))
  {
    var t := Trim(s);
    var l := ToLower(t);
    assert l[0] == LowerChar(t[0]) && l[|l| - 1] == LowerChar(t[|t| - 1]);
    LowerCharIdempotent(t[0]);
    LowerCharIdempotent(t[|t| - 1]);
    assert TrimStart(l) == l;
    assert TrimEnd(l) == l;
    forall i | 0 <= i < |l| ensures ToLower(l)[i] == l[i] {
      LowerCharIdempotent(t[i]);
    }
  }

  /** `formatted.filter(p => !existingNames.includes(p.name))`: the entries whose name is not stored yet. */
  function NotStored(formatted: seq<Permission>, store: seq<Permission>): (r: seq<Permission>)
    ensures |r| <= |formatted|
    ensures forall p :: p in r <==> p in formatted && !PermissionExists(store, p.name)
  {
    if formatted == [] then []
    else (if PermissionExists(store, formatted[0].name) then [] else [formatted[0]]) + NotStored(formatted[1..], store)
  }

  /** The filter keeps the surviving entries in their order: it distributes over concatenation. */
  lemma {:induction false} NotStoredAppend(a: seq<Permission>, b: seq<Permission>, store: seq<Permission>)
    ensures NotStored(a + b, store) == NotStored(a, store) + NotStored(b, store)
  {
    if a == [] {
      assert a + b == b;
    } else {
      assert (a + b)[0] == a[0] && (a + b)[1..] == a[1..] + b;
      NotStoredAppend(a[1..], b, store);
    }
  }

  /** When no name is stored yet, nothing is dropped. */
  lemma {:induction false} NotStoredAllNew(formatted: seq<Permission>, store: seq<Permission>)
    requires forall i :: 0 <= i < |formatted| ==> !PermissionExists(store, formatted[i].name)
    ensures NotStored(formatted, store) == formatted
  {
    if formatted != [] {
      NotStoredAllNew(formatted[1..], store);
      assert [formatted[0]] + formatted[1..] == formatted;
    }
  }

  /** The `name` key of the permission collection's unique index. */
  function PermissionName(p: Permission): string {
    p.name
  }

  /** The 201 body: the message, the number of permissions created and the permissions themselves. */
  datatype PermissionsCreated = PermissionsCreated(message: string, count: nat, data: seq<Permission>)

  /** A handler's answer together with the permission collection afterwards. */
  datatype Handled = Handled(resp: Response<PermissionsCreated>, store: seq<Permission>)

  /** The success message, which depends on whether an array was sent. */
  function CreatedMessage(many: bool): string {
    if many then "Permissions created successfully" else "Permission created successfully"
  }

  /**
   * The handler once every entry is named and formatted: the entries whose
   * name is already stored are dropped; nothing left is a 400; the rest go
   * to the ordered insert, where a repeated name is a 500 that keeps what
   * was inserted before it.
   */
  function CreateFormatted(store: seq<Permission>, formatted: seq<Permission>, many: bool): (r: Handled)
    ensures store <= r.store && r.store <= store + NotStored(formatted, store)
    ensures NotStored(formatted, store) == [] ==> r == Handled(Fail(400, "All permissions already exist"), store)
    ensures r.resp.Ok? ==> && r.resp.code == 201
                           && r.resp.body.data == NotStored(formatted, store) != []
                           && r.store == store + r.resp.body.data
                           && r.resp.body.count == |r.resp.body.data|
                           && r.resp.body.message == CreatedMessage(many)
    ensures r.resp.Fail? && r.resp.code != 400 ==> r.resp == Fail(500, "Server error")
  {
    var unseen := NotStored(formatted, store);
    if unseen == [] then Handled(Fail(400, "All permissions already exist"), store)
    else
      match InsertOrdered(store, unseen, PermissionName)
      case DuplicateKey(partial) => Handled(Fail(500, "Server error"), partial)
      case AllInserted(grown) => Handled(Ok(201, PermissionsCreated(CreatedMessage(many), |unseen|, unseen)), grown)
  }

  /**
   * `createPermission`: 400 when any entry lacks a name or has a blank one,
   * before anything is looked up; otherwise the formatted entries are
   * handled as above.
   */
  function CreatePermission(store: seq<Permission>, body: PermissionBody): (r: Handled)
    ensures !AllNamed(Entries(body)) ==> r == Handled(Fail(400, "Each permission must have a name"), store)
    ensures store <= r.store
  {
    var entries := Entries(body);
    if !AllNamed(entries) then Handled(Fail(400, "Each permission must have a name"), store)
    else CreateFormatted(store, FormatAll(entries), body.Many?)
  }

  /**
   * When the formatted names are pairwise different and some is new, the
   * call succeeds and stores exactly the entries with new names, in the
   * order given.
   */
  lemma CreateStoresNew(store: seq<Permission>, formatted: seq<Permission>, many: bool)
    requires DistinctKeys(formatted, PermissionName)
    requires NotStored(formatted, store) != []
    ensures var unseen := NotStored(formatted, store);
            CreateFormatted(store, formatted, many) ==
              Handled(Ok(201, PermissionsCreated(CreatedMessage(many), |unseen|, unseen)), store + unseen)
  {
    var unseen := NotStored(formatted, store);
    DistinctNamesKeys(formatted);
    FreshSubsetDistinct(formatted, store);
    DistinctNamesKeys(unseen);
    NotStoredFresh(formatted, store);
    InsertOrderedIff(store, unseen, PermissionName);
  }

  /** Whatever the outcome, what the insert stored are formatted entries whose names were not stored before. */
  lemma CreateAddsOnlyUnseen(store: seq<Permission>, formatted: seq<Permission>, many: bool)
    ensures forall p :: p in CreateFormatted(store, formatted, many).store[|store|..] ==>
              p in formatted && !PermissionExists(store, p.name)
  {
    var r := CreateFormatted(store, formatted, many);
    var unseen := NotStored(formatted, store);
    forall p | p in r.store[|store|..] ensures p in formatted && !PermissionExists(store, p.name) {
      var k :| 0 <= k < |r.store[|store|..]| && r.store[|store|..][k] == p;
      assert p == unseen[k] && p in unseen;
    }
  }

  /** Whatever the outcome, each permission the call stored has a normal name that was not stored before. */
  lemma CreatePermissionAddsOnlyNew(store: seq<Permission>, body: PermissionBody)
    ensures forall p :: p in CreatePermission(store, body).store[|store|..] ==>
              NormalName(p.name) && !PermissionExists(store, p.name)
  {
    var r := CreatePermission(store, body);
    var entries := Entries(body);
    if AllNamed(entries) {
      var formatted := FormatAll(entries);
      CreateAddsOnlyUnseen(store, formatted, body.Many?);
      forall p | p in r.store[|store|..] ensures NormalName(p.name) {
        var e :| 0 <= e < |formatted| && formatted[e] == p;
        FormatNormal(entries[e]);
      }
    }
  }

  /** No two permissions of `ps` share a name. */
  predicate DistinctNames(ps: seq<Permission>) {
    forall i, j :: 0 <= i < j < |ps| ==> ps[i].name != ps[j].name
  }

  lemma DistinctNamesKeys(ps: seq<Permission>)
    ensures DistinctNames(ps) <==> DistinctKeys(ps, PermissionName)
  {
  }

  /** Filtering keeps distinct names distinct. */
  lemma {:induction false} FreshSubsetDistinct(formatted: seq<Permission>, store: seq<Permission>)
    requires DistinctNames(formatted)
    ensures DistinctNames(NotStored(formatted, store))
  {
    if formatted != [] {
      var rest := formatted[1..];
      DistinctSplit(formatted);
      FreshSubsetDistinct(rest, store);
      var tail := NotStored(rest, store);
      if !PermissionExists(store, formatted[0].name) {
        assert NotStored(formatted, store) == [formatted[0]] + tail;
        DistinctCons(formatted[0], tail);
      } else {
        assert NotStored(formatted, store) == tail;
      }
    }
  }

  /** The tail of a list with distinct names has distinct names, none equal to the head's. */
  lemma DistinctSplit(ps: seq<Permission>)
    requires ps != [] && DistinctNames(ps)
    ensures DistinctNames(ps[1..])
    ensures forall x :: x in ps[1..] ==> x.name != ps[0].name
  {
    var rest := ps[1..];
    forall i, j | 0 <= i < j < |rest| ensures rest[i].name != rest[j].name {
      assert rest[i] == ps[i + 1] && rest[j] == ps[j + 1];
    }
    forall x | x in rest ensures x.name != ps[0].name {
      var m :| 0 <= m < |rest| && rest[m] == x;
      assert rest[m] == ps[m + 1];
    }
  }

  /** Putting a permission whose name is new in front of a list with distinct names keeps them distinct. */
  lemma DistinctCons(p: Permission, tail: seq<Permission>)
    requires DistinctNames(tail) && forall x :: x in tail ==> x.name != p.name
    ensures DistinctNames([p] + tail)
  {
    var r := [p] + tail;
    forall i, j | 0 <= i < j < |r| ensures r[i].name != r[j].name {
      assert r[j] == tail[j - 1] && r[j] in tail;
      if i > 0 {
        assert r[i] == tail[i - 1];
      }
    }
  }

  /** No entry left by the filter has the name of a stored permission. */
  lemma NotStoredFresh(formatted: seq<Permission>, store: seq<Permission>)
    ensures FreshKeys(store, NotStored(formatted, store), PermissionName)
  {
    var r := NotStored(formatted, store);
    forall i, j | 0 <= i < |store| && 0 <= j < |r| ensures store[i].name != r[j].name {
      assert r[j] in r;
    }
  }

  /** Sending the same request again once it has succeeded is refused: every name now exists. */
  lemma CreateTwice(store: seq<Permission>, formatted: seq<Permission>, many: bool)
    requires DistinctKeys(formatted, PermissionName)
    requires CreateFormatted(store, formatted, many).resp.Ok?
    ensures var grown := CreateFormatted(store, formatted, many).store;
            CreateFormatted(grown, formatted, many) == Handled(Fail(400, "All permissions already exist"), grown)
  {
    var unseen := NotStored(formatted, store);
    CreateStoresNew(store, formatted, many);
    var grown := store + unseen;
    forall p | p in formatted ensures PermissionExists(grown, p.name) {
      if PermissionExists(store, p.name) {
        var i :| 0 <= i < |store| && store[i].name == p.name;
        assert grown[i] == store[i];
      } else {
        assert p in unseen;
        var k :| 0 <= k < |unseen| && unseen[k] == p;
        assert grown[|store| + k] == p;
      }
    }
    var again := NotStored(formatted, grown);
    assert forall p :: p !in again;
  }

  /** A request that repeats a new name stores the first copy and fails with 500 at the second. */
  lemma CreateRepeatedName(store: seq<Permission>, f: Permission, many: bool)
    requires !PermissionExists(store, f.name)
    ensures CreateFormatted(store, [f, f], many) == Handled(Fail(500, "Server error"), store + [f])
  {
    assert [f, f] == [f] + [f];
    NotStoredAppend([f], [f], store);
    assert NotStored([f], store) == [f];
    assert !KeyTaken(store, f.name, PermissionName);
    assert ([f] + [f])[1..] == [f];
    assert KeyTaken(store + [f], f.name, PermissionName) by {
      assert (store + [f])[|store|] == f;
    }
    assert InsertOrdered(store + [f], [f], PermissionName) == DuplicateKey(store + [f]);
    assert InsertOrdered(store, [f, f], PermissionName) == DuplicateKey(store + [f]);
  }
}
