/**
 * The reference-data records the intake handlers read and write: suppliers,
 * permissions, roles and users (server/models/supplier.model.js,
 * permission.model.js, role.model.js, user.model.js), with the setters that
 * normalise their keys.
 */
module Records {
  import opened Common

  /** A stored supplier; address and contact person default to "" when not given. */
  datatype Supplier = Supplier(
    name: string,
    email: string,
    phone: string,
    address: string,
    contactPersonName: string,
    contactPersonPhone: string)

  /** The supplier schema stores the email trimmed and lower-cased; lookups by email are normalised the same way. */
  function SupplierEmail(raw: string): string {
    Trim(ToLower(raw))
  }

  datatype Permission = Permission(name: string, description: string)

  datatype Role = Role(name: string, description: string, permissions: seq<Id>)

  datatype UserStatus = Active | Inactive | Suspended

  datatype User = User(fullName: string, email: string, passwordHash: string, status: UserStatus, role: Id)

  /** The user schema trims the full name and trims and lower-cases the email, on save and in lookups alike. */
  function UserFullName(raw: string): string {
    Trim(raw)
  }

  function UserEmail(raw: string): string {
    Trim(ToLower(raw))
  }

  /** A permission with this name is stored. */
  predicate PermissionExists(store: seq<Permission>, name: string) {
    exists i :: 0 <= i < |store| && store[i].name == name
  }

  /** A role with this name is stored. */
  predicate RoleExists(store: seq<Role>, name: string) {
    exists i :: 0 <= i < |store| && store[i].name == name
  }

  /**
   * `Permission.find({_id: {$in: ids}}).length === ids.length`: the check
   * role creation, role update and permission assignment apply to a list
   * of permission identifiers.
   */
  predicate PermissionsResolve(permissions: seq<Permission>, ids: seq<Id>) {
    |Found(ids, |permissions|)| == |ids|
  }

  /** The count check passes exactly when every identifier is stored and none is repeated. */
  lemma PermissionsResolveIff(permissions: seq<Permission>, ids: seq<Id>)
    ensures PermissionsResolve(permissions, ids) <==>
              (forall x :: x in ids ==> x < |permissions|) && Distinct(ids)
  {
    FoundCountMatches(ids, |permissions|);
  }

  // ------------------------------------------------ ordered insertMany

  /** How an ordered `insertMany` into a collection with a unique key ends. */
  datatype Insertion<T> = AllInserted(store: seq<T>) | DuplicateKey(store: seq<T>)

  /** Some document of `store` already has key `k`. */
  predicate KeyTaken<T>(store: seq<T>, k: string, key: T -> string) {
    exists i :: 0 <= i < |store| && key(store[i]) == k
  }

  /** No two documents of `docs` share a key. */
  predicate DistinctKeys<T>(docs: seq<T>, key: T -> string) {
    forall i, j :: 0 <= i < j < |docs| ==> key(docs[i]) != key(docs[j])
  }

  /** No document of `docs` has the key of a document of `store`. */
  predicate FreshKeys<T>(store: seq<T>, docs: seq<T>, key: T -> string) {
    forall i, j :: 0 <= i < |store| && 0 <= j < |docs| ==> key(store[i]) != key(docs[j])
  }

  /**
   * `insertMany(docs)` with the default `ordered: true` on a collection
   * whose `key` is unique: the documents go in one by one, and the first
   * one whose key is taken (by a stored document or by an earlier one of
   * the batch) stops the batch with a duplicate-key error, leaving the
   * documents before it stored.
   */
  function InsertOrdered<T>(store: seq<T>, docs: seq<T>, key: T -> string): (r: Insertion<T>)
    ensures store <= r.store && r.store <= store + docs
    ensures r.AllInserted? ==> r.store == store + docs
    decreases |docs|
  {
    if docs == [] then AllInserted(store)
    else if KeyTaken(store, key(docs[0]), key) then DuplicateKey(store)
    else
      assert (store + [docs[0]]) + docs[1..] == store + docs;
      InsertOrdered(store + [docs[0]], docs[1..], key)
  }

  /** The whole batch goes in exactly when its keys are distinct and none is already stored. */
  lemma {:induction false} InsertOrderedIff<T>(store: seq<T>, docs: seq<T>, key: T -> string)
    ensures InsertOrdered(store, docs, key).AllInserted? <==> DistinctKeys(docs, key) && FreshKeys(store, docs, key)
    decreases |docs|
  {
    if docs != [] {
      var d, rest := docs[0], docs[1..];
      var grown := store + [d];
      InsertOrderedIff(grown, rest, key);
      if KeyTaken(store, key(d), key) {
        var i :| 0 <= i < |store| && key(store[i]) == key(d);
        assert !FreshKeys(store, docs, key) by { assert key(store[i]) == key(docs[0]); }
      } else {
        assert DistinctKeys(docs, key) && FreshKeys(store, docs, key) <==>
               DistinctKeys(rest, key) && FreshKeys(grown, rest, key) by {
          if DistinctKeys(docs, key) && FreshKeys(store, docs, key) {
            forall i, j | 0 <= i < j < |rest| ensures key(rest[i]) != key(rest[j]) {
              assert rest[i] == docs[i + 1] && rest[j] == docs[j + 1];
            }
            forall i, j | 0 <= i < |grown| && 0 <= j < |rest| ensures key(grown[i]) != key(rest[j]) {
              assert rest[j] == docs[j + 1];
              if i < |store| { assert grown[i] == store[i]; } else { assert grown[i] == docs[0]; }
            }
          }
          if DistinctKeys(rest, key) && FreshKeys(grown, rest, key) {
            forall i, j | 0 <= i < j < |docs| ensures key(docs[i]) != key(docs[j]) {
              assert docs[j] == rest[j - 1];
              if i == 0 { assert grown[|store|] == docs[0]; } else { assert docs[i] == rest[i - 1]; }
            }
            forall i, j | 0 <= i < |store| && 0 <= j < |docs| ensures key(store[i]) != key(docs[j]) {
              if j > 0 { assert docs[j] == rest[j - 1] && grown[i] == store[i]; }
            }
          }
        }
      }
    }
  }
}
