/**
 * The role-dependent parts of the dashboard
 * (client/src/components/dashboard/Dashboard.jsx): the role read from the
 * stored user, the side menu filtered by role, the panel label and the
 * visibility of the "New Product" button. Icons and layout are not
 * modelled.
 */
module Dashboard {
  import opened Common

  /** The roles the dashboard knows by name. */
  datatype KnownRole = SuperAdmin | Admin | Manager | Cashier | Accountant

  /** The name the dashboard compares the stored role with. */
  function Name(r: KnownRole): string {
    match r
    case SuperAdmin => "super admin"
    case Admin => "admin"
    case Manager => "manager"
    case Cashier => "cashier"
    case Accountant => "accountant"
  }

  /** The known role a role string names, if any. */
  function Known(role: string): (r: Option<KnownRole>)
    ensures r.Some? ==> Name(r.value) == role
  {
    if role == "super admin" then Some(SuperAdmin)
    else if role == "admin" then Some(Admin)
    else if role == "manager" then Some(Manager)
    else if role == "cashier" then Some(Cashier)
    else if role == "accountant" then Some(Accountant)
    else None
  }

  /** Each known role is found again from its name: comparing names is comparing roles. */
  lemma KnownName(r: KnownRole)
    ensures Known(Name(r)) == Some(r)
  {
  }

  /** The menu entries. */
  datatype Entry = Overview | Sales | Products | Suppliers | Cart | Users | Reports | Orders | Payments | Roles

  /** An entry's `id`, which also selects the page shown. */
  function EntryId(e: Entry): string {
    match e
    case Overview => "dashboard"
    case Sales => "sales"
    case Products => "products"
    case Suppliers => "suppliers"
    case Cart => "cart"
    case Users => "users"
    case Reports => "reports"
    case Orders => "orders"
    case Payments => "payments"
    case Roles => "roles"
  }

  /** An entry's `label`. */
  function Caption(e: Entry): string {
    match e
    case Overview => "Dashboard"
    case Sales => "Sales"
    case Products => "Products"
    case Suppliers => "Suppliers"
    case Cart => "Cart"
    case Users => "Users"
    case Reports => "Reports"
    case Orders => "Orders"
    case Payments => "Payments"
    case Roles => "Roles"
  }

  /** The roles an entry is shown to (its `roles` list). */
  function Audience(e: Entry): seq<KnownRole> {
    match e
    case Overview => [SuperAdmin, Admin, Manager, Cashier, Accountant]
    case Sales => [SuperAdmin, Admin, Manager]
    case Products => [SuperAdmin, Admin, Manager, Cashier]
    case Suppliers => [SuperAdmin, Admin, Manager]
    case Cart => [SuperAdmin, Cashier, Admin]
    case Users => [SuperAdmin, Admin]
    case Reports => [SuperAdmin, Admin, Manager, Accountant]
    case Orders => [SuperAdmin, Admin, Manager, Cashier]
    case Payments => [SuperAdmin, Accountant]
    case Roles => [SuperAdmin, Admin]
  }

  /** The menu, in display order. */
  const NavItems: seq<Entry> := [Overview, Sales, Products, Suppliers, Cart, Users, Reports, Orders, Payments, Roles]

  /**
   * `storedUser?.role?.toLowerCase() || "cashier"`: the stored role in
   * lower case; "cashier" when there is no stored user or role, or the
   * role is empty.
   */
  function EffectiveRole(stored: Option<string>): (r: string)
    ensures r != ""
    ensures !Truthy(stored) ==> r == Name(Cashier)
    ensures Truthy(stored) ==> r == ToLower(stored.value)
  {
    var lowered := if stored.Some? then ToLower(stored.value) else "";
    if lowered == "" then Name(Cashier) else lowered
  }

  /** The stored role is compared without regard to ASCII case. */
  lemma EffectiveRoleIgnoresCase(a: string, b: string)
    requires ToLower(a) == ToLower(b)
    ensures EffectiveRole(Some(a)) == EffectiveRole(Some(b))
  {
  }

  /** An entry's role list includes the role string: some listed role has that name. */
  predicate Lists(item: Entry, role: string) {
    Known(role).Some? && Known(role).value in Audience(item)
  }

  /** `includes` compares names, and `Lists` says the same thing. */
  lemma ListsIffNameListed(item: Entry, role: string)
    ensures Lists(item, role) <==> exists r :: r in Audience(item) && Name(r) == role
  {
    if exists r :: r in Audience(item) && Name(r) == role {
      var r :| r in Audience(item) && Name(r) == role;
      KnownName(r);
    }
  }

  /** `a` is `b` with some elements left out and the rest in their order. */
  predicate Subsequence<T(==)>(a: seq<T>, b: seq<T>)
    decreases |b|
  {
    a == [] || (b != [] && if a[0] == b[0] then Subsequence(a[1..], b[1..]) else Subsequence(a, b[1..]))
  }

  /** `items.filter((item) => Audience(item).includes(role))`. */
  function FilterByRole(items: seq<Entry>, role: string): seq<Entry> {
    if items == [] then []
    else if Lists(items[0], role) then [items[0]] + FilterByRole(items[1..], role)
    else FilterByRole(items[1..], role)
  }

  /** The filter keeps exactly the entries that list the role. */
  lemma {:induction false} FilterMembers(items: seq<Entry>, role: string)
    ensures forall x :: x in FilterByRole(items, role) <==> x in items && Lists(x, role)
  {
    if items != [] {
      FilterMembers(items[1..], role);
      assert items == [items[0]] + items[1..];
    }
  }

  /** The filter keeps the entries in the menu's order. */
  lemma {:induction false} FilterInOrder(items: seq<Entry>, role: string)
    ensures Subsequence(FilterByRole(items, role), items)
  {
    if items != [] {
      FilterInOrder(items[1..], role);
      var rest := FilterByRole(items[1..], role);
      if !Lists(items[0], role) && rest != [] {
        FilterMembers(items[1..], role);
        assert rest[0] in rest;
      }
    }
  }

  /** The menu a role sees: all of it for "super admin", otherwise the entries listing the role. */
  function AccessibleNavItems(role: string): (r: seq<Entry>)
    ensures role == Name(SuperAdmin) ==> r == NavItems
    ensures role != Name(SuperAdmin) ==> r == FilterByRole(NavItems, role)
  {
    if role == Name(SuperAdmin) then NavItems else FilterByRole(NavItems, role)
  }

  lemma {:induction false} AllListedKeepsAll(items: seq<Entry>, role: string)
    requires forall i :: 0 <= i < |items| ==> Lists(items[i], role)
    ensures FilterByRole(items, role) == items
  {
    if items != [] {
      AllListedKeepsAll(items[1..], role);
    }
  }

  /** Every entry lists "super admin", so its special case agrees with the filter. */
  lemma SuperAdminMatchesFilter()
    ensures FilterByRole(NavItems, Name(SuperAdmin)) == NavItems
  {
    KnownName(SuperAdmin);
    AllListedKeepsAll(NavItems, Name(SuperAdmin));
  }

  /** Whatever the role, the menu shown is the menu with entries left out, in the menu's order. */
  lemma AccessibleInOrder(role: string)
    ensures Subsequence(AccessibleNavItems(role), NavItems)
    ensures forall x :: x in AccessibleNavItems(role) ==> x in NavItems && Lists(x, role)
  {
    if role == Name(SuperAdmin) {
      SuperAdminMatchesFilter();
    }
    FilterInOrder(NavItems, role);
    FilterMembers(NavItems, role);
  }

  /** A role the dashboard does not know, such as a misspelt one, sees an empty menu. */
  lemma UnknownRoleSeesNothing(role: string)
    requires Known(role).None?
    ensures AccessibleNavItems(role) == []
  {
    KnownName(SuperAdmin);
    NoneListedDropsAll(NavItems, role);
  }

  lemma {:induction false} NoneListedDropsAll(items: seq<Entry>, role: string)
    requires forall i :: 0 <= i < |items| ==> !Lists(items[i], role)
    ensures FilterByRole(items, role) == []
  {
    if items != [] {
      NoneListedDropsAll(items[1..], role);
    }
  }

  /** An entry that lists the role survives the filter. */
  lemma FilterKeepsListed(items: seq<Entry>, k: nat, role: string)
    requires k < |items| && Lists(items[k], role)
    ensures items[k] in FilterByRole(items, role)
  {
    FilterMembers(items, role);
  }

  lemma FilterKeeps(items: seq<Entry>, k: nat, role: string)
    requires k < |items| && Lists(items[k], role)
    ensures FilterByRole(items[k..], role) == [items[k]] + FilterByRole(items[k + 1..], role)
  {
    assert items[k..][1..] == items[k + 1..];
  }

  lemma FilterSkips(items: seq<Entry>, k: nat, role: string)
    requires k < |items| && !Lists(items[k], role)
    ensures FilterByRole(items[k..], role) == FilterByRole(items[k + 1..], role)
  {
    assert items[k..][1..] == items[k + 1..];
  }

  /** The menu of a cashier, which is also the menu without a stored role: Dashboard, Products, Cart, Orders. */
  lemma CashierMenu()
    ensures AccessibleNavItems(EffectiveRole(None)) == [Overview, Products, Cart, Orders]
  {
    var c := Name(Cashier);
    KnownName(Cashier);
    assert Known(c) == Some(Cashier);
    KeepsFirstThirdFifthEighth(NavItems, c);
    assert EffectiveRole(None) == c != Name(SuperAdmin);
  }

  /** The filter over ten entries of which exactly the 1st, 3rd, 5th and 8th list the role. */
  lemma KeepsFirstThirdFifthEighth(m: seq<Entry>, c: string)
    requires |m| == 10
    requires Lists(m[0], c) && Lists(m[2], c) && Lists(m[4], c) && Lists(m[7], c)
    requires !Lists(m[1], c) && !Lists(m[3], c) && !Lists(m[5], c) && !Lists(m[6], c)
    requires !Lists(m[8], c) && !Lists(m[9], c)
    ensures FilterByRole(m, c) == [m[0], m[2], m[4], m[7]]
  {
    assert FilterByRole(m[10..], c) == [];
    FilterSkips(m, 9, c);
    FilterSkips(m, 8, c);
    FilterKeeps(m, 7, c);
    assert FilterByRole(m[7..], c) == [m[7]];
    FilterSkips(m, 6, c);
    FilterSkips(m, 5, c);
    FilterKeeps(m, 4, c);
    assert FilterByRole(m[4..], c) == [m[4], m[7]];
    FilterSkips(m, 3, c);
    FilterKeeps(m, 2, c);
    assert FilterByRole(m[2..], c) == [m[2], m[4], m[7]];
    FilterSkips(m, 1, c);
    FilterKeeps(m, 0, c);
    assert m[0..] == m;
  }

  /** The side panel's title. */
  function PanelLabel(role: string): (r: string)
    ensures Known(role) == Some(SuperAdmin) ==> r == "Super Admin Panel"
    ensures Known(role) == Some(Admin) ==> r == "Admin Panel"
    ensures Known(role) == Some(Manager) ==> r == "Manager Panel"
    ensures Known(role) == Some(Accountant) ==> r == "Accountant Panel"
    ensures r == "Cashier Panel" <==> Known(role).None? || Known(role) == Some(Cashier)
  {
    if role == Name(SuperAdmin) then "Super Admin Panel"
    else if role == Name(Admin) then "Admin Panel"
    else if role == Name(Manager) then "Manager Panel"
    else if role == Name(Accountant) then "Accountant Panel"
    else "Cashier Panel"
  }

  /** The "New Product" button is shown to admins, managers and super admins. */
  predicate ShowsNewProduct(role: string) {
    role == Name(Admin) || role == Name(Manager) || role == Name(SuperAdmin)
  }

  /** Whoever sees the "New Product" button also sees the Products entry. */
  lemma NewProductImpliesProductsEntry(role: string)
    requires ShowsNewProduct(role)
    ensures Products in AccessibleNavItems(role)
  {
    if role != Name(SuperAdmin) {
      FilterKeepsListed(NavItems, 2, role);
    }
  }

  /** A cashier gets the Products entry without the button. */
  lemma CashierSeesProductsWithoutButton()
    ensures !ShowsNewProduct(Name(Cashier)) && Products in AccessibleNavItems(Name(Cashier))
  {
    var c := Name(Cashier);
    assert c[0] == 'c' && Name(Manager)[0] == 'm';
    KnownName(Cashier);
    FilterKeepsListed(NavItems, 2, c);
  }
}
