/**
 * The product schema (server/models/product.model.js): the record shape,
 * the status enumeration, the defaults, the `trim` setters on name and sku,
 * the required fields, and the unique indexes on sku and (sparse) barcode.
 */
module ProductModel {
  import opened Common

  datatype ProductStatus = Available | OutOfStock | Pending | Discounted | Discontinued

  function StatusName(s: ProductStatus): string {
    match s
    case Available => "available"
    case OutOfStock => "out of stock"
    case Pending => "pending"
    case Discounted => "discounted"
    case Discontinued => "discontinued"
  }

  /** The enum validator: exactly the five listed names are accepted. */
  function ParseStatus(name: string): (r: Option<ProductStatus>)
    ensures forall s :: r == Some(s) <==> StatusName(s) == name
  {
    if name == "available" then Some(Available)
    else if name == "out of stock" then Some(OutOfStock)
    else if name == "pending" then Some(Pending)
    else if name == "discounted" then Some(Discounted)
    else if name == "discontinued" then Some(Discontinued)
    else None
  }

  const DefaultStatus: ProductStatus := Available
  const DefaultStock: int := 0
  const DefaultReorderLevel: int := 10
  const DefaultDescription: string := ""

  /** A stored product. */
  datatype Product = Product(
    name: string,
    sku: string,
    barcode: Option<string>,
    description: string,
    category: string,
    supplier: Option<Id>,
    basePrice: real,
    priceWithTax: real,
    cost: real,
    stock: int,
    reorderLevel: int,
    status: ProductStatus)

  /**
   * A document as a handler hands it to the database, before the schema
   * casts it: a number may be NaN (None), a defaulted field may be absent
   * (None), and the status is still text.
   */
  datatype ProductDraft = ProductDraft(
    name: string,
    sku: string,
    barcode: Option<string>,
    description: Option<string>,
    category: string,
    supplier: Option<Id>,
    basePrice: Option<real>,
    priceWithTax: Option<real>,
    cost: Option<real>,
    stock: Option<int>,
    reorderLevel: Option<int>,
    status: Option<string>)

  /** What every stored product satisfies: the required strings are non-empty and the trimmed ones are trimmed. */
  predicate SchemaValid(p: Product) {
    && p.name != "" && Trim(p.name) == p.name
    && p.sku != "" && Trim(p.sku) == p.sku
    && p.category != ""
  }

  /**
   * Casting a draft: the `trim` setters run, then the validators
   * (required fields, numbers that are numbers, the status enum); absent
   * fields take their defaults.
   */
  function Cast(d: ProductDraft): (r: Option<Product>)
    ensures r.Some? <==>
      && Trim(d.name) != "" && Trim(d.sku) != "" && d.category != ""
      && d.basePrice.Some? && d.priceWithTax.Some? && d.cost.Some?
      && (d.status.None? || ParseStatus(d.status.value).Some?)
    ensures r.Some? ==> SchemaValid(r.value)
  {
    TrimIdempotent(d.name);
    TrimIdempotent(d.sku);
    var name := Trim(d.name);
    var sku := Trim(d.sku);
    var status := if d.status.Some? then ParseStatus(d.status.value) else Some(DefaultStatus);
    if name == "" || sku == "" || d.category == "" || d.basePrice.None? || d.priceWithTax.None?
       || d.cost.None? || status.None?
    then None
    else Some(Product(name, sku, d.barcode, d.description.GetOr(DefaultDescription), d.category,
                      d.supplier, d.basePrice.value, d.priceWithTax.value, d.cost.value,
                      d.stock.GetOr(DefaultStock), d.reorderLevel.GetOr(DefaultReorderLevel),
                      status.value))
  }

  /**
   * What a successful cast stores: the trimmed name and sku, the given
   * values, and the schema defaults (description "", stock 0, reorder
   * level 10, status "available") for the fields the draft leaves out.
   */
  lemma CastStores(d: ProductDraft)
    requires Cast(d).Some?
    ensures var p := Cast(d).value;
      && p.name == Trim(d.name) && p.sku == Trim(d.sku)
      && p.barcode == d.barcode && p.category == d.category && p.supplier == d.supplier
      && p.basePrice == d.basePrice.value && p.priceWithTax == d.priceWithTax.value
      && p.cost == d.cost.value
      && p.description == (if d.description.Some? then d.description.value else "")
      && p.stock == (if d.stock.Some? then d.stock.value else 0)
      && p.reorderLevel == (if d.reorderLevel.Some? then d.reorderLevel.value else 10)
      && StatusName(p.status) == (if d.status.Some? then d.status.value else "available")
  {
  }

  /** The draft that writes every field of `p` out explicitly. */
  function ToDraft(p: Product): ProductDraft {
    ProductDraft(p.name, p.sku, p.barcode, Some(p.description), p.category, p.supplier,
                 Some(p.basePrice), Some(p.priceWithTax), Some(p.cost), Some(p.stock),
                 Some(p.reorderLevel), Some(StatusName(p.status)))
  }

  /** Casting is the identity on stored products: writing one back changes nothing. */
  lemma CastRoundTrip(p: Product)
    requires SchemaValid(p)
    ensures Cast(ToDraft(p)) == Some(p)
  {
    var r := Cast(ToDraft(p));
    assert r.Some?;
    assert ParseStatus(StatusName(p.status)) == Some(p.status);
  }

  /** Two products collide on the unique indexes: same sku, or the same barcode when one is present (the barcode index is sparse). */
  predicate Clash(p: Product, q: Product) {
    p.sku == q.sku || (p.barcode.Some? && p.barcode == q.barcode)
  }

  /** The unique indexes hold over a whole collection. */
  predicate UniqueKeys(store: seq<Product>) {
    forall i, j :: 0 <= i < j < |store| ==> !Clash(store[i], store[j])
  }

  /** Some stored product collides with `p`. */
  predicate ClashesWithStore(store: seq<Product>, p: Product) {
    exists i :: 0 <= i < |store| && Clash(store[i], p)
  }

  lemma AppendKeepsUnique(store: seq<Product>, p: Product)
    requires UniqueKeys(store) && !ClashesWithStore(store, p)
    ensures UniqueKeys(store + [p])
  {
    var s := store + [p];
    forall i, j | 0 <= i < j < |s| ensures !Clash(s[i], s[j]) {
      if j == |store| {
        assert s[i] == store[i];
        assert !Clash(store[i], p);
      } else {
        assert s[i] == store[i] && s[j] == store[j];
      }
    }
  }

  /** The outcome of an unordered `insertMany`: the new collection and how each document fared. */
  datatype InsertReport = InsertReport(store: seq<Product>, inserted: nat, invalid: nat, clashes: nat)

  /**
   * One document of an unordered `insertMany`, against the collection as
   * it stands: a draft that fails validation is left out silently, one that
   * collides with a unique index is refused (and reported as a write
   * error), any other one is stored. Nothing stored is ever removed or
   * changed, and the unique indexes keep holding.
   */
  function InsertOne(r: InsertReport, doc: ProductDraft): (r': InsertReport)
    ensures r.store <= r'.store && r'.inserted >= r.inserted
    ensures |r'.store| - |r.store| == r'.inserted - r.inserted
    ensures r'.inserted + r'.invalid + r'.clashes == r.inserted + r.invalid + r.clashes + 1
    ensures UniqueKeys(r.store) ==> UniqueKeys(r'.store)
  {
    var cast := Cast(doc);
    if cast.None? then r.(invalid := r.invalid + 1)
    else if ClashesWithStore(r.store, cast.value) then r.(clashes := r.clashes + 1)
    else
      AppendKeepsUniqueIf(r.store, cast.value);
      InsertReport(r.store + [cast.value], r.inserted + 1, r.invalid, r.clashes)
  }

  /** `insertMany(docs, {ordered: false})`: every draft in turn, none stopping the others. */
  function InsertUnordered(store: seq<Product>, docs: seq<ProductDraft>): (r: InsertReport)
    ensures |r.store| == |store| + r.inserted && store <= r.store
    ensures r.inserted + r.invalid + r.clashes == |docs|
    ensures UniqueKeys(store) ==> UniqueKeys(r.store)
  {
    if docs == [] then InsertReport(store, 0, 0, 0)
    else InsertOne(InsertUnordered(store, docs[..|docs| - 1]), docs[|docs| - 1])
  }

  lemma AppendKeepsUniqueIf(store: seq<Product>, p: Product)
    requires !ClashesWithStore(store, p)
    ensures UniqueKeys(store) ==> UniqueKeys(store + [p])
  {
    if UniqueKeys(store) {
      AppendKeepsUnique(store, p);
    }
  }

  /** When every draft is valid and none collides with the store or an earlier draft, all of them are stored, in order. */
  lemma {:induction false} InsertUnorderedAll(store: seq<Product>, docs: seq<ProductDraft>, cast: seq<Product>)
    requires |cast| == |docs|
    requires forall k :: 0 <= k < |docs| ==> Cast(docs[k]) == Some(cast[k])
    requires UniqueKeys(store + cast)
    ensures InsertUnordered(store, docs) == InsertReport(store + cast, |docs|, 0, 0)
  {
    if docs != [] {
      var n := |docs| - 1;
      var grown := store + cast[..n];
      UniqueWithoutLast(store, cast);
      forall k | 0 <= k < n ensures Cast(docs[..n][k]) == Some(cast[..n][k]) {
        assert docs[..n][k] == docs[k] && cast[..n][k] == cast[k];
      }
      InsertUnorderedAll(store, docs[..n], cast[..n]);
      var prev := InsertUnordered(store, docs[..n]);
      assert prev == InsertReport(grown, n, 0, 0);
      assert Cast(docs[n]) == Some(cast[n]);
      assert InsertOne(prev, docs[n]) == InsertReport(grown + [cast[n]], n + 1, 0, 0);
      assert InsertUnordered(store, docs) == InsertOne(prev, docs[n]);
      SplitLast(store, cast);
    }
  }

  /** Dropping the last product keeps the unique indexes, and that product collides with none before it. */
  lemma UniqueWithoutLast(store: seq<Product>, cast: seq<Product>)
    requires cast != [] && UniqueKeys(store + cast)
    ensures UniqueKeys(store + cast[..|cast| - 1])
    ensures !ClashesWithStore(store + cast[..|cast| - 1], cast[|cast| - 1])
  {
    var grown, last := store + cast[..|cast| - 1], cast[|cast| - 1];
    SplitLast(store, cast);
    PrefixUnique(grown, [last]);
    LastDoesNotClash(grown, last);
  }

  lemma SplitLast(store: seq<Product>, cast: seq<Product>)
    requires cast != []
    ensures (store + cast[..|cast| - 1]) + [cast[|cast| - 1]] == store + cast
  {
    assert cast == cast[..|cast| - 1] + [cast[|cast| - 1]];
  }

  /** The unique indexes hold on any prefix of a collection where they hold. */
  lemma PrefixUnique(s: seq<Product>, t: seq<Product>)
    requires UniqueKeys(s + t)
    ensures UniqueKeys(s)
  {
    forall i, j | 0 <= i < j < |s| ensures !Clash(s[i], s[j]) {
      assert (s + t)[i] == s[i] && (s + t)[j] == s[j];
    }
  }

  lemma LastDoesNotClash(s: seq<Product>, p: Product)
    requires UniqueKeys(s + [p])
    ensures !ClashesWithStore(s, p)
  {
    forall i | 0 <= i < |s| ensures !Clash(s[i], p) {
      assert (s + [p])[i] == s[i] && (s + [p])[|s|] == p;
    }
  }
}
