/**
 * The persistence gateway (project/src/utils/storage.ts): the product record,
 * the browser's key/value store holding the whole collection as one blob,
 * `loadProducts` with its fall-back to the ten-product seed set, and
 * `saveProducts`, which swallows a failing write.
 */
module Storage {
  import opened Optional
  import opened Seqs

  /**
   * A product's stock: absent (`undefined`), a number, or NaN (what
   * `parseInt` gives for text it cannot read).
   */
  datatype Stock = Absent | Count(units: int) | NotANumber

  datatype Product = Product(
    id: string,
    name: string,
    price: real,
    category: string,
    stock: Stock,
    description: Option<string>)

  /** `Omit<Product, 'id'>`: what the form submits. */
  datatype ProductData = ProductData(
    name: string,
    price: real,
    category: string,
    stock: Stock,
    description: Option<string>)

  /** `{ ...data, id }`. */
  function WithId(data: ProductData, id: string): (p: Product)
    ensures p.id == id && p.name == data.name && p.price == data.price && p.category == data.category
    ensures p.stock == data.stock && p.description == data.description
  {
    Product(id, data.name, data.price, data.category, data.stock, data.description)
  }

  const StorageKey := "product_dashboard_data"

  /** What `JSON.parse` makes of a stored text: it throws, or it yields a non-array, or an array. */
  datatype Parsed = Malformed | NotAnArray | JsonArray(items: seq<Product>)

  /** `JSON.stringify` and `JSON.parse`, which this model does not look inside. */
  datatype Codec = Codec(stringify: seq<Product> -> string, parse: string -> Parsed)

  /** `ps` survives a trip through the codec, and its text is not empty (JSON never is). */
  predicate RoundTrips(codec: Codec, ps: seq<Product>) {
    codec.stringify(ps) != "" && codec.parse(codec.stringify(ps)) == JsonArray(ps)
  }

  /** `localStorage.getItem(key)`: `None` is `null`. */
  function GetItem(items: map<string, string>, key: string): (r: Option<string>)
    ensures r.Some? <==> key in items
    ensures r.Some? ==> r.value == items[key]
  {
    if key in items then Some(items[key]) else None
  }

  /**
   * What `loadProducts` returns, given what is stored under the key: the
   * stored array when it parses to a non-empty one, the seed set otherwise.
   */
  function LoadFrom(stored: Option<string>, codec: Codec): (r: seq<Product>)
    ensures |r| > 0
    ensures r == DefaultProducts() || (stored.Some? && codec.parse(stored.value) == JsonArray(r))
  {
    if stored.None? || stored.value == "" then DefaultProducts()
    else
      match codec.parse(stored.value)
      case JsonArray(items) => if |items| > 0 then items else DefaultProducts()
      case _ => DefaultProducts()
  }

  /** Nothing stored (or the empty text): the seed set. */
  lemma LoadNothingStored(stored: Option<string>, codec: Codec)
    requires stored.None? || stored == Some("")
    ensures LoadFrom(stored, codec) == DefaultProducts()
  {
  }

  /** Text that does not parse, or parses to something other than a non-empty array: the seed set. */
  lemma LoadUnusable(text: string, codec: Codec)
    requires codec.parse(text).JsonArray? ==> codec.parse(text).items == []
    ensures LoadFrom(Some(text), codec) == DefaultProducts()
  {
  }

  /** A non-empty parsed array is returned as it is, without checking its fields. */
  lemma LoadVerbatim(text: string, codec: Codec, ps: seq<Product>)
    requires text != "" && codec.parse(text) == JsonArray(ps) && ps != []
    ensures LoadFrom(Some(text), codec) == ps
  {
  }

  /** The store after `saveProducts(ps)`: overwritten when the write succeeds, untouched when it throws. */
  function SavedItems(items: map<string, string>, codec: Codec, ps: seq<Product>, writeSucceeds: bool): (r: map<string, string>)
    ensures writeSucceeds ==> GetItem(r, StorageKey) == Some(codec.stringify(ps))
    ensures forall k :: k != StorageKey ==> GetItem(r, k) == GetItem(items, k)
    ensures !writeSucceeds ==> r == items
  {
    if writeSucceeds then items[StorageKey := codec.stringify(ps)] else items
  }

  /** Saving a non-empty collection and loading it back gives the same collection. */
  lemma SaveThenLoad(items: map<string, string>, codec: Codec, ps: seq<Product>)
    requires RoundTrips(codec, ps) && ps != []
    ensures LoadFrom(GetItem(SavedItems(items, codec, ps, true), StorageKey), codec) == ps
  {
  }

  /** Saving an empty collection makes the next load fall back to the seed set. */
  lemma SaveEmptyThenLoad(items: map<string, string>, codec: Codec)
    requires RoundTrips(codec, [])
    ensures LoadFrom(GetItem(SavedItems(items, codec, [], true), StorageKey), codec) == DefaultProducts()
  {
  }

  /** The browser's local storage: a map from keys to texts, with the codec used on the collection. */
  class BrowserStore {
    var items: map<string, string>
    const codec: Codec

    constructor (items: map<string, string>, codec: Codec)
      ensures this.items == items && this.codec == codec
    {
      this.items := items;
      this.codec := codec;
    }

    /** `loadProducts()`: read the blob, then decide. */
    method Load() returns (products: seq<Product>)
      ensures products == LoadFrom(GetItem(items, StorageKey), codec)
    {
      if StorageKey !in items || items[StorageKey] == "" {
        return DefaultProducts();
      }
      var parsed := codec.parse(items[StorageKey]);
      if parsed.JsonArray? && |parsed.items| > 0 {
        products := parsed.items;
      } else {
        products := DefaultProducts();
      }
    }

    /** `saveProducts(products)`; `writeSucceeds` is false when `setItem` throws (quota, private mode). */
    method Save(products: seq<Product>, writeSucceeds: bool)
      modifies this
      ensures items == SavedItems(old(items), codec, products, writeSucceeds)
    {
      if writeSucceeds {
        items := items[StorageKey := codec.stringify(products)];
      }
    }
  }

  /**
   * `getDefaultProducts()`: the ten seed products, in the order the source
   * lists them. Their fields are written column by column below.
   */
  function DefaultProducts(): seq<Product> {
    seq(10, i requires 0 <= i < 10 => Seed(i))
  }

  /** The seed product at position `i`. */
  function Seed(i: nat): Product
    requires i < 10
  {
    Product(SeedIds[i], SeedNames[i], SeedPrices[i], SeedCategories[i], Count(SeedStocks[i]), Some(SeedDescription(i)))
  }

  const SeedIds: seq<string> := ["1", "2", "3", "4", "5", "6", "7", "8", "9", "10"]
  const SeedNames: seq<string> := [
    "Wireless Headphones", "Smart Watch", "Laptop Stand", "Mechanical Keyboard", "Desk Lamp",
    "Office Chair", "USB-C Cable", "Notebook Set", "Wireless Mouse", "Monitor Stand"]
  const SeedPrices: seq<real> := [79.99, 199.99, 34.99, 129.99, 42.50, 299.99, 12.99, 18.99, 29.99, 54.99]
  const SeedCategories: seq<string> := [
    "Electronics", "Electronics", "Accessories", "Electronics", "Furniture",
    "Furniture", "Accessories", "Stationery", "Electronics", "Accessories"]
  const SeedStocks: seq<nat> := [45, 8, 120, 3, 67, 15, 250, 95, 2, 38]

  /** The description of the seed product at position `i`. */
  function SeedDescription(i: nat): string
    requires i < 10
  {
    match i
    case 0 => "Premium noise-cancelling wireless headphones with 30-hour battery life"
    case 1 => "Fitness tracking smartwatch with heart rate monitor and GPS"
    case 2 => "Ergonomic aluminum laptop stand with adjustable height"
    case 3 => "RGB mechanical gaming keyboard with cherry MX switches"
    case 4 => "LED desk lamp with touch controls and adjustable brightness"
    case 5 => "Ergonomic office chair with lumbar support and breathable mesh"
    case 6 => "Durable braided USB-C cable with fast charging support"
    case 7 => "Premium hardcover notebook set with dotted pages"
    case 8 => "Ergonomic wireless mouse with precision tracking"
    case _ => "Dual monitor stand with cable management"
  }

  /** The invariants of a stored product: positive price, stock absent or a non-negative count, not the "All" category. */
  predicate WellFormed(p: Product) {
    p.price > 0.0 && (p.stock.Absent? || (p.stock.Count? && p.stock.units >= 0)) && p.category != "All"
  }

  /** The seed set holds ten well-formed products, with the stocks 45, 8, 120, 3, 67, 15, 250, 95, 2 and 38. */
  lemma DefaultProductsWellFormed()
    ensures |DefaultProducts()| == 10
    ensures forall i :: 0 <= i < 10 ==> WellFormed(DefaultProducts()[i]) && DefaultProducts()[i].stock == Count(SeedStocks[i])
  {
    forall i | 0 <= i < 10
      ensures WellFormed(DefaultProducts()[i]) && DefaultProducts()[i].stock == Count(SeedStocks[i])
    {
      SeedWellFormed(i);
    }
  }

  /** Each seed product has a positive price, a count for its stock and a category other than "All". */
  lemma SeedWellFormed(i: nat)
    requires i < 10
    ensures WellFormed(Seed(i))
  {
    assert SeedPrices[i] > 0.0 && SeedCategories[i] != "All";
  }

  /** The ids of the seed set are "1" to "10", all different. */
  lemma DefaultProductIds()
    ensures |DefaultProducts()| == 10
    ensures forall i :: 0 <= i < 10 ==> DefaultProducts()[i].id == SeedIds[i]
    ensures forall i, j :: 0 <= i < j < 10 ==> DefaultProducts()[i].id != DefaultProducts()[j].id
  {
    assert NoDuplicates(SeedIds);
  }
}
