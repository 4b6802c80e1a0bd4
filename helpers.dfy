/**
 * The query pipeline and analytics (project/src/utils/helpers.ts): the
 * category list, the search and category filter, the five-key sort, and the
 * aggregate statistics over the collection.
 */
module Helpers {
  import opened Strings
  import opened Seqs
  import opened Sorting
  import opened Storage

  const LowStockThreshold := 10

  /** `(p.stock || 0)`: absent, zero and NaN stock all count as 0. */
  function StockOrZero(p: Product): int {
    match p.stock
    case Count(n) => n
    case _ => 0
  }

  // ---------------------------------------------------------------------------
  // Category list

  function CategoriesOf(ps: seq<Product>): seq<string> {
    Map((p: Product) => p.category, ps)
  }

  /** `getUniqueCategories`: "All", then each category once, in code-unit order. */
  function UniqueCategories(ps: seq<Product>): seq<string> {
    ["All"] + InsertionSort(Distinct(CategoriesOf(ps)), CodeUnitLe)
  }

  lemma CodeUnitLeTotalPreorder()
    ensures TotalPreorder(CodeUnitLe)
  {
    forall a, b ensures CodeUnitLe(a, b) || CodeUnitLe(b, a) {
      CodeUnitLeTotal(a, b);
    }
    forall a, b, c | CodeUnitLe(a, b) && CodeUnitLe(b, c) ensures CodeUnitLe(a, c) {
      CodeUnitLeTransitive(a, b, c);
    }
  }

  /**
   * The category list starts with "All", then holds exactly the categories of
   * the products, each once, in strictly ascending code-unit order.
   */
  lemma UniqueCategoriesSpec(ps: seq<Product>)
    ensures var r := UniqueCategories(ps);
      && |r| >= 1 && r[0] == "All"
      && (forall c :: c in r[1..] <==> exists p :: p in ps && p.category == c)
      && (forall i, j :: 1 <= i < j < |r| ==> CodeUnitLe(r[i], r[j]) && r[i] != r[j])
  {
    var r := UniqueCategories(ps);
    var cats := CategoriesOf(ps);
    var sorted := InsertionSort(Distinct(cats), CodeUnitLe);
    assert r[1..] == sorted;
    forall c ensures c in sorted <==> exists p :: p in ps && p.category == c {
      assert c in sorted <==> c in multiset(sorted);
      assert c in sorted <==> c in cats;
      if c in cats {
        var i :| 0 <= i < |cats| && cats[i] == c;
        assert ps[i] in ps && ps[i].category == c;
      }
      if p :| p in ps && p.category == c {
        var i :| 0 <= i < |ps| && ps[i] == p;
        assert cats[i] == c;
      }
    }
    CodeUnitLeTotalPreorder();
    InsertionSortSorted(Distinct(cats), CodeUnitLe);
    AtMostOnceNoDuplicates(sorted);
  }

  /** The categories B, A, B give the list All, A, B. */
  lemma UniqueCategoriesExample(a: Product, b1: Product, b2: Product)
    requires a.category == "A" && b1.category == "B" && b2.category == "B"
    ensures UniqueCategories([b1, a, b2]) == ["All", "A", "B"]
  {
    assert CategoriesOf([b1, a, b2]) == ["B", "A", "B"];
    DistinctExample();
    SortCategoriesExample();
  }

  /** The distinct categories of B, A, B are B, A, in order of first occurrence. */
  lemma DistinctExample()
    ensures Distinct(["B", "A", "B"]) == ["B", "A"]
  {
    assert ["B"][..0] == [];
    assert ["B", "A"][..1] == ["B"];
    assert ["B", "A", "B"][..2] == ["B", "A"];
  }

  /** B, A sort to A, B. */
  lemma SortCategoriesExample()
    ensures InsertionSort(["B", "A"], CodeUnitLe) == ["A", "B"]
  {
    assert ["B", "A"][1..] == ["A"];
    assert ["A"][1..] == [];
    assert CodeUnitLe("A", "B");
    assert !CodeUnitLe("B", "A");
  }

  // ---------------------------------------------------------------------------
  // Search and category filter

  /** A product matches when its lower-cased name contains the lower-cased term and the category filter admits it. */
  predicate MatchesQuery(p: Product, searchTerm: string, categoryFilter: string) {
    && Contains(Lower(p.name), Lower(searchTerm))
    && (categoryFilter == "All" || p.category == categoryFilter)
  }

  function Matcher(searchTerm: string, categoryFilter: string): Product -> bool {
    (p: Product) => MatchesQuery(p, searchTerm, categoryFilter)
  }

  /** `filterProducts`. */
  function FilterProducts(ps: seq<Product>, searchTerm: string, categoryFilter: string): seq<Product> {
    Filter(ps, Matcher(searchTerm, categoryFilter))
  }

  /**
   * The result is an order-preserving subsequence of the input; it keeps every
   * occurrence of a matching product and nothing else.
   */
  lemma FilterProductsSpec(ps: seq<Product>, searchTerm: string, categoryFilter: string)
    ensures var r := FilterProducts(ps, searchTerm, categoryFilter);
      && IsSubsequence(r, ps)
      && (forall i :: 0 <= i < |r| ==> MatchesQuery(r[i], searchTerm, categoryFilter))
      && (forall p :: multiset(r)[p] == if MatchesQuery(p, searchTerm, categoryFilter) then multiset(ps)[p] else 0)
  {
    FilterIsSubsequence(ps, Matcher(searchTerm, categoryFilter));
    FilterMultiset(ps, Matcher(searchTerm, categoryFilter));
  }

  /** An empty search with the "All" category keeps the collection as it is. */
  lemma {:induction false} FilterNothing(ps: seq<Product>)
    ensures FilterProducts(ps, "", "All") == ps
  {
    forall i | 0 <= i < |ps| ensures MatchesQuery(ps[i], "", "All") {
      ContainsEmpty(Lower(ps[i].name));
    }
    FilterKeepsAll(ps, Matcher("", "All"));
  }

  /** The case of the search term does not matter. */
  lemma SearchIgnoresCase(ps: seq<Product>, searchTerm: string, categoryFilter: string)
    ensures FilterProducts(ps, Lower(searchTerm), categoryFilter) == FilterProducts(ps, searchTerm, categoryFilter)
  {
    LowerIdempotent(searchTerm);
    FilterSameCondition(ps, Matcher(Lower(searchTerm), categoryFilter), Matcher(searchTerm, categoryFilter));
  }

  /** Searching "LAPTOP" finds a product named "Laptop Stand". */
  lemma SearchExample(p: Product)
    requires p.name == "Laptop Stand"
    ensures MatchesQuery(p, "LAPTOP", "All")
  {
    var name, term := Lower(p.name), Lower("LAPTOP");
    assert name[0] == term[0] == 'l';
    assert name[1] == term[1] == 'a';
    assert name[2] == term[2] == 'p';
    assert name[3] == term[3] == 't';
    assert name[4] == term[4] == 'o';
    assert name[5] == term[5] == 'p';
    assert name[0..6] == term;
    assert OccursAt(name, term, 0);
  }

  // ---------------------------------------------------------------------------
  // Sort

  /** `localeCompare` behaves as a total preorder on names when `collate(a, b) <= 0` is read as "a first". */
  ghost predicate IsCollation(collate: (string, string) -> int) {
    && (forall a, b :: collate(a, b) <= 0 || collate(b, a) <= 0)
    && (forall a, b, c :: collate(a, b) <= 0 && collate(b, c) <= 0 ==> collate(a, c) <= 0)
  }

  /** `(a, b) => a.name.localeCompare(b.name)`. */
  function NameAscending(collate: (string, string) -> int): (Product, Product) -> bool {
    (a: Product, b: Product) => collate(a.name, b.name) <= 0
  }

  /** `(a, b) => b.name.localeCompare(a.name)`. */
  function NameDescending(collate: (string, string) -> int): (Product, Product) -> bool {
    (a: Product, b: Product) => collate(b.name, a.name) <= 0
  }

  /** `(a, b) => a.price - b.price`. */
  predicate PriceAscending(a: Product, b: Product) {
    a.price - b.price <= 0.0
  }

  /** `(a, b) => b.price - a.price`. */
  predicate PriceDescending(a: Product, b: Product) {
    b.price - a.price <= 0.0
  }

  /** `(a, b) => (a.stock || 0) - (b.stock || 0)`. */
  predicate StockAscending(a: Product, b: Product) {
    StockOrZero(a) - StockOrZero(b) <= 0
  }

  /**
   * `sortProducts`: a sorted copy for the five known keys, the copy in its
   * original order for any other key. `collate` is `localeCompare`.
   */
  function SortProducts(ps: seq<Product>, sortBy: string, collate: (string, string) -> int): (r: seq<Product>)
    ensures multiset(r) == multiset(ps) && |r| == |ps|
  {
    assert |multiset(ps)| == |ps|;
    if sortBy == "name-asc" then InsertionSort(ps, NameAscending(collate))
    else if sortBy == "name-desc" then InsertionSort(ps, NameDescending(collate))
    else if sortBy == "price-asc" then InsertionSort(ps, PriceAscending)
    else if sortBy == "price-desc" then InsertionSort(ps, PriceDescending)
    else if sortBy == "stock-asc" then InsertionSort(ps, StockAscending)
    else ps
  }

  /** By price: non-decreasing for "price-asc", non-increasing for "price-desc". */
  lemma SortByPrice(ps: seq<Product>, collate: (string, string) -> int)
    ensures var r := SortProducts(ps, "price-asc", collate);
      forall i, j :: 0 <= i < j < |r| ==> r[i].price <= r[j].price
    ensures var r := SortProducts(ps, "price-desc", collate);
      forall i, j :: 0 <= i < j < |r| ==> r[i].price >= r[j].price
  {
    InsertionSortSorted(ps, PriceAscending);
    InsertionSortSorted(ps, PriceDescending);
  }

  /** By stock, absent and NaN read as 0: non-decreasing for "stock-asc". */
  lemma SortByStock(ps: seq<Product>, collate: (string, string) -> int)
    ensures var r := SortProducts(ps, "stock-asc", collate);
      forall i, j :: 0 <= i < j < |r| ==> StockOrZero(r[i]) <= StockOrZero(r[j])
  {
    InsertionSortSorted(ps, StockAscending);
  }

  /** By name, in the collation's order: ascending for "name-asc", descending for "name-desc". */
  lemma SortByName(ps: seq<Product>, collate: (string, string) -> int)
    requires IsCollation(collate)
    ensures var r := SortProducts(ps, "name-asc", collate);
      forall i, j :: 0 <= i < j < |r| ==> collate(r[i].name, r[j].name) <= 0
    ensures var r := SortProducts(ps, "name-desc", collate);
      forall i, j :: 0 <= i < j < |r| ==> collate(r[j].name, r[i].name) <= 0
  {
    var asc, desc := NameAscending(collate), NameDescending(collate);
    forall a, b ensures asc(a, b) || asc(b, a) {
      assert collate(a.name, b.name) <= 0 || collate(b.name, a.name) <= 0;
    }
    forall a, b, c | asc(a, b) && asc(b, c) ensures asc(a, c) {
      assert collate(a.name, b.name) <= 0 && collate(b.name, c.name) <= 0;
    }
    forall a, b ensures desc(a, b) || desc(b, a) {
      assert collate(a.name, b.name) <= 0 || collate(b.name, a.name) <= 0;
    }
    forall a, b, c | desc(a, b) && desc(b, c) ensures desc(a, c) {
      assert collate(c.name, b.name) <= 0 && collate(b.name, a.name) <= 0;
    }
    InsertionSortSorted(ps, asc);
    InsertionSortSorted(ps, desc);
  }

  /** An unknown key leaves the order as it was. */
  lemma SortUnknownKey(ps: seq<Product>, sortBy: string, collate: (string, string) -> int)
    requires sortBy !in {"name-asc", "name-desc", "price-asc", "price-desc", "stock-asc"}
    ensures SortProducts(ps, sortBy, collate) == ps
  {
  }

  /** The order `sortBy` asks for: by price, by stock, or by name in the collation's order; any other key asks for none. */
  ghost predicate InKeyOrder(r: seq<Product>, sortBy: string, collate: (string, string) -> int) {
    forall i, j :: 0 <= i < j < |r| ==>
      && (sortBy == "price-asc" ==> r[i].price <= r[j].price)
      && (sortBy == "price-desc" ==> r[i].price >= r[j].price)
      && (sortBy == "stock-asc" ==> StockOrZero(r[i]) <= StockOrZero(r[j]))
      && (sortBy == "name-asc" ==> collate(r[i].name, r[j].name) <= 0)
      && (sortBy == "name-desc" ==> collate(r[j].name, r[i].name) <= 0)
  }

  /** Whatever the key, the sorted list is in the order that key asks for. */
  lemma SortProductsOrder(ps: seq<Product>, sortBy: string, collate: (string, string) -> int)
    requires IsCollation(collate)
    ensures InKeyOrder(SortProducts(ps, sortBy, collate), sortBy, collate)
  {
    if sortBy == "price-asc" || sortBy == "price-desc" {
      SortByPrice(ps, collate);
    } else if sortBy == "stock-asc" {
      SortByStock(ps, collate);
    } else if sortBy == "name-asc" || sortBy == "name-desc" {
      SortByName(ps, collate);
    }
  }

  // ---------------------------------------------------------------------------
  // Analytics

  datatype Analytics = Analytics(totalProducts: nat, totalStock: int, totalValue: real, lowStockCount: nat)

  /** Low stock: a positive stock below the threshold; zero, absent and NaN stock are not low. */
  predicate IsLowStock(p: Product) {
    StockOrZero(p) < LowStockThreshold && StockOrZero(p) > 0
  }

  /** `p.price * (p.stock || 0)`. */
  function StockValue(p: Product): real {
    p.price * StockOrZero(p) as real
  }

  /** `calculateAnalytics`. */
  function CalculateAnalytics(ps: seq<Product>): (a: Analytics)
    ensures a.totalProducts == |ps|
    ensures a.lowStockCount <= a.totalProducts
    ensures a.lowStockCount == |Positions(ps, IsLowStock)|
  {
    FilterLengthCountsIndices(ps, IsLowStock);
    Analytics(|ps|, SumInt(ps, StockOrZero), SumReal(ps, StockValue), |Filter(ps, IsLowStock)|)
  }

  /** Appending a product adds its share to every figure. */
  lemma {:induction false} AnalyticsAppend(ps: seq<Product>, p: Product)
    ensures var before, after := CalculateAnalytics(ps), CalculateAnalytics(ps + [p]);
      && after.totalProducts == before.totalProducts + 1
      && after.totalStock == before.totalStock + StockOrZero(p)
      && after.totalValue == before.totalValue + StockValue(p)
      && after.lowStockCount == before.lowStockCount + (if IsLowStock(p) then 1 else 0)
  {
    assert (ps + [p])[..|ps|] == ps;
    FilterConcat(ps, [p], IsLowStock);
  }

  /** The figures do not depend on the order of the collection (so not on the sort key). */
  lemma {:induction false} AnalyticsIgnoreOrder(a: seq<Product>, b: seq<Product>)
    requires multiset(a) == multiset(b)
    ensures CalculateAnalytics(a) == CalculateAnalytics(b)
  {
    assert |a| == |multiset(a)| == |multiset(b)| == |b|;
    SumIntPermutation(a, b, StockOrZero);
    SumRealPermutation(a, b, StockValue);
    var fa, fb := Filter(a, IsLowStock), Filter(b, IsLowStock);
    FilterMultiset(a, IsLowStock);
    FilterMultiset(b, IsLowStock);
    assert multiset(fa) == multiset(fb);
    assert |fa| == |multiset(fa)| == |multiset(fb)| == |fb|;
  }

  /** The seed set: ten products, 643 units in stock, three of them low (stocks 8, 3 and 2). */
  lemma DefaultAnalytics()
    ensures CalculateAnalytics(DefaultProducts()).totalProducts == 10
    ensures CalculateAnalytics(DefaultProducts()).totalStock == 643
    ensures CalculateAnalytics(DefaultProducts()).lowStockCount == 3
    ensures var d := DefaultProducts(); Filter(d, IsLowStock) == [d[1], d[3], d[8]]
  {
    DefaultStockTotal();
    DefaultLowStock();
  }

  lemma DefaultStockTotal()
    ensures SumInt(DefaultProducts(), StockOrZero) == 643
  {
    DefaultProductsWellFormed();
    StocksAddUp(DefaultProducts(), SeedStocks);
    SeedStocksTotal();
  }

  /** 45 + 8 + 120 + 3 + 67 + 15 + 250 + 95 + 2 + 38 == 643. */
  lemma SeedStocksTotal()
    ensures SumInt(SeedStocks, Units) == 643
  {
    var s := SeedStocks;
    assert s[..0] == [];
    SumIntSnoc(s, 0, Units);
    SumIntSnoc(s, 1, Units);
    SumIntSnoc(s, 2, Units);
    SumIntSnoc(s, 3, Units);
    SumIntSnoc(s, 4, Units);
    SumIntSnoc(s, 5, Units);
    SumIntSnoc(s, 6, Units);
    SumIntSnoc(s, 7, Units);
    SumIntSnoc(s, 8, Units);
    SumIntSnoc(s, 9, Units);
    assert s[..10] == s;
  }

  lemma DefaultLowStock()
    ensures var d := DefaultProducts(); Filter(d, IsLowStock) == [d[1], d[3], d[8]]
  {
    DefaultProductsWellFormed();
    SeedLowStock(DefaultProducts());
    LowAtOneThreeEight(DefaultProducts());
  }

  /** A stock count as a number to add up. */
  function Units(n: nat): int {
    n
  }

  /** Products whose stocks are the counts of a table hold, together, the sum of the table. */
  lemma {:induction false} StocksAddUp(d: seq<Product>, stocks: seq<nat>)
    requires |d| == |stocks| && forall i :: 0 <= i < |d| ==> d[i].stock == Count(stocks[i])
    ensures SumInt(d, StockOrZero) == SumInt(stocks, Units)
  {
    if d != [] {
      var n := |d| - 1;
      StocksAddUp(d[..n], stocks[..n]);
    }
  }

  /** Ten products with the seed stocks: exactly the second, fourth and ninth are low on stock. */
  lemma SeedLowStock(d: seq<Product>)
    requires |d| == 10 && forall i :: 0 <= i < 10 ==> d[i].stock == Count(SeedStocks[i])
    ensures !IsLowStock(d[0]) && IsLowStock(d[1]) && !IsLowStock(d[2]) && IsLowStock(d[3]) && !IsLowStock(d[4])
    ensures !IsLowStock(d[5]) && !IsLowStock(d[6]) && !IsLowStock(d[7]) && IsLowStock(d[8]) && !IsLowStock(d[9])
  {
  }

  /** Ten products of which exactly the second, fourth and ninth are low on stock. */
  lemma LowAtOneThreeEight(d: seq<Product>)
    requires |d| == 10
    requires !IsLowStock(d[0]) && IsLowStock(d[1]) && !IsLowStock(d[2]) && IsLowStock(d[3]) && !IsLowStock(d[4])
    requires !IsLowStock(d[5]) && !IsLowStock(d[6]) && !IsLowStock(d[7]) && IsLowStock(d[8]) && !IsLowStock(d[9])
    ensures Filter(d, IsLowStock) == [d[1], d[3], d[8]]
  {
    LowAtEightOfTheLastSix(d);
    FilterStep(d, 3, IsLowStock);
    assert Filter(d[3..], IsLowStock) == [d[3], d[8]];
    FilterStep(d, 2, IsLowStock);
    assert Filter(d[2..], IsLowStock) == [d[3], d[8]];
    FilterStep(d, 1, IsLowStock);
    assert Filter(d[1..], IsLowStock) == [d[1], d[3], d[8]];
    FilterStep(d, 0, IsLowStock);
    assert d[0..] == d;
  }

  lemma LowAtEightOfTheLastSix(d: seq<Product>)
    requires |d| == 10
    requires !IsLowStock(d[4]) && !IsLowStock(d[5]) && !IsLowStock(d[6]) && !IsLowStock(d[7]) && IsLowStock(d[8]) && !IsLowStock(d[9])
    ensures Filter(d[4..], IsLowStock) == [d[8]]
  {
    assert d[10..] == [];
    FilterStep(d, 9, IsLowStock);
    FilterStep(d, 8, IsLowStock);
    assert Filter(d[8..], IsLowStock) == [d[8]];
    FilterStep(d, 7, IsLowStock);
    FilterStep(d, 6, IsLowStock);
    assert Filter(d[6..], IsLowStock) == [d[8]];
    FilterStep(d, 5, IsLowStock);
    FilterStep(d, 4, IsLowStock);
  }
}
