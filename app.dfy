/**
 * The dashboard controller (project/src/App.tsx): the collection and view
 * state, the handlers that add, edit and delete products and keep the store in
 * step, the toast list, the page slice and page count of the filtered and
 * sorted view, and the effects that send the view back to page 1.
 */
module Dashboard {
  import opened Optional
  import opened Strings
  import opened Seqs
  import opened Storage
  import opened Helpers
  import opened Validation
  import opened ProductFormModel

  /** `'success' | 'error' | 'warning'`. */
  datatype ToastKind = Success | Error | Warning

  datatype Toast = Toast(id: string, message: string, kind: ToastKind)

  const ItemsPerPage := 9

  const DeletedMessage := "Product deleted successfully"
  const UpdatedMessage := "Product updated successfully"
  const AddedMessage := "Product added successfully"

  // ---------------------------------------------------------------------------
  // Collection operations

  /** `p => p.id !== id`. */
  function IdIsNot(id: string): Product -> bool {
    (p: Product) => p.id != id
  }

  /** `p => p.id === id`. */
  function IdIs(id: string): Product -> bool {
    (p: Product) => p.id == id
  }

  /** `products.filter(p => p.id !== id)`. */
  function RemoveById(ps: seq<Product>, id: string): (r: seq<Product>)
    ensures forall i :: 0 <= i < |r| ==> r[i].id != id
  {
    Filter(ps, IdIsNot(id))
  }

  /**
   * Deleting keeps the other products in their order, every occurrence of
   * each, and changes nothing when no product has the id.
   */
  lemma RemoveByIdSpec(ps: seq<Product>, id: string)
    ensures IsSubsequence(RemoveById(ps, id), ps)
    ensures forall p :: multiset(RemoveById(ps, id))[p] == if p.id != id then multiset(ps)[p] else 0
    ensures (forall i :: 0 <= i < |ps| ==> ps[i].id != id) <==> RemoveById(ps, id) == ps
  {
    FilterIsSubsequence(ps, IdIsNot(id));
    FilterMultiset(ps, IdIsNot(id));
    FilterKeepsAll(ps, IdIsNot(id));
  }

  /** Deleting takes exactly the deleted products' share out of the totals. */
  lemma {:induction false} RemoveByIdAnalytics(ps: seq<Product>, id: string)
    ensures var before, after, gone := CalculateAnalytics(ps), CalculateAnalytics(RemoveById(ps, id)), Filter(ps, IdIs(id));
      && before.totalProducts == after.totalProducts + |gone|
      && before.totalStock == after.totalStock + SumInt(gone, StockOrZero)
      && before.totalValue == after.totalValue + SumReal(gone, StockValue)
  {
    FilterComplementLength(ps, IdIsNot(id), IdIs(id));
    SumIntPartition(ps, IdIsNot(id), IdIs(id), StockOrZero);
    SumRealPartition(ps, IdIsNot(id), IdIs(id), StockValue);
  }

  /** `p.id === id ? { ...data, id } : p`. */
  function ReplaceWhenId(id: string, data: ProductData): Product -> Product {
    (p: Product) => if p.id == id then WithId(data, id) else p
  }

  /** `products.map(p => p.id === id ? { ...data, id } : p)`. */
  function ReplaceById(ps: seq<Product>, id: string, data: ProductData): (r: seq<Product>)
    ensures |r| == |ps|
    ensures forall i :: 0 <= i < |ps| ==> r[i] == if ps[i].id == id then WithId(data, id) else ps[i]
  {
    Map(ReplaceWhenId(id, data), ps)
  }

  /** Editing keeps every position's id, and changes nothing when no product has the id. */
  lemma ReplaceByIdSpec(ps: seq<Product>, id: string, data: ProductData)
    ensures forall i :: 0 <= i < |ps| ==> ReplaceById(ps, id, data)[i].id == ps[i].id
    ensures (forall i :: 0 <= i < |ps| ==> ps[i].id != id) ==> ReplaceById(ps, id, data) == ps
  {
  }

  /** `toasts.filter(t => t.id !== id)`. */
  function RemoveToastById(ts: seq<Toast>, id: string): (r: seq<Toast>)
    ensures forall i :: 0 <= i < |r| ==> r[i].id != id
  {
    Filter(ts, (t: Toast) => t.id != id)
  }

  /** Dismissing a toast removes exactly the toasts with that id and keeps the others in order. */
  lemma RemoveToastSpec(ts: seq<Toast>, id: string)
    ensures IsSubsequence(RemoveToastById(ts, id), ts)
    ensures forall t :: multiset(RemoveToastById(ts, id))[t] == if t.id != id then multiset(ts)[t] else 0
  {
    FilterIsSubsequence(ts, (t: Toast) => t.id != id);
    FilterMultiset(ts, (t: Toast) => t.id != id);
  }

  // ---------------------------------------------------------------------------
  // Pages

  /** `Math.ceil(n / itemsPerPage)`. */
  function TotalPages(n: nat): (r: nat)
    ensures n <= r * ItemsPerPage
    ensures n > 0 ==> (r - 1) * ItemsPerPage < n
    ensures n == 0 <==> r == 0
  {
    (n + ItemsPerPage - 1) / ItemsPerPage
  }

  /** Where `slice` starts or ends for an index that may be negative or past the end. */
  function ClampIndex(i: int, len: nat): (r: nat)
    ensures r <= len
    ensures 0 <= i <= len ==> r == i
    ensures i > len ==> r == len
    ensures i < 0 ==> r == if len + i < 0 then 0 else len + i
  {
    if i < 0 then (if len + i < 0 then 0 else len + i)
    else if i > len then len
    else i
  }

  /** `s.slice(start, end)`. */
  function JsSlice<T>(s: seq<T>, start: int, end: int): seq<T> {
    var from, to := ClampIndex(start, |s|), ClampIndex(end, |s|);
    if from < to then s[from..to] else []
  }

  /** `paginatedProducts`: `s.slice((page - 1) * 9, (page - 1) * 9 + 9)`. */
  function PageSlice<T>(s: seq<T>, page: int): seq<T> {
    var start := (page - 1) * ItemsPerPage;
    JsSlice(s, start, start + ItemsPerPage)
  }

  function Min(a: int, b: int): int {
    if a <= b then a else b
  }

  /** A page holds at most nine items, whatever the page number. */
  lemma PageAtMostNine<T>(s: seq<T>, page: int)
    ensures |PageSlice(s, page)| <= ItemsPerPage
  {
  }

  /** From page 1 on, page `p` is the run of items `(p - 1) * 9` up to `p * 9`, cut at the end. */
  lemma PageWindow<T>(s: seq<T>, page: int)
    requires page >= 1
    ensures PageSlice(s, page) == s[Min((page - 1) * ItemsPerPage, |s|)..Min(page * ItemsPerPage, |s|)]
  {
  }

  function Max(a: int, b: int): int {
    if a >= b then a else b
  }

  /** A negative index counts from the end: before page 1 the window is taken that many items from the end. */
  lemma PageBeforeFirst<T>(s: seq<T>, page: int)
    requires page < 0
    ensures PageSlice(s, page) == s[Max(|s| + (page - 1) * ItemsPerPage, 0)..Max(|s| + page * ItemsPerPage, 0)]
  {
  }

  /** `slice` reads negative indices from the end. */
  lemma SliceFromEnd<T>(s: seq<T>, start: int, end: int)
    requires -|s| <= start < 0 && -|s| <= end < 0
    ensures JsSlice(s, start, end) == JsSlice(s, |s| + start, |s| + end)
  {
  }

  /** A page past the last one is empty: the page number is not clamped. */
  lemma PagePastEnd<T>(s: seq<T>, page: int)
    requires page > TotalPages(|s|)
    ensures PageSlice(s, page) == []
  {
  }

  /** Every item is on exactly the page its index says, and that page exists. */
  lemma PageOfIndex<T>(s: seq<T>, i: nat)
    requires i < |s|
    ensures 1 <= i / ItemsPerPage + 1 <= TotalPages(|s|)
    ensures PageSlice(s, i / ItemsPerPage + 1)[i % ItemsPerPage] == s[i]
  {
    var page := i / ItemsPerPage + 1;
    PageWindow(s, page);
  }

  /** Ten items make two pages: nine, then the tenth alone. */
  lemma TenItems<T>(s: seq<T>)
    requires |s| == 10
    ensures TotalPages(|s|) == 2
    ensures PageSlice(s, 1) == s[..9]
    ensures PageSlice(s, 2) == [s[9]]
  {
    PageWindow(s, 1);
    PageWindow(s, 2);
  }

  // ---------------------------------------------------------------------------
  // Controller state and its transitions

  /** The controller's state hooks. */
  datatype AppState = AppState(
    products: seq<Product>,
    loading: bool,
    searchTerm: string,
    debouncedSearchTerm: string,
    categoryFilter: string,
    sortBy: string,
    currentPage: int,
    isModalOpen: bool,
    editingProduct: Option<Product>,
    toasts: seq<Toast>)

  /** The first render: no products yet, loading, no search, all categories, by name, page 1. */
  function Initial(): AppState {
    AppState([], true, "", "", "All", "name-asc", 1, false, None, [])
  }

  /** The mount effect: the loaded collection, no longer loading. */
  function Mounted(s: AppState, loaded: seq<Product>): AppState {
    s.(products := loaded, loading := false)
  }

  /** The debounce timer fires: the search applies and the view goes back to page 1. */
  function DebounceFired(s: AppState): AppState {
    s.(debouncedSearchTerm := s.searchTerm, currentPage := 1)
  }

  /** A new category filter; the effect on `[categoryFilter, sortBy]` resets the page when it changed. */
  function WithCategoryFilter(s: AppState, category: string): AppState {
    s.(categoryFilter := category, currentPage := if category != s.categoryFilter then 1 else s.currentPage)
  }

  /** A new sort key; the same effect resets the page when it changed. */
  function WithSortBy(s: AppState, sortBy: string): AppState {
    s.(sortBy := sortBy, currentPage := if sortBy != s.sortBy then 1 else s.currentPage)
  }

  /** `showToast`: a toast appended. */
  function WithToast(s: AppState, message: string, kind: ToastKind, id: string): AppState {
    s.(toasts := s.toasts + [Toast(id, message, kind)])
  }

  /** `handleDeleteProduct`: when confirmed, the product is gone and a toast says so. */
  function AfterDelete(s: AppState, id: string, confirmed: bool, toastId: string): AppState {
    if confirmed then WithToast(s.(products := RemoveById(s.products, id)), DeletedMessage, Success, toastId)
    else s
  }

  /**
   * `handleSubmitProduct`: the edited product replaced (keeping its id) or the
   * new one appended, a toast, and the form closed.
   */
  function AfterSubmit(s: AppState, data: ProductData, newId: string, toastId: string): AppState {
    var saved :=
      match s.editingProduct
      case Some(e) => WithToast(s.(products := ReplaceById(s.products, e.id, data)), UpdatedMessage, Success, toastId)
      case None => WithToast(s.(products := s.products + [WithId(data, newId)]), AddedMessage, Success, toastId);
    saved.(isModalOpen := false, editingProduct := None)
  }

  /** The products shown: filtered by the applied search and the category, then sorted. */
  function Visible(s: AppState, collate: (string, string) -> int): seq<Product> {
    SortProducts(FilterProducts(s.products, s.debouncedSearchTerm, s.categoryFilter), s.sortBy, collate)
  }

  /** A confirmed delete removes the id and announces it; an unconfirmed one changes nothing. */
  lemma DeleteSpec(s: AppState, id: string, confirmed: bool, toastId: string)
    ensures var t := AfterDelete(s, id, confirmed, toastId);
      && (!confirmed ==> t == s)
      && (confirmed ==> && t.products == RemoveById(s.products, id)
                        && t.toasts == s.toasts + [Toast(toastId, DeletedMessage, Success)]
                        && t.(products := s.products, toasts := s.toasts) == s)
  {
  }

  /** After any submit the form is closed, nothing is being edited, and one success toast is added. */
  lemma SubmitClosesForm(s: AppState, data: ProductData, newId: string, toastId: string)
    ensures var t := AfterSubmit(s, data, newId, toastId);
      && !t.isModalOpen && t.editingProduct == None
      && |t.toasts| == |s.toasts| + 1 && t.toasts[..|s.toasts|] == s.toasts
      && t.toasts[|s.toasts|].kind == Success
      && t.toasts[|s.toasts|].message == if s.editingProduct.Some? then UpdatedMessage else AddedMessage
  {
    var t := AfterSubmit(s, data, newId, toastId);
    assert t.toasts[..|s.toasts|] == s.toasts;
  }

  /** Adding appends exactly one product, carrying the new id, after the others in their places. */
  lemma {:induction false} AddAppends(s: AppState, data: ProductData, newId: string, toastId: string)
    requires s.editingProduct.None?
    ensures var ps, qs := s.products, AfterSubmit(s, data, newId, toastId).products;
      && |qs| == |ps| + 1 && qs[..|ps|] == ps && qs[|ps|] == WithId(data, newId)
      && CalculateAnalytics(qs).totalStock == CalculateAnalytics(ps).totalStock + StockOrZero(qs[|ps|])
      && CalculateAnalytics(qs).lowStockCount == CalculateAnalytics(ps).lowStockCount + (if IsLowStock(qs[|ps|]) then 1 else 0)
  {
    var ps, qs := s.products, AfterSubmit(s, data, newId, toastId).products;
    assert qs == ps + [WithId(data, newId)];
    assert qs[..|ps|] == ps;
    AnalyticsAppend(ps, WithId(data, newId));
  }

  /** Editing replaces the edited product by the new data under the same id and leaves every other entry as it was. */
  lemma EditReplaces(s: AppState, data: ProductData, newId: string, toastId: string)
    requires s.editingProduct.Some?
    ensures var id, ps, qs := s.editingProduct.value.id, s.products, AfterSubmit(s, data, newId, toastId).products;
      && |qs| == |ps|
      && (forall i :: 0 <= i < |ps| ==> qs[i].id == ps[i].id)
      && (forall i :: 0 <= i < |ps| && ps[i].id == id ==> qs[i] == WithId(data, id))
      && (forall i :: 0 <= i < |ps| && ps[i].id != id ==> qs[i] == ps[i])
      && ((forall i :: 0 <= i < |ps| ==> ps[i].id != id) ==> qs == ps)
  {
    ReplaceByIdSpec(s.products, s.editingProduct.value.id, data);
  }

  /** Changing the category or the sort key returns to page 1; keeping it keeps the page; applying the search returns to page 1. */
  lemma PageResets(s: AppState, category: string, sortBy: string)
    ensures category != s.categoryFilter ==> WithCategoryFilter(s, category).currentPage == 1
    ensures category == s.categoryFilter ==> WithCategoryFilter(s, category) == s
    ensures sortBy != s.sortBy ==> WithSortBy(s, sortBy).currentPage == 1
    ensures sortBy == s.sortBy ==> WithSortBy(s, sortBy) == s
    ensures DebounceFired(s).currentPage == 1 && DebounceFired(s).debouncedSearchTerm == s.searchTerm
  {
  }

  /** The view is a reordering of exactly the matching products. */
  lemma VisibleSpec(s: AppState, collate: (string, string) -> int)
    ensures var v := Visible(s, collate);
      && (forall p :: multiset(v)[p] == if MatchesQuery(p, s.debouncedSearchTerm, s.categoryFilter) then multiset(s.products)[p] else 0)
      && (forall i :: 0 <= i < |v| ==> v[i] in s.products && MatchesQuery(v[i], s.debouncedSearchTerm, s.categoryFilter))
      && (IsCollation(collate) ==> InKeyOrder(v, s.sortBy, collate))
      && (s.sortBy !in {"name-asc", "name-desc", "price-asc", "price-desc", "stock-asc"} ==>
            v == FilterProducts(s.products, s.debouncedSearchTerm, s.categoryFilter))
  {
    var f := FilterProducts(s.products, s.debouncedSearchTerm, s.categoryFilter);
    var v := Visible(s, collate);
    FilterProductsSpec(s.products, s.debouncedSearchTerm, s.categoryFilter);
    if IsCollation(collate) {
      SortProductsOrder(f, s.sortBy, collate);
    }
    if s.sortBy !in {"name-asc", "name-desc", "price-asc", "price-desc", "stock-asc"} {
      SortUnknownKey(f, s.sortBy, collate);
    }
    forall i | 0 <= i < |v| ensures v[i] in s.products && MatchesQuery(v[i], s.debouncedSearchTerm, s.categoryFilter) {
      assert v[i] in multiset(v);
    }
  }

  /** The categories the form offers are exactly the products' categories, when none of them is "All". */
  lemma FormCategories(ps: seq<Product>)
    requires forall i :: 0 <= i < |ps| ==> ps[i].category != "All"
    ensures forall c :: c in AvailableCategories(UniqueCategories(ps)) <==> exists p :: p in ps && p.category == c
  {
    UniqueCategoriesSpec(ps);
    AvailableAfterAll(UniqueCategories(ps));
    forall p | p in ps ensures p.category != "All" {
      var i :| 0 <= i < |ps| && ps[i] == p;
    }
  }

  /** Behind a leading "All", the form offers the rest of the list except "All". */
  lemma AvailableAfterAll(r: seq<string>)
    requires |r| >= 1 && r[0] == "All"
    ensures forall c :: c in AvailableCategories(r) <==> c in r[1..] && c != "All"
  {
    forall c ensures c in AvailableCategories(r) <==> c in r[1..] && c != "All" {
      if c in r && c != "All" {
        var k :| 0 <= k < |r| && r[k] == c;
        assert r[1..][k - 1] == c;
      }
    }
  }

  // ---------------------------------------------------------------------------
  // The controller

  /** The `App` component: its state hooks, the store it persists to, and the name collation it sorts with. */
  class App {
    var products: seq<Product>
    var loading: bool
    var searchTerm: string
    var debouncedSearchTerm: string
    var categoryFilter: string
    var sortBy: string
    var currentPage: int
    var isModalOpen: bool
    var editingProduct: Option<Product>
    var toasts: seq<Toast>
    const store: BrowserStore
    /** `localeCompare` on product names. */
    const collate: (string, string) -> int

    /** The state hooks as one value. */
    function Snapshot(): AppState
      reads this
    {
      AppState(products, loading, searchTerm, debouncedSearchTerm, categoryFilter, sortBy,
        currentPage, isModalOpen, editingProduct, toasts)
    }

    constructor (store: BrowserStore, collate: (string, string) -> int)
      ensures Snapshot() == Initial() && this.store == store && this.collate == collate
    {
      products := [];
      loading := true;
      searchTerm := "";
      debouncedSearchTerm := "";
      categoryFilter := "All";
      sortBy := "name-asc";
      currentPage := 1;
      isModalOpen := false;
      editingProduct := None;
      toasts := [];
      this.store := store;
      this.collate := collate;
    }

    /** The mount effect: load the collection and leave the loading state. */
    method Mount()
      modifies this
      ensures Snapshot() == Mounted(old(Snapshot()), LoadFrom(GetItem(store.items, StorageKey), store.codec))
    {
      var loaded := store.Load();
      products := loaded;
      loading := false;
    }

    /** Typing in the search box: only the raw term changes. */
    method SetSearchTerm(term: string)
      modifies this
      ensures Snapshot() == old(Snapshot()).(searchTerm := term)
    {
      searchTerm := term;
    }

    /** The debounce timer fires after the typing has stopped. */
    method DebounceElapsed()
      modifies this
      ensures Snapshot() == DebounceFired(old(Snapshot()))
    {
      debouncedSearchTerm := searchTerm;
      currentPage := 1;
    }

    method SetCategoryFilter(category: string)
      modifies this
      ensures Snapshot() == WithCategoryFilter(old(Snapshot()), category)
    {
      if category != categoryFilter {
        currentPage := 1;
      }
      categoryFilter := category;
    }

    method SetSortBy(key: string)
      modifies this
      ensures Snapshot() == WithSortBy(old(Snapshot()), key)
    {
      if key != sortBy {
        currentPage := 1;
      }
      sortBy := key;
    }

    /** The pagination control's page change. */
    method SetPage(page: int)
      modifies this
      ensures Snapshot() == old(Snapshot()).(currentPage := page)
    {
      currentPage := page;
    }

    /** `showToast`; `id` is what `generateId` returned. */
    method ShowToast(message: string, kind: ToastKind, id: string)
      modifies this
      ensures Snapshot() == WithToast(old(Snapshot()), message, kind, id)
    {
      toasts := toasts + [Toast(id, message, kind)];
    }

    /** `removeToast`. */
    method RemoveToast(id: string)
      modifies this
      ensures Snapshot() == old(Snapshot()).(toasts := RemoveToastById(old(toasts), id))
    {
      toasts := RemoveToastById(toasts, id);
    }

    method HandleAddProduct()
      modifies this
      ensures Snapshot() == old(Snapshot()).(editingProduct := None, isModalOpen := true)
    {
      editingProduct := None;
      isModalOpen := true;
    }

    method HandleEditProduct(p: Product)
      modifies this
      ensures Snapshot() == old(Snapshot()).(editingProduct := Some(p), isModalOpen := true)
    {
      editingProduct := Some(p);
      isModalOpen := true;
    }

    method HandleCancelForm()
      modifies this
      ensures Snapshot() == old(Snapshot()).(isModalOpen := false, editingProduct := None)
    {
      isModalOpen := false;
      editingProduct := None;
    }

    /**
     * `handleDeleteProduct`: `confirmed` is the answer to `window.confirm`,
     * `writeSucceeds` whether `setItem` succeeds, `toastId` the toast's id.
     */
    method HandleDeleteProduct(id: string, confirmed: bool, toastId: string, writeSucceeds: bool)
      modifies this, store
      ensures Snapshot() == AfterDelete(old(Snapshot()), id, confirmed, toastId)
      ensures confirmed ==> store.items == SavedItems(old(store.items), store.codec, products, writeSucceeds)
      ensures !confirmed ==> store.items == old(store.items)
    {
      if confirmed {
        var updated := RemoveById(products, id);
        products := updated;
        store.Save(updated, writeSucceeds);
        ShowToast(DeletedMessage, Success, toastId);
      }
    }

    /** `handleSubmitProduct`: `newId` is what `generateId` returned for an added product. */
    method HandleSubmitProduct(data: ProductData, newId: string, toastId: string, writeSucceeds: bool)
      modifies this, store
      ensures Snapshot() == AfterSubmit(old(Snapshot()), data, newId, toastId)
      ensures store.items == SavedItems(old(store.items), store.codec, products, writeSucceeds)
    {
      var updated;
      if editingProduct.Some? {
        updated := ReplaceById(products, editingProduct.value.id, data);
        products := updated;
        store.Save(updated, writeSucceeds);
        ShowToast(UpdatedMessage, Success, toastId);
      } else {
        updated := products + [WithId(data, newId)];
        products := updated;
        store.Save(updated, writeSucceeds);
        ShowToast(AddedMessage, Success, toastId);
      }
      isModalOpen := false;
      editingProduct := None;
    }

    /**
     * The form's submit wired to `handleSubmitProduct`: `submitted` is what the
     * form handed on; invalid text changes nothing here.
     */
    method SubmitForm(form: ProductForm, newId: string, toastId: string, writeSucceeds: bool)
      returns (submitted: Option<ProductData>)
      modifies this, store, form
      ensures form.formData == old(form.formData) && submitted == Submission(form.formData)
      ensures submitted.None? ==> Snapshot() == old(Snapshot()) && store.items == old(store.items)
      ensures submitted.None? ==> form.errors == ValidateProduct(form.formData)
      ensures submitted.Some? ==>
        && Snapshot() == AfterSubmit(old(Snapshot()), submitted.value, newId, toastId)
        && store.items == SavedItems(old(store.items), store.codec, products, writeSucceeds)
        && form.errors == old(form.errors)
    {
      assert store as object != form as object;
      SubmitOutcomeCases(form.formData, form.errors);
      submitted := form.HandleSubmit();
      if submitted.Some? {
        HandleSubmitProduct(submitted.value, newId, toastId, writeSucceeds);
      }
    }

    /** `filteredAndSortedProducts`. */
    function VisibleProducts(): (r: seq<Product>)
      reads this
      ensures forall p :: multiset(r)[p] == if MatchesQuery(p, debouncedSearchTerm, categoryFilter) then multiset(products)[p] else 0
      ensures forall i :: 0 <= i < |r| ==> r[i] in products && MatchesQuery(r[i], debouncedSearchTerm, categoryFilter)
      ensures IsCollation(collate) ==> InKeyOrder(r, sortBy, collate)
      ensures sortBy !in {"name-asc", "name-desc", "price-asc", "price-desc", "stock-asc"} ==>
                r == FilterProducts(products, debouncedSearchTerm, categoryFilter)
    {
      VisibleSpec(Snapshot(), collate);
      Visible(Snapshot(), collate)
    }

    /** `paginatedProducts`: the current page of the visible products (`Visible(Snapshot(), collate)` is `VisibleProducts()`). */
    function PaginatedProducts(): (r: seq<Product>)
      reads this
      ensures |r| <= ItemsPerPage
      ensures var v := Visible(Snapshot(), collate);
        currentPage >= 1 ==> r == v[Min((currentPage - 1) * ItemsPerPage, |v|)..Min(currentPage * ItemsPerPage, |v|)]
      ensures currentPage == 0 ==> r == []
      ensures var v := Visible(Snapshot(), collate);
        currentPage < 0 ==> r == v[Max(|v| + (currentPage - 1) * ItemsPerPage, 0)..Max(|v| + currentPage * ItemsPerPage, 0)]
    {
      var v := Visible(Snapshot(), collate);
      PageAtMostNine(v, currentPage);
      if currentPage >= 1 then
        PageWindow(v, currentPage);
        PageSlice(v, currentPage)
      else if currentPage < 0 then
        PageBeforeFirst(v, currentPage);
        PageSlice(v, currentPage)
      else
        PageSlice(v, currentPage)
    }

    /** `totalPages`. */
    function PageCount(): (r: nat)
      reads this
      ensures |VisibleProducts()| <= r * ItemsPerPage
      ensures |VisibleProducts()| > 0 ==> (r - 1) * ItemsPerPage < |VisibleProducts()|
      ensures r == 0 <==> |VisibleProducts()| == 0
    {
      TotalPages(|VisibleProducts()|)
    }

    /** `categories`: the list for the toolbar and the form. */
    function Categories(): (r: seq<string>)
      reads this
      ensures |r| >= 1 && r[0] == "All"
      ensures forall c :: c in r[1..] <==> exists p :: p in products && p.category == c
      ensures forall i, j :: 1 <= i < j < |r| ==> CodeUnitLe(r[i], r[j]) && r[i] != r[j]
    {
      UniqueCategoriesSpec(products);
      UniqueCategories(products)
    }

    /** `analytics`. */
    function CurrentAnalytics(): (a: Analytics)
      reads this
      ensures a.totalProducts == |products| && a.lowStockCount <= a.totalProducts
      ensures a.totalStock == SumInt(products, StockOrZero) && a.totalValue == SumReal(products, StockValue)
      ensures a.lowStockCount == |Positions(products, IsLowStock)|
    {
      CalculateAnalytics(products)
    }
  }
}
