# Product dashboard inventory logic, in Dafny

This project models the client-side inventory logic of a React product
dashboard. The dashboard keeps a collection of products. Each product has an
id, a name, a price, a category, an optional stock and an optional
description. The collection is stored as one JSON blob in the browser's
local storage.

The model covers:

- the query pipeline: the category list with its `"All"` entry, the search
  and category filter, and the five sort keys;
- the inventory statistics: product count, total stock, stock value and
  low-stock count;
- the form validator and the form that turns typed text into a product;
- load and save against the store, with the ten-product seed set;
- the controller's handlers for add, edit, delete, toasts, the page slice
  and page count, and the page-reset effects.

Modules follow the source files:

| module | file | source |
|---|---|---|
| `Storage` | `storage.dfy` | `project/src/utils/storage.ts` |
| `Helpers` | `helpers.dfy` | `project/src/utils/helpers.ts` |
| `Validation` | `validation.dfy` | `project/src/utils/validation.ts` |
| `ProductFormModel` | `product_form.dfy` | `project/src/components/ProductForm.tsx` |
| `Dashboard` | `app.dfy` | `project/src/App.tsx` |

The JavaScript built-ins they rely on are modelled in four support modules:

- `Strings`: `trim`, `toLowerCase`, `includes` and the default sort order;
- `Numbers`: `parseFloat` and `parseInt`;
- `Seqs`: `filter`, `map`, `reduce` to a sum, and `new Set`;
- `Sorting`: `Array.prototype.sort` as a stable insertion sort.

How the model is built:

- **Pure code is functions and lemmas.** `helpers.ts` and `validation.ts`
  are pure, so they become functions with lemmas about them.
- **Stateful code is classes.** The browser store (`Storage.BrowserStore`),
  the form component (`ProductFormModel.ProductForm`) and the `App` component
  (`Dashboard.App`) are classes whose methods update their fields. Each
  controller handler is proved equal to a pure transition on an `AppState`
  value (`AfterDelete`, `AfterSubmit`, `WithCategoryFilter`, ...). The
  properties of each handler are proved as lemmas about that transition.
- **`localeCompare` is a parameter.** The name comparator is a function
  `collate`. The name orderings are proved under the hypothesis that
  `collate(a, b) <= 0` is total and transitive (`Helpers.IsCollation`).
- **JSON is a parameter.** `JSON.stringify` and `JSON.parse` form a `Codec`
  value. A parse is either malformed, not an array, or an array of products.
- **Outside values are parameters.** The outcome of `setItem` is a
  `writeSucceeds` flag. The answer to `window.confirm` is a `confirmed` flag.
  Every id `generateId` would produce is a string argument.
- **Stock has three cases:** absent, a count, or NaN. Validation accepts
  white-space-only stock text, but the form still hands that text to
  `parseInt`. The product then gets a NaN stock, which `(p.stock || 0)` reads
  as 0 (`ProductFormModel.BlankStockBecomesNaN`).
- **The search term is used as typed.** `filterProducts` lower-cases the term
  but does not trim it, so neither does the model
  (project/src/utils/helpers.ts:16).

## Model

| member | source | states |
|---|---|---|
| Storage.LoadFrom | project/src/utils/storage.ts:12-23 | `loadProducts` never returns an empty list; the result is either the seed set or the parsed stored array |
| Storage.LoadNothingStored | project/src/utils/storage.ts:14-15 | with nothing stored (or the empty text) the seed set is loaded |
| Storage.LoadUnusable | project/src/utils/storage.ts:17-21 | text that fails to parse, or parses to a non-array or an empty array, loads the seed set |
| Storage.LoadVerbatim | project/src/utils/storage.ts:17-18 | a non-empty parsed array is returned as it is, without checking its fields |
| Storage.SavedItems | project/src/utils/storage.ts:25-31 | a successful save stores the stringified list under the key; other keys never change; a failed write leaves the store as it was |
| Storage.SaveThenLoad | project/src/utils/storage.ts:12-31 | saving a non-empty list that survives the codec, then loading, gives back that list |
| Storage.SaveEmptyThenLoad | project/src/utils/storage.ts:12-31 | saving the empty list makes the next load fall back to the seed set |
| Storage.BrowserStore.constructor | project/src/utils/storage.ts:10 | the store starts with the given items and codec |
| Storage.BrowserStore.Load | project/src/utils/storage.ts:12-23 | the loaded list is the one `LoadFrom` describes for what is stored under the key |
| Storage.BrowserStore.Save | project/src/utils/storage.ts:25-31 | the new store is the one `SavedItems` describes, whether or not the write succeeds |
| Storage.DefaultProductsWellFormed | project/src/utils/storage.ts:33-114 | the seed set has ten products, each with a positive price, a present non-negative stock and a category other than "All"; the stocks are 45, 8, 120, 3, 67, 15, 250, 95, 2 and 38 in order |
| Storage.SeedWellFormed | project/src/utils/storage.ts:33-114 | every seed product has a positive price, a counted stock and a category other than "All" |
| Storage.DefaultProductIds | project/src/utils/storage.ts:33-114 | the seed ids are "1" to "10" in order, all different |
| Strings.TrimStart | project/src/utils/validation.ts:19 | the result drops exactly the longest white-space prefix |
| Strings.TrimEnd | project/src/utils/validation.ts:19 | the result drops exactly the longest white-space suffix |
| Strings.Trim | project/src/utils/validation.ts:19-21 | `trim()` is empty exactly for blank text; otherwise it starts and ends with non-white-space |
| Strings.TrimCutsRun | project/src/utils/validation.ts:19-21 | `trim()` is one run of the input, and everything before and after that run is white space |
| Strings.TrimIdempotent | project/src/components/ProductForm.tsx:48 | trimming a trimmed name changes nothing |
| Strings.TrimNoEnds | project/src/components/ProductForm.tsx:48-52 | text with no white space at either end is its own trim |
| Strings.Lower | project/src/utils/helpers.ts:16 | `toLowerCase()` keeps the length and lower-cases each character on its own |
| Strings.LowerIdempotent | project/src/utils/helpers.ts:16 | lower-casing twice is lower-casing once |
| Strings.Contains | project/src/utils/helpers.ts:16 | `includes` is true exactly when the term occurs at some position |
| Strings.ContainsEmpty | project/src/utils/helpers.ts:16 | every name includes the empty term |
| Strings.CodeUnitLeTotal | project/src/utils/helpers.ts:7 | the default sort order relates every two strings |
| Strings.CodeUnitLeTransitive | project/src/utils/helpers.ts:7 | the default sort order is transitive |
| Strings.CodeUnitLeAntisymmetric | project/src/utils/helpers.ts:7 | two strings each before the other are equal |
| Numbers.LeadingRun | project/src/utils/validation.ts:28-39 | the number parsers read exactly the longest leading run of digits of their base (decimal, or hexadecimal after `0x`) |
| Numbers.UnsignedDecimal | project/src/utils/validation.ts:28 | an unsigned decimal reads as a non-negative number |
| Numbers.ParseFloat | project/src/utils/validation.ts:28 | `parseFloat` gives a negative number only after a leading minus sign |
| Numbers.ParseInt | project/src/utils/validation.ts:39 | `parseInt` gives a negative number only after a leading minus sign |
| Numbers.SignedDecimal | project/src/utils/validation.ts:28 | once the white space is gone, `parseFloat` gives a negative number only after a minus sign |
| Numbers.SignedInteger | project/src/utils/validation.ts:39 | once the white space is gone, `parseInt` gives a negative number only after a minus sign |
| Numbers.ParseFloatZero | project/src/utils/validation.ts:28-29 | `parseFloat("0")` is 0 |
| Numbers.UnsignedZero | project/src/utils/validation.ts:28 | the digits `0` read as the number 0 |
| Numbers.ParseFloatMinusFive | project/src/utils/validation.ts:28-29 | `parseFloat("-5")` is -5 |
| Numbers.ParseIntStopsAtPoint | project/src/utils/validation.ts:39-40 | `parseInt("3.7")` is 3 |
| Numbers.DecimalRunBeforePoint | project/src/utils/validation.ts:39 | the decimal digit run of "3.7" is the 3 before the point |
| Numbers.RunOfDigits | project/src/utils/validation.ts:28-39 | digits followed by a non-digit, or by nothing, are a leading run exactly as long as the digits |
| Numbers.TrimStartBlank | project/src/utils/validation.ts:28-39 | white space before other text is exactly what the parsers skip |
| Numbers.UnsignedInteger | project/src/utils/validation.ts:28 | digits with no point after them read as their decimal value |
| Numbers.UnsignedFraction | project/src/utils/validation.ts:28 | digits, a point and digits read as the whole part plus the fraction divided by ten to the number of fraction digits |
| Numbers.ParseFloatDecimal | project/src/utils/validation.ts:28 | `parseFloat` of white space, an optional sign and a numeral with a point is that numeral's value with that sign; text after it is ignored unless it starts an exponent |
| Numbers.ParseFloatInteger | project/src/utils/validation.ts:28 | `parseFloat` of white space, an optional sign and digits with no point after them is the digits' value with that sign |
| Numbers.ParseIntDecimal | project/src/utils/validation.ts:39 | `parseInt` of white space, an optional sign and decimal digits is their value with that sign, and the text after the digits is ignored; a lone `0` followed by `x` starts a hexadecimal numeral instead |
| Numbers.ParseIntHex | project/src/utils/validation.ts:39 | `parseInt` of white space, an optional sign, `0x` or `0X` and hexadecimal digits is their base-16 value with that sign |
| Numbers.ParseIntBlank | project/src/components/ProductForm.tsx:51 | `parseInt` of blank text is NaN |
| Seqs.Map | project/src/utils/helpers.ts:6 | `map` keeps the length and applies the function at every position |
| Seqs.Filter | project/src/utils/helpers.ts:15 | `filter` keeps only passing elements and never grows |
| Seqs.FilterMultiset | project/src/utils/helpers.ts:15 | `filter` keeps every occurrence of a passing value and no other value |
| Seqs.FilterIsSubsequence | project/src/utils/helpers.ts:15 | `filter` keeps the order of what it keeps |
| Seqs.FilterKeepsAll | project/src/utils/helpers.ts:15-19 | `filter` returns its input exactly when every element passes |
| Seqs.FilterConcat | project/src/utils/helpers.ts:48 | filtering a concatenation concatenates the filters |
| Seqs.FilterComplementLength | project/src/App.tsx:95 | a condition and its negation split the elements between them |
| Seqs.FilterLengthCountsIndices | project/src/utils/helpers.ts:48 | the length of a filter counts the positions that pass |
| Seqs.FilterSameCondition | project/src/utils/helpers.ts:15-19 | conditions that agree everywhere filter alike |
| Seqs.SumIntConcat | project/src/utils/helpers.ts:46 | the stock sum of a concatenation is the sum of the sums |
| Seqs.SumRealConcat | project/src/utils/helpers.ts:47 | the value sum of a concatenation is the sum of the sums |
| Seqs.SumIntPermutation | project/src/utils/helpers.ts:46 | the stock sum does not depend on the order of the products |
| Seqs.SumRealPermutation | project/src/utils/helpers.ts:47 | the value sum does not depend on the order of the products |
| Seqs.SumIntPartition | project/src/utils/helpers.ts:46 | splitting by a condition and its negation splits the stock sum |
| Seqs.SumRealPartition | project/src/utils/helpers.ts:47 | splitting by a condition and its negation splits the value sum |
| Seqs.Distinct | project/src/utils/helpers.ts:7 | `Array.from(new Set(s))` holds each value of `s` exactly once and nothing else |
| Seqs.AtMostOnceNoDuplicates | project/src/utils/helpers.ts:7 | a list with each value at most once has no repeated entries |
| Sorting.Insert | project/src/utils/helpers.ts:26-40 | one insertion step adds exactly the inserted element |
| Sorting.InsertionSort | project/src/utils/helpers.ts:26-40 | sorting returns a permutation of the copy it sorts |
| Sorting.InsertSorted | project/src/utils/helpers.ts:26-40 | inserting into a sorted list under a total preorder keeps it sorted |
| Sorting.InsertionSortSorted | project/src/utils/helpers.ts:26-40 | under a total preorder, the sort's result is in order |
| Helpers.CodeUnitLeTotalPreorder | project/src/utils/helpers.ts:7 | the comparator-less sort order is a total preorder |
| Helpers.UniqueCategoriesSpec | project/src/utils/helpers.ts:5-8 | "All" comes first; then each product category exactly once and nothing else, in strictly ascending code-unit order |
| Helpers.UniqueCategoriesExample | project/src/utils/helpers.ts:5-8 | categories B, A, B give All, A, B |
| Helpers.DistinctExample | project/src/utils/helpers.ts:7 | the set of B, A, B lists B, then A |
| Helpers.SortCategoriesExample | project/src/utils/helpers.ts:7 | B, A sort to A, B |
| Helpers.FilterProductsSpec | project/src/utils/helpers.ts:10-20 | the result is an order-preserving subsequence; a product is kept, with all its occurrences, exactly when its lower-cased name contains the lower-cased term and the category is "All" or equal |
| Helpers.FilterNothing | project/src/utils/helpers.ts:15-19 | the empty search with "All" returns the collection unchanged |
| Helpers.SearchIgnoresCase | project/src/utils/helpers.ts:16 | lower-casing the term first changes nothing |
| Helpers.SearchExample | project/src/utils/helpers.ts:16 | "LAPTOP" finds "Laptop Stand" |
| Helpers.SortProducts | project/src/utils/helpers.ts:22-42 | every key returns a permutation of the input, of the same length |
| Helpers.SortByPrice | project/src/utils/helpers.ts:33-36 | "price-asc" gives non-decreasing prices; "price-desc" gives non-increasing prices |
| Helpers.SortByStock | project/src/utils/helpers.ts:37-38 | "stock-asc" gives non-decreasing stock, absent and NaN read as 0 |
| Helpers.SortByName | project/src/utils/helpers.ts:29-32 | under a consistent collation, "name-asc" and "name-desc" order names ascending and descending |
| Helpers.SortUnknownKey | project/src/utils/helpers.ts:39-40 | any other key keeps the original order |
| Helpers.SortProductsOrder | project/src/utils/helpers.ts:22-42 | under a consistent collation, the sorted list is in the order its key asks for: price ascending or descending, stock ascending, or name ascending or descending |
| Helpers.CalculateAnalytics | project/src/utils/helpers.ts:44-56 | the count is the length; the low-stock count is the number of positions with stock strictly between 0 and 10, so it is at most the count |
| Helpers.AnalyticsAppend | project/src/utils/helpers.ts:45-48 | appending a product adds one to the count, its stock to the stock total, its price times stock to the value, and one low-stock entry if it is low |
| Helpers.AnalyticsIgnoreOrder | project/src/utils/helpers.ts:44-56 | the statistics depend only on which products there are, not on their order |
| Helpers.DefaultAnalytics | project/src/utils/helpers.ts:44-56 | the seed set has 10 products and 643 units; exactly 3 are low (stock 8, 3 and 2) |
| Helpers.DefaultStockTotal | project/src/utils/helpers.ts:46 | the seed stock adds up to 643 |
| Helpers.DefaultLowStock | project/src/utils/helpers.ts:48 | the low-stock seed products are ids 2, 4 and 9 |
| Helpers.StocksAddUp | project/src/utils/helpers.ts:46 | products whose stocks are the counts of a table hold, together, the sum of that table |
| Helpers.SeedStocksTotal | project/src/utils/helpers.ts:46 | the seed stock counts add up to 643 |
| Helpers.SeedLowStock | project/src/utils/helpers.ts:48 | of ten products with the seed stocks, exactly the second, fourth and ninth are low on stock |
| Helpers.LowAtOneThreeEight | project/src/utils/helpers.ts:48 | when exactly the second, fourth and ninth of ten products are low, the low-stock filter keeps those three, in order |
| Validation.ErrorKeys | project/src/utils/validation.ts:1-6 | the error map never has a description key, and it is empty exactly when no field has a message |
| Validation.NameError | project/src/utils/validation.ts:19-23 | "required" exactly for blank names; "at least 2 characters" exactly for a one-character trimmed name; no message exactly from two characters up |
| Validation.PriceError | project/src/utils/validation.ts:25-32 | "required" exactly for empty text; no message exactly when `parseFloat` gives a number above 0 |
| Validation.CategoryError | project/src/utils/validation.ts:34-36 | a message exactly for a blank category |
| Validation.StockError | project/src/utils/validation.ts:38-43 | no message exactly for blank text or text `parseInt` reads as a number that is not negative |
| Validation.FieldsIndependent | project/src/utils/validation.ts:16-45 | each field's message depends on that field's text alone |
| Validation.PassesIffAllChecksPass | project/src/utils/validation.ts:16-45 | the error map is empty exactly when all four conditions hold |
| Validation.ShortNameNegativePrice | project/src/utils/validation.ts:16-45 | name "A", price "-5", category "X" and empty stock are flagged on exactly name and price |
| Validation.NameAndPriceKeys | project/src/utils/validation.ts:1-6 | messages on the name and the price alone make exactly those two keys |
| Validation.ShortNameNegativePriceMessages | project/src/utils/validation.ts:16-45 | the same form gets the short-name and positive-price messages and nothing else |
| Validation.EmptyStockAccepted | project/src/utils/validation.ts:38 | empty stock text passes |
| Validation.OneLetterCategoryAccepted | project/src/utils/validation.ts:34-36 | a one-letter category passes |
| Validation.OneLetterNameTooShort | project/src/utils/validation.ts:21-23 | a one-letter name is too short |
| Validation.NegativePriceRefused | project/src/utils/validation.ts:28-31 | "-5" is not a positive price |
| Validation.ZeroPriceRefused | project/src/utils/validation.ts:28-31 | "0" is not a positive price |
| Validation.FractionalStockAccepted | project/src/utils/validation.ts:38-43 | "3.7" passes as stock |
| ProductFormModel.SetField | project/src/components/ProductForm.tsx:31 | the change handler replaces the changed field and keeps the others |
| ProductFormModel.ClearError | project/src/components/ProductForm.tsx:33 | clearing drops that field's message and keeps the others |
| ProductFormModel.ToProductData | project/src/components/ProductForm.tsx:47-53 | the name and category are trimmed, with the name at least two characters; the price is the `parseFloat` value and above 0; empty stock text gives no stock; readable stock text gives its non-negative `parseInt` value; a blank description becomes absent and any other is trimmed |
| ProductFormModel.SubmitOutcomeCases | project/src/components/ProductForm.tsx:37-54 | submitting hands on data exactly when the text passes validation, and then the converted text; when nothing is handed on the error map becomes the validator's messages (at least one), otherwise it is kept |
| ProductFormModel.BlankStockBecomesNaN | project/src/components/ProductForm.tsx:51 | white-space-only stock text passes validation and becomes a NaN stock |
| ProductFormModel.SubmittedWellFormed | project/src/components/ProductForm.tsx:47-53 | without blank stock text and with a category other than "All", submitted data makes a well-formed product |
| ProductFormModel.InitialForm | project/src/components/ProductForm.tsx:14-20 | a new product starts from empty text; an edit starts from the product's name, category and description and the price's text; the stock text is empty for an absent stock, the count's text for a count, and "NaN" for a NaN stock |
| ProductFormModel.TrimmedNamePasses | project/src/utils/validation.ts:19-23 | a name with no white space at either end and two characters or more gets no message |
| ProductFormModel.TrimmedCategoryPasses | project/src/utils/validation.ts:34-36 | a non-empty category with no white space at either end gets no message |
| ProductFormModel.PrefilledFormPasses | project/src/components/ProductForm.tsx:14-45 | the prefilled form of a trimmed product with positive price and non-negative or absent stock passes validation |
| ProductFormModel.AvailableCategories | project/src/components/ProductForm.tsx:56 | the offered categories are the given ones in their order with every "All" removed and every other entry kept as often as it occurs |
| ProductFormModel.ProductForm.constructor | project/src/components/ProductForm.tsx:14-22 | the form starts from its initial text with no messages |
| ProductFormModel.ProductForm.HandleChange | project/src/components/ProductForm.tsx:29-35 | only the changed field's text is replaced, and its message is dropped only when one is shown |
| ProductFormModel.ProductForm.HandleSubmit | project/src/components/ProductForm.tsx:37-54 | the form text is kept; what is handed on and the new error map are the outcome of submitting that text from the old error map |
| ProductFormModel.ProductForm.Available | project/src/components/ProductForm.tsx:56 | the form offers its categories in their order with every "All" removed and every other entry kept as often as it occurs |
| Dashboard.RemoveById | project/src/App.tsx:95 | no remaining product has the deleted id |
| Dashboard.RemoveByIdSpec | project/src/App.tsx:93-100 | delete keeps the other products in order, every occurrence of each, and changes nothing exactly when no product has the id |
| Dashboard.RemoveByIdAnalytics | project/src/App.tsx:95 | deleting takes exactly the deleted products' count, stock and value out of the totals |
| Dashboard.ReplaceById | project/src/App.tsx:104-106 | edit keeps the length; entries with the id become the new data under that id, and the others stay |
| Dashboard.ReplaceByIdSpec | project/src/App.tsx:104-106 | edit keeps every position's id and changes nothing when no product has the id |
| Dashboard.RemoveToastById | project/src/App.tsx:79-81 | no remaining toast has the dismissed id |
| Dashboard.RemoveToastSpec | project/src/App.tsx:79-81 | dismissing removes exactly the toasts with that id and keeps the rest in order |
| Dashboard.TotalPages | project/src/App.tsx:70 | the page count is the ceiling of n / 9, and 0 exactly for no items |
| Dashboard.SliceFromEnd | project/src/App.tsx:67 | `slice` reads negative bounds as counted back from the end |
| Dashboard.PageAtMostNine | project/src/App.tsx:64-68 | every page holds at most nine items |
| Dashboard.PageWindow | project/src/App.tsx:64-68 | page p is items (p-1)*9 up to p*9, cut at the end |
| Dashboard.PageBeforeFirst | project/src/App.tsx:64-68 | a page number below 1 is not clamped: its window is taken from the end of the list, counted back in steps of nine |
| Dashboard.PagePastEnd | project/src/App.tsx:64-70 | a page past the last is empty |
| Dashboard.PageOfIndex | project/src/App.tsx:64-70 | item i appears at position i mod 9 of page i div 9 + 1, an existing page |
| Dashboard.TenItems | project/src/App.tsx:64-70 | ten items make two pages: the first nine, then the tenth alone |
| Dashboard.DeleteSpec | project/src/App.tsx:93-100 | a confirmed delete removes the id, adds the success toast and changes nothing else; an unconfirmed one changes nothing |
| Dashboard.SubmitClosesForm | project/src/App.tsx:102-122 | after any submit the form is closed, nothing is being edited, and one success toast with the add or update message is added |
| Dashboard.AddAppends | project/src/App.tsx:110-117 | add appends one product with the new id and keeps earlier positions; stock total and low-stock count grow by its share |
| Dashboard.EditReplaces | project/src/App.tsx:103-108 | edit keeps the length and ids, replaces the edited id's entries by the new data and leaves the others; nothing changes when the id is missing |
| Dashboard.PageResets | project/src/App.tsx:44-55 | a changed category or sort key, or the debounced search, sets page 1; an unchanged one keeps the state |
| Dashboard.VisibleSpec | project/src/App.tsx:59-62 | the view is a reordering of exactly the matching products |
| Dashboard.FormCategories | project/src/App.tsx:213-217 | the form offers exactly the products' categories when none is "All" |
| Dashboard.AvailableAfterAll | project/src/components/ProductForm.tsx:56 | behind a leading "All", the form offers the rest of the list except "All" |
| Dashboard.App.constructor | project/src/App.tsx:16-32 | the first render: no products, loading, empty search, "All", "name-asc", page 1, form closed, no toasts |
| Dashboard.App.Mount | project/src/App.tsx:34-38 | mounting loads the stored collection and ends loading |
| Dashboard.App.SetSearchTerm | project/src/App.tsx:173 | typing changes only the raw search term |
| Dashboard.App.DebounceElapsed | project/src/App.tsx:44-51 | the debounce applies the typed term and sets page 1 |
| Dashboard.App.SetCategoryFilter | project/src/App.tsx:53-55 | a new category sets page 1 when it differs |
| Dashboard.App.SetSortBy | project/src/App.tsx:53-55 | a new sort key sets page 1 when it differs |
| Dashboard.App.SetPage | project/src/App.tsx:201 | the page control sets the current page |
| Dashboard.App.ShowToast | project/src/App.tsx:74-77 | a toast is appended |
| Dashboard.App.RemoveToast | project/src/App.tsx:79-81 | only the toast list changes, to the list without that id |
| Dashboard.App.HandleAddProduct | project/src/App.tsx:83-86 | opens the form with nothing being edited |
| Dashboard.App.HandleEditProduct | project/src/App.tsx:88-91 | opens the form on the given product |
| Dashboard.App.HandleCancelForm | project/src/App.tsx:124-127 | closes the form, with nothing being edited |
| Dashboard.App.HandleDeleteProduct | project/src/App.tsx:93-100 | the state follows `AfterDelete`; a confirmed delete saves the new collection, and an unconfirmed one leaves the store alone |
| Dashboard.App.HandleSubmitProduct | project/src/App.tsx:102-122 | the state follows `AfterSubmit`, and the new collection is saved |
| Dashboard.App.SubmitForm | project/src/components/ProductForm.tsx:37-54 | the form text is kept and what is handed on is its submission; invalid text changes neither the dashboard nor the store and shows the validator's messages; valid text moves the dashboard as `AfterSubmit` says, saves the new collection and leaves the error map as it was |
| Dashboard.App.VisibleProducts | project/src/App.tsx:59-62 | the shown products are exactly the matching products, each as often as in the collection; under a consistent collation they are in the order the sort key asks for, and an unknown key keeps the collection's order |
| Dashboard.App.PaginatedProducts | project/src/App.tsx:64-68 | the current page holds at most nine products: from page 1 on it is items (page-1)*9 up to page*9 of the visible list, cut at the end; page 0 is empty; a page below 0 is counted back from the end |
| Dashboard.App.PageCount | project/src/App.tsx:70 | the page count is the ceiling of the visible count over nine, and 0 exactly when nothing is visible |
| Dashboard.App.Categories | project/src/App.tsx:57 | the category list is "All" followed by each product category once, in ascending code-unit order |
| Dashboard.App.CurrentAnalytics | project/src/App.tsx:72 | the statistics count every product, sum the stock and the stock value over all products, and count the low-stock products |

## Left out

- `generateId` (project/src/utils/helpers.ts:58-60) depends on the clock and `Math.random`. Every id it would produce is a parameter, so nothing stops a new id from equalling an existing one, and the code does not either.
- The debounce timer (`setTimeout`/`clearTimeout`) is left out. `Dashboard.App.DebounceElapsed` is the moment it fires. Cancelling a pending timer is not modelled.
- The internals of `JSON.parse`/`JSON.stringify` and of `localStorage` are left out; they are the `Codec` and the items map. A parse yielding an array whose elements are not products cannot be expressed: the parsed array is a list of products.
- An exception thrown by `getItem` itself is not modelled. The source returns the seed set then, just as for a malformed blob.
- `console.error` logging is left out.
- Prices and the stock value are exact reals, so floating-point rounding of `price * stock` and of the sums is left out.
- `Helpers.SortProducts`: its contract states the permutation, and the order lemmas state sortedness for each key. Stability (equal keys keep their input order) is not stated, although the insertion sort is stable.
- `Helpers.IsCollation`: `localeCompare` is abstract. The name orderings hold for any collation that is total and transitive; the locale's actual order is not modelled.
- `Strings.Lower`: `toLowerCase` is modelled on ASCII letters only.
- `Strings.CodeUnitLeTotal`: strings are sequences of Unicode scalar values, so characters outside the Basic Multilingual Plane compare as one character, not as two UTF-16 code units.
- `Numbers.ParseFloat`: exponents (`1e3`) and `Infinity` are not read, so such text parses shorter than in JavaScript. The contract of `ParseFloat` states only when the result can be negative. The values it reads are stated by `ParseFloatDecimal` and `ParseFloatInteger` for numerals, and by `ParseFloatZero` and `ParseFloatMinusFive` for two inputs.
- `Numbers.ParseInt`: integers are unbounded, and the loss of precision past 2^53 is not modelled. The contract of `ParseInt` states only when the result can be negative. The values it reads are stated by `ParseIntDecimal`, `ParseIntHex`, `ParseIntStopsAtPoint` and `ParseIntBlank`.
- `Numbers.UnsignedDecimal`: its contract states only that the value is not negative. The value itself is stated by `UnsignedInteger` and `UnsignedFraction`.
- `Validation.NameError`: JavaScript's `.length` counts UTF-16 code units, while the model counts Unicode scalar values. A trimmed name of one character outside the Basic Multilingual Plane (an emoji, say) has length 2 in the source and passes; the model finds it too short.
- `Storage.SaveThenLoad`: `JSON.stringify` writes a NaN stock as `null`, so a collection holding a NaN stock does not come back from a save and a load as it was. The round trip is stated only for a codec that round-trips the collection, and such a collection does not.
- `ProductFormModel.InitialForm`: the text `toString` makes of a price or a stock count is a parameter, because number formatting is not modelled.
- `window.confirm` is the `confirmed` parameter. Whether `setItem` throws (quota, private mode) is the `writeSucceeds` parameter.
- Rendering is left out: the list, card, toolbar, analytics, button and badge components; the theme toggle; the Three.js background; the modal chrome; how toasts look; input focus; the view mode.
- React's batching of state updates is left out. Each handler reads the state as it was when called, as the closures in the source do, and its updates apply in order.
