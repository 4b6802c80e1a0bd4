/**
 * The add/edit form (project/src/components/ProductForm.tsx): the text it
 * holds, the per-field error state, the change handler that clears a field's
 * message, and the submit gate that converts valid text into product data.
 */
module ProductFormModel {
  import opened Optional
  import opened Strings
  import opened Numbers
  import opened Seqs
  import opened Storage
  import opened Validation

  /** The text of one field. */
  function FieldText(form: FormData, field: Field): string {
    match field
    case NameField => form.name
    case PriceField => form.price
    case CategoryField => form.category
    case StockField => form.stock
    case DescriptionField => form.description
  }

  /** `{ ...prev, [name]: value }`: one field replaced, the others kept. */
  function SetField(form: FormData, field: Field, value: string): (r: FormData)
    ensures FieldText(r, field) == value
    ensures forall g :: g != field ==> FieldText(r, g) == FieldText(form, g)
  {
    match field
    case NameField => form.(name := value)
    case PriceField => form.(price := value)
    case CategoryField => form.(category := value)
    case StockField => form.(stock := value)
    case DescriptionField => form.(description := value)
  }

  /** `errors[name]`; the error map has no description entry. */
  function FieldError(e: ValidationErrors, field: Field): Option<string> {
    match field
    case NameField => e.name
    case PriceField => e.price
    case CategoryField => e.category
    case StockField => e.stock
    case DescriptionField => None
  }

  /** `errors[name]` is truthy: a message that is not the empty string. */
  predicate ErrorShown(e: ValidationErrors, field: Field) {
    FieldError(e, field).Some? && FieldError(e, field).value != ""
  }

  /** `{ ...prev, [name]: undefined }`: one field's message dropped, the others kept. */
  function ClearError(e: ValidationErrors, field: Field): (r: ValidationErrors)
    ensures FieldError(r, field) == None
    ensures forall g :: g != field ==> FieldError(r, g) == FieldError(e, g)
  {
    match field
    case NameField => e.(name := None)
    case PriceField => e.(price := None)
    case CategoryField => e.(category := None)
    case StockField => e.(stock := None)
    case DescriptionField => e
  }

  /**
   * The product data `handleSubmit` hands to `onSubmit`, for text that passed
   * validation: trimmed name and category, the parsed price, the stock parsed
   * when its text is not empty, the trimmed description or none.
   */
  function ToProductData(form: FormData): (d: ProductData)
    requires !HasErrors(ValidateProduct(form))
    ensures d.name == Trim(form.name) && |d.name| >= 2
    ensures ParseFloat(form.price) == Some(d.price) && d.price > 0.0
    ensures d.category == Trim(form.category) && d.category != ""
    ensures form.stock == "" ==> d.stock == Absent
    ensures !IsBlank(form.stock) ==> d.stock.Count? && d.stock.units >= 0 && ParseInt(form.stock) == Some(d.stock.units)
    ensures d.description.None? <==> IsBlank(form.description)
    ensures d.description.Some? ==> d.description.value == Trim(form.description)
  {
    PassesIffAllChecksPass(form);
    var stock :=
      if form.stock == "" then Absent
      else match ParseInt(form.stock)
        case Some(n) => Count(n)
        case None => NotANumber;
    var description := Trim(form.description);
    ProductData(
      Trim(form.name),
      ParseFloat(form.price).value,
      Trim(form.category),
      stock,
      if description == "" then None else Some(description))
  }

  /** What submitting the form text hands on: nothing while any message stands, the converted data otherwise. */
  function Submission(form: FormData): Option<ProductData> {
    if HasErrors(ValidateProduct(form)) then None else Some(ToProductData(form))
  }

  /**
   * What `handleSubmit` leaves behind, given the form text and the error map
   * it starts from: what it hands on, and the error map afterwards.
   */
  function SubmitOutcome(form: FormData, current: ValidationErrors): (Option<ProductData>, ValidationErrors) {
    var validationErrors := ValidateProduct(form);
    if HasErrors(validationErrors) then (None, validationErrors) else (Some(ToProductData(form)), current)
  }

  /**
   * Submitting hands on exactly the submission of the text; when nothing is
   * handed on, the error map becomes the validator's messages, otherwise it is
   * left as it was.
   */
  lemma SubmitOutcomeCases(form: FormData, current: ValidationErrors)
    ensures SubmitOutcome(form, current).0 == Submission(form)
    ensures SubmitOutcome(form, current).0.None? ==> SubmitOutcome(form, current).1 == ValidateProduct(form) && HasErrors(ValidateProduct(form))
    ensures SubmitOutcome(form, current).0.Some? ==> SubmitOutcome(form, current).1 == current
  {
  }

  /**
   * White-space-only stock text passes validation but is still handed to
   * `parseInt`, so the product gets a NaN stock.
   */
  lemma BlankStockBecomesNaN(form: FormData)
    requires !HasErrors(ValidateProduct(form))
    requires form.stock != "" && IsBlank(form.stock)
    ensures ToProductData(form).stock == NotANumber
  {
    ParseIntBlank(form.stock);
  }

  /** Submitted data with a real stock (or none) and a category other than "All" makes a well-formed product. */
  lemma SubmittedWellFormed(form: FormData, id: string)
    requires !HasErrors(ValidateProduct(form))
    requires form.stock == "" || !IsBlank(form.stock)
    requires Trim(form.category) != "All"
    ensures WellFormed(WithId(ToProductData(form), id))
  {
  }

  /**
   * The form's starting text: empty for a new product, the product's fields
   * for an edit. `priceText` and `stockText` are what `toString` makes of the
   * price and of a numeric stock.
   */
  function InitialForm(initial: Option<Product>, priceText: string, stockText: string): (form: FormData)
    ensures initial.None? ==> form == FormData("", "", "", "", "")
    ensures initial.Some? ==> && form.name == initial.value.name
                              && form.category == initial.value.category
                              && form.description == initial.value.description.GetOr("")
                              && form.price == priceText
    ensures initial.Some? && initial.value.stock.Absent? ==> form.stock == ""
    ensures initial.Some? && initial.value.stock.Count? ==> form.stock == stockText
    ensures initial.Some? && initial.value.stock.NotANumber? ==> form.stock == "NaN"
  {
    match initial
    case None => FormData("", "", "", "", "")
    case Some(p) =>
      FormData(
        p.name,
        priceText,
        p.category,
        match p.stock
        case Absent => ""
        case Count(_) => stockText
        case NotANumber => "NaN",
        p.description.GetOr(""))
  }

  /**
   * Opening a product for editing and submitting it untouched passes
   * validation, when its name and category are already trimmed (the name two
   * characters at least), its price is positive and its stock absent or a
   * non-negative count, and their text parses back to those numbers.
   */
  lemma PrefilledFormPasses(p: Product, priceText: string, stockText: string)
    requires |p.name| >= 2 && !IsWhiteSpace(p.name[0]) && !IsWhiteSpace(p.name[|p.name| - 1])
    requires p.category != [] && !IsWhiteSpace(p.category[0]) && !IsWhiteSpace(p.category[|p.category| - 1])
    requires ParseFloat(priceText) == Some(p.price) && p.price > 0.0 && priceText != ""
    requires p.stock.Absent? || (p.stock.Count? && p.stock.units >= 0 && stockText != "" && ParseInt(stockText) == Some(p.stock.units))
    ensures !HasErrors(ValidateProduct(InitialForm(Some(p), priceText, stockText)))
  {
    TrimmedNamePasses(p.name);
    TrimmedCategoryPasses(p.category);
    var stock := if p.stock.Absent? then "" else stockText;
    var form := FormData(p.name, priceText, p.category, stock, p.description.GetOr(""));
    assert InitialForm(Some(p), priceText, stockText) == form;
    assert ValidateProduct(form) == NoErrors by {
      assert PriceError(priceText) == None;
      assert StockError(stock) == None;
    }
  }

  /** A name that is its own trim and two characters long passes the name check. */
  lemma TrimmedNamePasses(name: string)
    requires |name| >= 2 && !IsWhiteSpace(name[0]) && !IsWhiteSpace(name[|name| - 1])
    ensures NameError(name) == None
  {
    TrimNoEnds(name);
  }

  /** A category that is its own trim and not empty passes the category check. */
  lemma TrimmedCategoryPasses(category: string)
    requires category != [] && !IsWhiteSpace(category[0]) && !IsWhiteSpace(category[|category| - 1])
    ensures CategoryError(category) == None
  {
    TrimNoEnds(category);
  }

  /** `categories.filter(c => c !== 'All')`: the categories the form offers. */
  function AvailableCategories(categories: seq<string>): (r: seq<string>)
    ensures "All" !in r
    ensures forall c :: c in r <==> c in categories && c != "All"
    ensures IsSubsequence(r, categories)
    ensures forall c :: multiset(r)[c] == if c == "All" then 0 else multiset(categories)[c]
  {
    var notAll := (c: string) => c != "All";
    FilterMultiset(categories, notAll);
    FilterIsSubsequence(categories, notAll);
    var r := Filter(categories, notAll);
    assert forall c :: c in r <==> multiset(r)[c] > 0;
    r
  }

  /** The form component's state: the field text and the error map. */
  class ProductForm {
    var formData: FormData
    var errors: ValidationErrors
    const categories: seq<string>

    /** A fresh form: the starting text and no messages. */
    constructor (categories: seq<string>, initial: FormData)
      ensures formData == initial && errors == NoErrors && this.categories == categories
    {
      formData := initial;
      errors := NoErrors;
      this.categories := categories;
    }

    /** `handleChange`: store the new text; drop that field's message if one is shown. */
    method HandleChange(field: Field, value: string)
      modifies this
      ensures formData == SetField(old(formData), field, value)
      ensures errors == if ErrorShown(old(errors), field) then ClearError(old(errors), field) else old(errors)
    {
      formData := SetField(formData, field, value);
      if ErrorShown(errors, field) {
        errors := ClearError(errors, field);
      }
    }

    /**
     * `handleSubmit`: with any message, show the messages and submit nothing;
     * otherwise submit the converted data and leave the error map alone.
     */
    method HandleSubmit() returns (submitted: Option<ProductData>)
      modifies this
      ensures formData == old(formData)
      ensures (submitted, errors) == SubmitOutcome(formData, old(errors))
    {
      var outcome := SubmitOutcome(formData, errors);
      submitted, errors := outcome.0, outcome.1;
    }

    /** The category options besides the placeholder and "Other". */
    function Available(): (r: seq<string>)
      ensures forall c :: c in r <==> c in categories && c != "All"
      ensures IsSubsequence(r, categories)
      ensures forall c :: multiset(r)[c] == if c == "All" then 0 else multiset(categories)[c]
    {
      AvailableCategories(categories)
    }
  }
}
