/**
 * The form validator (project/src/utils/validation.ts): four independent
 * checks over the raw text of the form, each yielding at most one message.
 */
module Validation {
  import opened Optional
  import opened Strings
  import opened Numbers

  /** The form's fields, as the text the user typed. */
  datatype FormData = FormData(name: string, price: string, category: string, stock: string, description: string)

  /** The form's field names (the `name` attributes of its inputs). */
  datatype Field = NameField | PriceField | CategoryField | StockField | DescriptionField

  /** One optional message per checked field; description is never checked. */
  datatype ValidationErrors = ValidationErrors(
    name: Option<string>,
    price: Option<string>,
    category: Option<string>,
    stock: Option<string>)

  const NoErrors := ValidationErrors(None, None, None, None)

  const NameRequired := "Product name is required"
  const NameTooShort := "Product name must be at least 2 characters"
  const PriceRequired := "Price is required"
  const PriceNotPositive := "Price must be a positive number"
  const CategoryRequired := "Category is required"
  const StockNegative := "Stock must be a non-negative number"

  /** The fields that carry a message: `Object.keys(errors)`. */
  function ErrorKeys(e: ValidationErrors): (keys: set<Field>)
    ensures DescriptionField !in keys
    ensures keys == {} <==> e == NoErrors
  {
    (if e.name.Some? then {NameField} else {})
    + (if e.price.Some? then {PriceField} else {})
    + (if e.category.Some? then {CategoryField} else {})
    + (if e.stock.Some? then {StockField} else {})
  }

  /** `Object.keys(errors).length > 0`. */
  predicate HasErrors(e: ValidationErrors) {
    ErrorKeys(e) != {}
  }

  /** The name check: required, then at least two characters once trimmed. */
  function NameError(name: string): (m: Option<string>)
    ensures m == Some(NameRequired) <==> IsBlank(name)
    ensures m == Some(NameTooShort) <==> |Trim(name)| == 1
    ensures m == None <==> |Trim(name)| >= 2
  {
    if Trim(name) == "" then Some(NameRequired)
    else if |Trim(name)| < 2 then Some(NameTooShort)
    else None
  }

  /** The price check: required, then a number above zero. */
  function PriceError(price: string): (m: Option<string>)
    ensures m == Some(PriceRequired) <==> price == ""
    ensures m == None <==> exists v :: ParseFloat(price) == Some(v) && v > 0.0
    ensures m.Some? ==> m.value == PriceRequired || m.value == PriceNotPositive
  {
    if price == "" then Some(PriceRequired)
    else match ParseFloat(price)
      case None => Some(PriceNotPositive)
      case Some(v) => if v <= 0.0 then Some(PriceNotPositive) else None
  }

  /** The category check: required. */
  function CategoryError(category: string): (m: Option<string>)
    ensures m == None <==> !IsBlank(category)
    ensures m.Some? ==> m.value == CategoryRequired
  {
    if Trim(category) == "" then Some(CategoryRequired) else None
  }

  /** The stock check: optional; when given, an integer that is not negative. */
  function StockError(stock: string): (m: Option<string>)
    ensures m == None <==> IsBlank(stock) || exists n :: ParseInt(stock) == Some(n) && n >= 0
    ensures m.Some? ==> m.value == StockNegative
  {
    if stock != "" && Trim(stock) != "" then
      match ParseInt(stock)
      case None => Some(StockNegative)
      case Some(n) => if n < 0 then Some(StockNegative) else None
    else None
  }

  /** `validateProduct(formData)`: the four checks, each on its own field. */
  function ValidateProduct(form: FormData): ValidationErrors {
    ValidationErrors(NameError(form.name), PriceError(form.price), CategoryError(form.category), StockError(form.stock))
  }

  /** Each field's message depends on that field's text alone. */
  lemma FieldsIndependent(f: FormData, g: FormData)
    ensures f.name == g.name ==> ValidateProduct(f).name == ValidateProduct(g).name
    ensures f.price == g.price ==> ValidateProduct(f).price == ValidateProduct(g).price
    ensures f.category == g.category ==> ValidateProduct(f).category == ValidateProduct(g).category
    ensures f.stock == g.stock ==> ValidateProduct(f).stock == ValidateProduct(g).stock
    ensures (f.name, f.price, f.category, f.stock) == (g.name, g.price, g.category, g.stock) ==>
      ValidateProduct(f) == ValidateProduct(g)
  {
  }

  /** The form passes exactly when all four checks do. */
  lemma PassesIffAllChecksPass(form: FormData)
    ensures !HasErrors(ValidateProduct(form)) <==>
      && |Trim(form.name)| >= 2
      && (exists v :: ParseFloat(form.price) == Some(v) && v > 0.0)
      && !IsBlank(form.category)
      && (IsBlank(form.stock) || exists n :: ParseInt(form.stock) == Some(n) && n >= 0)
  {
  }

  /** A one-letter name and a negative price: exactly those two fields are flagged. */
  lemma ShortNameNegativePrice()
    ensures ErrorKeys(ValidateProduct(FormData("A", "-5", "X", "", ""))) == {NameField, PriceField}
  {
    ShortNameNegativePriceMessages();
    NameAndPriceKeys(ValidateProduct(FormData("A", "-5", "X", "", "")));
  }

  /** Messages on the name and the price alone: those two keys. */
  lemma NameAndPriceKeys(e: ValidationErrors)
    requires e.name.Some? && e.price.Some? && e.category.None? && e.stock.None?
    ensures ErrorKeys(e) == {NameField, PriceField}
  {
  }

  /** The messages for the form of `ShortNameNegativePrice`. */
  lemma ShortNameNegativePriceMessages()
    ensures ValidateProduct(FormData("A", "-5", "X", "", ""))
         == ValidationErrors(Some(NameTooShort), Some(PriceNotPositive), None, None)
  {
    OneLetterNameTooShort();
    NegativePriceRefused();
    OneLetterCategoryAccepted();
    EmptyStockAccepted();
  }

  /** Stock is optional: the empty text passes. */
  lemma EmptyStockAccepted()
    ensures StockError("") == None
  {
  }

  /** A non-blank category passes. */
  lemma OneLetterCategoryAccepted()
    ensures CategoryError("X") == None
  {
    assert !IsWhiteSpace("X"[0]);
  }

  /** A one-letter name is refused as too short. */
  lemma OneLetterNameTooShort()
    ensures NameError("A") == Some(NameTooShort)
  {
    assert TrimStart("A") == "A";
    assert TrimEnd("A") == "A";
  }

  /** A negative price is refused. */
  lemma NegativePriceRefused()
    ensures PriceError("-5") == Some(PriceNotPositive)
  {
    ParseFloatMinusFive();
  }

  /** A zero price is refused like a negative one. */
  lemma ZeroPriceRefused()
    ensures PriceError("0") == Some(PriceNotPositive)
  {
    ParseFloatZero();
  }

  /** A stock with a fractional part passes: `parseInt` reads only its integer part. */
  lemma FractionalStockAccepted()
    ensures StockError("3.7") == None
  {
    ParseIntStopsAtPoint();
  }
}
