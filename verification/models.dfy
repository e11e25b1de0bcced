/** The catalogue's records and the field constraints that decide which of them may
    exist: `ProductCreate` (the caller's input: a name and a price) and `Product`
    (the same fields plus the id the store assigns and a creation time).

    Building either record validates it, field by field, and either yields the record
    or reports one error per offending field, in declaration order. */
module Models {
  import opened Wrappers

  /** A reading of the wall clock taken when a product is built. It is kept opaque:
      nothing in the model relates one reading to another. */
  datatype Timestamp = Timestamp(ticks: int)

  /** The fields a validation error can point at. */
  datatype Field = Name | Price | Id

  /** Why a field was refused: a string shorter than its minimum length, a number
      not strictly greater than its bound, or a required field that was not given. */
  datatype ErrorKind = StringTooShort | NotGreaterThan | Missing

  /** One entry of a validation report: which field, and why. */
  datatype FieldError = FieldError(loc: Field, kind: ErrorKind)

  /** `name` must hold at least this many characters. */
  const MinNameLength: nat := 1

  /** `price` must be strictly greater than this. */
  const PriceExclusiveMinimum: real := 0.0

  /** The input record of a create request. */
  datatype ProductCreate = ProductCreate(name: string, price: real)

  /** A stored product: every field of `ProductCreate`, plus `id` and `createdAt`. */
  datatype Product = Product(id: int, name: string, price: real, createdAt: Timestamp)

  predicate NameOk(name: string)
  {
    |name| >= MinNameLength
  }

  predicate PriceOk(price: real)
  {
    price > PriceExclusiveMinimum
  }

  /** The constraints a `ProductCreate` satisfies once built. */
  predicate ValidCreate(d: ProductCreate)
  {
    NameOk(d.name) && PriceOk(d.price)
  }

  /** The fields a `Product` inherits from `ProductCreate`. */
  function Inherited(p: Product): ProductCreate
  {
    ProductCreate(p.name, p.price)
  }

  /** A `Product` is held to the constraints of the fields it inherits. */
  predicate ValidProduct(p: Product)
  {
    ValidCreate(Inherited(p))
  }

  /** The validation report for a name and a price. Each field is checked on its
      own, so a value bad in both fields yields one error for each. */
  function FieldErrors(name: string, price: real): (errs: seq<FieldError>)
    ensures errs == [] <==> NameOk(name) && PriceOk(price)
    ensures FieldError(Name, StringTooShort) in errs <==> |name| < 1
    ensures FieldError(Price, NotGreaterThan) in errs <==> price <= 0.0
    ensures forall e :: e in errs ==> e == FieldError(Name, StringTooShort) || e == FieldError(Price, NotGreaterThan)
    ensures forall i, j :: 0 <= i < j < |errs| ==> errs[i].loc == Name && errs[j].loc == Price
  {
    (if NameOk(name) then [] else [FieldError(Name, StringTooShort)])
    + (if PriceOk(price) then [] else [FieldError(Price, NotGreaterThan)])
  }

  /** Building a `ProductCreate`: it exists exactly when both constraints hold, and
      then carries the given fields unchanged. */
  function NewProductCreate(name: string, price: real): (r: Result<ProductCreate, seq<FieldError>>)
    ensures r.Success? <==> |name| >= 1 && price > 0.0
    ensures r.Success? ==> r.value.name == name && r.value.price == price && ValidCreate(r.value)
    ensures r.Failure? ==> r.error != [] && r.error == FieldErrors(name, price)
  {
    var errs := FieldErrors(name, price);
    if errs == [] then Success(ProductCreate(name, price)) else Failure(errs)
  }

  /** Building a `Product`. `id` is required and has no default, so an absent id is
      reported as missing; `name` and `price` are checked as for `ProductCreate`.
      Errors come in field order: name, price, id. */
  function NewProduct(id: Option<int>, name: string, price: real, createdAt: Timestamp): (r: Result<Product, seq<FieldError>>)
    ensures r.Success? <==> id.Some? && |name| >= 1 && price > 0.0
    ensures r.Success? ==> r.value.id == id.value && r.value.name == name && r.value.price == price
                           && r.value.createdAt == createdAt && ValidProduct(r.value)
    ensures id.None? ==> r.Failure? && r.error == FieldErrors(name, price) + [FieldError(Id, Missing)]
    ensures id.Some? && r.Failure? ==> r.error == FieldErrors(name, price)
  {
    var errs := FieldErrors(name, price) + (if id.None? then [FieldError(Id, Missing)] else []);
    if errs == [] then Success(Product(id.value, name, price, createdAt)) else Failure(errs)
  }

  /** A `Product` is subject to exactly the constraints of the `ProductCreate` it
      extends: given an id, it is built exactly when the corresponding `ProductCreate`
      is, from the same fields, and refused with the same report otherwise. */
  lemma ProductExtendsProductCreate(id: int, name: string, price: real, t: Timestamp)
    ensures NewProduct(Some(id), name, price, t).Success? <==> NewProductCreate(name, price).Success?
    ensures NewProduct(Some(id), name, price, t).Success? ==>
              Inherited(NewProduct(Some(id), name, price, t).value) == NewProductCreate(name, price).value
    ensures NewProduct(Some(id), name, price, t).Failure? ==>
              NewProduct(Some(id), name, price, t).error == NewProductCreate(name, price).error
  {
  }

  /** Input bad in both fields, such as an empty name with price -100, is refused with
      one error for `name` and one for `price`. */
  lemma BothFieldsReported()
    ensures NewProductCreate("", -100.0) == Failure([FieldError(Name, StringTooShort), FieldError(Price, NotGreaterThan)])
  {
    var errs := FieldErrors("", -100.0);
    assert errs == [FieldError(Name, StringTooShort)] + [FieldError(Price, NotGreaterThan)];
    assert errs == [FieldError(Name, StringTooShort), FieldError(Price, NotGreaterThan)];
  }
}
