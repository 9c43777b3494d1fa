/**
 * The `/api/products` route: `GET` lists the public products, `POST` checks a
 * request body, fills in defaults and inserts a row. Both turn a store failure
 * into a 500 response with a fixed message.
 */
module ProductsRoute {
  import opened Wrappers
  import opened Catalog

  const RequiredMessage := "Name and base price are required"
  const InvalidPriceMessage := "Base price must be a valid positive number"
  const FetchFailedMessage := "Failed to fetch products"
  const CreateFailedMessage := "Failed to create product"

  /**
   * A number as JavaScript reads a price, in cents: NaN, a finite number, or
   * Infinity (`negative` for -Infinity).
   */
  datatype Reading = NaN | Finite(cents: int) | Infinite(negative: bool)

  /**
   * The `basePrice` member of a request body, read in cents.
   * `Missing`: a falsy value that is not a number: absent, `null`, `false` or "".
   * `Number`: a finite JSON number; 0 is falsy, every other number truthy.
   * `HugeNumber`: a JSON number too large for a double, such as `1e999`, which
   *   `request.json()` reads as Infinity (`negative` for `-1e999`); truthy.
   * `Other`: any other value (a non-empty string, `true`, an array, an object),
   *   always truthy. `checked` is what `Number(v)` reads, which the `isNaN` and
   *   `< 0` check uses; `parsed` is what `parseFloat(v)` reads, which `create`
   *   receives. The two differ for `" "` (0 and NaN), `"0x10"` (16 and 0) or
   *   `true` (1 and NaN); `"Infinity"` reads as Infinity to both.
   */
  datatype PriceInput =
    | Missing
    | Number(cents: int)
    | HugeNumber(negative: bool)
    | Other(checked: Reading, parsed: Reading)

  /** The members of a `POST` body that the route reads. */
  datatype RequestBody = RequestBody(
    name: Option<string>,
    description: Option<string>,
    basePrice: PriceInput,
    images: Option<string>)

  datatype Payload =
    | ErrorBody(error: string)
    | ProductList(products: seq<Product>)
    | CreatedProduct(product: Product)

  /** What `NextResponse.json` sends: a status code and a JSON body. */
  datatype Response = Response(status: nat, payload: Payload)

  /** JavaScript truthiness of an optional string: present and not empty. */
  predicate TextTruthy(s: Option<string>) {
    s.Some? && s.value != ""
  }

  /** JavaScript truthiness of the price: the number 0 is falsy, every value that is not a number or falsy is truthy. */
  predicate PriceTruthy(p: PriceInput) {
    match p
    case Missing => false
    case Number(c) => c != 0
    case HugeNumber(_) => true
    case Other(_, _) => true
  }

  /** `Number(basePrice)`, as `isNaN` and `<` read it. */
  function NumberReading(p: PriceInput): (v: Reading)
    ensures p.Number? ==> v == Finite(p.cents)
    ensures p.HugeNumber? ==> v == Infinite(p.negative)
    ensures p.Missing? ==> v.NaN?
  {
    match p
    case Missing => NaN
    case Number(c) => Finite(c)
    case HugeNumber(negative) => Infinite(negative)
    case Other(checked, _) => checked
  }

  /** `parseFloat(basePrice)`, the price handed to `create`. */
  function ParseFloatReading(p: PriceInput): (v: Reading)
    ensures p.Number? ==> v == Finite(p.cents)
    ensures p.HugeNumber? ==> v == Infinite(p.negative)
    ensures p.Missing? ==> v.NaN?
  {
    match p
    case Missing => NaN
    case Number(c) => Finite(c)
    case HugeNumber(negative) => Infinite(negative)
    case Other(_, parsed) => parsed
  }

  /** `x || null` for an optional string: an empty string becomes `null`. */
  function OrNull(s: Option<string>): (r: Option<string>)
    ensures r.Some? <==> TextTruthy(s)
    ensures r.Some? ==> r == s
  {
    if TextTruthy(s) then s else None
  }

  /**
   * What `isNaN(v) || v < 0` lets through: a number that is not negative,
   * Infinity included.
   */
  predicate PassesRouteCheck(v: Reading) {
    match v
    case NaN => false
    case Finite(c) => c >= 0
    case Infinite(negative) => !negative
  }

  /** A reading of the price that is a finite number and not negative. */
  predicate IsValidPrice(v: Reading) {
    v.Finite? && v.cents >= 0
  }

  /**
   * The checks of `POST` as the route writes them, and the price it then hands
   * to `create`: a falsy name or price is "required", then a price that
   * `Number` reads as NaN or negative is "invalid"; otherwise `create` gets
   * `parseFloat` of the price, NaN and Infinity included.
   */
  function ValidateAsWritten(body: RequestBody): (r: Result<Reading, string>)
    ensures r.Err? ==> r.error == RequiredMessage || r.error == InvalidPriceMessage
    ensures r == Err(RequiredMessage) <==> !TextTruthy(body.name) || !PriceTruthy(body.basePrice)
    ensures r.Ok? <==> TextTruthy(body.name) && PriceTruthy(body.basePrice) && PassesRouteCheck(NumberReading(body.basePrice))
    ensures r.Ok? ==> r.value == ParseFloatReading(body.basePrice)
  {
    if !TextTruthy(body.name) || !PriceTruthy(body.basePrice) then Err(RequiredMessage)
    else
      match NumberReading(body.basePrice)
      case NaN => Err(InvalidPriceMessage)
      case Finite(checked) =>
        if checked < 0 then Err(InvalidPriceMessage)
        else Ok(ParseFloatReading(body.basePrice))
      case Infinite(negative) =>
        if negative then Err(InvalidPriceMessage)
        else Ok(ParseFloatReading(body.basePrice))
  }

  /**
   * The checks of `POST` in their order, with the price required to be a
   * finite number that is not negative both as `Number` reads it and as
   * `parseFloat` reads it (the price that is stored), and the row they lead
   * to: a falsy name or price is "required"; then any other price is
   * "invalid"; otherwise the row to insert, with empty `description` and
   * `images` stored as `null` and `active` set.
   */
  function Validate(body: RequestBody): (r: Result<ProductData, string>)
    ensures r.Err? ==> r.error == RequiredMessage || r.error == InvalidPriceMessage
    ensures r.Ok? ==> r.value.active && r.value.basePrice >= 0 && r.value.name != ""
    ensures r.Ok? ==> Finite(r.value.basePrice) == ParseFloatReading(body.basePrice)
  {
    if !TextTruthy(body.name) || !PriceTruthy(body.basePrice) then Err(RequiredMessage)
    else if !IsValidPrice(NumberReading(body.basePrice)) then Err(InvalidPriceMessage)
    else
      match ParseFloatReading(body.basePrice)
      case Finite(cents) =>
        if cents < 0 then Err(InvalidPriceMessage)
        else Ok(ProductData(body.name.value, OrNull(body.description), cents, OrNull(body.images), true))
      case _ => Err(InvalidPriceMessage)
  }

  /** Every body the route refuses is refused with the same message. */
  lemma ValidateKeepsRouteRefusals(body: RequestBody)
    requires ValidateAsWritten(body).Err?
    ensures Validate(body) == Err(ValidateAsWritten(body).error)
  {
  }

  /** Every body accepted here the route accepts too, and hands `create` the price stored here. */
  lemma ValidateAcceptsWhatRouteAccepts(body: RequestBody)
    requires Validate(body).Ok?
    ensures ValidateAsWritten(body) == Ok(Finite(Validate(body).value.basePrice))
  {
  }

  /**
   * Where `Number` and `parseFloat` read the price alike (every JSON number, and
   * every string holding a number in plain decimal notation), the corrected
   * checks answer as the route does except for a price of Infinity, which the
   * route accepts and which is refused here; an accepted row gets the price the
   * route hands to `create`.
   */
  lemma ValidateAgreesWithRoute(body: RequestBody)
    requires NumberReading(body.basePrice) == ParseFloatReading(body.basePrice)
    ensures Validate(body).Err? <==>
      ValidateAsWritten(body).Err? || ValidateAsWritten(body) == Ok(Infinite(false))
    ensures Validate(body).Err? && ValidateAsWritten(body).Err? ==>
      Validate(body).error == ValidateAsWritten(body).error
    ensures Validate(body).Ok? ==> ValidateAsWritten(body).value == Finite(Validate(body).value.basePrice)
  {
  }

  /**
   * As written, the route checks `Number(basePrice)` and stores
   * `parseFloat(basePrice)`, so a price that passes the check can be stored as
   * NaN or as another number. Checking the stored price as well refuses the
   * first and still refuses what the route refuses.
   */
  lemma CheckedPriceIsNotStoredPrice()
    // `{ name: "Lens", basePrice: " " }`: checked as 0, stored as NaN.
    ensures ValidateAsWritten(RequestBody(Some("Lens"), None, Other(Finite(0), NaN), None)) == Ok(NaN)
    ensures Validate(RequestBody(Some("Lens"), None, Other(Finite(0), NaN), None)) == Err(InvalidPriceMessage)
    // `{ name: "Lens", basePrice: true }`: checked as 1, stored as NaN.
    ensures ValidateAsWritten(RequestBody(Some("Lens"), None, Other(Finite(100), NaN), None)) == Ok(NaN)
    // `{ name: "Lens", basePrice: "0x10" }`: checked as 16, stored as 0.
    ensures ValidateAsWritten(RequestBody(Some("Lens"), None, Other(Finite(1600), Finite(0)), None)) == Ok(Finite(0))
    // `{ name: "Lens", basePrice: "5abc" }`: NaN to `Number`, refused by both.
    ensures ValidateAsWritten(RequestBody(Some("Lens"), None, Other(NaN, Finite(500)), None)) == Err(InvalidPriceMessage)
    ensures Validate(RequestBody(Some("Lens"), None, Other(NaN, Finite(500)), None)) == Err(InvalidPriceMessage)
  {
  }

  /**
   * As written, the route lets a price of Infinity through: it is truthy, not
   * NaN and not below 0, and `parseFloat` hands Infinity to `create`. The
   * corrected checks refuse it as "invalid", and still refuse -Infinity.
   */
  lemma InfinitePriceAccepted()
    // `{ name: "Lens", basePrice: 1e999 }`: read as Infinity by `request.json()`.
    ensures ValidateAsWritten(RequestBody(Some("Lens"), None, HugeNumber(false), None)) == Ok(Infinite(false))
    ensures Validate(RequestBody(Some("Lens"), None, HugeNumber(false), None)) == Err(InvalidPriceMessage)
    // `{ name: "Lens", basePrice: "Infinity" }`: Infinity to both readings.
    ensures ValidateAsWritten(RequestBody(Some("Lens"), None, Other(Infinite(false), Infinite(false)), None)) ==
      Ok(Infinite(false))
    ensures Validate(RequestBody(Some("Lens"), None, Other(Infinite(false), Infinite(false)), None)) ==
      Err(InvalidPriceMessage)
    // `{ name: "Lens", basePrice: -1e999 }`: -Infinity is below 0, refused by both.
    ensures ValidateAsWritten(RequestBody(Some("Lens"), None, HugeNumber(true), None)) == Err(InvalidPriceMessage)
    ensures Validate(RequestBody(Some("Lens"), None, HugeNumber(true), None)) == Err(InvalidPriceMessage)
  {
  }

  /** Every body whose price the route reads as Infinity is accepted by the route and refused here. */
  lemma InfinityOnlyAsWritten(body: RequestBody)
    requires TextTruthy(body.name) && NumberReading(body.basePrice) == Infinite(false)
    ensures ValidateAsWritten(body) == Ok(ParseFloatReading(body.basePrice))
    ensures Validate(body) == Err(InvalidPriceMessage)
  {
  }

  /** `GET`: the active rows newest first, or a 500 when the store fails. */
  method Get(db: ProductTable, storeFails: bool) returns (r: Response)
    requires db.Valid()
    ensures storeFails ==> r == Response(500, ErrorBody(FetchFailedMessage))
    ensures !storeFails ==> r == Response(200, ProductList(ListActive(db.rows)))
    ensures !storeFails ==> NewestFirst(r.payload.products)
    ensures !storeFails ==> forall i :: 0 <= i < |r.payload.products| ==> r.payload.products[i].data.active
    ensures !storeFails ==> forall k :: 0 <= k < |db.rows| && db.rows[k].data.active ==>
      multiset(r.payload.products)[db.rows[k]] == 1
  {
    if storeFails {
      return Response(500, ErrorBody(FetchFailedMessage));
    }
    ListActiveSpec(db.rows);
    r := Response(200, ProductList(ListActive(db.rows)));
  }

  /**
   * `POST`. `body` is `None` when the request is not JSON; `storeFails` says
   * whether `prisma.product.create` throws. Only a 201 changes the table, and
   * then by exactly one new row.
   */
  method Post(db: ProductTable, body: Option<RequestBody>, storeFails: bool) returns (r: Response)
    requires db.Valid()
    modifies db
    ensures db.Valid()
    ensures body.None? ==> r == Response(500, ErrorBody(CreateFailedMessage))
    ensures body.Some? && Validate(body.value).Err? ==>
      r == Response(400, ErrorBody(Validate(body.value).error))
    ensures body.Some? && Validate(body.value).Ok? && storeFails ==>
      r == Response(500, ErrorBody(CreateFailedMessage))
    ensures r.status != 201 ==> db.rows == old(db.rows)
    ensures body.Some? && Validate(body.value).Ok? && !storeFails ==>
      && r.status == 201 && r.payload.CreatedProduct?
      && db.rows == old(db.rows) + [r.payload.product]
      && r.payload.product.data == Validate(body.value).value
      && forall i :: 0 <= i < |old(db.rows)| ==> old(db.rows)[i].id != r.payload.product.id
    ensures PricesNonNegative(old(db.rows)) ==> PricesNonNegative(db.rows)
  {
    if body.None? {
      return Response(500, ErrorBody(CreateFailedMessage));
    }
    var checked := Validate(body.value);
    if checked.Err? {
      return Response(400, ErrorBody(checked.error));
    }
    if storeFails {
      return Response(500, ErrorBody(CreateFailedMessage));
    }
    var p := db.Create(checked.value);
    r := Response(201, CreatedProduct(p));
  }

  // ---------------------------------------------------------------------
  // Properties of the checks
  // ---------------------------------------------------------------------

  /**
   * The "required" check comes first: a falsy name or price gets its message
   * whatever else is wrong, a price of 0 included.
   */
  lemma RequiredCheckedFirst(body: RequestBody)
    ensures Validate(body) == Err(RequiredMessage) <==> !TextTruthy(body.name) || !PriceTruthy(body.basePrice)
  {
  }

  /**
   * A truthy name and price are refused as "invalid" exactly when `Number` or
   * `parseFloat` reads the price as NaN or negative.
   */
  lemma InvalidPriceRefused(body: RequestBody)
    requires TextTruthy(body.name) && PriceTruthy(body.basePrice)
    ensures Validate(body) == Err(InvalidPriceMessage) <==>
      !IsValidPrice(NumberReading(body.basePrice)) || !IsValidPrice(ParseFloatReading(body.basePrice))
  {
  }

  /**
   * An accepted body becomes the row with its own name and price, `description`
   * and `images` kept when non-empty and `null` otherwise, and `active` set. A
   * JSON number is accepted only when positive; any other value only when
   * `parseFloat` reads it as a number that is not negative.
   */
  lemma AcceptedRow(body: RequestBody)
    requires Validate(body).Ok?
    ensures var d := Validate(body).value;
      && d.name == body.name.value
      && Finite(d.basePrice) == ParseFloatReading(body.basePrice)
      && (body.basePrice.Number? ==> d.basePrice > 0)
      && d.description == (if TextTruthy(body.description) then body.description else None)
      && d.images == (if TextTruthy(body.images) then body.images else None)
      && d.active
  {
  }

  /**
   * A body passes the checks exactly when its name is non-empty and its price
   * is truthy and read by both `Number` and `parseFloat` as a non-negative number.
   */
  lemma AcceptedExactly(body: RequestBody)
    ensures Validate(body).Ok? <==>
      TextTruthy(body.name) && PriceTruthy(body.basePrice)
      && IsValidPrice(NumberReading(body.basePrice)) && IsValidPrice(ParseFloatReading(body.basePrice))
  {
  }

  /** Worked cases of the checks. */
  lemma ValidationExamples()
    // `{ basePrice: 10 }`: no name.
    ensures Validate(RequestBody(None, None, Number(1000), None)) == Err(RequiredMessage)
    // `{ name: "Lens B", basePrice: -5 }`.
    ensures Validate(RequestBody(Some("Lens B"), None, Number(-500), None)) == Err(InvalidPriceMessage)
    // No name and a negative price: the first check answers.
    ensures Validate(RequestBody(None, None, Number(-500), None)) == Err(RequiredMessage)
    // A price of 0 is falsy, so it is reported as missing.
    ensures Validate(RequestBody(Some("Lens C"), None, Number(0), None)) == Err(RequiredMessage)
    // The string "0" is truthy and not negative, so it is accepted with price 0.
    ensures Validate(RequestBody(Some("Lens C"), None, Other(Finite(0), Finite(0)), None)).Ok?
    // A blank name is truthy.
    ensures Validate(RequestBody(Some("   "), None, Number(4950), None)).Ok?
    // `{ name: "Lens A", basePrice: 49.5 }`: description and images stored as null.
    ensures Validate(RequestBody(Some("Lens A"), None, Number(4950), None)) ==
      Ok(ProductData("Lens A", None, 4950, None, true))
  {
  }
}
