/**
 The data model shared by the serverless handlers and the browser client of the
 garage-sale board: the stored listing record, the key-value store holding it,
 the request bodies the handlers read, and the responses they answer with.
 */
module Model {

  datatype Option<+T> = None | Some(value: T)

  /** A value that came out of `req.json()`: either the parsed body or the parse error's message. */
  datatype Parsed<+T> = Parsed(value: T) | Unparsable(message: string)

  /** A JSON scalar, as far as the handlers inspect one (`typeof x === 'number'`). */
  datatype Scalar = JNull | JBool(b: bool) | JNumber(n: real) | JString(s: string)

  /** JavaScript's `o || fallback` on an optional string: a missing or empty string is falsy. */
  function Or(o: Option<string>, fallback: string): string
  {
    if o.Some? && o.value != "" then o.value else fallback
  }

  /** True when the optional string is falsy in JavaScript (absent, null or ""). */
  predicate Blank(o: Option<string>) {
    o.None? || o.value == ""
  }

  /**
   The stored listing record. `date` is the event date as the text the form
   produced (absent when the body had none); `createdAt` is absent only for
   records that were not written by the create handler.
   */
  datatype Listing = Listing(
    id: string,
    title: string,
    description: string,
    category: string,
    date: Option<string>,
    timeStart: string,
    timeEnd: string,
    address: string,
    contact: string,
    photoUrl: string,
    lat: Option<real>,
    lng: Option<real>,
    featured: bool,
    createdAt: Option<int>)

  /** 1 for a featured listing and 0 otherwise: the number both sort comparators subtract. */
  function FeaturedRank(l: Listing): int {
    if l.featured then 1 else 0
  }

  /** The `listings` blob store: one JSON record per key. */
  type Store = map<string, Listing>

  /** The fields of a create-listing request body (also the client's form payload). */
  datatype ListingInput = ListingInput(
    title: Option<string>,
    description: Option<string>,
    category: Option<string>,
    date: Option<string>,
    timeStart: Option<string>,
    timeEnd: Option<string>,
    address: Option<string>,
    contact: Option<string>,
    photoUrl: Option<string>,
    lat: Option<Scalar>,
    lng: Option<Scalar>)

  /** One line item of a payment-provider checkout session. */
  datatype LineItem = LineItem(
    currency: string,
    unitAmount: int,
    productName: string,
    productDescription: string,
    quantity: int)

  /** The parameters handed to the payment provider when a checkout session is created. */
  datatype SessionParams = SessionParams(
    mode: string,
    paymentMethodTypes: seq<string>,
    lineItems: seq<LineItem>,
    successUrl: string,
    cancelUrl: string,
    metadataListingId: string)

  /** Response bodies: plain text, or one of the JSON shapes the handlers return. */
  datatype Body =
    | PlainText(text: string)
    | ErrorJson(error: string)
    | CreatedJson(id: string)
    | ListingsJson(listings: seq<Listing>)
    | CheckoutJson(session: SessionParams)

  datatype Response = Response(status: int, body: Body)

  /** What a handler that may write leaves behind: the store after the call, and its answer. */
  datatype Outcome = Outcome(store: Store, response: Response)

  const MethodNotAllowed := Response(405, PlainText("Method not allowed"))
}
