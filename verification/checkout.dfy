/**
 The feature-checkout handler (netlify/functions/create-checkout-session.js):
 checks the request and the listing, then builds the one-time checkout session
 request for the payment provider. The provider call itself is outside the
 model; the response carries the session parameters it would be given.
 */
module Checkout {
  import opened Model
  import opened Text

  const DefaultAmountCents := 700
  const ProductNameLimit := 50
  const LocalOrigin := "http://localhost:8888"

  /** The parsed body `{ listingId, amountCents }`; `amountCents` absent means "use the default". */
  datatype CheckoutBody = CheckoutBody(listingId: Option<string>, amountCents: Option<int>)

  /** The request: its method, its `origin` header, and its body. */
  datatype CheckoutRequest = CheckoutRequest(httpMethod: string, origin: Option<string>, body: Parsed<CheckoutBody>)

  /** The base of the redirect URLs: the request's origin header when non-empty, else the site URL when non-empty, else the local development address. */
  function Origin(header: Option<string>, siteUrl: Option<string>): string {
    Or(header, Or(siteUrl, LocalOrigin))
  }

  /** The session request for featuring `listing` at `amount` cents. */
  function FeatureSession(listingId: string, listing: Listing, amount: int, origin: string): SessionParams {
    SessionParams(
      mode := "payment",
      paymentMethodTypes := ["card"],
      lineItems := [LineItem(
        currency := "usd",
        unitAmount := amount,
        productName := "Feature: " + Take(listing.title, ProductNameLimit),
        productDescription := "Featured pin for " + Or(listing.date, "your listing"),
        quantity := 1)],
      successUrl := origin + "/?featured=success",
      cancelUrl := origin + "/?featured=cancel",
      metadataListingId := listingId)
  }

  /**
   The handler. Non-POST requests get 405; a body that does not parse, a
   missing `listingId` or an unknown one get 500 with a message and no session.
   Otherwise the answer carries a one-time payment session for that listing.
   The store is only read.
   */
  function CreateCheckoutSession(store: Store, req: CheckoutRequest, siteUrl: Option<string>): (r: Response)
    ensures req.httpMethod != "POST" ==> r == MethodNotAllowed
    ensures req.httpMethod == "POST" && req.body.Unparsable? ==> r == Response(500, ErrorJson(req.body.message))
    ensures req.httpMethod == "POST" && req.body.Parsed? && Blank(req.body.value.listingId) ==>
      r == Response(500, ErrorJson("Missing listingId"))
    ensures req.httpMethod == "POST" && req.body.Parsed? && !Blank(req.body.value.listingId)
            && req.body.value.listingId.value !in store ==>
      r == Response(500, ErrorJson("Listing not found"))
    ensures r.body.CheckoutJson? <==>
      req.httpMethod == "POST" && req.body.Parsed? && !Blank(req.body.value.listingId)
      && req.body.value.listingId.value in store
    ensures r.body.CheckoutJson? ==>
      var id := req.body.value.listingId.value;
      var listing := store[id];
      var session := r.body.session;
      && r.status == 200
      && session.mode == "payment"
      && session.paymentMethodTypes == ["card"]
      && session.metadataListingId == id
      && |session.lineItems| == 1
      && session.lineItems[0].quantity == 1
      && session.lineItems[0].currency == "usd"
      && session.lineItems[0].unitAmount
           == (if req.body.value.amountCents.Some? then req.body.value.amountCents.value else DefaultAmountCents)
      && var name := session.lineItems[0].productName;
      && |name| == |"Feature: "| + (if |listing.title| < ProductNameLimit then |listing.title| else ProductNameLimit)
      && name == "Feature: " + listing.title[..|name| - |"Feature: "|]
      && session.lineItems[0].productDescription
           == "Featured pin for " + (if Blank(listing.date) then "your listing" else listing.date.value)
  {
    if req.httpMethod != "POST" then MethodNotAllowed
    else
      match req.body
      case Unparsable(message) => Response(500, ErrorJson(message))
      case Parsed(body) =>
        if Blank(body.listingId) then Response(500, ErrorJson("Missing listingId"))
        else
          var id := body.listingId.value;
          if id !in store then Response(500, ErrorJson("Listing not found"))
          else
            var amount := if body.amountCents.Some? then body.amountCents.value else DefaultAmountCents;
            Response(200, CheckoutJson(FeatureSession(id, store[id], amount, Origin(req.origin, siteUrl))))
  }

  /** The redirect targets come back to the request's origin, falling back to the site URL, then to localhost. */
  lemma RedirectsReturnToOrigin(store: Store, req: CheckoutRequest, siteUrl: Option<string>)
    requires CreateCheckoutSession(store, req, siteUrl).body.CheckoutJson?
    ensures var session := CreateCheckoutSession(store, req, siteUrl).body.session;
      var origin := if !Blank(req.origin) then req.origin.value
                    else if !Blank(siteUrl) then siteUrl.value
                    else LocalOrigin;
      session.successUrl == origin + "/?featured=success" && session.cancelUrl == origin + "/?featured=cancel"
  {
  }
}
