/**
 An end-to-end run across the handlers: a listing is created, shown, paid
 for, and shown again.
 */
module Scenarios {
  import opened Model
  import opened ListingCreation
  import opened ListingQuery
  import opened Webhook
  import Checkout

  /**
   A "Moving Sale" dated today with no optional fields is shown unfeatured
   right after creation; a verified completed payment naming it makes it
   featured (it is still shown), and the same notification delivered again
   changes nothing and still answers "ok".
   */
  lemma MovingSaleIsFeaturedOnce(store: Store, keys: seq<string>, id: string, now: int,
                                 dateText: string, today: int, dayOf: string -> Option<int>)
    requires id != "" && id in keys
    requires dateText != "" && dayOf(dateText) == Some(today)
    ensures
      var input := ListingInput(Some("Moving Sale"), None, None, Some(dateText), None, None, None, None, None, None, None);
      var created := CreateListing(store, CreateRequest("POST", Parsed(input)), id, now).store;
      var paid := Verified(Event(CheckoutCompleted, Session("payment", Some(id))));
      var after := HandleWebhook(created, paid);
      && id in created
      && !created[id].featured
      && created[id].title == "Moving Sale"
      && created[id].category == DefaultCategory
      && created[id] in ActiveListings(created, keys, today, dayOf)
      && after.response == Response(200, PlainText("ok"))
      && after.store[id] == created[id].(featured := true)
      && after.store[id] in ActiveListings(after.store, keys, today, dayOf)
      && HandleWebhook(after.store, paid) == after
  {
    var input := ListingInput(Some("Moving Sale"), None, None, Some(dateText), None, None, None, None, None, None, None);
    var created := CreateListing(store, CreateRequest("POST", Parsed(input)), id, now).store;
    var paid := Verified(Event(CheckoutCompleted, Session("payment", Some(id))));
    var after := HandleWebhook(created, paid);
    assert |"Moving Sale"| < TitleLimit;
    ReturnedIffNotExpired(created, keys, id, today, dayOf);
    assert PaysFor(paid, id);
    ReturnedIffNotExpired(after.store, keys, id, today, dayOf);
    WebhookIdempotent(created, paid);
  }

  /**
   Checkout and webhook fit together: when the provider reports the session the
   checkout handler asked for as completed, the webhook features exactly the
   listing the checkout was for, and nothing else in the store changes.
   */
  lemma PaidCheckoutFeaturesListing(store: Store, req: Checkout.CheckoutRequest, siteUrl: Option<string>)
    requires Checkout.CreateCheckoutSession(store, req, siteUrl).body.CheckoutJson?
    ensures
      var session := Checkout.CreateCheckoutSession(store, req, siteUrl).body.session;
      var id := req.body.value.listingId.value;
      var completed := Verified(Event(CheckoutCompleted, Session(session.mode, Some(session.metadataListingId))));
      var after := HandleWebhook(store, completed).store;
      && after.Keys == store.Keys
      && after[id] == store[id].(featured := true)
      && forall k :: k in store && k != id ==> after[k] == store[k]
  {
  }
}
