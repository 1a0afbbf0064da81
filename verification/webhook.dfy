/**
 The payment-provider webhook (netlify/functions/webhook.js). Signature
 verification (`stripe.webhooks.constructEvent`) is outside the model: a
 delivery arrives either as a verified event or as a rejection with the
 verifier's message. After that the handler is a function from store to store.
 */
module Webhook {
  import opened Model

  /** The checkout session an event carries: its mode and `metadata?.listingId`. */
  datatype Session = Session(mode: string, listingId: Option<string>)

  datatype Event = Event(eventType: string, session: Session)

  /** The result of signature verification over the raw body. */
  datatype Delivery = Verified(event: Event) | Forged(reason: string)

  const CheckoutCompleted := "checkout.session.completed"

  /** The delivery is a verified, completed one-time payment naming listing `id`. */
  predicate PaysFor(d: Delivery, id: string) {
    && d.Verified?
    && d.event.eventType == CheckoutCompleted
    && d.event.session.mode == "payment"
    && d.event.session.listingId == Some(id)
    && id != ""
  }

  /** Sets `featured` on the listing stored under `id`, when there is one. */
  function MarkFeatured(store: Store, id: string): (s: Store)
    ensures s.Keys == store.Keys
    ensures id in store ==> s[id] == store[id].(featured := true)
    ensures forall k :: k in store && k != id ==> s[k] == store[k]
  {
    if id in store then store[id := store[id].(featured := true)] else store
  }

  /**
   The handler. A forged delivery is refused with 400 and changes nothing. A
   verified one always gets 200 "ok"; only a completed one-time payment naming
   a stored listing changes the store, and then only that listing's `featured`.
   */
  function HandleWebhook(store: Store, d: Delivery): (o: Outcome)
    ensures d.Forged? ==>
      o == Outcome(store, Response(400, PlainText("Webhook signature verification failed. " + d.reason)))
    ensures d.Verified? ==> o.response == Response(200, PlainText("ok"))
    ensures o.store.Keys == store.Keys
    ensures forall k :: k in store ==>
      o.store[k] == if PaysFor(d, k) then store[k].(featured := true) else store[k]
  {
    match d
    case Forged(reason) =>
      Outcome(store, Response(400, PlainText("Webhook signature verification failed. " + reason)))
    case Verified(event) =>
      var session := event.session;
      if event.eventType == CheckoutCompleted && session.mode == "payment" && !Blank(session.listingId) then
        Outcome(MarkFeatured(store, session.listingId.value), Response(200, PlainText("ok")))
      else
        Outcome(store, Response(200, PlainText("ok")))
  }

  /**
   A verified delivery that is not a completed one-time payment for a stored
   listing (another event type, a subscription session, no `listingId`, or an
   unknown one) is acknowledged with 200 and leaves the store as it was.
   */
  lemma UnmatchedDeliveryChangesNothing(store: Store, d: Delivery)
    requires d.Verified?
    requires || d.event.eventType != CheckoutCompleted
             || d.event.session.mode != "payment"
             || Blank(d.event.session.listingId)
             || d.event.session.listingId.value !in store
    ensures HandleWebhook(store, d) == Outcome(store, Response(200, PlainText("ok")))
  {
    var o := HandleWebhook(store, d);
    assert o.store.Keys == store.Keys;
    assert forall k :: k in store ==> o.store[k] == store[k];
  }

  /** `featured` never goes from true back to false. */
  lemma WebhookMonotone(store: Store, d: Delivery)
    ensures forall k :: k in store && store[k].featured ==> HandleWebhook(store, d).store[k].featured
  {
  }

  /** Handling the same delivery twice leaves the same store, and the same answer, as handling it once. */
  lemma WebhookIdempotent(store: Store, d: Delivery)
    ensures var once := HandleWebhook(store, d);
      HandleWebhook(once.store, d) == once
  {
    var once := HandleWebhook(store, d);
    var twice := HandleWebhook(once.store, d);
    assert twice.store == once.store;
  }

  /** The store after a series of deliveries handled one after another. */
  function Replay(store: Store, ds: seq<Delivery>): Store
    decreases |ds|
  {
    if ds == [] then store else Replay(HandleWebhook(store, ds[0]).store, ds[1..])
  }

  /** Some delivery in the series pays for listing `id`. */
  ghost predicate SomePaysFor(ds: seq<Delivery>, id: string) {
    exists i :: 0 <= i < |ds| && PaysFor(ds[i], id)
  }

  /**
   After any series of deliveries each listing is exactly as before, except that
   it is featured if some delivery paid for it: nothing else is ever changed,
   no listing appears or disappears, and `featured` is never cleared.
   */
  lemma {:induction false} ReplayFeatures(store: Store, ds: seq<Delivery>)
    ensures Replay(store, ds).Keys == store.Keys
    ensures forall k :: k in store ==>
      Replay(store, ds)[k] == if SomePaysFor(ds, k) then store[k].(featured := true) else store[k]
    decreases |ds|
  {
    if ds != [] {
      var next := HandleWebhook(store, ds[0]).store;
      ReplayFeatures(next, ds[1..]);
      forall k | k in store
        ensures Replay(store, ds)[k] == if SomePaysFor(ds, k) then store[k].(featured := true) else store[k]
      {
        if PaysFor(ds[0], k) {
          assert SomePaysFor(ds, k);
        } else if SomePaysFor(ds[1..], k) {
          var i :| 0 <= i < |ds[1..]| && PaysFor(ds[1..][i], k);
          assert PaysFor(ds[i + 1], k);
        }
      }
    }
  }

  /** Redelivering a whole series of events (the provider retries) changes nothing further. */
  lemma ReplayTwiceIsReplayOnce(store: Store, ds: seq<Delivery>)
    ensures Replay(Replay(store, ds), ds) == Replay(store, ds)
  {
    var once := Replay(store, ds);
    ReplayFeatures(store, ds);
    ReplayFeatures(once, ds);
    assert Replay(once, ds).Keys == once.Keys;
  }
}
