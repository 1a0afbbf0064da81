/**
 The store invariant the listing query relies on: every record is stored under
 its own `id`. The empty store has it, both writing handlers keep it, and so
 does any run of create and webhook requests; in every store built that way a
 listed listing is returned at most once.
 */
module StoreInvariant {
  import opened Model
  import opened ListingCreation
  import opened ListingQuery
  import opened Webhook

  /** A store before any listing is created holds nothing, so it is keyed by id. */
  lemma EmptyStoreKeyed()
    ensures KeyedById(map[])
  {
  }

  /** Creating a listing writes a record whose `id` is its key, and touches no other key. */
  lemma CreateKeepsKeyed(store: Store, req: CreateRequest, id: string, now: int)
    requires KeyedById(store)
    ensures KeyedById(CreateListing(store, req, id, now).store)
  {
  }

  /** The webhook only flips `featured`, which leaves every `id` as it was. */
  lemma WebhookKeepsKeyed(store: Store, d: Delivery)
    requires KeyedById(store)
    ensures KeyedById(HandleWebhook(store, d).store)
  {
  }

  /** One request that writes the store: a create-listing call or a webhook delivery. */
  datatype Step =
    | Create(req: CreateRequest, id: string, now: int)
    | Deliver(delivery: Delivery)

  /** The store after the steps are handled one after another. */
  function Run(store: Store, steps: seq<Step>): Store
    decreases |steps|
  {
    if steps == [] then store
    else
      var next := match steps[0]
        case Create(req, id, now) => CreateListing(store, req, id, now).store
        case Deliver(d) => HandleWebhook(store, d).store;
      Run(next, steps[1..])
  }

  /** Any run of writes from a store keyed by id leaves a store keyed by id. */
  lemma {:induction false} RunKeepsKeyed(store: Store, steps: seq<Step>)
    requires KeyedById(store)
    ensures KeyedById(Run(store, steps))
    decreases |steps|
  {
    if steps != [] {
      match steps[0]
      case Create(req, id, now) =>
        CreateKeepsKeyed(store, req, id, now);
        RunKeepsKeyed(CreateListing(store, req, id, now).store, steps[1..]);
      case Deliver(d) =>
        WebhookKeepsKeyed(store, d);
        RunKeepsKeyed(HandleWebhook(store, d).store, steps[1..]);
    }
  }

  /**
   In any store the handlers build from an empty one, a listed listing is
   returned exactly once when it is not expired and not at all when it is,
   provided the key listing names no key twice.
   */
  lemma ReturnedOnceAfterAnyRun(steps: seq<Step>, keys: seq<string>, k: string,
                                today: int, dayOf: string -> Option<int>)
    requires DistinctKeys(keys)
    requires k in keys && k in Run(map[], steps)
    ensures var store := Run(map[], steps);
      multiset(ActiveListings(store, keys, today, dayOf))[store[k]]
        == if Expired(store[k], today, dayOf) then 0 else 1
  {
    EmptyStoreKeyed();
    RunKeepsKeyed(map[], steps);
    ReturnedOnce(Run(map[], steps), keys, k, today, dayOf);
  }
}
