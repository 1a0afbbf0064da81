/**
 The get-listings handler (netlify/functions/get-listings.js): reads every
 listed key, skips blobs that are gone and listings more than seven days past
 their date, and orders the rest featured first, then newest first.

 The store's key listing is the input `keys` (a listed key that is no longer in
 the map is a missing blob). Turning a stored date text into a day number at
 local midnight is the parameter `dayOf`; `None` stands for a date JavaScript
 cannot parse, which never compares as expired.
 */
module ListingQuery {
  import opened Model
  import opened Seqs

  const ExpiryDays := 7

  /** `store.get(k)` for each listed key in turn, skipping keys whose blob is missing. */
  function Fetch(store: Store, keys: seq<string>): (r: seq<Listing>)
    ensures |r| <= |keys|
    ensures forall i :: 0 <= i < |r| ==> r[i] in store.Values
  {
    if keys == [] then []
    else if keys[0] in store then [store[keys[0]]] + Fetch(store, keys[1..])
    else Fetch(store, keys[1..])
  }

  /** Every fetched record is the blob of some listed key. */
  lemma {:induction false} FetchOnlyListed(store: Store, keys: seq<string>, l: Listing)
    requires l in Fetch(store, keys)
    ensures exists k :: k in keys && k in store && store[k] == l
  {
    if keys[0] in store && store[keys[0]] == l {
      assert keys[0] in keys;
    } else {
      FetchOnlyListed(store, keys[1..], l);
      var k :| k in keys[1..] && k in store && store[k] == l;
      assert k in keys;
    }
  }

  /** Every listed key that still has a blob contributes its record. */
  lemma {:induction false} FetchFindsListed(store: Store, keys: seq<string>, k: string)
    requires k in keys && k in store
    ensures store[k] in Fetch(store, keys)
  {
    if keys[0] != k {
      FetchFindsListed(store, keys[1..], k);
    }
  }

  /**
   A dated listing is expired once its date plus seven days falls strictly
   before today; a listing without a (truthy) date, or with one that does not
   parse, never expires.
   */
  predicate Expired(l: Listing, today: int, dayOf: string -> Option<int>) {
    && !Blank(l.date)
    && dayOf(l.date.value).Some?
    && dayOf(l.date.value).value + ExpiryDays < today
  }

  /** The creation time the server sort compares; a record without one counts as created at time 0. */
  function CreatedKey(l: Listing): int {
    if l.createdAt.Some? then l.createdAt.value else 0
  }

  /** The server-side comparator: featured listings first, then larger `createdAt` first. */
  function NewestFirst(a: Listing, b: Listing): int {
    var byFeatured := FeaturedRank(b) - FeaturedRank(a);
    if byFeatured != 0 then byFeatured else CreatedKey(b) - CreatedKey(a)
  }

  /** Ordering by `NewestFirst` is consistent: total and transitive. */
  lemma NewestFirstIsPreorder()
    ensures IsPreorder(NewestFirst)
  {
  }

  /** The fetched records that are not expired, in fetch order. */
  function Unexpired(store: Store, keys: seq<string>, today: int, dayOf: string -> Option<int>): (items: seq<Listing>)
    ensures forall l :: multiset(items)[l] == if Expired(l, today, dayOf) then 0 else multiset(Fetch(store, keys))[l]
    ensures IsSubsequence(items, Fetch(store, keys))
  {
    FilterIsSubsequence(Fetch(store, keys), l => !Expired(l, today, dayOf));
    Filter(Fetch(store, keys), l => !Expired(l, today, dayOf))
  }

  /** What being ordered by `NewestFirst` means for the featured flag and `createdAt`. */
  lemma NewestFirstOrder(r: seq<Listing>)
    requires SortedBy(r, NewestFirst)
    ensures forall i, j :: 0 <= i < j < |r| && r[j].featured ==> r[i].featured
    ensures forall i, j :: 0 <= i < j < |r| && r[i].featured == r[j].featured ==> CreatedKey(r[i]) >= CreatedKey(r[j])
  {
    forall i, j | 0 <= i < j < |r|
      ensures r[j].featured ==> r[i].featured
      ensures r[i].featured == r[j].featured ==> CreatedKey(r[i]) >= CreatedKey(r[j])
    {
      assert NewestFirst(r[i], r[j]) <= 0;
    }
  }

  /** Sorting with `NewestFirst` yields a sequence ordered by it. */
  lemma NewestFirstSorted(items: seq<Listing>)
    ensures SortedBy(Sort(items, NewestFirst), NewestFirst)
  {
    NewestFirstIsPreorder();
    SortSorted(items, NewestFirst);
  }

  /**
   `items.sort(...)` with the server comparator: a rearrangement of the items in
   which featured records come first and, within each group, `createdAt` never
   increases.
   */
  function SortNewestFirst(items: seq<Listing>): (r: seq<Listing>)
    ensures multiset(r) == multiset(items)
    ensures forall i, j :: 0 <= i < j < |r| && r[j].featured ==> r[i].featured
    ensures forall i, j :: 0 <= i < j < |r| && r[i].featured == r[j].featured ==> CreatedKey(r[i]) >= CreatedKey(r[j])
  {
    NewestFirstSorted(items);
    NewestFirstOrder(Sort(items, NewestFirst));
    Sort(items, NewestFirst)
  }

  /**
   The active listings, in response order. A stored record comes out exactly as
   often as it was fetched unless it is expired, in which case it is dropped.
   */
  function ActiveListings(store: Store, keys: seq<string>, today: int, dayOf: string -> Option<int>): (r: seq<Listing>)
    ensures forall l :: multiset(r)[l] == if Expired(l, today, dayOf) then 0 else multiset(Fetch(store, keys))[l]
    ensures forall i :: 0 <= i < |r| ==> !Expired(r[i], today, dayOf)
    ensures forall i, j :: 0 <= i < j < |r| && r[j].featured ==> r[i].featured
    ensures forall i, j :: 0 <= i < j < |r| && r[i].featured == r[j].featured ==> CreatedKey(r[i]) >= CreatedKey(r[j])
  {
    var r := SortNewestFirst(Unexpired(store, keys, today, dayOf));
    assert forall i :: 0 <= i < |r| ==> multiset(r)[r[i]] > 0;
    r
  }

  /** The handler's answer: status 200 with the active listings as its `listings` field. */
  function GetListings(store: Store, keys: seq<string>, today: int, dayOf: string -> Option<int>): (r: Response)
    ensures r.status == 200
    ensures r.body.ListingsJson? && r.body.listings == ActiveListings(store, keys, today, dayOf)
  {
    Response(200, ListingsJson(ActiveListings(store, keys, today, dayOf)))
  }

  /** A listed record with a blob is returned exactly when it is not expired. */
  lemma ReturnedIffNotExpired(store: Store, keys: seq<string>, k: string, today: int, dayOf: string -> Option<int>)
    requires k in keys && k in store
    ensures store[k] in ActiveListings(store, keys, today, dayOf) <==> !Expired(store[k], today, dayOf)
  {
    FetchFindsListed(store, keys, k);
    var r := ActiveListings(store, keys, today, dayOf);
    assert store[k] in r <==> multiset(r)[store[k]] > 0;
  }

  /** Everything returned was stored under one of the listed keys. */
  lemma ReturnedWasStored(store: Store, keys: seq<string>, today: int, dayOf: string -> Option<int>)
    ensures forall l :: l in ActiveListings(store, keys, today, dayOf) ==>
      exists k :: k in keys && k in store && store[k] == l
  {
    var r := ActiveListings(store, keys, today, dayOf);
    var fetched := Fetch(store, keys);
    forall l | l in r
      ensures exists k :: k in keys && k in store && store[k] == l
    {
      assert multiset(r)[l] > 0;
      assert l in multiset(fetched);
      FetchOnlyListed(store, keys, l);
    }
  }

  /** How many of the listed keys hold the record `l`. */
  function Count(store: Store, keys: seq<string>, l: Listing): nat
  {
    if keys == [] then 0
    else (if keys[0] in store && store[keys[0]] == l then 1 else 0) + Count(store, keys[1..], l)
  }

  /** A record is fetched once for every listed key that holds it. */
  lemma {:induction false} FetchCounts(store: Store, keys: seq<string>, l: Listing)
    ensures multiset(Fetch(store, keys))[l] == Count(store, keys, l)
  {
    if keys != [] {
      FetchCounts(store, keys[1..], l);
    }
  }

  /** Every stored record carries the key it is stored under, as the create-listing handler writes it. */
  ghost predicate KeyedById(store: Store) {
    forall k :: k in store ==> store[k].id == k
  }

  /** No key is listed twice. */
  ghost predicate DistinctKeys(keys: seq<string>) {
    forall i, j :: 0 <= i < j < |keys| ==> keys[i] != keys[j]
  }

  /** In a store keyed by id, the record under `k` is held by `k` alone among the listed keys. */
  lemma {:induction false} CountKeyed(store: Store, keys: seq<string>, k: string)
    requires KeyedById(store) && DistinctKeys(keys)
    requires k in store
    ensures Count(store, keys, store[k]) == if k in keys then 1 else 0
  {
    if keys != [] {
      assert DistinctKeys(keys[1..]) by {
        forall i, j | 0 <= i < j < |keys[1..]|
          ensures keys[1..][i] != keys[1..][j]
        {
          assert keys[1..][i] == keys[i + 1] && keys[1..][j] == keys[j + 1];
        }
      }
      CountKeyed(store, keys[1..], k);
      if keys[0] == k {
        assert k !in keys[1..] by {
          forall j | 0 <= j < |keys[1..]|
            ensures keys[1..][j] != k
          {
            assert keys[1..][j] == keys[j + 1];
          }
        }
      } else {
        assert keys[0] in store ==> store[keys[0]].id == keys[0];
        assert k in keys <==> k in keys[1..] by {
          if k in keys {
            var j :| 0 <= j < |keys| && keys[j] == k;
            assert keys[1..][j - 1] == k;
          }
        }
      }
    }
  }

  /**
   With each key listed once and each record carrying its own key, every listed
   stored listing is returned exactly once when it is not expired, and not at
   all when it is.
   */
  lemma ReturnedOnce(store: Store, keys: seq<string>, k: string, today: int, dayOf: string -> Option<int>)
    requires KeyedById(store) && DistinctKeys(keys)
    requires k in keys && k in store
    ensures multiset(ActiveListings(store, keys, today, dayOf))[store[k]]
      == if Expired(store[k], today, dayOf) then 0 else 1
  {
    FetchCounts(store, keys, store[k]);
    CountKeyed(store, keys, k);
  }

  /** The expiry boundary: a listing dated seven days ago is still shown, one dated eight days ago is not. */
  lemma ExpiryBoundary(l: Listing, today: int, dayOf: string -> Option<int>)
    requires !Blank(l.date)
    ensures dayOf(l.date.value) == Some(today - 7) ==> !Expired(l, today, dayOf)
    ensures dayOf(l.date.value) == Some(today - 8) ==> Expired(l, today, dayOf)
  {
  }

  /** The response order is the stable sort of the surviving records: ties keep their listed order. */
  lemma ActiveOrderIsStable(store: Store, keys: seq<string>, today: int, dayOf: string -> Option<int>, y: Listing)
    ensures var items := Unexpired(store, keys, today, dayOf);
      Filter(ActiveListings(store, keys, today, dayOf), z => Ties(NewestFirst, z, y))
        == Filter(items, z => Ties(NewestFirst, z, y))
  {
    NewestFirstIsPreorder();
    SortStable(Unexpired(store, keys, today, dayOf), NewestFirst, y);
  }
}
