# Garage-sale board: a Dafny model of its decision logic

The garage-sale board is a community classifieds site. Visitors browse
listings on a map, post free listings, and pay to have a listing "featured".
Listings live in a key-value blob store. A handful of serverless handlers read
and write that store, and a browser client filters and orders what it fetched.

This project models the pure decision logic of that system as Dafny functions
over immutable values, and proves what each piece promises:

- **create-listing**: how a request body becomes a stored record. Title and
  description are truncated, missing fields get defaults, coordinates are kept
  only when they are numbers, the record starts unfeatured, and it is written
  under the given key (`ListingCreation`).
- **get-listings**: which stored listings are active and in what order.
  Missing blobs and listings more than seven days past their date are dropped.
  The rest are sorted featured first, then newest `createdAt` first
  (`ListingQuery`).
- **webhook**: after signature verification, a store-to-store function. Only a
  completed one-time payment naming a stored listing sets that listing's
  `featured` flag. Every verified event is answered 200 (`Webhook`).
- **create-checkout-session**: the method check, the `listingId` checks, and
  the session parameters sent to the payment provider (`Checkout`).
- **the client** (`app.js`): the conjunctive query/category/date filter, the
  display order (featured first, then date text ascending), and the
  required-field guard on saving a listing (`Client`).

Supporting modules:

- `Model` holds the record, store, request and response types.
- `Text` models `slice`, `trim`, `toLowerCase`, `includes` and `localeCompare`
  on `seq<char>`.
- `Seqs` models `filter` and the stable comparator sort of `Array.prototype.sort`.
- `StoreInvariant` shows that every store the handlers build keeps each record under its own `id`.
- `Scenarios` is an end-to-end run: create, show, pay, pay again.

The store is a `map<string, Listing>` with atomic get and set. Each handler is
a function taking (store, request) to (store', response). Some inputs come from
outside the code and are parameters:

- the new listing's id and timestamp;
- today's date, as a day number, for the expiry check;
- the site URL (`SITE_URL`) the checkout handler falls back on;
- the store's key listing;
- the conversion of a date text to a day number;
- the outcome of webhook signature verification;
- the geocoder's answer.

Three behaviours of the code are easy to get wrong, and the model follows the code:

- The create-listing handler validates nothing. Any parsed body is stored, with
  defaults for what is missing. Only the browser client checks that title,
  address, category and date are present (`Client.SaveListing`).
- The get-listings handler drops a listing only when its date + 7 days is
  strictly before today. So a listing dated exactly seven days before today is
  still returned (`ListingQuery.ExpiryBoundary`).
- The webhook handler ignores an unknown `listingId` and still answers 200
  `ok`; it reports no not-found error
  (`Webhook.UnmatchedDeliveryChangesNothing`).

## Model

| member | source | states |
|---|---|---|
| ListingCreation.NewListing | netlify/functions/create-listing.js:11-26 | The record's id is the given key. The title is the first min(80, length) characters of the body's title, or "" if it is missing or empty. The description is the first min(600, length) characters. Category defaults to "Garage Sale", date to absent, and the other text fields to "". Coordinates are kept only when they are JSON numbers. `featured` is false and `createdAt` is the given time. |
| ListingCreation.CreateListing | netlify/functions/create-listing.js:5-35 | A non-POST request gets 405 and the store is unchanged. An unparsable body gets 500 with the parser's message and the store is unchanged. Any parsed body succeeds (200): there is no server-side required-field check. On success the response carries the id, the record is stored under that id with its `id` field equal to it, the keys grow by exactly that id, and every other key keeps its record. |
| ListingCreation.CreateUnderFreshId | netlify/functions/create-listing.js:9-29 | When the key is fresh, the store grows by exactly one record and every earlier record is kept. |
| ListingQuery.Fetch | netlify/functions/get-listings.js:9-11 | The collected items are at most as many as the listed keys, and each is a record held in the store; a listed key with no blob is skipped. |
| ListingQuery.Expired | netlify/functions/get-listings.js:13-17 | A listing is expired exactly when its date is present and non-empty, parses to a day number, and that day plus 7 is strictly before today. A missing, empty or unparsable date never expires. |
| ListingQuery.Unexpired | netlify/functions/get-listings.js:12-19 | Each collected record is kept as often as it was collected when it is not expired, and dropped when it is; the order of the collected items is kept. |
| ListingQuery.FetchFindsListed | netlify/functions/get-listings.js:7-11 | Every listed key that still has a blob contributes its record to the collected items. |
| ListingQuery.FetchOnlyListed | netlify/functions/get-listings.js:9-11 | Every collected record is the blob of some listed key; missing blobs contribute nothing. |
| ListingQuery.SortNewestFirst | netlify/functions/get-listings.js:21 | The server sort is a permutation of its input. All featured listings precede all others. Within equal featured status, `createdAt` (missing counted as 0) never increases. |
| ListingQuery.ActiveListings | netlify/functions/get-listings.js:9-21 | Each fetched record appears in the output exactly as often as it was fetched if it is not expired, and never if it is. No expired listing is returned. Featured listings come first. Within each group, `createdAt` is non-increasing. |
| ListingQuery.GetListings | netlify/functions/get-listings.js:4-22 | The handler answers status 200 with the active listings as the `listings` field of its JSON body. |
| ListingQuery.FetchCounts | netlify/functions/get-listings.js:9-19 | A record is collected once for every listed key that holds it. |
| ListingQuery.ReturnedOnce | netlify/functions/get-listings.js:9-21 | When no key is listed twice and every record carries its own key as `id` (as create-listing writes it), a listed, stored listing appears in the response exactly once if it is not expired, and not at all if it is. |
| StoreInvariant.CreateKeepsKeyed | netlify/functions/create-listing.js:11-29 | Creating a listing keeps every record stored under its own `id`: the new record's `id` is its key. |
| StoreInvariant.WebhookKeepsKeyed | netlify/functions/webhook.js:27-31 | The webhook keeps every record stored under its own `id`, since it changes only `featured`. |
| StoreInvariant.RunKeepsKeyed | netlify/functions/create-listing.js:11-29 | Any series of create-listing calls and webhook deliveries (the webhook write is at netlify/functions/webhook.js lines 27-31) keeps every record stored under its own `id`. |
| StoreInvariant.ReturnedOnceAfterAnyRun | netlify/functions/get-listings.js:9-21 | In any store built from an empty one by the handlers, with no key listed twice, a listed listing is returned exactly once when it is not expired and not at all when it is. |
| ListingQuery.ReturnedIffNotExpired | netlify/functions/get-listings.js:13-19 | A listed, stored record is returned if and only if it is not expired. So a listing with no date, or with an empty date, is always returned. |
| ListingQuery.ReturnedWasStored | netlify/functions/get-listings.js:9-19 | Every returned listing was stored under one of the listed keys. |
| ListingQuery.ExpiryBoundary | netlify/functions/get-listings.js:15-17 | A listing dated exactly 7 days before today is not expired; one dated 8 days before is expired. |
| ListingQuery.ActiveOrderIsStable | netlify/functions/get-listings.js:21 | Listings that tie under the server comparator keep their listed order in the response. |
| Webhook.MarkFeatured | netlify/functions/webhook.js:27-31 | Only the listing under the given key changes, and only in `featured`, which becomes true. An unknown key changes nothing. The key set is unchanged. |
| Webhook.HandleWebhook | netlify/functions/webhook.js:10-36 | A forged delivery gets 400 with the verifier's message and the store is unchanged. A verified delivery always gets 200 `ok`. Each stored record becomes its original with `featured` set to true when the delivery is a `checkout.session.completed` event in `payment` mode naming its key, and is otherwise unchanged. So a listing that was already featured stays exactly as it was. No key is added or removed. |
| Webhook.UnmatchedDeliveryChangesNothing | netlify/functions/webhook.js:22-35 | A verified delivery that is another event type, a non-payment session, has no `listingId`, or names an unknown one leaves the store as it was and still answers 200 `ok`. |
| Webhook.WebhookMonotone | netlify/functions/webhook.js:28-30 | `featured` never goes from true to false. |
| Webhook.WebhookIdempotent | netlify/functions/webhook.js:28-30 | Handling the same delivery twice gives the same store and answer as handling it once. |
| Webhook.ReplayFeatures | netlify/functions/webhook.js:22-31 | After any series of deliveries, each listing is its original with `featured` set to true when some delivery in the series paid for it, and is otherwise unchanged. No listing appears or disappears. |
| Webhook.ReplayTwiceIsReplayOnce | netlify/functions/webhook.js:22-31 | Redelivering a whole series of notifications changes nothing further. |
| Checkout.CreateCheckoutSession | netlify/functions/create-checkout-session.js:7-43 | A non-POST request gets 405. An unparsable body, a missing `listingId` or an unknown `listingId` gets 500 with a message and no session. A session is produced if and only if the id is present and stored. The session is in `payment` mode, accepts card payment only, its metadata carries exactly that id, and it has one `usd` line item of quantity 1. The unit amount is the requested `amountCents`, or 700 when omitted. The product name is "Feature: " plus the first min(50, length) title characters. The description is "Featured pin for " plus the date, or "your listing" when there is no date. The handler only reads the store. |
| Scenarios.PaidCheckoutFeaturesListing | netlify/functions/webhook.js:22-31 | When the session the checkout handler builds is reported completed, the webhook features exactly the listing the checkout was for, and every other record and the key set stay as they were. |
| Checkout.RedirectsReturnToOrigin | netlify/functions/create-checkout-session.js:18-35 | The success and cancel URLs are built on the request's origin, falling back to the site URL and then to localhost. |
| Client.ApplyFilters | app.js:47-58 | The result is an order-preserving subsequence of the listings. Each listing appears as often as in the input when it is selected, and otherwise not at all. Selected means: the lowercased, trimmed query occurs in the lowercased `title + " " + description`, or the query is empty; the category equals the trimmed category, or that is empty; the date equals the chosen date, or none is chosen. With every control empty the result is the whole input, in order. |
| Client.QueryIgnoresCase | app.js:48-53 | Two queries that agree up to ASCII letter case select the same listings. |
| Client.QueryIgnoresPadding | app.js:48 | Whitespace around the query does not change the result. |
| Client.FeaturedThenDateIsPreorder | app.js:73 | The display comparator is consistent: total and transitive. |
| Client.DisplayOrder | app.js:72-73 | The display order is a permutation of the filtered list. No non-featured listing precedes a featured one. Within equal featured status, date texts ascend, and a missing date (`''`) comes before any dated listing. |
| Client.DisplayOrderIsStable | app.js:72-73 | Listings that tie in the display order keep their filtered order. |
| Client.SaveListing | app.js:154-173 | Submission is blocked with "Please complete required fields.", and no create request is sent, if and only if title, address, category or date is empty or missing. Otherwise the create request carries the form fields unchanged, plus the geocoded coordinates, or null when geocoding found none. |
| Client.SubmittedListingIsComplete | app.js:157-173 | A listing that passes the client guard is created (200) with a non-empty title that begins the typed title. Its address, category and date are the typed ones, its coordinates are the geocoded ones, and it starts unfeatured. |
| Scenarios.MovingSaleIsFeaturedOnce | netlify/functions/webhook.js:22-35 | A "Moving Sale" created today with no optional fields is returned unfeatured. After a verified completed payment naming it, it is featured and still returned. The same notification again changes nothing and still answers `ok`. |
| Seqs.Filter | app.js:52-57 | Filtering keeps only passing elements, and keeps each passing element as often as it occurs. |
| Seqs.FilterIsSubsequence | app.js:52-57 | Filtering never adds or reorders elements. |
| Seqs.Sort | netlify/functions/get-listings.js:21 | The comparator sort is a permutation of its input. |
| Seqs.SortSorted | netlify/functions/get-listings.js:21 | With a consistent comparator, the sorted output is ordered by it. |
| Seqs.SortStable | app.js:73 | Elements that tie under the comparator come out in their input order, as `Array.prototype.sort` guarantees. |
| Text.TrimSpec | app.js:48-49 | `trim()` returns the slice of its input with only whitespace cut off either side, and the result neither starts nor ends with whitespace. |
| Text.TrimIgnoresPadding | app.js:48 | Whitespace added around a string does not change what `trim()` returns. |
| Text.IncludesIffOccurs | app.js:53 | `includes` is true exactly when the needle occurs at some position of the haystack. The empty needle always occurs. |
| Text.CompareTextLaws | app.js:73 | The string comparison is -1, 0 or 1. It is zero exactly for equal strings, and swapping its arguments negates it. |
| Text.CompareTextTransitive | app.js:73 | "Sorts no later than" on strings is transitive. |

## Left out

- Signature verification of webhook deliveries (`stripe.webhooks.constructEvent`, an HMAC over the raw body). A delivery is given already verified, or rejected with the verifier's message.
- Payment-provider calls. `checkout.sessions.create` is modelled as returning the parameter record it is given, in place of the provider's redirect URL. A provider error (for example an amount the provider rejects), which the handler would answer with 500, is not modelled.
- netlify/functions/create-subscription.js. It is a fixed-price wrapper around provider calls and has no logic of its own.
- Blob store failures, consistency, key-listing order, and races between concurrent webhook deliveries. The store is a map with atomic get and set, and the key listing is an input sequence.
- `crypto.randomUUID()` and `Date.now()`. The id and timestamp are parameters, and freshness of the id is a lemma precondition, not a guarantee.
- JavaScript `Date` parsing, time zones and local-midnight arithmetic. A date text becomes a day number through the parameter `dayOf`.
- ListingQuery.ActiveListings: uses one `today` for the whole call, while get-listings reads the clock again for every listed key. A call that spans local midnight judges later keys against the next day; that is not modelled.
- ListingCreation.NewListing: JSON numbers are unbounded reals. Rounding to double precision is not modelled, and neither is overflow: a coordinate such as `1e999` parses to `Infinity`, passes the number check, and is written by `JSON.stringify` as `null`, while the model stores it as given.
- `localeCompare` is plain code-point order, and `toLowerCase` is ASCII only. Locale collation and Unicode case mapping are not modelled.
- `slice` counts UTF-16 code units, while Dafny characters are Unicode scalar values. Titles with characters outside the Basic Multilingual Plane are truncated at a different position.
- Request bodies whose text fields are not strings. A truthy title or description that is neither a string nor an array makes `slice` throw, and the answer is 500. Any other non-string field, and an array title or description, is stored as given. The model's text fields are strings only. A body that parses to `null` is treated like an unparsable body.
- Stored records with non-boolean `featured` or non-numeric `createdAt`. A `NaN` comparison result in the sort is not modelled.
- `amountCents` sent as a JSON value other than an integer.
- The DOM, map, markers, info windows, geocoding, toasts, `fetch` calls and event wiring in app.js. `fetchListings` takes the response's listings, or `[]`; that is not modelled.
- The feature price display, `(FEATURE_PRICE_CENTS/100).toFixed(2)`, which is floating point.
