/**
 The browser client's decision logic (app.js): the filter over the fetched
 listings, the display order of the filtered list, and the required-field
 guard of the "save listing" button. Rendering, the map and geocoding are
 outside the model; the geocoder's answer is a parameter.
 */
module Client {
  import opened Model
  import opened Text
  import opened Seqs
  import ListingCreation

  /** The three filter controls: search text, category and date, as the inputs hold them. */
  datatype Filters = Filters(query: string, category: string, date: string)

  /** The search text as the filter compares it: lowercased, with surrounding whitespace removed. */
  function NormalizeQuery(q: string): string {
    Trim(Lower(q))
  }

  /** What the search looks in: the title and description joined by a space, lowercased. */
  function SearchText(l: Listing): string {
    Lower(l.title + " " + l.description)
  }

  /** The callback app.js passes to `allListings.filter`. */
  predicate Keep(f: Filters, l: Listing) {
    var q := NormalizeQuery(f.query);
    var cat := Trim(f.category);
    && (q == "" || Includes(SearchText(l), q))
    && (cat == "" || l.category == cat)
    && (f.date == "" || l.date == Some(f.date))
  }

  /**
   When a listing is shown: the normalized query occurs in its lowercased title
   and description (or the query is empty), its category is the trimmed
   category (or that is empty), and its date is the chosen date (or none is chosen).
   */
  ghost predicate Selected(f: Filters, l: Listing) {
    && (NormalizeQuery(f.query) == "" || OccursIn(NormalizeQuery(f.query), SearchText(l)))
    && (Trim(f.category) == "" || l.category == Trim(f.category))
    && (f.date == "" || l.date == Some(f.date))
  }

  lemma KeepIsSelected(f: Filters)
    ensures forall l :: Keep(f, l) <==> Selected(f, l)
  {
    forall l: Listing
      ensures Keep(f, l) <==> Selected(f, l)
    {
      IncludesIffOccurs(SearchText(l), NormalizeQuery(f.query));
    }
  }

  lemma EmptyFiltersKeepAll(all: seq<Listing>, f: Filters)
    ensures NormalizeQuery(f.query) == "" && Trim(f.category) == "" && f.date == "" ==>
      Filter(all, l => Keep(f, l)) == all
  {
    if NormalizeQuery(f.query) == "" && Trim(f.category) == "" && f.date == "" {
      FilterKeepsAll(all, l => Keep(f, l));
    }
  }

  /**
   `applyFilters()`: the listings that pass all three filters, in their
   original order and each as often as it was given; with every control empty,
   all listings.
   */
  function ApplyFilters(all: seq<Listing>, f: Filters): (r: seq<Listing>)
    ensures IsSubsequence(r, all)
    ensures forall l :: multiset(r)[l] == if Selected(f, l) then multiset(all)[l] else 0
    ensures NormalizeQuery(f.query) == "" && Trim(f.category) == "" && f.date == "" ==> r == all
  {
    KeepIsSelected(f);
    FilterIsSubsequence(all, l => Keep(f, l));
    EmptyFiltersKeepAll(all, f);
    Filter(all, l => Keep(f, l))
  }

  /** Queries that normalize alike select the same listings. */
  lemma SameNormalizedQuery(all: seq<Listing>, f: Filters, query: string)
    requires NormalizeQuery(query) == NormalizeQuery(f.query)
    ensures ApplyFilters(all, f.(query := query)) == ApplyFilters(all, f)
  {
    var g := f.(query := query);
    assert forall i :: 0 <= i < |all| ==> Keep(g, all[i]) == Keep(f, all[i]);
    FilterCongruent(all, l => Keep(g, l), l => Keep(f, l));
  }

  /** Two query texts that agree up to letter case select the same listings. */
  lemma QueryIgnoresCase(all: seq<Listing>, f: Filters, query: string)
    requires |query| == |f.query|
    requires forall i :: 0 <= i < |query| ==> LowerChar(query[i]) == LowerChar(f.query[i])
    ensures ApplyFilters(all, f.(query := query)) == ApplyFilters(all, f)
  {
    assert Lower(query) == Lower(f.query);
    SameNormalizedQuery(all, f, query);
  }

  /** Whitespace typed around the query does not change the result. */
  lemma QueryIgnoresPadding(all: seq<Listing>, f: Filters, before: string, after: string)
    requires AllSpace(before) && AllSpace(after)
    ensures ApplyFilters(all, f.(query := before + f.query + after)) == ApplyFilters(all, f)
  {
    LowerAppend(before + f.query, after);
    LowerAppend(before, f.query);
    LowerAppend(before, "");
    LowerAppend(after, "");
    assert Lower(before + f.query + after) == before + Lower(f.query) + after;
    TrimIgnoresPadding(before, Lower(f.query), after);
    SameNormalizedQuery(all, f, before + f.query + after);
  }

  /** The listing's date text, or the empty text when it has none. */
  function DateText(l: Listing): string {
    Or(l.date, "")
  }

  /** The display comparator: featured listings first, then by date text, a missing date counting as "". */
  function FeaturedThenDate(a: Listing, b: Listing): int {
    var byFeatured := FeaturedRank(b) - FeaturedRank(a);
    if byFeatured != 0 then byFeatured else CompareText(DateText(a), DateText(b))
  }

  lemma FeaturedThenDateIsPreorder()
    ensures IsPreorder(FeaturedThenDate)
  {
    forall a: Listing, b: Listing
      ensures FeaturedThenDate(a, b) <= 0 || FeaturedThenDate(b, a) <= 0
    {
      CompareTextLaws(DateText(a), DateText(b));
    }
    forall a: Listing, b: Listing, c: Listing | FeaturedThenDate(a, b) <= 0 && FeaturedThenDate(b, c) <= 0
      ensures FeaturedThenDate(a, c) <= 0
    {
      if a.featured == b.featured && b.featured == c.featured {
        CompareTextTransitive(DateText(a), DateText(b), DateText(c));
      }
    }
  }

  /** What being ordered by `FeaturedThenDate` means for the featured flag and the date text. */
  lemma FeaturedThenDateOrder(r: seq<Listing>)
    requires SortedBy(r, FeaturedThenDate)
    ensures forall i, j :: 0 <= i < j < |r| && r[j].featured ==> r[i].featured
    ensures forall i, j :: 0 <= i < j < |r| && r[i].featured == r[j].featured ==>
      CompareText(DateText(r[i]), DateText(r[j])) <= 0
    ensures forall i, j :: 0 <= i < j < |r| && r[i].featured == r[j].featured && DateText(r[j]) == "" ==>
      DateText(r[i]) == ""
  {
    forall i, j | 0 <= i < j < |r|
      ensures r[j].featured ==> r[i].featured
      ensures r[i].featured == r[j].featured ==> CompareText(DateText(r[i]), DateText(r[j])) <= 0
    {
      assert FeaturedThenDate(r[i], r[j]) <= 0;
    }
  }

  /**
   The order the list is drawn in: a rearrangement of the filtered listings in
   which no listing that is not featured comes before a featured one, and within
   each group the date texts ascend, undated listings first.
   */
  function DisplayOrder(filtered: seq<Listing>): (r: seq<Listing>)
    ensures multiset(r) == multiset(filtered)
    ensures forall i, j :: 0 <= i < j < |r| && r[j].featured ==> r[i].featured
    ensures forall i, j :: 0 <= i < j < |r| && r[i].featured == r[j].featured ==>
      CompareText(DateText(r[i]), DateText(r[j])) <= 0
    ensures forall i, j :: 0 <= i < j < |r| && r[i].featured == r[j].featured && DateText(r[j]) == "" ==>
      DateText(r[i]) == ""
  {
    FeaturedThenDateIsPreorder();
    SortSorted(filtered, FeaturedThenDate);
    FeaturedThenDateOrder(Sort(filtered, FeaturedThenDate));
    Sort(filtered, FeaturedThenDate)
  }

  /** Listings that tie in the display order keep the order the filter gave them. */
  lemma DisplayOrderIsStable(filtered: seq<Listing>, y: Listing)
    ensures Filter(DisplayOrder(filtered), z => Ties(FeaturedThenDate, z, y))
         == Filter(filtered, z => Ties(FeaturedThenDate, z, y))
  {
    FeaturedThenDateIsPreorder();
    SortStable(filtered, FeaturedThenDate, y);
  }

  const RequiredFieldsMessage := "Please complete required fields."

  /** The geocoder's first result, when it found one. */
  datatype Coords = Coords(lat: real, lng: real)

  /** What pressing "save" does: refuse with a message, or send a create request with this body. */
  datatype SaveAction = Blocked(message: string) | Submit(body: ListingInput)

  /**
   The save handler: with title, address, category or date empty it shows the
   message and sends nothing; otherwise it sends the form fields together with
   the geocoded coordinates (null when geocoding found nothing).
   */
  function SaveListing(payload: ListingInput, geocoded: Option<Coords>): (a: SaveAction)
    ensures a.Blocked? <==> Blank(payload.title) || Blank(payload.address) || Blank(payload.category) || Blank(payload.date)
    ensures a.Blocked? ==> a.message == RequiredFieldsMessage
    ensures a.Submit? ==>
      && a.body.title == payload.title && a.body.description == payload.description
      && a.body.category == payload.category && a.body.date == payload.date
      && a.body.timeStart == payload.timeStart && a.body.timeEnd == payload.timeEnd
      && a.body.address == payload.address && a.body.contact == payload.contact
      && a.body.photoUrl == payload.photoUrl
      && (geocoded.Some? ==> a.body.lat == Some(JNumber(geocoded.value.lat)) && a.body.lng == Some(JNumber(geocoded.value.lng)))
      && (geocoded.None? ==> a.body.lat == Some(JNull) && a.body.lng == Some(JNull))
  {
    if Blank(payload.title) || Blank(payload.address) || Blank(payload.category) || Blank(payload.date) then
      Blocked(RequiredFieldsMessage)
    else
      match geocoded
      case Some(c) => Submit(payload.(lat := Some(JNumber(c.lat)), lng := Some(JNumber(c.lng))))
      case None => Submit(payload.(lat := Some(JNull), lng := Some(JNull)))
  }

  /**
   A listing the client lets through is stored complete: a non-empty title that
   starts the typed one, the typed address, category and date, and the geocoded
   coordinates.
   */
  lemma SubmittedListingIsComplete(store: Store, payload: ListingInput, geocoded: Option<Coords>, id: string, now: int)
    requires SaveListing(payload, geocoded).Submit?
    ensures
      var body := SaveListing(payload, geocoded).body;
      var o := ListingCreation.CreateListing(store, ListingCreation.CreateRequest("POST", Parsed(body)), id, now);
      var l := o.store[id];
      && o.response == Response(200, CreatedJson(id))
      && l.title != "" && StartsWith(payload.title.value, l.title)
      && l.address == payload.address.value
      && l.category == payload.category.value
      && l.date == payload.date
      && (geocoded.Some? ==> l.lat == Some(geocoded.value.lat) && l.lng == Some(geocoded.value.lng))
      && (geocoded.None? ==> l.lat == None && l.lng == None)
      && !l.featured
  {
  }
}
