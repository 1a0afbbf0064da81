/**
 The create-listing handler (netlify/functions/create-listing.js): turns a
 request body into a stored listing record under a fresh key. The key comes
 from `crypto.randomUUID()` and the timestamp from `Date.now()`; both are
 parameters here.
 */
module ListingCreation {
  import opened Model
  import opened Text

  const TitleLimit := 80
  const DescriptionLimit := 600
  const DefaultCategory := "Garage Sale"

  datatype CreateRequest = CreateRequest(httpMethod: string, body: Parsed<ListingInput>)

  /** A coordinate is kept only when the body gave a JSON number; anything else becomes null. */
  function NumberOrNull(v: Option<Scalar>): (r: Option<real>)
    ensures r.Some? <==> v.Some? && v.value.JNumber?
    ensures r.Some? ==> r.value == v.value.n
  {
    match v
    case Some(JNumber(n)) => Some(n)
    case _ => None
  }

  /** The record built from a request body: truncated text, defaults for missing fields, never featured. */
  function NewListing(input: ListingInput, id: string, now: int): (l: Listing)
    ensures l.id == id
    ensures var t := Or(input.title, "");
      |l.title| == (if |t| < TitleLimit then |t| else TitleLimit) && l.title == t[..|l.title|]
    ensures var d := Or(input.description, "");
      |l.description| == (if |d| < DescriptionLimit then |d| else DescriptionLimit) && l.description == d[..|l.description|]
    ensures Blank(input.category) ==> l.category == DefaultCategory
    ensures !Blank(input.category) ==> l.category == input.category.value
    ensures Blank(input.date) ==> l.date == None
    ensures !Blank(input.date) ==> l.date == input.date
    ensures l.timeStart == Or(input.timeStart, "") && l.timeEnd == Or(input.timeEnd, "")
    ensures l.address == Or(input.address, "") && l.contact == Or(input.contact, "")
    ensures l.photoUrl == Or(input.photoUrl, "")
    ensures l.lat == NumberOrNull(input.lat) && l.lng == NumberOrNull(input.lng)
    ensures !l.featured
    ensures l.createdAt == Some(now)
  {
    Listing(
      id := id,
      title := Take(Or(input.title, ""), TitleLimit),
      description := Take(Or(input.description, ""), DescriptionLimit),
      category := Or(input.category, DefaultCategory),
      date := if Blank(input.date) then None else input.date,
      timeStart := Or(input.timeStart, ""),
      timeEnd := Or(input.timeEnd, ""),
      address := Or(input.address, ""),
      contact := Or(input.contact, ""),
      photoUrl := Or(input.photoUrl, ""),
      lat := NumberOrNull(input.lat),
      lng := NumberOrNull(input.lng),
      featured := false,
      createdAt := Some(now))
  }

  /**
   The handler: anything but POST is refused with 405; a body that does not
   parse answers 500 with the parser's message; otherwise the new record is
   written under `id` and the answer carries that id. There is no check of
   required fields on this side.
   */
  function CreateListing(store: Store, req: CreateRequest, id: string, now: int): (o: Outcome)
    ensures req.httpMethod != "POST" ==> o == Outcome(store, MethodNotAllowed)
    ensures req.httpMethod == "POST" && req.body.Unparsable? ==>
      o == Outcome(store, Response(500, ErrorJson(req.body.message)))
    ensures o.response.status == 200 <==> req.httpMethod == "POST" && req.body.Parsed?
    ensures o.response.status == 200 ==>
      && o.response.body == CreatedJson(id)
      && o.store.Keys == store.Keys + {id}
      && o.store[id] == NewListing(req.body.value, id, now)
      && o.store[id].id == id
      && (forall k :: k in store && k != id ==> o.store[k] == store[k])
  {
    if req.httpMethod != "POST" then Outcome(store, MethodNotAllowed)
    else
      match req.body
      case Unparsable(message) => Outcome(store, Response(500, ErrorJson(message)))
      case Parsed(input) =>
        Outcome(store[id := NewListing(input, id, now)], Response(200, CreatedJson(id)))
  }

  /** Under a fresh key the store grows by exactly one record, and every earlier record is kept. */
  lemma CreateUnderFreshId(store: Store, input: ListingInput, id: string, now: int)
    requires id !in store
    ensures var o := CreateListing(store, CreateRequest("POST", Parsed(input)), id, now);
      && |o.store| == |store| + 1
      && (forall k :: k in store ==> k in o.store && o.store[k] == store[k])
  {
    var o := CreateListing(store, CreateRequest("POST", Parsed(input)), id, now);
    assert o.store.Keys == store.Keys + {id};
    assert |o.store.Keys| == |store.Keys| + 1;
  }
}
