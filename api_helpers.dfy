/** The client's response-unwrapping helpers (`utils/apiHelpers.js`). The
    store's private `extractEvents` (`store/useEvents.js`) has the same
    branches and is modelled by `ExtractEventsFromResponse`. */
module ApiHelpers {
  import opened Common
  import opened Json

  /** `extractEventsFromResponse`: the `events` array of a paginated
      response, the response itself when it is an array, otherwise `[]`. */
  function ExtractEventsFromResponse(response: Json): (r: seq<Json>)
    ensures !Truthy(response) ==> r == []
    ensures IsArray(Get(response, "events")) ==> r == Get(response, "events").items
    ensures !IsArray(Get(response, "events")) && IsArray(response) ==> r == response.items
    ensures r != [] ==> IsArray(response) || IsArray(Get(response, "events"))
  {
    if !Truthy(response) then []
    else if Truthy(Get(response, "events")) && IsArray(Get(response, "events")) then Get(response, "events").items
    else if IsArray(response) then response.items
    else []
  }

  /** `extractPaginationFromResponse`: `response?.pagination || null`. */
  function ExtractPaginationFromResponse(response: Json): (r: Option<Json>)
    ensures r.Some? <==> Truthy(Get(response, "pagination"))
    ensures r.Some? ==> r.value == Get(response, "pagination")
  {
    if Truthy(Get(response, "pagination")) then Some(Get(response, "pagination")) else None
  }

  /** The paginated body the list endpoints are read as:
      `{ events: [...], pagination: ... }`. */
  function PaginatedBody(events: seq<Json>, pagination: Json): Json {
    JObj(map["events" := JArr(events), "pagination" := pagination])
  }

  /** Both helpers recover what a paginated body carries. */
  lemma PaginatedRoundTrip(events: seq<Json>, pagination: Json)
    ensures ExtractEventsFromResponse(PaginatedBody(events, pagination)) == events
    ensures ExtractPaginationFromResponse(PaginatedBody(events, pagination))
      == (if Truthy(pagination) then Some(pagination) else None)
  {
  }

  /** The older, bare-array format is returned unchanged, with no pagination. */
  lemma ArrayRoundTrip(events: seq<Json>)
    ensures ExtractEventsFromResponse(JArr(events)) == events
    ensures ExtractPaginationFromResponse(JArr(events)) == None
  {
  }

  /** A scalar body (a string, a number, a boolean) yields no events. */
  lemma ScalarYieldsNothing(response: Json)
    requires !response.JArr? && !response.JObj?
    ensures ExtractEventsFromResponse(response) == []
  {
  }
}
