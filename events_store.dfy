/** The client's event store (`store/useEvents.js`): three cached lists
    (all events, events for the user's interests, the admin's own events)
    and the event being viewed. Each fetch is one atomic step whose server
    answer is a parameter, and `now` stands for `Date.now()`. */
module EventsStore {
  import opened Common
  import opened Json
  import opened ApiHelpers

  /** Five minutes, in milliseconds. */
  const CACHE_TTL: int := 5 * 60 * 1000

  /** `isCacheValid`: a missing or zero timestamp is never valid; otherwise
      the list is valid while younger than the TTL. */
  predicate IsCacheValid(lastFetched: Option<int>, now: int) {
    lastFetched.Some? && lastFetched.value != 0 && now - lastFetched.value < CACHE_TTL
  }

  /** One list's slice of the store. */
  datatype ListState = ListState(
    events: seq<Json>, loading: bool, error: Option<string>,
    pagination: Option<Json>, lastFetched: Option<int>)

  const EMPTY_LIST := ListState([], false, None, None, None)

  datatype ListKind = AllEvents | InterestEvents | MyEvents

  /** The message kept when the server sent none. */
  function DefaultError(kind: ListKind): string {
    match kind
    case AllEvents => "Failed to fetch events"
    case InterestEvents => "Failed to fetch interest events"
    case MyEvents => "Failed to fetch your events"
  }

  /** The URL each list is fetched from, with its page and limit. */
  function FetchUrl(kind: ListKind, page: nat, limit: nat): string {
    var path := match kind
      case AllEvents => "/events"
      case InterestEvents => "/events/interests"
      case MyEvents => "/events/admin/my-events";
    path + "?page=" + Decimal(page) + "&limit=" + Decimal(limit)
  }

  /** What the server answered: the body's `data`, or a failure carrying the
      server's `message` if it sent one. */
  datatype Response = Ok(data: Json) | Failed(message: Option<string>)

  /** An unforced fetch is answered from the store, without a request, when
      the timestamp is valid and the list is not empty. */
  predicate ServesFromCache(st: ListState, force: bool, now: int) {
    !force && IsCacheValid(st.lastFetched, now) && |st.events| > 0
  }

  /** The list after a successful fetch at `now`. */
  function Fetched(st: ListState, data: Json, now: int): (r: ListState)
    ensures r.events == ExtractEventsFromResponse(data) && r.pagination == ExtractPaginationFromResponse(data)
    ensures !r.loading && r.error.None? && r.lastFetched == Some(now)
  {
    ListState(ExtractEventsFromResponse(data), false, None, ExtractPaginationFromResponse(data), Some(now))
  }

  /** The list after a failed fetch: the error is recorded, loading ends, and
      the events, the pagination and the timestamp are kept. */
  function FetchFailed(st: ListState, kind: ListKind, message: Option<string>): (r: ListState)
    ensures r.events == st.events && r.pagination == st.pagination && r.lastFetched == st.lastFetched
    ensures !r.loading && r.error.Some? && r.error.value != ""
    ensures Given(message) ==> r.error == message
  {
    st.(error := Some(if Given(message) then message.value else DefaultError(kind)), loading := false)
  }

  /** A non-empty list fetched at a non-zero time is served from the store for
      every unforced fetch in the next five minutes, whatever page is asked. */
  lemma FetchThenHit(st: ListState, data: Json, fetchedAt: int, now: int)
    requires fetchedAt != 0 && fetchedAt <= now < fetchedAt + CACHE_TTL
    requires ExtractEventsFromResponse(data) != []
    ensures ServesFromCache(Fetched(st, data, fetchedAt), false, now)
  {
  }

  /** An empty result is never served from the store: the next fetch asks
      the server again. */
  lemma EmptyNeverHits(st: ListState, force: bool, now: int)
    requires st.events == []
    ensures !ServesFromCache(st, force, now)
  {
  }

  /** A failed fetch does not refresh the timestamp, so it cannot make a
      stale list fresh. */
  lemma FailureKeepsStaleness(st: ListState, kind: ListKind, message: Option<string>, now: int)
    requires !IsCacheValid(st.lastFetched, now)
    ensures !ServesFromCache(FetchFailed(st, kind, message), false, now)
  {
  }

  /** The id the store compares with: `e._id`. */
  function IdOf(e: Json): Json {
    Get(e, "_id")
  }

  /** `list.filter(e => e._id !== id)`. */
  function RemoveId(s: seq<Json>, id: string): (r: seq<Json>)
    ensures |r| <= |s|
  {
    if s == [] then []
    else if IdOf(s[0]) != JStr(id) then [s[0]] + RemoveId(s[1..], id)
    else RemoveId(s[1..], id)
  }

  /** The filter keeps exactly the entries with another id. */
  lemma {:induction false} RemoveIdMembers(s: seq<Json>, id: string)
    ensures forall e :: e in RemoveId(s, id) <==> e in s && IdOf(e) != JStr(id)
    decreases |s|
  {
    if s != [] {
      RemoveIdMembers(s[1..], id);
      assert s == [s[0]] + s[1..];
    }
  }

  /** A list without the id is kept as it is, in its order. */
  lemma {:induction false} RemoveAbsentId(s: seq<Json>, id: string)
    requires forall i :: 0 <= i < |s| ==> IdOf(s[i]) != JStr(id)
    ensures RemoveId(s, id) == s
    decreases |s|
  {
    if s != [] {
      RemoveAbsentId(s[1..], id);
    }
  }

  /** Removing twice is removing once. */
  lemma RemoveIdIdempotent(s: seq<Json>, id: string)
    ensures RemoveId(RemoveId(s, id), id) == RemoveId(s, id)
  {
    var r := RemoveId(s, id);
    RemoveIdMembers(s, id);
    forall i | 0 <= i < |r| ensures IdOf(r[i]) != JStr(id) {
      assert r[i] in r;
    }
    RemoveAbsentId(r, id);
  }

  /** `allEvents.find(e => e._id === id)`: the first entry with that id. */
  function FindById(s: seq<Json>, id: string): (r: Option<Json>)
    ensures r.Some? ==>
      exists i :: 0 <= i < |s| && s[i] == r.value && IdOf(s[i]) == JStr(id) && forall j :: 0 <= j < i ==> IdOf(s[j]) != JStr(id)
    ensures r.None? ==> forall i :: 0 <= i < |s| ==> IdOf(s[i]) != JStr(id)
  {
    if s == [] then None
    else if IdOf(s[0]) == JStr(id) then Some(s[0])
    else
      var r := FindById(s[1..], id);
      if r.Some? then
        var i :| 0 <= i < |s[1..]| && s[1..][i] == r.value && IdOf(s[1..][i]) == JStr(id)
          && forall j :: 0 <= j < i ==> IdOf(s[1..][j]) != JStr(id);
        assert s[i + 1] == r.value && forall j :: 0 <= j < i + 1 ==> IdOf(s[j]) != JStr(id) by {
          forall j | 0 < j < i + 1 ensures IdOf(s[j]) != JStr(id) {
            assert s[j] == s[1..][j - 1];
          }
        }
        r
      else r
  }

  /** What a list fetch returns: the events and the pagination, or the error
      it rethrows. */
  datatype FetchResult = Returned(events: seq<Json>, pagination: Option<Json>) | Thrown

  class Store {
    var all: ListState
    var interest: ListState
    var mine: ListState
    var currentEvent: Json
    var currentEventLoading: bool
    var currentEventError: Option<string>
    var currentEventId: Option<string>

    /** The list a kind names. */
    function List(kind: ListKind): ListState
      reads this
    {
      match kind
      case AllEvents => all
      case InterestEvents => interest
      case MyEvents => mine
    }

    /** Every field at its initial value. */
    predicate IsInitial()
      reads this
    {
      && all == EMPTY_LIST && interest == EMPTY_LIST && mine == EMPTY_LIST
      && currentEvent == JNull && !currentEventLoading && currentEventError.None? && currentEventId.None?
    }

    constructor ()
      ensures IsInitial()
    {
      all, interest, mine := EMPTY_LIST, EMPTY_LIST, EMPTY_LIST;
      currentEvent, currentEventLoading, currentEventError, currentEventId := JNull, false, None, None;
    }

    /** Replaces one list and leaves the rest of the store alone. */
    method SetList(kind: ListKind, st: ListState)
      modifies this
      ensures List(kind) == st
      ensures forall k :: k != kind ==> List(k) == old(List(k))
      ensures currentEvent == old(currentEvent) && currentEventLoading == old(currentEventLoading)
      ensures currentEventError == old(currentEventError) && currentEventId == old(currentEventId)
    {
      match kind
      case AllEvents => all := st;
      case InterestEvents => interest := st;
      case MyEvents => mine := st;
    }

    /** `fetchAllEvents`, `fetchInterestEvents` and `fetchMyEvents`. `request`
        is the URL asked for, None when the store answered by itself. */
    method FetchList(kind: ListKind, page: nat, limit: nat, force: bool, now: int, response: Response)
      returns (result: FetchResult, request: Option<string>)
      modifies this
      ensures forall k :: k != kind ==> List(k) == old(List(k))
      ensures currentEvent == old(currentEvent) && currentEventLoading == old(currentEventLoading)
      ensures currentEventError == old(currentEventError) && currentEventId == old(currentEventId)
      ensures ServesFromCache(old(List(kind)), force, now) ==>
        && request.None? && List(kind) == old(List(kind))
        && result == Returned(old(List(kind)).events, old(List(kind)).pagination)
      ensures !ServesFromCache(old(List(kind)), force, now) ==>
        && request == Some(FetchUrl(kind, page, limit))
        && (response.Ok? ==>
              List(kind) == Fetched(old(List(kind)), response.data, now)
              && result == Returned(List(kind).events, List(kind).pagination))
        && (response.Failed? ==>
              List(kind) == FetchFailed(old(List(kind)), kind, response.message) && result == Thrown)
    {
      var st := List(kind);
      if ServesFromCache(st, force, now) {
        return Returned(st.events, st.pagination), None;
      }
      request := Some(FetchUrl(kind, page, limit));
      st := st.(loading := true, error := None);
      SetList(kind, st);
      match response
      case Ok(data) =>
        st := Fetched(st, data, now);
        SetList(kind, st);
        result := Returned(st.events, st.pagination);
      case Failed(message) =>
        st := FetchFailed(st, kind, message);
        SetList(kind, st);
        result := Thrown;
    }

    /** `fetchEventById`. The viewed event is answered from the store when it
        is the one asked for and the all-events timestamp is valid; otherwise a
        copy found in `allEvents` is shown first and the server is asked. */
    method FetchEventById(id: string, force: bool, now: int, response: Response)
      returns (result: Option<Json>, requested: bool)
      modifies this
      ensures all == old(all) && interest == old(interest) && mine == old(mine)
      ensures (!force && old(currentEventId) == Some(id) && Truthy(old(currentEvent))
                && IsCacheValid(old(all).lastFetched, now)) ==>
        !requested && result == Some(old(currentEvent)) && currentEvent == old(currentEvent)
        && currentEventId == old(currentEventId) && currentEventLoading == old(currentEventLoading)
        && currentEventError == old(currentEventError)
      ensures requested <==> !(!force && old(currentEventId) == Some(id) && Truthy(old(currentEvent))
                                && IsCacheValid(old(all).lastFetched, now))
      ensures requested && response.Ok? ==>
        currentEvent == response.data && currentEventId == Some(id) && !currentEventLoading
        && currentEventError.None? && result == Some(response.data)
      ensures requested && response.Failed? ==>
        result.None? && !currentEventLoading
        && currentEventError == Some(if Given(response.message) then response.message.value else "Failed to fetch event")
        && (!force && FindById(all.events, id).Some? ==>
              currentEvent == FindById(all.events, id).value && currentEventId == Some(id))
        && (force || FindById(all.events, id).None? ==>
              currentEvent == old(currentEvent) && currentEventId == old(currentEventId))
    {
      if !force && currentEventId == Some(id) && Truthy(currentEvent) && IsCacheValid(all.lastFetched, now) {
        return Some(currentEvent), false;
      }
      requested := true;
      if !force {
        var cached := FindById(all.events, id);
        if cached.Some? {
          currentEvent, currentEventId := cached.value, Some(id);
        }
      }
      currentEventLoading, currentEventError := true, None;
      match response
      case Ok(data) =>
        currentEvent, currentEventId, currentEventLoading := data, Some(id), false;
        result := Some(data);
      case Failed(message) =>
        currentEventError := Some(if Given(message) then message.value else "Failed to fetch event");
        currentEventLoading := false;
        result := None;
    }

    /** Nulls the three list timestamps and nothing else. */
    method ClearTimestamps()
      modifies this
      ensures all == old(all).(lastFetched := None) && interest == old(interest).(lastFetched := None)
      ensures mine == old(mine).(lastFetched := None)
      ensures currentEvent == old(currentEvent) && currentEventLoading == old(currentEventLoading)
      ensures currentEventError == old(currentEventError) && currentEventId == old(currentEventId)
    {
      all := all.(lastFetched := None);
      interest := interest.(lastFetched := None);
      mine := mine.(lastFetched := None);
    }

    /** `createEvent`: after the server accepts, the three timestamps are
        nulled; a failure is rethrown with the store unchanged. */
    method CreateEvent(accepted: bool)
      modifies this
      ensures accepted ==>
        (all == old(all).(lastFetched := None) && interest == old(interest).(lastFetched := None)
         && mine == old(mine).(lastFetched := None))
      ensures !accepted ==> all == old(all) && interest == old(interest) && mine == old(mine)
      ensures currentEvent == old(currentEvent) && currentEventLoading == old(currentEventLoading)
      ensures currentEventError == old(currentEventError) && currentEventId == old(currentEventId)
    {
      if accepted {
        ClearTimestamps();
      }
    }

    /** `invalidateCache`: the timestamps and the viewed event are cleared. */
    method InvalidateCache()
      modifies this
      ensures all == old(all).(lastFetched := None) && interest == old(interest).(lastFetched := None)
      ensures mine == old(mine).(lastFetched := None)
      ensures currentEvent == JNull && currentEventId.None?
      ensures currentEventLoading == old(currentEventLoading) && currentEventError == old(currentEventError)
    {
      ClearTimestamps();
      currentEvent, currentEventId := JNull, None;
    }

    /** `updateEvent`: after the server accepts, the same as `invalidateCache`. */
    method UpdateEvent(accepted: bool)
      modifies this
      ensures accepted ==>
        (all == old(all).(lastFetched := None) && interest == old(interest).(lastFetched := None)
         && mine == old(mine).(lastFetched := None) && currentEvent == JNull && currentEventId.None?)
      ensures !accepted ==>
        (all == old(all) && interest == old(interest) && mine == old(mine)
         && currentEvent == old(currentEvent) && currentEventId == old(currentEventId))
      ensures currentEventLoading == old(currentEventLoading) && currentEventError == old(currentEventError)
    {
      if accepted {
        InvalidateCache();
      }
    }

    /** `deleteEvent`: after the server deletes, the entries with that id are
        removed from all three lists and their timestamps are nulled. */
    method DeleteEvent(id: string, accepted: bool) returns (deleted: bool)
      modifies this
      ensures deleted == accepted
      ensures accepted ==>
        && all == old(all).(events := RemoveId(old(all).events, id), lastFetched := None)
        && interest == old(interest).(events := RemoveId(old(interest).events, id), lastFetched := None)
        && mine == old(mine).(events := RemoveId(old(mine).events, id), lastFetched := None)
      ensures !accepted ==> all == old(all) && interest == old(interest) && mine == old(mine)
      ensures currentEvent == old(currentEvent) && currentEventLoading == old(currentEventLoading)
      ensures currentEventError == old(currentEventError) && currentEventId == old(currentEventId)
    {
      if !accepted {
        return false;
      }
      all := all.(events := RemoveId(all.events, id), lastFetched := None);
      interest := interest.(events := RemoveId(interest.events, id), lastFetched := None);
      mine := mine.(events := RemoveId(mine.events, id), lastFetched := None);
      deleted := true;
    }

    /** `clearEvents`: every field back to its initial value. */
    method ClearEvents()
      modifies this
      ensures IsInitial()
    {
      all, interest, mine := EMPTY_LIST, EMPTY_LIST, EMPTY_LIST;
      currentEvent, currentEventLoading, currentEventError, currentEventId := JNull, false, None, None;
    }
  }

  /** After a delete, no list of the store holds the deleted id. */
  lemma DeletedIdGone(s: seq<Json>, id: string, e: Json)
    requires e in RemoveId(s, id)
    ensures IdOf(e) != JStr(id) && e in s
  {
    RemoveIdMembers(s, id);
  }

  /** Nulling the timestamp forces the next fetch to the server. */
  lemma ClearedTimestampMisses(st: ListState, force: bool, now: int)
    ensures !ServesFromCache(st.(lastFetched := None), force, now)
  {
  }
}
