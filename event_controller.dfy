/** The event handlers of `controllers/event.controller.js` over the event
    collection, a map from id to document, and the class `EventCollection`
    that performs them in place together with the daily sweep of
    `utils/cleanupEvents.js`. The caller is the user `verifyJWT` attached;
    the Cloudinary upload is the URL it returned (None when nothing was
    uploaded), `getPublicIdFromUrl` is the parameter `publicIdOf`, and the
    cast of a request's date string is the parameter `parseDate`. A listing
    is in insertion order, which is id order. */
module EventController {
  import opened Common
  import opened UserModel
  import opened EventModel
  import opened EventCleanup

  const MSG_FIELDS_REQUIRED := "All required fields must be provided"
  const MSG_NO_INTERESTS := "User has no intersest defined"
  const MSG_NOT_OWNER := "You are not authorized to update this event"
  const MSG_EVENT_NOT_FOUND := "Event not found"
  const MSG_NOT_THUMBNAIL_OWNER := "You are not authorized to update this event's thumbnail"
  const MSG_NO_THUMBNAIL := "No thumbnail file provided"
  const MSG_NO_PUBLIC_ID := "PublicId not obtained"
  /** Messages of errors that are not `ApiError`s; Express answers them with 500. */
  const MSG_VALIDATION := "Validation failed"
  const MSG_NULL_EVENT := "Cannot read properties of null"
  const MSG_NO_UPLOAD := "Cannot read properties of undefined"

  /** The collection's invariant: ids below the next one, every document as
      the schema's setters and validators leave it, and none approved (no
      handler here ever sets `isApproved`). */
  ghost predicate EventsValid(events: EventMap, nextId: nat) {
    forall id :: id in events ==> id < nextId && EventSchemaValid(events[id]) && !events[id].isApproved
  }

  datatype EventStep<T> = EventStep(events: EventMap, reply: Outcome<T>)

  /** The body's `domains`: absent, an array of strings, or a single string. */
  datatype DomainsField = NoDomains | DomainList(items: seq<string>) | DomainString(value: string)

  /** The body fields the handlers read; a string field is None when it is absent. */
  datatype EventFields = EventFields(
    club_name: Option<string>, event_name: Option<string>, title: Option<string>,
    description: Option<string>, event_date: Option<string>, time: Option<string>,
    venue: Option<string>, domains: DomainsField, registration_link: Option<string>)

  /** `domains` as `Array.isArray` sees it: only an array counts. */
  function ArrayDomains(d: DomainsField): (r: Option<seq<string>>)
    ensures r.Some? <==> d.DomainList?
    ensures d.DomainList? ==> r.value == d.items
  {
    if d.DomainList? then Some(d.items) else None
  }

  /** `domains` as Mongoose casts it for the array path in `$set`: a single
      string becomes a one-element array. */
  function CastDomains(d: DomainsField): (r: Option<seq<string>>)
    ensures r.None? <==> d.NoDomains?
    ensures d.DomainList? ==> r == Some(d.items)
    ensures d.DomainString? ==> r == Some([d.value])
  {
    match d
    case NoDomains => None
    case DomainList(items) => Some(items)
    case DomainString(v) => Some([v])
  }

  // ---------------------------------------------------------------------------
  // Listings
  // ---------------------------------------------------------------------------

  datatype Listed = Listed(id: EventId, event: Event)

  /** The documents with ids in [from, bound), in id order. */
  function InIdOrder(events: EventMap, from: nat, bound: nat): (r: seq<Listed>)
    ensures forall i :: 0 <= i < |r| ==> from <= r[i].id < bound && r[i].id in events && events[r[i].id] == r[i].event
    ensures forall i, j :: 0 <= i < j < |r| ==> r[i].id < r[j].id
    ensures forall id :: from <= id < bound && id in events ==> Listed(id, events[id]) in r
    decreases bound - from
  {
    if from >= bound then []
    else if from in events then [Listed(from, events[from])] + InIdOrder(events, from + 1, bound)
    else InIdOrder(events, from + 1, bound)
  }

  predicate SortedByDate(s: seq<Listed>) {
    forall i, j :: 0 <= i < j < |s| ==> s[i].event.event_date <= s[j].event.event_date
  }

  /** Puts `x` after every element dated no later than it. */
  function InsertByDate(x: Listed, s: seq<Listed>): (r: seq<Listed>)
    ensures multiset(r) == multiset(s) + multiset{x}
    ensures |r| == |s| + 1
  {
    if s == [] || x.event.event_date < s[0].event.event_date then [x] + s
    else
      assert s == [s[0]] + s[1..];
      [s[0]] + InsertByDate(x, s[1..])
  }

  lemma {:induction false} InsertKeepsSorted(x: Listed, s: seq<Listed>)
    requires SortedByDate(s)
    ensures SortedByDate(InsertByDate(x, s))
    decreases |s|
  {
    if s != [] && x.event.event_date >= s[0].event.event_date {
      InsertKeepsSorted(x, s[1..]);
      var r := InsertByDate(x, s[1..]);
      assert InsertByDate(x, s) == [s[0]] + r;
      forall k | 0 <= k < |r| ensures s[0].event.event_date <= r[k].event.event_date {
        assert r[k] in multiset(r);
        assert r[k] in multiset(s[1..]) + multiset{x};
        if r[k] in multiset(s[1..]) {
          var m :| 0 <= m < |s[1..]| && s[1..][m] == r[k];
          assert s[m + 1] == r[k];
        }
      }
    }
  }

  /** `.sort({ event_date: 1 })` as an insertion sort. MongoDB leaves the
      order of equal dates unspecified; this sort reverses it. */
  function SortByDate(s: seq<Listed>): (r: seq<Listed>)
    ensures multiset(r) == multiset(s) && |r| == |s|
  {
    if s == [] then []
    else
      assert s == [s[0]] + s[1..];
      InsertByDate(s[0], SortByDate(s[1..]))
  }

  lemma {:induction false} SortByDateSorted(s: seq<Listed>)
    ensures SortedByDate(SortByDate(s))
    decreases |s|
  {
    if s != [] {
      SortByDateSorted(s[1..]);
      InsertKeepsSorted(s[0], SortByDate(s[1..]));
    }
  }

  /** `getAllEvents`: every event, ascending by date. */
  function GetAllEvents(events: EventMap, nextId: nat): (r: seq<Listed>)
  {
    SortByDate(InIdOrder(events, 0, nextId))
  }

  /** The listing is sorted by date and holds each stored event exactly once. */
  lemma GetAllEventsCorrect(events: EventMap, nextId: nat)
    requires forall id :: id in events ==> id < nextId
    ensures SortedByDate(GetAllEvents(events, nextId))
    ensures multiset(GetAllEvents(events, nextId)) == multiset(InIdOrder(events, 0, nextId))
    ensures forall id, e :: Listed(id, e) in GetAllEvents(events, nextId) <==> id in events && events[id] == e
  {
    var l := InIdOrder(events, 0, nextId);
    SortByDateSorted(l);
    forall id, e ensures Listed(id, e) in GetAllEvents(events, nextId) <==> Listed(id, e) in l {
      assert Listed(id, e) in multiset(GetAllEvents(events, nextId)) <==> Listed(id, e) in multiset(l);
    }
  }

  /** The query `{ domains: { $in: interests } }`: some domain is one of the
      interests. */
  predicate MatchesInterests(e: Event, interests: seq<string>) {
    exists i :: 0 <= i < |e.domains| && e.domains[i] in interests
  }

  /** The matching documents of a listing, in its order. */
  function FilterByInterests(s: seq<Listed>, interests: seq<string>): (r: seq<Listed>)
    ensures |r| <= |s|
  {
    if s == [] then []
    else if MatchesInterests(s[0].event, interests) then [s[0]] + FilterByInterests(s[1..], interests)
    else FilterByInterests(s[1..], interests)
  }

  /** The filter keeps exactly the matching elements. */
  lemma {:induction false} FilterMembers(s: seq<Listed>, interests: seq<string>)
    ensures forall x :: x in FilterByInterests(s, interests) <==> x in s && MatchesInterests(x.event, interests)
    decreases |s|
  {
    if s != [] {
      FilterMembers(s[1..], interests);
      assert s == [s[0]] + s[1..];
    }
  }

  predicate IncreasingIds(s: seq<Listed>) {
    forall i, j :: 0 <= i < j < |s| ==> s[i].id < s[j].id
  }

  /** Filtering keeps the listing's order: the result is a subsequence. */
  lemma {:induction false} FilterKeepsOrder(s: seq<Listed>, interests: seq<string>)
    requires IncreasingIds(s)
    ensures IncreasingIds(FilterByInterests(s, interests))
    decreases |s|
  {
    if s != [] {
      FilterKeepsOrder(s[1..], interests);
      var t := FilterByInterests(s[1..], interests);
      if MatchesInterests(s[0].event, interests) {
        FilterMembers(s[1..], interests);
        forall k | 0 <= k < |t| ensures s[0].id < t[k].id {
          assert t[k] in s[1..];
        }
        var r := [s[0]] + t;
        forall i, j | 0 <= i < j < |r| ensures r[i].id < r[j].id {
          if i > 0 { assert r[i] == t[i - 1] && r[j] == t[j - 1]; }
        }
      }
    }
  }

  /** With no interests nothing matches. */
  lemma {:induction false} FilterNoInterests(s: seq<Listed>)
    ensures FilterByInterests(s, []) == []
    decreases |s|
  {
    if s != [] {
      FilterNoInterests(s[1..]);
    }
  }

  /** `getEventsByUserInterests`: 400 when the user's `interests` is missing;
      otherwise exactly the events sharing a domain with them. */
  function GetEventsByUserInterests(events: EventMap, nextId: nat, interests: Option<seq<string>>): (r: Outcome<seq<Listed>>)
    requires forall id :: id in events ==> id < nextId
    ensures interests.None? <==> r == Fail(400, MSG_NO_INTERESTS)
    ensures r.Done? ==> r.status == 200
    ensures r.Done? ==>
      forall id, e :: Listed(id, e) in r.value <==> id in events && events[id] == e && MatchesInterests(e, interests.value)
  {
    if interests.None? then Fail(400, MSG_NO_INTERESTS)
    else
      var listing := InIdOrder(events, 0, nextId);
      FilterMembers(listing, interests.value);
      Done(200, FilterByInterests(listing, interests.value))
  }

  /** The matching events come in id order, as the query returns them. */
  lemma InterestEventsInIdOrder(events: EventMap, nextId: nat, interests: seq<string>)
    requires forall id :: id in events ==> id < nextId
    ensures IncreasingIds(GetEventsByUserInterests(events, nextId, Some(interests)).value)
  {
    FilterKeepsOrder(InIdOrder(events, 0, nextId), interests);
  }

  /** A user document always has an `interests` array (it defaults to []),
      so for a stored user the 400 branch cannot be taken. */
  lemma StoredUserHasInterests(events: EventMap, nextId: nat, u: User)
    requires forall id :: id in events ==> id < nextId
    ensures GetEventsByUserInterests(events, nextId, Some(u.interests)).Done?
  {
  }

  /** With an empty interest list the reply is empty. */
  lemma NoInterestsNoEvents(events: EventMap, nextId: nat)
    requires forall id :: id in events ==> id < nextId
    ensures GetEventsByUserInterests(events, nextId, Some([])) == Done(200, [])
  {
    FilterNoInterests(InIdOrder(events, 0, nextId));
  }

  // ---------------------------------------------------------------------------
  // createEvent
  // ---------------------------------------------------------------------------

  /** The 400 check: five truthy strings and a non-empty `domains` array. */
  predicate CreateFieldsOk(req: EventFields) {
    && Given(req.event_name) && Given(req.title) && Given(req.event_date)
    && Given(req.time) && Given(req.venue)
    && ArrayDomains(req.domains).Some? && ArrayDomains(req.domains).value != []
  }

  /** `thumbnail?.url || ""`. */
  function ThumbnailUrl(upload: Option<string>): (t: string)
    ensures Given(upload) ==> t == upload.value
    ensures !Given(upload) ==> t == ""
  {
    if Given(upload) then upload.value else ""
  }

  /** The document `Event.create` is given after the checks: the caller as the
      club, the caller's full name whatever `club_name` was sent, and the
      uploaded image or "". */
  function CreatedEvent(callerId: UserId, caller: User, req: EventFields, date: int, upload: Option<string>): Event
    requires CreateFieldsOk(req)
  {
    NewEvent(callerId, caller.fullname, ThumbnailUrl(upload), req.event_name.value, req.title.value,
             req.description, date, req.time.value, req.venue.value, ArrayDomains(req.domains).value, req.registration_link)
  }

  function CreateEventStep(events: EventMap, nextId: nat, callerId: UserId, caller: User, req: EventFields,
                           upload: Option<string>, parseDate: string -> Option<int>): (r: EventStep<Event>)
    ensures r.reply.Fail? ==> r.events == events
    ensures !CreateFieldsOk(req) ==> r.reply == Fail(400, MSG_FIELDS_REQUIRED)
    ensures CreateFieldsOk(req) && parseDate(req.event_date.value).None? ==> r.reply == Fail(500, MSG_VALIDATION)
    ensures (CreateFieldsOk(req) && parseDate(req.event_date.value).Some?
             && !EventSchemaValid(CreatedEvent(callerId, caller, req, parseDate(req.event_date.value).value, upload))) ==>
      r.reply == Fail(500, MSG_VALIDATION)
    ensures r.reply.Done? <==>
      CreateFieldsOk(req) && parseDate(req.event_date.value).Some?
      && EventSchemaValid(CreatedEvent(callerId, caller, req, parseDate(req.event_date.value).value, upload))
    ensures r.reply.Done? ==>
      var e := CreatedEvent(callerId, caller, req, parseDate(req.event_date.value).value, upload);
      r.reply == Done(200, e) && r.events == events[nextId := e]
  {
    if !CreateFieldsOk(req) then EventStep(events, Fail(400, MSG_FIELDS_REQUIRED))
    else match parseDate(req.event_date.value)
      case None => EventStep(events, Fail(500, MSG_VALIDATION))
      case Some(date) =>
        var e := CreatedEvent(callerId, caller, req, date, upload);
        if !EventSchemaValid(e) then EventStep(events, Fail(500, MSG_VALIDATION))
        else EventStep(events[nextId := e], Done(200, e))
  }

  /** What a created event records: the posting user, that user's name, the
      image or "", and not approved. */
  lemma CreatedEventFields(callerId: UserId, caller: User, req: EventFields, date: int, upload: Option<string>)
    requires CreateFieldsOk(req) && WellFormed(caller)
    ensures var e := CreatedEvent(callerId, caller, req, date, upload);
      && e.club == callerId && e.club_name == caller.fullname && !e.isApproved
      && (!Given(upload) ==> e.thumbnail == "")
      && e.domains == ArrayDomains(req.domains).value && e.event_date == date
  {
    TrimmedIsFixed(caller.fullname);
    assert Trim("") == "";
  }

  /** The submitted `club_name` has no effect. */
  /** `createEvent` refuses a single domain string with 400, while
      `updateEventDetails` stores it as a one-domain array. */
  lemma ScalarDomainCastOnUpdate(e: Event, req: EventFields, date: Option<int>)
    requires req.domains.DomainString?
    ensures !CreateFieldsOk(req)
    ensures UpdatedEvent(e, req, date).domains == [req.domains.value]
  {
  }

  lemma ClubNameIgnored(events: EventMap, nextId: nat, callerId: UserId, caller: User, req: EventFields,
                        other: Option<string>, upload: Option<string>, parseDate: string -> Option<int>)
    ensures CreateEventStep(events, nextId, callerId, caller, req, upload, parseDate)
         == CreateEventStep(events, nextId, callerId, caller, req.(club_name := other), upload, parseDate)
  {
  }

  lemma CreateKeepsValid(events: EventMap, nextId: nat, callerId: UserId, caller: User, req: EventFields,
                         upload: Option<string>, parseDate: string -> Option<int>)
    requires EventsValid(events, nextId)
    ensures var r := CreateEventStep(events, nextId, callerId, caller, req, upload, parseDate);
      EventsValid(r.events, if r.reply.Done? then nextId + 1 else nextId)
  {
  }

  // ---------------------------------------------------------------------------
  // updateEventDetails
  // ---------------------------------------------------------------------------

  /** A field of the `$set`: kept when absent, replaced by its trimmed value
      when present. */
  function SetField(current: string, update: Option<string>): (r: string)
    ensures update.None? ==> r == current
    ensures update.Some? ==> r == Trim(update.value)
  {
    if update.Some? then Trim(update.value) else current
  }

  function SetOptField(current: Option<string>, update: Option<string>): (r: Option<string>)
    ensures update.None? ==> r == current
    ensures update.Some? ==> r == Some(Trim(update.value))
  {
    if update.Some? then Some(Trim(update.value)) else current
  }

  /** The document after `$set` with the given date: the sent fields replace
      the stored ones, absent fields are kept, `isApproved` becomes false, and
      the club, its name and the thumbnail are untouched. */
  function UpdatedEvent(e: Event, req: EventFields, date: Option<int>): (u: Event)
    ensures !u.isApproved && u.club == e.club && u.club_name == e.club_name && u.thumbnail == e.thumbnail
    ensures u.event_date == (if date.Some? then date.value else e.event_date)
    ensures u.domains == (if CastDomains(req.domains).Some? then CastDomains(req.domains).value else e.domains)
  {
    e.(event_name := SetField(e.event_name, req.event_name),
       title := SetField(e.title, req.title),
       description := SetOptField(e.description, req.description),
       event_date := if date.Some? then date.value else e.event_date,
       time := SetField(e.time, req.time),
       venue := SetField(e.venue, req.venue),
       registration_link := SetOptField(e.registration_link, req.registration_link),
       domains := if CastDomains(req.domains).Some? then CastDomains(req.domains).value else e.domains,
       isApproved := false)
  }

  /** With `runValidators`, the update validators check the paths being set:
      a sent required string must not trim to empty, and sent domains must
      be in the enumeration. */
  predicate UpdateAccepted(req: EventFields) {
    && (req.event_name.Some? ==> !IsBlank(req.event_name.value))
    && (req.title.Some? ==> !IsBlank(req.title.value))
    && (req.time.Some? ==> !IsBlank(req.time.value))
    && (req.venue.Some? ==> !IsBlank(req.venue.value))
    && (CastDomains(req.domains).Some? ==>
          forall i :: 0 <= i < |CastDomains(req.domains).value| ==> IsDomain(CastDomains(req.domains).value[i]))
  }

  /** The date to set: none when absent, the cast value when it casts. */
  function UpdateDate(req: EventFields, parseDate: string -> Option<int>): Option<Option<int>> {
    match req.event_date
    case None => Some(None)
    case Some(s) => if parseDate(s).Some? then Some(parseDate(s)) else None
  }

  function UpdateEventDetailsStep(events: EventMap, id: EventId, callerId: UserId, req: EventFields,
                                  parseDate: string -> Option<int>): (r: EventStep<Event>)
    ensures r.reply.Fail? ==> r.events == events
    ensures id !in events ==> r.reply == Fail(500, MSG_NULL_EVENT)
    ensures id in events && events[id].club != callerId ==> r.reply == Fail(403, MSG_NOT_OWNER)
    ensures r.reply.Done? <==>
      id in events && events[id].club == callerId && UpdateDate(req, parseDate).Some? && UpdateAccepted(req)
    ensures id in events && events[id].club == callerId && (UpdateDate(req, parseDate).None? || !UpdateAccepted(req)) ==>
      r.reply == Fail(500, MSG_VALIDATION)
    ensures r.reply.Done? ==>
      var u := UpdatedEvent(events[id], req, UpdateDate(req, parseDate).value);
      r.reply == Done(200, u) && r.events == events[id := u]
  {
    if id !in events then EventStep(events, Fail(500, MSG_NULL_EVENT))
    else if events[id].club != callerId then EventStep(events, Fail(403, MSG_NOT_OWNER))
    else match UpdateDate(req, parseDate)
      case None => EventStep(events, Fail(500, MSG_VALIDATION))
      case Some(date) =>
        if !UpdateAccepted(req) then EventStep(events, Fail(500, MSG_VALIDATION))
        else
          var u := UpdatedEvent(events[id], req, date);
          EventStep(events[id := u], Done(200, u))
  }

  /** Only the posting user can change an event; anyone else changes nothing. */
  lemma UpdateOnlyByOwner(events: EventMap, id: EventId, callerId: UserId, req: EventFields,
                          parseDate: string -> Option<int>)
    requires id in events && events[id].club != callerId
    ensures UpdateEventDetailsStep(events, id, callerId, req, parseDate) == EventStep(events, Fail(403, MSG_NOT_OWNER))
  {
  }

  /** An accepted update, even an empty one, withdraws the approval. */
  lemma UpdateWithdrawsApproval(events: EventMap, id: EventId, callerId: UserId, req: EventFields,
                                parseDate: string -> Option<int>)
    requires UpdateEventDetailsStep(events, id, callerId, req, parseDate).reply.Done?
    ensures !UpdateEventDetailsStep(events, id, callerId, req, parseDate).events[id].isApproved
  {
  }

  lemma UpdateKeepsValid(events: EventMap, nextId: nat, id: EventId, callerId: UserId, req: EventFields,
                         parseDate: string -> Option<int>)
    requires EventsValid(events, nextId)
    ensures EventsValid(UpdateEventDetailsStep(events, id, callerId, req, parseDate).events, nextId)
  {
    var r := UpdateEventDetailsStep(events, id, callerId, req, parseDate);
    if r.reply.Done? {
      var u := r.events[id];
      assert EventSchemaValid(events[id]);
      assert EventSchemaValid(u);
    }
  }

  // ---------------------------------------------------------------------------
  // updateEventThumbnail
  // ---------------------------------------------------------------------------

  /** The effect of a thumbnail change: the collection afterwards, the reply,
      and the public id of the old image deleted from Cloudinary, if any. */
  datatype ThumbnailStep = ThumbnailStep(events: EventMap, reply: Outcome<Event>, deletedImage: Option<string>)

  function UpdateEventThumbnailStep(events: EventMap, id: EventId, callerId: UserId, fileSent: bool,
                                    publicIdOf: string -> Option<string>, upload: Option<string>): (r: ThumbnailStep)
    ensures r.reply.Fail? ==> r.events == events
    ensures id !in events ==> r.reply == Fail(404, MSG_EVENT_NOT_FOUND)
    ensures id in events && events[id].club != callerId ==> r.reply == Fail(403, MSG_NOT_THUMBNAIL_OWNER)
    ensures id in events && events[id].club == callerId && !fileSent ==> r.reply == Fail(400, MSG_NO_THUMBNAIL)
    ensures (id in events && events[id].club == callerId && fileSent && events[id].thumbnail != ""
             && !Given(publicIdOf(events[id].thumbnail))) ==> r.reply == Fail(400, MSG_NO_PUBLIC_ID)
    ensures r.deletedImage.Some? ==>
      id in events && events[id].club == callerId && fileSent && events[id].thumbnail != ""
      && publicIdOf(events[id].thumbnail) == r.deletedImage && Given(r.deletedImage)
    ensures r.reply.Done? <==>
      && id in events && events[id].club == callerId && fileSent
      && (events[id].thumbnail != "" ==> Given(publicIdOf(events[id].thumbnail)))
      && upload.Some?
    ensures r.reply.Done? ==>
      && r.reply == Done(200, events[id].(thumbnail := Trim(upload.value)))
      && r.events == events[id := events[id].(thumbnail := Trim(upload.value))]
      && (r.deletedImage.Some? <==> events[id].thumbnail != "")
  {
    if id !in events then ThumbnailStep(events, Fail(404, MSG_EVENT_NOT_FOUND), None)
    else if events[id].club != callerId then ThumbnailStep(events, Fail(403, MSG_NOT_THUMBNAIL_OWNER), None)
    else if !fileSent then ThumbnailStep(events, Fail(400, MSG_NO_THUMBNAIL), None)
    else
      var e := events[id];
      var pid := if e.thumbnail != "" then publicIdOf(e.thumbnail) else None;
      if e.thumbnail != "" && !Given(pid) then ThumbnailStep(events, Fail(400, MSG_NO_PUBLIC_ID), None)
      else if upload.None? then ThumbnailStep(events, Fail(500, MSG_NO_UPLOAD), pid)
      else
        var u := e.(thumbnail := Trim(upload.value));
        ThumbnailStep(events[id := u], Done(200, u), pid)
  }

  /** A failed upload after the checks still deletes the old image: the
      event keeps a URL whose image is gone. */
  lemma FailedUploadLosesImage(events: EventMap, id: EventId, callerId: UserId,
                               publicIdOf: string -> Option<string>)
    requires id in events && events[id].club == callerId && events[id].thumbnail != ""
    requires Given(publicIdOf(events[id].thumbnail))
    ensures var r := UpdateEventThumbnailStep(events, id, callerId, true, publicIdOf, None);
      r.reply.Fail? && r.events == events && r.deletedImage == publicIdOf(events[id].thumbnail)
  {
  }

  /** Nothing is deleted from Cloudinary unless the first three checks pass. */
  lemma NoDeleteBeforeChecks(events: EventMap, id: EventId, callerId: UserId, fileSent: bool,
                             publicIdOf: string -> Option<string>, upload: Option<string>)
    requires id !in events || events[id].club != callerId || !fileSent
    ensures UpdateEventThumbnailStep(events, id, callerId, fileSent, publicIdOf, upload).deletedImage.None?
  {
  }

  lemma ThumbnailKeepsValid(events: EventMap, nextId: nat, id: EventId, callerId: UserId, fileSent: bool,
                            publicIdOf: string -> Option<string>, upload: Option<string>)
    requires EventsValid(events, nextId)
    ensures EventsValid(UpdateEventThumbnailStep(events, id, callerId, fileSent, publicIdOf, upload).events, nextId)
  {
  }

  // ---------------------------------------------------------------------------
  // The collection, updated in place
  // ---------------------------------------------------------------------------

  class EventCollection {
    var events: EventMap
    var nextId: nat

    ghost predicate Valid()
      reads this
    {
      EventsValid(events, nextId)
    }

    constructor ()
      ensures events == map[] && nextId == 0 && Valid()
    {
      events := map[];
      nextId := 0;
    }

    /** `createEvent`. */
    method CreateEvent(callerId: UserId, caller: User, req: EventFields, upload: Option<string>,
                       parseDate: string -> Option<int>) returns (reply: Outcome<Event>)
      requires Valid()
      modifies this
      ensures Valid()
      ensures EventStep(events, reply) == CreateEventStep(old(events), old(nextId), callerId, caller, req, upload, parseDate)
      ensures nextId == if reply.Done? then old(nextId) + 1 else old(nextId)
    {
      CreateKeepsValid(events, nextId, callerId, caller, req, upload, parseDate);
      if !CreateFieldsOk(req) {
        return Fail(400, MSG_FIELDS_REQUIRED);
      }
      var date := parseDate(req.event_date.value);
      if date.None? {
        return Fail(500, MSG_VALIDATION);
      }
      var e := CreatedEvent(callerId, caller, req, date.value, upload);
      if !EventSchemaValid(e) {
        return Fail(500, MSG_VALIDATION);
      }
      events := events[nextId := e];
      nextId := nextId + 1;
      reply := Done(200, e);
    }

    /** `updateEventDetails`. */
    method UpdateEventDetails(id: EventId, callerId: UserId, req: EventFields, parseDate: string -> Option<int>)
      returns (reply: Outcome<Event>)
      requires Valid()
      modifies this
      ensures Valid() && nextId == old(nextId)
      ensures EventStep(events, reply) == UpdateEventDetailsStep(old(events), id, callerId, req, parseDate)
    {
      UpdateKeepsValid(events, nextId, id, callerId, req, parseDate);
      if id !in events {
        return Fail(500, MSG_NULL_EVENT);
      }
      if events[id].club != callerId {
        return Fail(403, MSG_NOT_OWNER);
      }
      var date := UpdateDate(req, parseDate);
      if date.None? || !UpdateAccepted(req) {
        return Fail(500, MSG_VALIDATION);
      }
      var u := UpdatedEvent(events[id], req, date.value);
      events := events[id := u];
      reply := Done(200, u);
    }

    /** `updateEventThumbnail`: the checks in order, then the old image's
        deletion, the upload, and the assignment saved without validation. */
    method UpdateEventThumbnail(id: EventId, callerId: UserId, fileSent: bool,
                                publicIdOf: string -> Option<string>, upload: Option<string>)
      returns (reply: Outcome<Event>, deletedImage: Option<string>)
      requires Valid()
      modifies this
      ensures Valid() && nextId == old(nextId)
      ensures ThumbnailStep(events, reply, deletedImage)
           == UpdateEventThumbnailStep(old(events), id, callerId, fileSent, publicIdOf, upload)
    {
      ThumbnailKeepsValid(events, nextId, id, callerId, fileSent, publicIdOf, upload);
      deletedImage := None;
      if id !in events {
        return Fail(404, MSG_EVENT_NOT_FOUND), None;
      }
      var e := events[id];
      if e.club != callerId {
        return Fail(403, MSG_NOT_THUMBNAIL_OWNER), None;
      }
      if !fileSent {
        return Fail(400, MSG_NO_THUMBNAIL), None;
      }
      if e.thumbnail != "" {
        var pid := publicIdOf(e.thumbnail);
        if !Given(pid) {
          return Fail(400, MSG_NO_PUBLIC_ID), None;
        }
        deletedImage := pid;
      }
      if upload.None? {
        return Fail(500, MSG_NO_UPLOAD), deletedImage;
      }
      events := events[id := e.(thumbnail := Trim(upload.value))];
      reply := Done(200, events[id]);
    }

    /** The daily job: `deleteMany` of the expired events, and whether the
        count is logged. */
    method CleanupOldEvents(now: int) returns (deletedCount: nat, logged: bool)
      requires Valid()
      modifies this
      ensures Valid() && nextId == old(nextId)
      ensures events == Retained(old(events), now)
      ensures deletedCount == |ExpiredIds(old(events), now)|
      ensures logged <==> exists id :: id in old(events) && Expired(old(events)[id], now)
    {
      DeletedCount(events, now);
      LogsIffExpired(events, now);
      deletedCount := |ExpiredIds(events, now)|;
      events := Retained(events, now);
      logged := Logs(deletedCount);
    }
  }
}
