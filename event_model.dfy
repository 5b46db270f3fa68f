/** The event document (`models/event.model.js`): its fields, the closed
    domain enumeration, the trimming setters, the required fields and the
    `isApproved` default. Dates are milliseconds since the epoch. */
module EventModel {
  import opened Common
  import opened UserModel

  type EventId = nat

  /** The values `domains` elements may take, in the schema's order. */
  const DOMAINS: seq<string> := ["technical", "cultural", "sports", "literary", "workshop", "seminar", "others"]

  predicate IsDomain(d: string) {
    d in DOMAINS
  }

  datatype Event = Event(
    club: UserId,                      // the posting user
    club_name: string,
    thumbnail: string,                 // the image URL, or "" when there is none
    event_name: string,
    title: string,
    description: Option<string>,
    event_date: int,
    time: string,
    venue: string,
    domains: seq<string>,
    registration_link: Option<string>,
    isApproved: bool)

  /** An optional string field after its `trim` setter. */
  function TrimOpt(x: Option<string>): (r: Option<string>)
    ensures r.Some? <==> x.Some?
    ensures r.Some? ==> r.value == Trim(x.value)
  {
    match x
    case None => None
    case Some(s) => Some(Trim(s))
  }

  predicate TrimmedOpt(x: Option<string>) {
    x.Some? ==> IsTrimmed(x.value)
  }

  /** What the schema's validators accept once the setters have run: the
      required strings are non-empty (a string of blanks is trimmed to empty
      and then counts as missing), every domain is in the enumeration, and
      every trimmed field holds a trimmed value. `domains` may be empty. */
  predicate EventSchemaValid(e: Event) {
    && e.event_name != "" && e.title != "" && e.time != "" && e.venue != ""
    && (forall i :: 0 <= i < |e.domains| ==> IsDomain(e.domains[i]))
    && IsTrimmed(e.club_name) && IsTrimmed(e.thumbnail) && IsTrimmed(e.event_name)
    && IsTrimmed(e.title) && IsTrimmed(e.time) && IsTrimmed(e.venue)
    && TrimmedOpt(e.description) && TrimmedOpt(e.registration_link)
  }

  /** The document a creation builds from its values: the setters applied,
      and `isApproved` at its default. */
  function NewEvent(club: UserId, club_name: string, thumbnail: string, event_name: string,
                    title: string, description: Option<string>, event_date: int, time: string,
                    venue: string, domains: seq<string>, registration_link: Option<string>): (e: Event)
    ensures !e.isApproved && e.club == club && e.event_date == event_date && e.domains == domains
    ensures e.club_name == Trim(club_name) && e.thumbnail == Trim(thumbnail)
    ensures e.event_name == Trim(event_name) && e.title == Trim(title)
    ensures e.time == Trim(time) && e.venue == Trim(venue)
    ensures e.description == TrimOpt(description) && e.registration_link == TrimOpt(registration_link)
  {
    Event(club, Trim(club_name), Trim(thumbnail), Trim(event_name), Trim(title), TrimOpt(description),
          event_date, Trim(time), Trim(venue), domains, TrimOpt(registration_link), false)
  }

  /** The required strings left non-empty after trimming and domains from the
      enumeration are exactly what makes a new document pass validation. */
  lemma NewEventValid(club: UserId, club_name: string, thumbnail: string, event_name: string,
                      title: string, description: Option<string>, event_date: int, time: string,
                      venue: string, domains: seq<string>, registration_link: Option<string>)
    ensures EventSchemaValid(NewEvent(club, club_name, thumbnail, event_name, title, description,
                                 event_date, time, venue, domains, registration_link))
      <==> !IsBlank(event_name) && !IsBlank(title) && !IsBlank(time) && !IsBlank(venue)
           && forall i :: 0 <= i < |domains| ==> IsDomain(domains[i])
  {
  }

  /** A domain outside the enumeration makes any document invalid. */
  lemma UnknownDomainInvalid(e: Event, i: nat)
    requires i < |e.domains| && !IsDomain(e.domains[i])
    ensures !EventSchemaValid(e)
  {
  }

  type EventMap = map<EventId, Event>
}
