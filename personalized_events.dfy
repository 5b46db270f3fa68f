/** The home page's personalised list (`components/PersonalizedEvents.jsx`):
    the fetched events filtered by the signed-in user's interests, matched
    by case-insensitive substring in either direction, or the first six
    events for a user without interests. */
module PersonalizedEvents {
  import opened Common

  /** An event as the list shows it: its id and its domains. */
  datatype ShownEvent = ShownEvent(id: string, domains: seq<string>)

  /** The limit on the fallback list. */
  const FALLBACK_COUNT: nat := 6

  /** A domain and an interest are related when either, lower-cased,
      contains the other lower-cased. */
  predicate Related(domain: string, interest: string) {
    Includes(ToLower(domain), ToLower(interest)) || Includes(ToLower(interest), ToLower(domain))
  }

  /** `event.domains.some(domain => userInterests.some(...))`. */
  predicate Matches(e: ShownEvent, interests: seq<string>) {
    exists d, i :: d in e.domains && i in interests && Related(d, i)
  }

  /** `events.filter(event => ...)`. */
  function FilterMatching(events: seq<ShownEvent>, interests: seq<string>): (r: seq<ShownEvent>)
    ensures |r| <= |events|
  {
    if events == [] then []
    else if Matches(events[0], interests) then [events[0]] + FilterMatching(events[1..], interests)
    else FilterMatching(events[1..], interests)
  }

  /** What `fetchPersonalizedEvents` sets: nothing when the request fails,
      the matching events for a user with interests, the first six otherwise.
      A missing user or missing interests count as no interests. */
  function PersonalizedList(response: Option<seq<ShownEvent>>, interests: Option<seq<string>>): (r: seq<ShownEvent>)
    ensures response.None? ==> r == []
    ensures response.Some? && (interests.None? || interests.value == []) ==>
      r == response.value[..if |response.value| < FALLBACK_COUNT then |response.value| else FALLBACK_COUNT]
    ensures response.Some? && interests.Some? && interests.value != [] ==>
      r == FilterMatching(response.value, interests.value)
  {
    var userInterests := if interests.Some? then interests.value else [];
    match response
    case None => []
    case Some(events) =>
      if |userInterests| > 0 then FilterMatching(events, userInterests)
      else events[..if |events| < FALLBACK_COUNT then |events| else FALLBACK_COUNT]
  }

  /** The relation does not care which side is the domain. */
  lemma RelatedSymmetric(d: string, i: string)
    ensures Related(d, i) <==> Related(i, d)
  {
  }

  /** A domain equal to an interest up to case always qualifies. */
  lemma SameUpToCaseRelated(d: string, i: string)
    requires ToLower(d) == ToLower(i)
    ensures Related(d, i)
  {
    IncludesItself(ToLower(d));
  }

  /** Case plays no part: lower-casing either side first changes nothing. */
  lemma RelatedIgnoresCase(d: string, i: string)
    ensures Related(ToLower(d), i) <==> Related(d, i)
    ensures Related(d, ToLower(i)) <==> Related(d, i)
  {
    ToLowerIdempotent(d);
    ToLowerIdempotent(i);
  }

  /** An empty interest matches every event that has a domain. */
  lemma EmptyInterestMatchesAll(e: ShownEvent, interests: seq<string>)
    requires "" in interests && e.domains != []
    ensures Matches(e, interests)
  {
    IncludesEmpty(ToLower(e.domains[0]));
    assert ToLower("") == "";
    assert e.domains[0] in e.domains;
  }

  /** An event without domains never matches. */
  lemma NoDomainsNoMatch(e: ShownEvent, interests: seq<string>)
    requires e.domains == []
    ensures !Matches(e, interests)
  {
  }

  /** The filter keeps exactly the matching events. */
  lemma {:induction false} FilterMatchingMembers(events: seq<ShownEvent>, interests: seq<string>)
    ensures forall e :: e in FilterMatching(events, interests) <==> e in events && Matches(e, interests)
    decreases |events|
  {
    if events != [] {
      FilterMatchingMembers(events[1..], interests);
      assert events == [events[0]] + events[1..];
    }
  }

  /** The filter keeps the fetched order: filtering a concatenation is
      concatenating the filtered parts. */
  lemma {:induction false} FilterMatchingAppend(a: seq<ShownEvent>, b: seq<ShownEvent>, interests: seq<string>)
    ensures FilterMatching(a + b, interests) == FilterMatching(a, interests) + FilterMatching(b, interests)
    decreases |a|
  {
    if a == [] {
      assert a + b == b;
    } else {
      assert (a + b)[1..] == a[1..] + b;
      FilterMatchingAppend(a[1..], b, interests);
    }
  }

  /** When every event matches, the whole list is shown as fetched. */
  lemma {:induction false} FilterMatchingAll(events: seq<ShownEvent>, interests: seq<string>)
    requires forall k :: 0 <= k < |events| ==> Matches(events[k], interests)
    ensures FilterMatching(events, interests) == events
    decreases |events|
  {
    if events != [] {
      FilterMatchingAll(events[1..], interests);
    }
  }

  /** `fetchPersonalizedEvents` as written. `GET /events` answers with an
      `ApiResponse` object whose `data` is the event array. The component
      calls `filter` or `slice` on that object, not on the array, and neither
      method exists on an object. Both branches throw, and the `catch` sets
      `[]`, whatever the server sent. `response` is the array inside the
      wrapper, as for `PersonalizedList`. */
  function PersonalizedListAsWritten(response: Option<seq<ShownEvent>>, interests: Option<seq<string>>): (r: seq<ShownEvent>)
    ensures |r| <= |PersonalizedList(response, interests)|
  {
    []
  }

  /** As written, a fetched event that matches the user's interests is never
      shown, while reading the array gives exactly that event. */
  lemma AsWrittenHidesMatches(e: ShownEvent, interests: seq<string>)
    requires interests != [] && Matches(e, interests)
    ensures PersonalizedListAsWritten(Some([e]), Some(interests)) == []
    ensures PersonalizedList(Some([e]), Some(interests)) == [e]
  {
    assert FilterMatching([e][1..], interests) == [];
  }

  /** The fallback shows at most six events, and a prefix of the fetched
      ones. */
  lemma FallbackIsPrefix(events: seq<ShownEvent>)
    ensures var r := PersonalizedList(Some(events), None);
      |r| <= FALLBACK_COUNT && r <= events
  {
  }

  /** With interests, every shown event is a fetched event that matches one. */
  lemma ShownEventsMatch(events: seq<ShownEvent>, interests: seq<string>, e: ShownEvent)
    requires interests != []
    ensures e in PersonalizedList(Some(events), Some(interests)) <==> e in events && Matches(e, interests)
  {
    FilterMatchingMembers(events, interests);
  }
}
