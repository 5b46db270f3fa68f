/** The retention sweep of `utils/cleanupEvents.js`: once a day every event
    dated strictly before the current time is deleted with one `deleteMany`,
    and the number deleted is logged when it is positive. The schedule is
    left out; `now` is the time the job runs, in milliseconds. */
module EventCleanup {
  import opened EventModel

  /** The filter `{ event_date: { $lt: now } }`. */
  predicate Expired(e: Event, now: int) {
    e.event_date < now
  }

  /** The collection `deleteMany` leaves: exactly the events that are not
      expired, each unchanged. */
  function Retained(events: EventMap, now: int): (r: EventMap)
    ensures forall id :: id in r <==> id in events && !Expired(events[id], now)
    ensures forall id :: id in r ==> r[id] == events[id]
  {
    map id | id in events && !Expired(events[id], now) :: events[id]
  }

  /** The ids the sweep deletes. */
  function ExpiredIds(events: EventMap, now: int): (s: set<EventId>)
    ensures forall id :: id in s <==> id in events && Expired(events[id], now)
  {
    set id | id in events && Expired(events[id], now)
  }

  /** `result.deletedCount` is the number of expired events. */
  lemma DeletedCount(events: EventMap, now: int)
    ensures |events| - |Retained(events, now)| == |ExpiredIds(events, now)|
  {
    var r := Retained(events, now);
    assert events.Keys == r.Keys + ExpiredIds(events, now);
    assert r.Keys !! ExpiredIds(events, now);
  }

  /** A second sweep at the same time deletes nothing. */
  lemma SweepIdempotent(events: EventMap, now: int)
    ensures Retained(Retained(events, now), now) == Retained(events, now)
    ensures ExpiredIds(Retained(events, now), now) == {}
  {
  }

  /** An event dated exactly `now`, or later, survives: there is no grace
      period in either direction. */
  lemma NowSurvives(events: EventMap, now: int, id: EventId)
    requires id in events && events[id].event_date >= now
    ensures id in Retained(events, now) && Retained(events, now)[id] == events[id]
  {
  }

  /** Sweeping at a later time deletes at least what an earlier sweep did. */
  lemma LaterSweepsMore(events: EventMap, earlier: int, later: int)
    requires earlier <= later
    ensures Retained(events, later).Keys <= Retained(events, earlier).Keys
  {
  }

  /** The job logs a line exactly when it deleted something. */
  function Logs(deletedCount: nat): bool {
    deletedCount > 0
  }

  lemma LogsIffExpired(events: EventMap, now: int)
    ensures Logs(|ExpiredIds(events, now)|) <==> exists id :: id in events && Expired(events[id], now)
  {
    if exists id :: id in events && Expired(events[id], now) {
      var id :| id in events && Expired(events[id], now);
      assert id in ExpiredIds(events, now);
    }
  }
}
