/**
 * The timeline page: events ordered by start time, the colour of each
 * event type, and the connector drawn between consecutive events.
 */
module Timeline {
  import opened Text
  import opened Sorting
  import opened Schema

  /** The sort key of an event: its start time as `timeOfDay` reads it. */
  function StartKey(timeOfDay: string -> int): TimelineEvent -> int
  {
    (e: TimelineEvent) => timeOfDay(e.fields.startTime)
  }

  /**
   * `sortedEvents`: a sorted copy of the events. `timeOfDay` stands for
   * `new Date("2000-01-01 " + startTime).getTime()`, a start time read on a
   * fixed date; events with equal times keep their stored order.
   */
  function SortedEvents(events: seq<TimelineEvent>, timeOfDay: string -> int): (r: seq<TimelineEvent>)
    ensures multiset(r) == multiset(events)
    ensures forall i, j :: 0 <= i < j < |r| ==> timeOfDay(r[i].fields.startTime) <= timeOfDay(r[j].fields.startTime)
    ensures forall t :: WithKey(r, StartKey(timeOfDay), t) == WithKey(events, StartKey(timeOfDay), t)
  {
    SortBy(events, StartKey(timeOfDay))
  }

  /** Sorting a list that is already in time order gives it back unchanged. */
  lemma {:induction false} SortedEventsOfSorted(events: seq<TimelineEvent>, timeOfDay: string -> int)
    requires forall i, j :: 0 <= i < j < |events| ==> timeOfDay(events[i].fields.startTime) <= timeOfDay(events[j].fields.startTime)
    ensures SortedEvents(events, timeOfDay) == events
  {
    var key := StartKey(timeOfDay);
    if events != [] {
      var rest := events[1..];
      SortedEventsOfSorted(rest, timeOfDay);
      assert SortBy(rest, key) == rest;
      assert rest == [] || key(events[0]) <= key(rest[0]);
    }
  }

  /** `getEventTypeColor`: a colour for four known types, matched without regard to case; gray otherwise. */
  function EventTypeColor(eventType: string): (r: string)
    ensures r == "bg-gray-400" <==> Lower(eventType) !in {"ceremony", "reception", "photo", "cocktail"}
  {
    match Lower(eventType)
    case "ceremony" => "bg-rose-gold"
    case "reception" => "bg-sage-green"
    case "photo" => "bg-dusty-blue"
    case "cocktail" => "bg-champagne-gold"
    case _ => "bg-gray-400"
  }

  /** Case does not matter: a type and its lower-cased form get the same colour. */
  lemma EventTypeColorIgnoresCase(eventType: string)
    ensures EventTypeColor(Lower(eventType)) == EventTypeColor(eventType)
  {
    assert Lower(Lower(eventType)) == Lower(eventType);
  }

  /** The types the form offers beyond the four get gray; a capitalised known type does not. */
  lemma EventTypeColorExamples()
    ensures EventTypeColor("getting-ready") == "bg-gray-400"
    ensures EventTypeColor("rehearsal") == "bg-gray-400"
    ensures EventTypeColor("other") == "bg-gray-400"
    ensures EventTypeColor("Ceremony") == "bg-rose-gold"
  {
    assert Lower("Ceremony") == "ceremony";
    assert Lower("getting-ready") == "getting-ready";
    assert Lower("rehearsal") == "rehearsal";
    assert Lower("other") == "other";
  }

  /** `index < sortedEvents.length - 1`: a connector follows the event at `index`. */
  predicate HasConnector(index: nat, count: nat)
  {
    index < count - 1
  }

  /** The connectors drawn for a list of `count` events, one flag per event. */
  function Connectors(count: nat): (r: seq<bool>)
    ensures |r| == count
    ensures forall i :: 0 <= i < count - 1 ==> r[i]
    ensures count > 0 ==> !r[count - 1]
  {
    seq(count, i requires 0 <= i < count => HasConnector(i, count))
  }

  /** Every event but the last is followed by a connector. */
  lemma ConnectorsBetweenEvents(count: nat)
    requires count >= 1
    ensures Connectors(count) == seq(count - 1, _ => true) + [false]
  {
  }
}
