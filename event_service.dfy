/** The event service: the records it sends to the store on create and update,
    and the views it derives from what the store returns (upcoming events and
    the dashboard counts). */
module EventApi {
  import opened Wrappers
  import opened Seqs
  import opened Js
  import opened Remote

  /** Milliseconds since the epoch; "now" is always a parameter. */
  type Timestamp = int

  // The status texts the code uses. The event form offers "In Progress" and the
  // counts look for it, while the events filter and the badge know "Active".
  const Planning := "Planning"
  const InProgress := "In Progress"
  const Active := "Active"
  const Completed := "Completed"
  const Cancelled := "Cancelled"

  /** An event as the store returns it, with its date read as a timestamp. */
  datatype Event = Event(id: int, title: string, date: Timestamp, description: string, budget: real, status: string)

  /** What `create` receives: the event form's payload. */
  datatype EventInput = EventInput(title: string, date: string, description: string, budget: JsNumber, status: Option<string>)

  /** The record `create` sends to the store. */
  datatype EventRecord = EventRecord(
    name: string, title: string, date: string, description: string,
    budget: JsNumber, status: string, createdAt: string, updatedAt: string)

  /** What `update` receives: any subset of the editable fields. */
  datatype EventPatch = EventPatch(
    title: Option<string>, date: Option<string>, description: Option<string>,
    budget: Option<JsNumber>, status: Option<string>)

  /** The record `update` sends: the id, the stamp, and optional fields. */
  datatype EventUpdateRecord = EventUpdateRecord(
    id: int, name: Option<string>, title: Option<string>, date: Option<string>,
    description: Option<string>, budget: Option<JsNumber>, status: Option<string>,
    updatedAt: string)

  /** `{...(text && {field: text})}`: the field is sent only when it is a non-empty text. */
  function IfTruthy(text: Option<string>): Option<string> {
    if text.Some? && text.value != "" then text else None
  }

  /** The create record: the name mirrors the title, an absent or empty status
      becomes "Planning", and both stamps are the current time. */
  function CreateRecord(input: EventInput, now: string): (r: EventRecord)
    ensures r.name == r.title == input.title
    ensures r.date == input.date && r.description == input.description && r.budget == input.budget
    ensures r.status != ""
    ensures input.status.Some? && input.status.value != "" ==> r.status == input.status.value
    ensures input.status.None? || input.status.value == "" ==> r.status == Planning
    ensures r.createdAt == now && r.updatedAt == now
  {
    EventRecord(
      input.title, input.title, input.date, input.description,
      input.budget, IfTruthy(input.status).GetOr(Planning), now, now)
  }

  /** The update record: always the id and the current time; every other field
      is present, with the supplied value, exactly when the supplied value is
      truthy, so an empty text or a zero or NaN budget is not sent. */
  function UpdateRecord(id: int, patch: EventPatch, now: string): (r: EventUpdateRecord)
    ensures r.id == id && r.updatedAt == now
    ensures r.name == r.title
    ensures forall v :: r.title == Some(v) <==> patch.title == Some(v) && v != ""
    ensures forall v :: r.date == Some(v) <==> patch.date == Some(v) && v != ""
    ensures forall v :: r.description == Some(v) <==> patch.description == Some(v) && v != ""
    ensures forall v :: r.status == Some(v) <==> patch.status == Some(v) && v != ""
    ensures forall b :: r.budget == Some(b) <==> patch.budget == Some(b) && b.Truthy()
  {
    var title := IfTruthy(patch.title);
    var budget := if patch.budget.Some? && patch.budget.value.Truthy() then patch.budget else None;
    EventUpdateRecord(
      id, title, title, IfTruthy(patch.date), IfTruthy(patch.description),
      budget, IfTruthy(patch.status), now)
  }

  function NotCancelled(e: Event): bool { e.status != Cancelled }

  /** `getUpcoming`: the store is asked for the events after now in ascending
      date order, and of its answer every cancelled event is dropped, the rest
      kept in order; a failed or thrown fetch gives no events. */
  function Upcoming(resp: Fetched<Event>): (r: seq<Event>)
    ensures !(resp.Fetched? && resp.success) ==> r == []
    ensures resp.Fetched? && resp.success ==>
              var data := resp.data.GetOr([]);
              && IsSubsequence(r, data)
              && (forall e :: e in r ==> e in data && e.status != Cancelled)
              && (forall e :: e in data && e.status != Cancelled ==> e in r)
  {
    if resp.Fetched? && resp.success then Filter(resp.data.GetOr([]), NotCancelled) else []
  }

  function DateOf(e: Event): int { e.date }

  /** When the store keeps its promise (every event after `now`, ascending by
      date), so does `getUpcoming`. */
  lemma UpcomingKeepsStoreOrder(resp: Fetched<Event>, now: Timestamp)
    requires resp.Fetched? && resp.success
    requires forall e :: e in resp.data.GetOr([]) ==> e.date > now
    requires SortedBy(resp.data.GetOr([]), DateOf)
    ensures SortedBy(Upcoming(resp), DateOf)
    ensures forall e :: e in Upcoming(resp) ==> e.date > now && e.status != Cancelled
  {
    FilterSorted(resp.data.GetOr([]), NotCancelled, DateOf);
  }

  /** The four dashboard counts. */
  datatype Stats = Stats(totalEvents: nat, upcomingEvents: nat, completedEvents: nat, activeEvents: nat)

  function UpcomingAt(now: Timestamp): Event -> bool {
    (e: Event) => e.date > now && e.status != Cancelled
  }

  function HasStatus(status: string): Event -> bool {
    (e: Event) => e.status == status
  }

  /** `getStats` over the answer of `getAll`: the number of events, of events
      after `now` that are not cancelled, of completed events and of events
      "In Progress"; every count is zero when the fetch failed or threw. Each
      count is at most the total, and completed and in-progress events are
      disjoint. */
  function GetStats(resp: Fetched<Event>, now: Timestamp): (s: Stats)
    ensures !(resp.Fetched? && resp.success) ==> s == Stats(0, 0, 0, 0)
    ensures resp.Fetched? && resp.success ==>
              var events := resp.data.GetOr([]);
              && s.totalEvents == |events|
              && s.upcomingEvents == Count(events, UpcomingAt(now))
              && s.completedEvents == Count(events, HasStatus(Completed))
              && s.activeEvents == Count(events, HasStatus(InProgress))
    ensures s.upcomingEvents <= s.totalEvents
    ensures s.completedEvents + s.activeEvents <= s.totalEvents
  {
    if resp.Fetched? && resp.success then
      var events := resp.data.GetOr([]);
      CountDisjoint(events, HasStatus(Completed), HasStatus(InProgress));
      Stats(
        |events|,
        Count(events, UpcomingAt(now)),
        Count(events, HasStatus(Completed)),
        Count(events, HasStatus(InProgress)))
    else
      Stats(0, 0, 0, 0)
  }

  /** Cancelled events never count as upcoming: upcoming and cancelled events
      together are at most all events. */
  lemma UpcomingExcludesCancelled(resp: Fetched<Event>, now: Timestamp)
    requires resp.Fetched? && resp.success
    ensures GetStats(resp, now).upcomingEvents + Count(resp.data.GetOr([]), HasStatus(Cancelled))
            <= GetStats(resp, now).totalEvents
  {
    CountDisjoint(resp.data.GetOr([]), UpcomingAt(now), HasStatus(Cancelled));
  }

  /** The counts look for "In Progress" only: an event whose status is
      "Active", the value the events filter offers, is never counted as active,
      so the active count and the "Active" events together are at most all
      events, whatever the answer holds. */
  lemma ActiveStatusNotCounted(resp: Fetched<Event>, now: Timestamp)
    requires resp.Fetched? && resp.success
    ensures GetStats(resp, now).activeEvents + Count(resp.data.GetOr([]), HasStatus(Active))
            <= GetStats(resp, now).totalEvents
  {
    var events := resp.data.GetOr([]);
    assert |InProgress| != |Active|;
    CountDisjoint(events, HasStatus(InProgress), HasStatus(Active));
  }
}
