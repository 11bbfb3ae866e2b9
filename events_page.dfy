/** The events page: the list it shows under the search box and the status
    filter, and how it changes the list it holds after a create or a delete. */
module EventsPage {
  import opened Wrappers
  import opened Seqs
  import opened Js
  import opened EventApi

  const All := "All"

  /** The values of the status filter, "All" first. The list offers "Active"
      where the event form and the counts use "In Progress". */
  const StatusFilterOptions: seq<string> := [All, Planning, Active, Completed, Cancelled]

  /** The search: the lower-cased title or the lower-cased description
      contains the lower-cased term. The empty term matches every event, and
      a term longer than both texts matches none. */
  predicate Matches(e: Event, term: string): (b: bool)
    ensures term == "" ==> b
    ensures b ==> |term| <= |e.title| || |term| <= |e.description|
  {
    Includes(ToLower(e.title), ToLower(term)) || Includes(ToLower(e.description), ToLower(term))
  }

  function MatchesTerm(term: string): Event -> bool {
    (e: Event) => Matches(e, term)
  }

  /** What the page shows: an event passes an empty term or matches it, and
      passes "All" or has exactly the chosen status. */
  function Shown(term: string, statusFilter: string): Event -> bool {
    (e: Event) => (term == "" || Matches(e, term)) && (statusFilter == All || e.status == statusFilter)
  }

  /** The filtering effect: the search filter when the term is not empty, then
      the status filter unless it is "All". The result keeps the page's order,
      holds exactly the events that pass both, and is the whole list when
      neither is set. The two filters in a row are one filter by both tests,
      so an event that passes keeps every copy the list holds. */
  function FilterEvents(events: seq<Event>, term: string, statusFilter: string): (r: seq<Event>)
    ensures IsSubsequence(r, events)
    ensures forall e :: e in r <==>
              e in events && (term == "" || Matches(e, term)) && (statusFilter == All || e.status == statusFilter)
    ensures term == "" && statusFilter == All ==> r == events
    ensures r == Filter(events, Shown(term, statusFilter))
  {
    var bySearch := if term != "" then Filter(events, MatchesTerm(term)) else events;
    var byStatus := if statusFilter != All then Filter(bySearch, HasStatus(statusFilter)) else bySearch;
    assert byStatus == Filter(events, Shown(term, statusFilter)) by {
      if term != "" && statusFilter != All {
        FilterTwice(events, MatchesTerm(term), HasStatus(statusFilter), Shown(term, statusFilter));
      } else if term != "" {
        FilterSame(events, MatchesTerm(term), Shown(term, statusFilter));
      } else if statusFilter != All {
        FilterSame(events, HasStatus(statusFilter), Shown(term, statusFilter));
      } else {
        FilterKeepsAll(events, Shown(term, statusFilter));
      }
    }
    byStatus
  }

  /** Whatever the case of the term, the search finds the same events. */
  lemma SearchIgnoresCase(events: seq<Event>, term: string, statusFilter: string)
    ensures FilterEvents(events, ToLower(term), statusFilter) == FilterEvents(events, term, statusFilter)
  {
    ToLowerIdempotent(term);
    assert |ToLower(term)| == |term|;
    assert forall e :: MatchesTerm(ToLower(term))(e) == MatchesTerm(term)(e);
    FilterSame(events, MatchesTerm(ToLower(term)), MatchesTerm(term));
  }

  /** An event "In Progress" is shown under no status option but "All". */
  lemma InProgressHiddenByStatusFilter(events: seq<Event>, term: string, k: nat)
    requires 1 <= k < |StatusFilterOptions|
    ensures forall e :: e in FilterEvents(events, term, StatusFilterOptions[k]) ==> e.status != InProgress
  {
    var option := StatusFilterOptions[k];
    assert option != All && option != InProgress;
  }

  /** `handleCreateEvent`: the event `create` returned goes first; when
      `create` threw (`None`) the list is unchanged. */
  function HandleCreateEvent(events: seq<Event>, created: Option<Event>): (r: seq<Event>)
    ensures created.None? ==> r == events
    ensures created.Some? ==> |r| == |events| + 1 && r[0] == created.value && r[1..] == events
  {
    match created
    case None => events
    case Some(e) => [e] + events
  }

  /** A created event heads the unfiltered list, and the events already held
      are still shown, in their order, after it. */
  lemma CreatedEventShownFirst(events: seq<Event>, e: Event)
    ensures FilterEvents(HandleCreateEvent(events, Some(e)), "", All) == [e] + events
  {
  }

  function NotId(id: int): Event -> bool {
    (e: Event) => e.id != id
  }

  /** `handleDeleteEvent`: unless the user confirms, nothing changes; once
      confirmed, every event with the id is dropped and the rest keep their
      order. `delete` reports failure by its result, never by throwing, and
      the page ignores that result, so the list is the same whether the
      store deleted the record or not. */
  function HandleDeleteEvent(events: seq<Event>, id: int, confirmed: bool): (r: seq<Event>)
    ensures !confirmed ==> r == events
    ensures confirmed ==> IsSubsequence(r, events) && forall e :: e in r <==> e in events && e.id != id
  {
    if confirmed then Filter(events, NotId(id)) else events
  }

  /** Once deleted, an event is shown under no search and no status. */
  lemma DeletedEventNeverShown(events: seq<Event>, id: int, term: string, statusFilter: string)
    ensures forall e :: e in FilterEvents(HandleDeleteEvent(events, id, true), term, statusFilter) ==> e.id != id
  {
  }
}
