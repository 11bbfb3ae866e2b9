/** The event details page: the status badge, the task progress, the edit
    handler, and the task form that adds tasks to this event. */
module EventDetailsPage {
  import opened Wrappers
  import opened Seqs
  import opened Js
  import opened Forms
  import opened Remote
  import opened EventApi
  import opened TaskApi
  import opened TasksPage
  import EventModal

  datatype Variant = Success | Warning | Info | Error | Secondary

  /** `getStatusVariant`: "Active" is success, "Planning" warning,
      "Completed" info, "Cancelled" error, anything else secondary. */
  function StatusVariant(status: string): (v: Variant)
    ensures v == Variant.Success <==> status == Active
    ensures v == Warning <==> status == Planning
    ensures v == Info <==> status == Completed
    ensures v == Error <==> status == Cancelled
    ensures v == Secondary <==> status !in {Active, Planning, Completed, Cancelled}
  {
    if status == Active then Variant.Success
    else if status == Planning then Warning
    else if status == Completed then Info
    else if status == Cancelled then Error
    else Secondary
  }

  /** The badge knows "Active", which the event form never offers: no status
      the form can set shows as success, and "In Progress" shows as secondary. */
  lemma FormStatusesNeverSuccess()
    ensures forall k :: 0 <= k < |EventModal.StatusOptions| ==> StatusVariant(EventModal.StatusOptions[k]) != Variant.Success
    ensures StatusVariant(InProgress) == Secondary
  {
  }

  /** The progress bar: 0 with no tasks, otherwise the completed share in
      percent; 100 exactly when there are tasks and all are completed, 0
      exactly when none is. */
  function ProgressPercentage(tasks: seq<Task>): (p: real)
    ensures 0.0 <= p <= 100.0
    ensures p == 100.0 <==> tasks != [] && forall i :: 0 <= i < |tasks| ==> tasks[i].completed
    ensures p == 0.0 <==> forall i :: 0 <= i < |tasks| ==> !tasks[i].completed
  {
    var done := Count(tasks, IsCompleted);
    if |tasks| > 0 then
      CountExtremes(tasks, IsCompleted);
      PercentBounds(done, |tasks|);
      done as real / |tasks| as real * 100.0
    else 0.0
  }

  /** The page's bar for a non-empty list is the tasks page's bar for the
      same group. */
  lemma ProgressMatchesGroupBar(tasks: seq<Task>)
    requires tasks != []
    ensures CompletionPercent(tasks) == Finite(ProgressPercentage(tasks))
  {
  }

  /** `handleEditEvent` on its own: when `update` threw it changes nothing,
      neither the event nor the editor; when `update` returned, the page shows
      what it returned (nothing, when it returned `undefined`, which the page
      then reports as "Event not found") and clears the editor. */
  function HandleEditEvent(event: Event, editing: Option<Event>, outcome: Outcome<Event>)
    : (r: (Option<Event>, Option<Event>))
    ensures outcome.Threw? ==> r == (Some(event), editing)
    ensures outcome.Returned? ==> r.0 == outcome.value && r.1.None?
  {
    match outcome
    case Threw => (Some(event), editing)
    case Returned(updated) => (updated, None)
  }

  /** A valid submit of the edit form: the modal hands the payload to
      `handleEditEvent` without waiting for it and calls its `onClose` at
      once, which clears the editor; `handleEditEvent` then finishes on the
      closed editor. So the editor ends closed whatever `update` did, and the
      page shows the old event after a throw and what came back otherwise. */
  function SubmitEdit(event: Event, editing: Option<Event>, outcome: Outcome<Event>)
    : (r: (Option<Event>, Option<Event>))
    ensures r.1.None?
    ensures outcome.Threw? ==> r.0 == Some(event)
    ensures outcome.Returned? ==> r.0 == outcome.value
  {
    var closed: Option<Event> := None;
    HandleEditEvent(event, closed, outcome)
  }

  /** What the edit form asks the service to change: every field it submits. */
  function PatchOf(input: EventInput): (p: EventPatch)
    ensures p.title == Some(input.title) && p.date == Some(input.date)
    ensures p.description == Some(input.description) && p.budget == Some(input.budget)
    ensures p.status == input.status
  {
    EventPatch(Some(input.title), Some(input.date), Some(input.description), Some(input.budget), input.status)
  }

  /** Saving the edit form unchanged sends the event's title again and its
      positive budget again. */
  lemma UnchangedEditResendsFields(e: Event, formatDate: Timestamp -> string, budgetText: real -> string,
                                   parseFloat: string -> JsNumber, now: string)
    requires e.title != "" && e.budget > 0.0 && budgetText(e.budget) != "" && parseFloat(budgetText(e.budget)) == Finite(e.budget)
    ensures var input := EventModal.Payload(EventModal.InitialForm(Some(e), "edit", formatDate, budgetText), parseFloat);
            var r := UpdateRecord(e.id, PatchOf(input), now);
            r.title == Some(e.title) && r.budget == Some(Finite(e.budget))
  {
    EventModal.EditRoundTrip(e, formatDate, budgetText, parseFloat);
  }

  /** The form the page opens and resets to: title, description and due date
      empty. */
  const EmptyDetailsTaskForm: Fields := map[TitleField := "", DescriptionField := "", DueDateField := ""]

  predicate HasDetailsTaskFields(form: Fields) {
    TitleField in form && DescriptionField in form && DueDateField in form
  }

  /** The form passes this page's checks: title and description not blank
      and a due date. */
  predicate DetailsTaskFormPasses(form: Fields)
    requires HasDetailsTaskFields(form)
  {
    !IsBlank(form[TitleField]) && !IsBlank(form[DescriptionField]) && form[DueDateField] != ""
  }

  /** `errors` is what this page's task checks report: an entry under each
      field that is blank (title, description) or empty (due date), with its
      message, and no other entry. */
  predicate DetailsTaskFormErrors(form: Fields, errors: Fields)
    requires HasDetailsTaskFields(form)
  {
    && errors.Keys <= {TitleField, DescriptionField, DueDateField}
    && (TitleField in errors <==> IsBlank(form[TitleField]))
    && (DescriptionField in errors <==> IsBlank(form[DescriptionField]))
    && (DueDateField in errors <==> form[DueDateField] == "")
    && (TitleField in errors ==> errors[TitleField] == "Task title is required")
    && (DescriptionField in errors ==> errors[DescriptionField] == "Task description is required")
    && (DueDateField in errors ==> errors[DueDateField] == "Due date is required")
  }

  /** The checks of this page's `handleCreateTask`: an error under each field
      that is blank (title, description) or empty (due date), with its message,
      and no other entry. */
  method ValidateDetailsTaskForm(form: Fields) returns (errors: Fields)
    requires HasDetailsTaskFields(form)
    ensures DetailsTaskFormErrors(form, errors)
    ensures errors == map[] <==> DetailsTaskFormPasses(form)
  {
    assert |TitleField| == 5 && |DescriptionField| == 11 && |DueDateField| == 7;
    errors := map[];
    if IsBlank(form[TitleField]) {
      errors := errors[TitleField := "Task title is required"];
    }
    if IsBlank(form[DescriptionField]) {
      errors := errors[DescriptionField := "Task description is required"];
    }
    if form[DueDateField] == "" {
      errors := errors[DueDateField := "Due date is required"];
    }
  }

  /** This page runs the tasks page's checks without the event one, since the
      event is the page's own. */
  lemma DetailsChecksAreTaskChecks(form: Fields)
    requires HasTaskFields(form)
    ensures TaskFormPasses(form) <==> DetailsTaskFormPasses(form) && form[EventIdField] != ""
  {
  }

  /** `handleCreateTask` of this page: the check's errors are shown; with any
      error nothing else changes; otherwise the store creates the task for this
      event, the page appends it, and the form is cleared. When the page's
      list was the event's tasks in the store, it still is afterwards. */
  method HandleCreateTask(service: TaskService, event: Event, tasks: seq<Task>, form: Fields)
    returns (shown: seq<Task>, next: FormState)
    requires HasDetailsTaskFields(form)
    modifies service
    ensures !DetailsTaskFormPasses(form) ==>
              service.tasks == old(service.tasks) && shown == tasks && next.values == form && next.errors != map[]
              && DetailsTaskFormErrors(form, next.errors)
    ensures DetailsTaskFormPasses(form) ==>
              var draft := TaskDraft(None, form[TitleField], form[DescriptionField], form[DueDateField], event.id, None);
              && service.tasks == old(service.tasks) + [NewTask(old(service.tasks), draft)]
              && shown == tasks + [NewTask(old(service.tasks), draft)]
              && next == FormState(EmptyDetailsTaskForm, map[])
    ensures tasks == Filter(old(service.tasks), OfEvent(event.id)) ==> shown == Filter(service.tasks, OfEvent(event.id))
  {
    var errors := ValidateDetailsTaskForm(form);
    if |errors| != 0 {
      return tasks, FormState(form, errors);
    }
    var draft := TaskDraft(None, form[TitleField], form[DescriptionField], form[DueDateField], event.id, None);
    CreatedTaskInItsEvent(service.tasks, draft);
    var created := service.Create(draft);
    shown := tasks + [created];
    next := FormState(EmptyDetailsTaskForm, map[]);
  }
}
