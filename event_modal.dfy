/** The event form: how it is filled when it opens, its checks, and what it
    submits, resets and closes to. */
module EventModal {
  import opened Wrappers
  import opened Js
  import opened Forms
  import opened EventApi

  // The form's field names.
  const TitleField := "title"
  const DateField := "date"
  const DescriptionField := "description"
  const BudgetField := "budget"
  const StatusField := "status"

  /** The statuses the form's select offers: "In Progress", not "Active". */
  const StatusOptions: seq<string> := [Planning, InProgress, Completed, Cancelled]

  /** The form in create mode: every text empty, status "Planning". */
  const BlankForm: Fields := map[TitleField := "", DateField := "", DescriptionField := "", BudgetField := "", StatusField := Planning]

  /** What submit and close reset the form to: the texts empty and no status
      at all. */
  const ResetForm: Fields := map[TitleField := "", DateField := "", DescriptionField := "", BudgetField := ""]

  predicate HasTextFields(form: Fields) {
    TitleField in form && DateField in form && DescriptionField in form && BudgetField in form
  }

  /** The form when `event` or `mode` changes: in edit mode with an event, the
      event's title, description, date (as `formatDate` writes it), budget (as
      `budgetText` writes it, a zero budget giving an empty field) and status
      (an empty one giving "Planning"); in every other case the blank form. */
  function InitialForm(event: Option<Event>, mode: string, formatDate: Timestamp -> string, budgetText: real -> string)
    : (form: Fields)
    ensures form.Keys == {TitleField, DateField, DescriptionField, BudgetField, StatusField}
    ensures !(event.Some? && mode == "edit") ==> form == BlankForm
    ensures event.Some? && mode == "edit" ==>
              var e := event.value;
              && form[TitleField] == e.title && form[DescriptionField] == e.description
              && form[DateField] == formatDate(e.date)
              && (e.budget == 0.0 ==> form[BudgetField] == "")
              && (e.budget != 0.0 ==> form[BudgetField] == budgetText(e.budget))
              && form[StatusField] != ""
              && (e.status != "" ==> form[StatusField] == e.status)
              && (e.status == "" ==> form[StatusField] == Planning)
  {
    if event.Some? && mode == "edit" then
      var e := event.value;
      map[TitleField := e.title,
          DateField := formatDate(e.date),
          DescriptionField := e.description,
          BudgetField := if e.budget != 0.0 then budgetText(e.budget) else "",
          StatusField := if e.status != "" then e.status else Planning]
    else
      BlankForm
  }

  /** The form passes `validateForm`: title and description not blank,
      a date, and a budget that `parseFloat` does not read as zero or less.
      `NaN <= 0` is false, so a budget that reads as NaN passes. */
  predicate Passes(form: Fields, parseFloat: string -> JsNumber)
    requires HasTextFields(form)
  {
    && !IsBlank(form[TitleField]) && form[DateField] != "" && !IsBlank(form[DescriptionField])
    && form[BudgetField] != "" && !parseFloat(form[BudgetField]).AtMostZero()
  }

  /** `errors` is what `validateForm` reports: an entry under the title or
      description when blank, under the date when empty, and under the budget
      when empty or when `parseFloat` reads it as zero or less, each with its
      message, and no other entry. */
  predicate FormErrors(form: Fields, parseFloat: string -> JsNumber, errors: Fields)
    requires HasTextFields(form)
  {
    && errors.Keys <= {TitleField, DateField, DescriptionField, BudgetField}
    && (TitleField in errors <==> IsBlank(form[TitleField]))
    && (DateField in errors <==> form[DateField] == "")
    && (DescriptionField in errors <==> IsBlank(form[DescriptionField]))
    && (BudgetField in errors <==> form[BudgetField] == "" || parseFloat(form[BudgetField]).AtMostZero())
    && (TitleField in errors ==> errors[TitleField] == "Event title is required")
    && (DateField in errors ==> errors[DateField] == "Event date is required")
    && (DescriptionField in errors ==> errors[DescriptionField] == "Event description is required")
    && (BudgetField in errors ==> errors[BudgetField] == "Valid budget amount is required")
  }

  /** `validateForm`: an error under the title or description when blank,
      under the date when empty, and under the budget when empty or when
      `parseFloat` reads it as zero or less, each with its message, and no
      other entry; the form is valid exactly when there is no error. */
  method ValidateForm(form: Fields, parseFloat: string -> JsNumber) returns (errors: Fields, valid: bool)
    requires HasTextFields(form)
    ensures FormErrors(form, parseFloat, errors)
    ensures valid <==> errors == map[]
    ensures valid <==> Passes(form, parseFloat)
  {
    assert |TitleField| == 5 && |DateField| == 4 && |DescriptionField| == 11 && |BudgetField| == 6;
    errors := map[];
    if IsBlank(form[TitleField]) {
      errors := errors[TitleField := "Event title is required"];
    }
    if form[DateField] == "" {
      errors := errors[DateField := "Event date is required"];
    }
    if IsBlank(form[DescriptionField]) {
      errors := errors[DescriptionField := "Event description is required"];
    }
    if form[BudgetField] == "" || parseFloat(form[BudgetField]).AtMostZero() {
      errors := errors[BudgetField := "Valid budget amount is required"];
    }
    valid := |errors| == 0;
  }

  /** What submit hands over, `{...formData, budget: parseFloat(formData.budget)}`. */
  function Payload(form: Fields, parseFloat: string -> JsNumber): (input: EventInput)
    requires HasTextFields(form)
    ensures input.title == form[TitleField] && input.date == form[DateField]
    ensures input.description == form[DescriptionField] && input.budget == parseFloat(form[BudgetField])
    ensures input.status.Some? <==> StatusField in form
    ensures StatusField in form ==> input.status.value == form[StatusField]
  {
    EventInput(
      form[TitleField], form[DateField], form[DescriptionField], parseFloat(form[BudgetField]),
      if StatusField in form then Some(form[StatusField]) else None)
  }

  /** `handleSubmit`: the check's errors are shown; with any error nothing is
      handed over; otherwise the payload is handed to `onSubmit` and the form
      is reset with no errors. */
  method HandleSubmit(s: FormState, parseFloat: string -> JsNumber) returns (payload: Option<EventInput>, next: FormState)
    requires HasTextFields(s.values)
    ensures payload.Some? <==> Passes(s.values, parseFloat)
    ensures payload.Some? ==> payload.value == Payload(s.values, parseFloat) && next == FormState(ResetForm, map[])
    ensures payload.None? ==> next.values == s.values && next.errors != map[] && FormErrors(s.values, parseFloat, next.errors)
  {
    var errors, valid := ValidateForm(s.values, parseFloat);
    if valid {
      payload := Some(Payload(s.values, parseFloat));
      next := FormState(ResetForm, map[]);
    } else {
      payload := None;
      next := FormState(s.values, errors);
    }
  }

  /** `handleClose`: the texts emptied, no status and no errors. */
  function HandleClose(s: FormState): (r: FormState)
    ensures r.errors == map[] && StatusField !in r.values && HasTextFields(r.values)
    ensures forall k :: k in r.values ==> r.values[k] == ""
    ensures r.values == ResetForm
  {
    FormState(ResetForm, map[])
  }

  /** After a reset the form holds no status, and typing into the text fields
      does not bring one back; a form without a status submits none, and the
      event service then stores "Planning", whatever the select showed. */
  lemma ResetFormSubmitsPlanning(s: FormState, name: string, value: string, parseFloat: string -> JsNumber, now: string)
    requires name != StatusField
    ensures var typed := HandleChange(HandleClose(s), name, value);
            && StatusField !in typed.values
            && CreateRecord(Payload(typed.values, parseFloat), now).status == Planning
  {
  }

  /** The edit round trip: opening the form on an event and submitting it
      unchanged hands over the event's own title, description and budget, its
      date as the form writes it, and its status (or "Planning"), provided the
      budget is written as a non-empty text that reads back as the budget; such a form passes the checks when
      the event has a title, a description and a positive budget. */
  lemma EditRoundTrip(e: Event, formatDate: Timestamp -> string, budgetText: real -> string, parseFloat: string -> JsNumber)
    requires e.budget != 0.0 && budgetText(e.budget) != "" && parseFloat(budgetText(e.budget)) == Finite(e.budget)
    ensures var form := InitialForm(Some(e), "edit", formatDate, budgetText);
            && Payload(form, parseFloat) ==
                 EventInput(e.title, formatDate(e.date), e.description, Finite(e.budget),
                            Some(if e.status != "" then e.status else Planning))
            && (Passes(form, parseFloat) <==>
                  !IsBlank(e.title) && formatDate(e.date) != "" && !IsBlank(e.description) && e.budget > 0.0)
  {
  }

  /** An event with a zero budget opens with an empty budget field, so it
      cannot be saved until a budget is entered. */
  lemma ZeroBudgetBlocksEdit(e: Event, formatDate: Timestamp -> string, budgetText: real -> string, parseFloat: string -> JsNumber)
    requires e.budget == 0.0
    ensures !Passes(InitialForm(Some(e), "edit", formatDate, budgetText), parseFloat)
  {
  }
}
