/** The tasks page: tasks grouped under their event's title with a completion
    bar per group, the local toggle, and the create-task form. */
module TasksPage {
  import opened Wrappers
  import opened Seqs
  import opened Js
  import opened Forms
  import opened EventApi
  import opened TaskApi

  const UnknownEvent := "Unknown Event"

  function WithId(id: int): Event -> bool {
    (e: Event) => e.id == id
  }

  /** Some event has the id. */
  predicate HasEventWithId(events: seq<Event>, eventId: int) {
    exists j :: 0 <= j < |events| && events[j].id == eventId
  }

  /** `events[j]` is the first event with the id. */
  predicate FirstWithId(events: seq<Event>, eventId: int, j: int) {
    0 <= j < |events| && events[j].id == eventId && forall k :: 0 <= k < j ==> events[k].id != eventId
  }

  /** `getEventTitle`: the title of the first event with the id, or
      "Unknown Event" when none has it. */
  function EventTitle(events: seq<Event>, eventId: int): (title: string)
    ensures !HasEventWithId(events, eventId) ==> title == UnknownEvent
    ensures HasEventWithId(events, eventId) ==> exists j :: FirstWithId(events, eventId, j) && title == events[j].title
  {
    var i := FirstIndex(events, WithId(eventId));
    if i < 0 then UnknownEvent else
      assert FirstWithId(events, eventId, i);
      events[i].title
  }

  function InGroup(events: seq<Event>, title: string): Task -> bool {
    (t: Task) => EventTitle(events, t.eventId) == title
  }

  /** The total number of tasks over the listed groups. */
  ghost function SumSizes(titles: seq<string>, grouped: map<string, seq<Task>>): nat
    requires forall k :: k in titles ==> k in grouped
  {
    if titles == [] then 0
    else SumSizes(titles[..|titles| - 1], grouped) + |grouped[titles[|titles| - 1]]|
  }

  /** Changing the group of a title not listed leaves the total alone. */
  lemma {:induction false} SumSizesFresh(titles: seq<string>, grouped: map<string, seq<Task>>, title: string, v: seq<Task>)
    requires forall k :: k in titles ==> k in grouped
    requires title !in titles
    ensures SumSizes(titles, grouped[title := v]) == SumSizes(titles, grouped)
  {
    if titles != [] {
      SumSizesFresh(titles[..|titles| - 1], grouped, title, v);
    }
  }

  /** Changing the group of a listed title, listed once, changes the total by
      the change in that group's size. */
  lemma {:induction false} SumSizesUpdate(titles: seq<string>, grouped: map<string, seq<Task>>, title: string, v: seq<Task>)
    requires forall k :: k in titles ==> k in grouped
    requires forall i, j :: 0 <= i < j < |titles| ==> titles[i] != titles[j]
    requires title in titles
    ensures SumSizes(titles, grouped[title := v]) == SumSizes(titles, grouped) - |grouped[title]| + |v|
  {
    var init, last := titles[..|titles| - 1], titles[|titles| - 1];
    assert titles == init + [last];
    if last == title {
      SumSizesFresh(init, grouped, title, v);
    } else {
      SumSizesUpdate(init, grouped, title, v);
    }
  }

  /** `titles` and `grouped` are the grouping of `prefix`: the titles listed
      once each, a group per listed title holding exactly that title's tasks
      in order, no empty group, every task's title listed, and the groups
      together as large as the prefix. */
  ghost predicate Grouping(prefix: seq<Task>, events: seq<Event>, titles: seq<string>, grouped: map<string, seq<Task>>) {
    && (forall a, b :: 0 <= a < b < |titles| ==> titles[a] != titles[b])
    && (forall k :: k in grouped <==> k in titles)
    && (forall k :: k in grouped ==> grouped[k] == Filter(prefix, InGroup(events, k)) && grouped[k] != [])
    && (forall j :: 0 <= j < |prefix| ==> EventTitle(events, prefix[j].eventId) in grouped)
    && SumSizes(titles, grouped) == |prefix|
  }

  /** The groups after the loop body pushes `task` onto the group of
      `title`, creating that group first when it is missing. */
  function Pushed(grouped: map<string, seq<Task>>, title: string, task: Task): map<string, seq<Task>> {
    var g1 := if title in grouped then grouped else grouped[title := []];
    g1[title := g1[title] + [task]]
  }

  function Listed(titles: seq<string>, grouped: map<string, seq<Task>>, title: string): seq<string> {
    if title in grouped then titles else titles + [title]
  }

  /** A title no scanned task has has no tasks among them. */
  lemma UnlistedTitleHasNoTasks(prefix: seq<Task>, events: seq<Event>, grouped: map<string, seq<Task>>, title: string)
    requires forall j :: 0 <= j < |prefix| ==> EventTitle(events, prefix[j].eventId) in grouped
    requires title !in grouped
    ensures Filter(prefix, InGroup(events, title)) == []
  {
    assert forall j :: 0 <= j < |prefix| ==> !InGroup(events, title)(prefix[j]);
    CountExtremes(prefix, InGroup(events, title));
  }

  /** After the push each group is still exactly its title's tasks, now of the
      longer prefix, and none is empty. */
  lemma PushedFilters(prefix: seq<Task>, events: seq<Event>, grouped: map<string, seq<Task>>, task: Task)
    requires forall k :: k in grouped ==> grouped[k] == Filter(prefix, InGroup(events, k)) && grouped[k] != []
    requires forall j :: 0 <= j < |prefix| ==> EventTitle(events, prefix[j].eventId) in grouped
    ensures var gs := Pushed(grouped, EventTitle(events, task.eventId), task);
            forall k :: k in gs ==> gs[k] == Filter(prefix + [task], InGroup(events, k)) && gs[k] != []
  {
    var title := EventTitle(events, task.eventId);
    var gs := Pushed(grouped, title, task);
    if title !in grouped {
      UnlistedTitleHasNoTasks(prefix, events, grouped, title);
    }
    forall k | k in gs
      ensures gs[k] == Filter(prefix + [task], InGroup(events, k)) && gs[k] != []
    {
      FilterSnoc(prefix, task, InGroup(events, k));
      if k == title {
        assert gs[k] == (if title in grouped then grouped[k] else []) + [task];
      } else {
        assert gs[k] == grouped[k];
      }
    }
  }

  /** After the push the groups still add up to the tasks scanned. */
  lemma PushedSizes(n: nat, titles: seq<string>, grouped: map<string, seq<Task>>, title: string, task: Task)
    requires forall a, b :: 0 <= a < b < |titles| ==> titles[a] != titles[b]
    requires forall k :: k in grouped <==> k in titles
    requires SumSizes(titles, grouped) == n
    ensures var ts := Listed(titles, grouped, title);
            && (forall a, b :: 0 <= a < b < |ts| ==> ts[a] != ts[b])
            && (forall k :: k in Pushed(grouped, title, task) <==> k in ts)
            && SumSizes(ts, Pushed(grouped, title, task)) == n + 1
  {
    var ts := Listed(titles, grouped, title);
    var g1 := if title in grouped then grouped else grouped[title := []];
    if title !in grouped {
      SumSizesFresh(titles, grouped, title, []);
      assert ts[..|ts| - 1] == titles;
    }
    SumSizesUpdate(ts, g1, title, g1[title] + [task]);
  }

  /** The loop body keeps the grouping. */
  lemma GroupStepKeepsGrouping(prefix: seq<Task>, events: seq<Event>, titles: seq<string>, grouped: map<string, seq<Task>>, task: Task)
    requires Grouping(prefix, events, titles, grouped)
    ensures var title := EventTitle(events, task.eventId);
            Grouping(prefix + [task], events, Listed(titles, grouped, title), Pushed(grouped, title, task))
  {
    var title := EventTitle(events, task.eventId);
    PushedFilters(prefix, events, grouped, task);
    PushedSizes(|prefix|, titles, grouped, title, task);
    PushedCovers(prefix, events, grouped, task);
  }

  /** After the push every scanned task's title, the new one's included, has
      a group. */
  lemma PushedCovers(prefix: seq<Task>, events: seq<Event>, grouped: map<string, seq<Task>>, task: Task)
    requires forall j :: 0 <= j < |prefix| ==> EventTitle(events, prefix[j].eventId) in grouped
    ensures var gs := Pushed(grouped, EventTitle(events, task.eventId), task);
            forall j :: 0 <= j < |prefix + [task]| ==> EventTitle(events, (prefix + [task])[j].eventId) in gs
  {
    var gs := Pushed(grouped, EventTitle(events, task.eventId), task);
    var next := prefix + [task];
    forall j | 0 <= j < |next| ensures EventTitle(events, next[j].eventId) in gs {
      if j < |prefix| {
        assert next[j] == prefix[j];
      }
    }
  }

  /** The loop body of `groupTasksByEvent`: a title not seen yet gets an
      empty group and is listed, then the task is pushed onto its group. */
  method FileTask(titles: seq<string>, grouped: map<string, seq<Task>>, title: string, task: Task)
    returns (titles': seq<string>, grouped': map<string, seq<Task>>)
    ensures grouped' == Pushed(grouped, title, task) && titles' == Listed(titles, grouped, title)
  {
    titles', grouped' := titles, grouped;
    if title !in grouped' {
      grouped' := grouped'[title := []];
      titles' := titles' + [title];
    }
    grouped' := grouped'[title := grouped'[title] + [task]];
  }

  /** `groupTasksByEvent`: every task goes, in order, into the group of its
      event's title. The titles come out once each, in the order their first
      task appears; each group holds exactly the tasks with that title, in
      stored order, and is never empty; and the groups together hold every
      task once. */
  method GroupTasksByEvent(tasks: seq<Task>, events: seq<Event>)
    returns (titles: seq<string>, grouped: map<string, seq<Task>>)
    ensures forall i, j :: 0 <= i < j < |titles| ==> titles[i] != titles[j]
    ensures forall k :: k in grouped <==> k in titles
    ensures forall k :: k in grouped ==> grouped[k] == Filter(tasks, InGroup(events, k)) && grouped[k] != []
    ensures forall t :: t in tasks ==> EventTitle(events, t.eventId) in grouped
    ensures SumSizes(titles, grouped) == |tasks|
  {
    titles, grouped := [], map[];
    var i := 0;
    while i < |tasks|
      invariant 0 <= i <= |tasks|
      invariant Grouping(tasks[..i], events, titles, grouped)
    {
      var task := tasks[i];
      assert tasks[..i + 1] == tasks[..i] + [task];
      GroupStepKeepsGrouping(tasks[..i], events, titles, grouped, task);
      titles, grouped := FileTask(titles, grouped, EventTitle(events, task.eventId), task);
      i := i + 1;
    }
    assert tasks[..i] == tasks;
  }

  /** Groups are keyed by title, not by event: any two tasks whose events
      share a title (two different events included) land in one group. */
  lemma SameTitleSharesGroup(tasks: seq<Task>, events: seq<Event>, i: nat, j: nat)
    requires i < |tasks| && j < |tasks|
    requires EventTitle(events, tasks[i].eventId) == EventTitle(events, tasks[j].eventId)
    ensures var group := Filter(tasks, InGroup(events, EventTitle(events, tasks[i].eventId)));
            tasks[i] in group && tasks[j] in group
  {
    var title := EventTitle(events, tasks[i].eventId);
    assert InGroup(events, title)(tasks[i]) && InGroup(events, title)(tasks[j]);
  }

  /** Every task whose event is missing falls in the one "Unknown Event" group. */
  lemma OrphansShareUnknownEvent(tasks: seq<Task>, events: seq<Event>)
    ensures forall t :: t in tasks && (forall j :: 0 <= j < |events| ==> events[j].id != t.eventId) ==>
              t in Filter(tasks, InGroup(events, UnknownEvent))
  {
    forall t | t in tasks && (forall j :: 0 <= j < |events| ==> events[j].id != t.eventId)
      ensures t in Filter(tasks, InGroup(events, UnknownEvent))
    {
    }
  }

  /** The names every plain JavaScript object inherits from `Object.prototype`.
      Looking one up on `{}` gives a function, or the prototype itself for
      `__proto__`: a truthy value that is not an array. */
  const InheritedNames: set<string> := {
    "constructor", "hasOwnProperty", "isPrototypeOf", "propertyIsEnumerable",
    "toLocaleString", "toString", "valueOf", "__proto__",
    "__defineGetter__", "__defineSetter__", "__lookupGetter__", "__lookupSetter__"}

  /** `groupTasksByEvent` as written, on the plain object `{}`: a title that
      names an inherited member already reads as truthy, so no array is made
      for it and the `push` throws (`None`). Every other title is grouped as
      in `GroupTasksByEvent`. */
  function GroupOnPlainObject(tasks: seq<Task>, events: seq<Event>, grouped: map<string, seq<Task>>)
    : (r: Option<map<string, seq<Task>>>)
    ensures (forall i :: 0 <= i < |tasks| ==> EventTitle(events, tasks[i].eventId) !in InheritedNames) ==> r.Some?
    decreases |tasks|
  {
    if tasks == [] then Some(grouped)
    else
      var title := EventTitle(events, tasks[0].eventId);
      if title in grouped then
        GroupOnPlainObject(tasks[1..], events, grouped[title := grouped[title] + [tasks[0]]])
      else if title in InheritedNames then
        None
      else
        GroupOnPlainObject(tasks[1..], events, grouped[title := [tasks[0]]])
  }

  /** `result` is what grouping `tasks` onto `grouped` should give: the old
      keys kept, each key holding what it held before followed by the tasks
      with that title, in order, every task's title a key, and every new key
      holding at least one task. */
  ghost predicate GroupsOnto(result: map<string, seq<Task>>, tasks: seq<Task>, events: seq<Event>, grouped: map<string, seq<Task>>) {
    && (forall k :: k in grouped ==> k in result)
    && (forall k :: k in result ==>
          result[k] == (if k in grouped then grouped[k] else []) + Filter(tasks, InGroup(events, k)))
    && (forall i :: 0 <= i < |tasks| ==> EventTitle(events, tasks[i].eventId) in result)
    && (forall k :: k in result && k !in grouped ==> result[k] != [])
  }

  /** One step of the grouping on `{}`: filing `t` first and then grouping
      the rest is grouping all of them. */
  lemma GroupsOntoStep(result: map<string, seq<Task>>, t: Task, rest: seq<Task>, events: seq<Event>, grouped: map<string, seq<Task>>)
    requires var title := EventTitle(events, t.eventId);
             GroupsOnto(result, rest, events, grouped[title := (if title in grouped then grouped[title] else []) + [t]])
    ensures GroupsOnto(result, [t] + rest, events, grouped)
  {
    var title := EventTitle(events, t.eventId);
    var next := grouped[title := (if title in grouped then grouped[title] else []) + [t]];
    forall k | k in result
      ensures result[k] == (if k in grouped then grouped[k] else []) + Filter([t] + rest, InGroup(events, k))
    {
      var before := if k in grouped then grouped[k] else [];
      assert (if k in next then next[k] else []) == (if InGroup(events, k)(t) then before + [t] else before);
      FilterConsAfter(result[k], before, t, rest, InGroup(events, k));
    }
    forall k | k in result && k !in grouped
      ensures result[k] != []
    {
      if k == title {
        assert result[k] == ([] + [t]) + Filter(rest, InGroup(events, k));
      }
    }
    assert title in result;
    forall i | 0 <= i < |[t] + rest|
      ensures EventTitle(events, ([t] + rest)[i].eventId) in result
    {
      if i > 0 {
        assert ([t] + rest)[i] == rest[i - 1];
      }
    }
  }

  /** Where the grouping on `{}` does not throw, it agrees with
      `GroupTasksByEvent`: each key holds what it held before followed by the
      tasks with that title, in order, and every task's title is a key. */
  lemma {:induction false} PlainObjectMatchesGrouping(tasks: seq<Task>, events: seq<Event>, grouped: map<string, seq<Task>>)
    ensures var r := GroupOnPlainObject(tasks, events, grouped);
            r.Some? ==> GroupsOnto(r.value, tasks, events, grouped)
    decreases |tasks|
  {
    if tasks != [] {
      var t, rest := tasks[0], tasks[1..];
      assert tasks == [t] + rest;
      var title := EventTitle(events, t.eventId);
      var next := grouped[title := (if title in grouped then grouped[title] else []) + [t]];
      if title in grouped || title !in InheritedNames {
        assert title !in grouped ==> [] + [t] == [t];
        assert GroupOnPlainObject(tasks, events, grouped) == GroupOnPlainObject(rest, events, next);
        PlainObjectMatchesGrouping(rest, events, next);
        var r := GroupOnPlainObject(rest, events, next);
        if r.Some? {
          GroupsOntoStep(r.value, t, rest, events, grouped);
        }
      }
    }
  }

  /** Started on `{}`, a grouping that does not throw yields what
      `GroupTasksByEvent` promises: each group exactly its title's tasks, in
      order, and non-empty, and every task's title a key. */
  lemma PlainObjectAgreesWithGrouping(tasks: seq<Task>, events: seq<Event>, m: map<string, seq<Task>>)
    requires GroupOnPlainObject(tasks, events, map[]) == Some(m)
    ensures forall k :: k in m ==> m[k] == Filter(tasks, InGroup(events, k)) && m[k] != []
    ensures forall t :: t in tasks ==> EventTitle(events, t.eventId) in m
  {
    PlainObjectMatchesGrouping(tasks, events, map[]);
    forall k | k in m
      ensures m[k] == Filter(tasks, InGroup(events, k))
    {
      assert [] + Filter(tasks, InGroup(events, k)) == Filter(tasks, InGroup(events, k));
    }
  }

  /** One task of an event titled "constructor" is enough to make the page's
      grouping throw, where `GroupTasksByEvent` files it under that title. */
  lemma PrototypeTitleBreaksGrouping()
    ensures var e := Event(1, "constructor", 0, "", 0.0, Planning);
            var t := Task(1, "Book venue", "", "2024-01-01", 1, false);
            && EventTitle([e], t.eventId) == "constructor"
            && GroupOnPlainObject([t], [e], map[]).None?
            && Filter([t], InGroup([e], "constructor")) == [t]
  {
    var e := Event(1, "constructor", 0, "", 0.0, Planning);
    var t := Task(1, "Book venue", "", "2024-01-01", 1, false);
    assert WithId(1)(e);
    assert EventTitle([e], 1) == "constructor";
    assert "constructor" in InheritedNames;
    FilterKeepsAll([t], InGroup([e], "constructor"));
  }

  /** `done / total * 100` lies between 0 and 100 and hits either end only
      when none or all are done. */
  lemma PercentBounds(done: nat, total: nat)
    requires 0 < total && done <= total
    ensures var p := done as real / total as real * 100.0;
            && 0.0 <= p <= 100.0
            && (p == 100.0 <==> done == total)
            && (p == 0.0 <==> done == 0)
  {
    var q := done as real / total as real;
    assert q * total as real == done as real;
    assert q <= 1.0 by {
      if q > 1.0 {
        assert q * total as real > 1.0 * total as real;
      }
    }
  }

  /** The width of a group's completion bar, in percent: NaN (0 / 0) for an
      empty group, otherwise between 0 and 100, 100 exactly when every task
      is completed and 0 exactly when none is. */
  function CompletionPercent(group: seq<Task>): (p: JsNumber)
    ensures p.NaN? <==> group == []
    ensures p.Finite? ==> 0.0 <= p.value <= 100.0
    ensures p.Finite? ==> (p.value == 100.0 <==> forall i :: 0 <= i < |group| ==> group[i].completed)
    ensures p.Finite? ==> (p.value == 0.0 <==> forall i :: 0 <= i < |group| ==> !group[i].completed)
  {
    if group == [] then NaN
    else
      CountExtremes(group, IsCompleted);
      PercentBounds(Count(group, IsCompleted), |group|);
      Finite(Count(group, IsCompleted) as real / |group| as real * 100.0)
  }

  /** Every group the page draws has a finite completion bar. */
  lemma GroupBarsAreFinite(tasks: seq<Task>, events: seq<Event>, title: string)
    requires Filter(tasks, InGroup(events, title)) != []
    ensures CompletionPercent(Filter(tasks, InGroup(events, title))).Finite?
  {
  }

  /** The local toggle, `tasks.map(task => task.Id === taskId ? {...task,
      completed: !completed} : task)`: every task with the id gets the flipped
      flag, every other task stays as it was. */
  function ToggleLocal(tasks: seq<Task>, taskId: int, completed: bool): (r: seq<Task>)
    ensures |r| == |tasks|
    ensures forall i :: 0 <= i < |tasks| && tasks[i].id == taskId ==> r[i] == tasks[i].(completed := !completed)
    ensures forall i :: 0 <= i < |tasks| && tasks[i].id != taskId ==> r[i] == tasks[i]
  {
    seq(|tasks|, i requires 0 <= i < |tasks| =>
      if tasks[i].id == taskId then tasks[i].(completed := !completed) else tasks[i])
  }

  /** Toggling back with the flag now shown restores the list, when every task
      with the id showed the same flag. */
  lemma ToggleLocalTwiceRestores(tasks: seq<Task>, taskId: int, completed: bool)
    requires forall i :: 0 <= i < |tasks| && tasks[i].id == taskId ==> tasks[i].completed == completed
    ensures ToggleLocal(ToggleLocal(tasks, taskId, completed), taskId, !completed) == tasks
  {
    var twice := ToggleLocal(ToggleLocal(tasks, taskId, completed), taskId, !completed);
    assert forall i :: 0 <= i < |tasks| ==> twice[i] == tasks[i];
  }

  predicate UniqueIds(tasks: seq<Task>) {
    forall i, j :: 0 <= i < j < |tasks| ==> tasks[i].id != tasks[j].id
  }

  /** The page's list and the store agree after a toggle: on a list with
      distinct ids, the local map flips the same task `update` does, when the
      page passes the flag the task shows. */
  lemma {:induction false} ToggleLocalMatchesStore(tasks: seq<Task>, taskId: int)
    requires UniqueIds(tasks)
    requires 0 <= IndexOfId(tasks, taskId)
    ensures var c := tasks[IndexOfId(tasks, taskId)].completed;
            ToggleLocal(tasks, taskId, c) == Updated(tasks, taskId, CompletedPatch(!c))
  {
    var i := IndexOfId(tasks, taskId);
    var c := tasks[i].completed;
    var local, stored := ToggleLocal(tasks, taskId, c), Updated(tasks, taskId, CompletedPatch(!c));
    assert local[i] == stored[i];
    forall j | 0 <= j < |tasks| && j != i ensures local[j] == stored[j] {
      if j < i {
        assert tasks[j].id != taskId;
      } else {
        assert tasks[i].id != tasks[j].id;
      }
    }
  }

  /** `handleToggleTask`: the store is sent `{completed: !completed}` for the
      task, and the page flips the task in its own list. The in-memory store
      reports a missing id by returning null, never by throwing, so the page
      flips in every case. */
  method HandleToggleTask(service: TaskService, tasks: seq<Task>, taskId: int, completed: bool)
    returns (shown: seq<Task>)
    modifies service
    ensures service.tasks == Updated(old(service.tasks), taskId, CompletedPatch(!completed))
    ensures shown == ToggleLocal(tasks, taskId, completed)
  {
    var _ := service.Update(taskId, CompletedPatch(!completed));
    shown := ToggleLocal(tasks, taskId, completed);
  }

  // The task form's field names.
  const TitleField := "title"
  const DescriptionField := "description"
  const DueDateField := "dueDate"
  const EventIdField := "eventId"

  /** The form as the page opens it and resets it: every field empty. */
  const EmptyTaskForm: Fields := map[TitleField := "", DescriptionField := "", DueDateField := "", EventIdField := ""]

  predicate HasTaskFields(form: Fields) {
    TitleField in form && DescriptionField in form && DueDateField in form && EventIdField in form
  }

  /** The form passes the checks of `handleCreateTask`: title and
      description not blank, a due date and an event chosen. */
  predicate TaskFormPasses(form: Fields)
    requires HasTaskFields(form)
  {
    !IsBlank(form[TitleField]) && !IsBlank(form[DescriptionField]) && form[DueDateField] != "" && form[EventIdField] != ""
  }

  // The messages of the task form's checks.
  const TitleRequired := "Task title is required"
  const DescriptionRequired := "Task description is required"
  const DueDateRequired := "Due date is required"
  const EventRequired := "Please select an event"

  /** `errors` is what the task form's checks report: an entry under each
      field that is blank (title, description) or empty (due date, event),
      with its message, and no other entry. */
  predicate TaskFormErrors(form: Fields, errors: Fields)
    requires HasTaskFields(form)
  {
    && errors.Keys <= {TitleField, DescriptionField, DueDateField, EventIdField}
    && (TitleField in errors <==> IsBlank(form[TitleField]))
    && (DescriptionField in errors <==> IsBlank(form[DescriptionField]))
    && (DueDateField in errors <==> form[DueDateField] == "")
    && (EventIdField in errors <==> form[EventIdField] == "")
    && (TitleField in errors ==> errors[TitleField] == TitleRequired)
    && (DescriptionField in errors ==> errors[DescriptionField] == DescriptionRequired)
    && (DueDateField in errors ==> errors[DueDateField] == DueDateRequired)
    && (EventIdField in errors ==> errors[EventIdField] == EventRequired)
  }

  /** The checks of `handleCreateTask`: an error under each field that is
      blank (title, description) or empty (due date, event), with its
      message, and no other entry. */
  method ValidateTaskForm(form: Fields) returns (errors: Fields)
    requires HasTaskFields(form)
    ensures TaskFormErrors(form, errors)
    ensures errors == map[] <==> TaskFormPasses(form)
  {
    assert |TitleField| == 5 && |DescriptionField| == 11 && |DueDateField| == 7 && |EventIdField| == 7;
    assert DueDateField[0] != EventIdField[0];
    errors := map[];
    if IsBlank(form[TitleField]) {
      errors := errors[TitleField := TitleRequired];
    }
    if IsBlank(form[DescriptionField]) {
      errors := errors[DescriptionField := DescriptionRequired];
    }
    if form[DueDateField] == "" {
      errors := errors[DueDateField := DueDateRequired];
    }
    if form[EventIdField] == "" {
      errors := errors[EventIdField := EventRequired];
    }
  }

  /** `handleCreateTask`: the check's errors are shown; with any error
      nothing else changes; otherwise the store creates the task from the form,
      with the event id read by `parseInt`, the page appends the created task,
      and the form and its errors are cleared. */
  method HandleCreateTask(service: TaskService, tasks: seq<Task>, form: Fields, parseInt: string -> int)
    returns (shown: seq<Task>, next: FormState)
    requires HasTaskFields(form)
    modifies service
    ensures !TaskFormPasses(form) ==>
              service.tasks == old(service.tasks) && shown == tasks && next.values == form && next.errors != map[]
              && TaskFormErrors(form, next.errors)
    ensures TaskFormPasses(form) ==>
              var draft := TaskDraft(None, form[TitleField], form[DescriptionField], form[DueDateField],
                                     parseInt(form[EventIdField]), None);
              && service.tasks == old(service.tasks) + [NewTask(old(service.tasks), draft)]
              && shown == tasks + [NewTask(old(service.tasks), draft)]
              && next == FormState(EmptyTaskForm, map[])
  {
    var errors := ValidateTaskForm(form);
    if |errors| != 0 {
      return tasks, FormState(form, errors);
    }
    var draft := TaskDraft(None, form[TitleField], form[DescriptionField], form[DueDateField],
                           parseInt(form[EventIdField]), None);
    var created := service.Create(draft);
    shown := tasks + [created];
    next := FormState(EmptyTaskForm, map[]);
  }
}
