/** The in-memory task store: an object holding the `tasks` list, which
    `create` appends to, `update` replaces an element of and `delete` splices. */
module TaskApi {
  import opened Wrappers
  import opened Seqs

  datatype Task = Task(id: int, title: string, description: string, dueDate: string, eventId: int, completed: bool)

  /** What `create` receives. The pages pass no `id` and no `completed`; when
      given, the spread lets an `id` override the assigned one, while
      `completed` is always overwritten. */
  datatype TaskDraft = TaskDraft(
    id: Option<int>, title: string, description: string, dueDate: string,
    eventId: int, completed: Option<bool>)

  /** What `update` receives: any subset of the task's fields. */
  datatype TaskPatch = TaskPatch(
    id: Option<int>, title: Option<string>, description: Option<string>,
    dueDate: Option<string>, eventId: Option<int>, completed: Option<bool>)

  /** The patch the pages send to toggle a task: `{completed: c}`. */
  function CompletedPatch(c: bool): TaskPatch {
    TaskPatch(None, None, None, None, None, Some(c))
  }

  function HasId(id: int): Task -> bool {
    (t: Task) => t.id == id
  }

  function OfEvent(eventId: int): Task -> bool {
    (t: Task) => t.eventId == eventId
  }

  function IsActive(t: Task): bool { !t.completed }

  function IsCompleted(t: Task): bool { t.completed }

  /** `findIndex(t => t.Id === id)`: the first task with that id, or -1. */
  function IndexOfId(tasks: seq<Task>, id: int): (i: int)
    ensures -1 <= i < |tasks|
    ensures 0 <= i ==> tasks[i].id == id && forall j :: 0 <= j < i ==> tasks[j].id != id
    ensures i < 0 ==> forall j :: 0 <= j < |tasks| ==> tasks[j].id != id
  {
    FirstIndex(tasks, HasId(id))
  }

  /** `Math.max(...tasks.map(t => t.Id), 0)`: at least 0 and every id, and
      either 0 or one of the ids. */
  function MaxId(tasks: seq<Task>): (m: int)
    ensures m >= 0
    ensures forall i :: 0 <= i < |tasks| ==> tasks[i].id <= m
    ensures m == 0 || exists i :: 0 <= i < |tasks| && tasks[i].id == m
  {
    if tasks == [] then 0
    else
      var rest := MaxId(tasks[1..]);
      assert forall i :: 1 <= i < |tasks| ==> tasks[i] == tasks[1..][i - 1];
      if tasks[0].id > rest then tasks[0].id else rest
  }

  /** The task `create` stores: id one more than the largest id (1 for an
      empty store) unless the draft brings its own, and never completed. */
  function NewTask(tasks: seq<Task>, draft: TaskDraft): (t: Task)
    ensures !t.completed
    ensures t.title == draft.title && t.description == draft.description
    ensures t.dueDate == draft.dueDate && t.eventId == draft.eventId
    ensures draft.id.None? ==> t.id >= 1 && forall i :: 0 <= i < |tasks| ==> tasks[i].id < t.id
    ensures draft.id.None? && tasks == [] ==> t.id == 1
    ensures draft.id.Some? ==> t.id == draft.id.value
  {
    Task(draft.id.GetOr(MaxId(tasks) + 1), draft.title, draft.description, draft.dueDate, draft.eventId, false)
  }

  /** `{...task, ...patch}`: every supplied field replaces the task's own,
      every other field keeps its value. */
  function Merge(t: Task, p: TaskPatch): (r: Task)
    ensures p.id.Some? ==> r.id == p.id.value
    ensures p.id.None? ==> r.id == t.id
    ensures p.title.Some? ==> r.title == p.title.value
    ensures p.title.None? ==> r.title == t.title
    ensures p.description.Some? ==> r.description == p.description.value
    ensures p.description.None? ==> r.description == t.description
    ensures p.dueDate.Some? ==> r.dueDate == p.dueDate.value
    ensures p.dueDate.None? ==> r.dueDate == t.dueDate
    ensures p.eventId.Some? ==> r.eventId == p.eventId.value
    ensures p.eventId.None? ==> r.eventId == t.eventId
    ensures p.completed.Some? ==> r.completed == p.completed.value
    ensures p.completed.None? ==> r.completed == t.completed
  {
    Task(p.id.GetOr(t.id), p.title.GetOr(t.title), p.description.GetOr(t.description),
         p.dueDate.GetOr(t.dueDate), p.eventId.GetOr(t.eventId), p.completed.GetOr(t.completed))
  }

  /** Merging the same patch again changes nothing. */
  lemma MergeIdempotent(t: Task, p: TaskPatch)
    ensures Merge(Merge(t, p), p) == Merge(t, p)
  {
  }

  /** The list after `update(id, patch)`: unchanged when no task has the id;
      otherwise the first such task merged with the patch and every other
      task, and the length, unchanged. */
  function Updated(tasks: seq<Task>, id: int, p: TaskPatch): (r: seq<Task>)
    ensures |r| == |tasks|
    ensures IndexOfId(tasks, id) < 0 ==> r == tasks
    ensures 0 <= IndexOfId(tasks, id) ==>
              var i := IndexOfId(tasks, id);
              r[i] == Merge(tasks[i], p) && forall j :: 0 <= j < |tasks| && j != i ==> r[j] == tasks[j]
  {
    var i := IndexOfId(tasks, id);
    if i < 0 then tasks else tasks[i := Merge(tasks[i], p)]
  }

  /** An update that leaves ids alone finds the same task next time. */
  lemma UpdatedKeepsIndex(tasks: seq<Task>, id: int, p: TaskPatch)
    requires p.id.None?
    ensures IndexOfId(Updated(tasks, id, p), id) == IndexOfId(tasks, id)
  {
    var r := Updated(tasks, id, p);
    assert forall j :: 0 <= j < |tasks| ==> r[j].id == tasks[j].id;
  }

  /** The toggle the pages perform, `update(id, {completed: !task.completed})`,
      done twice puts the list back as it was. */
  lemma ToggleTwiceRestores(tasks: seq<Task>, id: int)
    requires 0 <= IndexOfId(tasks, id)
    ensures var c := tasks[IndexOfId(tasks, id)].completed;
            var once := Updated(tasks, id, CompletedPatch(!c));
            Updated(once, id, CompletedPatch(!once[IndexOfId(once, id)].completed)) == tasks
  {
    var i := IndexOfId(tasks, id);
    var c := tasks[i].completed;
    var once := Updated(tasks, id, CompletedPatch(!c));
    UpdatedKeepsIndex(tasks, id, CompletedPatch(!c));
    var twice := Updated(once, id, CompletedPatch(c));
    assert twice[i] == tasks[i];
    assert forall j :: 0 <= j < |tasks| ==> twice[j] == tasks[j];
  }

  /** The list after `delete(id)`: unchanged when no task has the id;
      otherwise the first such task is cut out and the rest keep their order. */
  function Removed(tasks: seq<Task>, id: int): (r: seq<Task>)
    ensures IndexOfId(tasks, id) < 0 ==> r == tasks
    ensures 0 <= IndexOfId(tasks, id) ==>
              var i := IndexOfId(tasks, id);
              && |r| == |tasks| - 1
              && r[..i] == tasks[..i] && r[i..] == tasks[i + 1..]
              && multiset(r) + multiset{tasks[i]} == multiset(tasks)
  {
    var i := IndexOfId(tasks, id);
    if i < 0 then tasks
    else
      assert tasks == tasks[..i] + [tasks[i]] + tasks[i + 1..];
      tasks[..i] + tasks[i + 1..]
  }

  /** A created task shows up last among its event's tasks. */
  lemma CreatedTaskInItsEvent(tasks: seq<Task>, draft: TaskDraft)
    ensures var t := NewTask(tasks, draft);
            Filter(tasks + [t], OfEvent(draft.eventId)) == Filter(tasks, OfEvent(draft.eventId)) + [t]
  {
    FilterSnoc(tasks, NewTask(tasks, draft), OfEvent(draft.eventId));
  }

  class TaskService {
    var tasks: seq<Task>

    /** The store starts from the seed data. */
    constructor (seed: seq<Task>)
      ensures tasks == seed
    {
      tasks := seed;
    }

    /** `getAll`: a copy of every task, in order. */
    method GetAll() returns (all: seq<Task>)
      ensures all == tasks
    {
      all := tasks;
    }

    /** `getById`: a copy of the first task with the id, or null. */
    method GetById(id: int) returns (task: Option<Task>)
      ensures task.None? <==> forall j :: 0 <= j < |tasks| ==> tasks[j].id != id
      ensures task.Some? ==> task.value.id == id && task.value == tasks[IndexOfId(tasks, id)]
    {
      var i := IndexOfId(tasks, id);
      task := if i < 0 then None else Some(tasks[i]);
    }

    /** `getByEventId`: exactly the event's tasks, in stored order. */
    method GetByEventId(eventId: int) returns (found: seq<Task>)
      ensures found == Filter(tasks, OfEvent(eventId))
      ensures forall t :: t in found <==> t in tasks && t.eventId == eventId
    {
      found := Filter(tasks, OfEvent(eventId));
    }

    /** `getActiveTasks`: exactly the tasks not completed, in stored order. */
    method GetActiveTasks() returns (active: seq<Task>)
      ensures active == Filter(tasks, IsActive)
      ensures forall t :: t in active <==> t in tasks && !t.completed
    {
      active := Filter(tasks, IsActive);
    }

    /** `create`: appends the new task at the end and returns a copy of it. */
    method Create(draft: TaskDraft) returns (created: Task)
      modifies this
      ensures created == NewTask(old(tasks), draft)
      ensures tasks == old(tasks) + [created]
    {
      created := NewTask(tasks, draft);
      tasks := tasks + [created];
    }

    /** `update`: null and no change when no task has the id; otherwise the
      first such task is replaced by its merge with the patch, which is
      returned. */
    method Update(id: int, patch: TaskPatch) returns (updated: Option<Task>)
      modifies this
      ensures tasks == Updated(old(tasks), id, patch)
      ensures IndexOfId(old(tasks), id) < 0 ==> updated.None?
      ensures 0 <= IndexOfId(old(tasks), id) ==>
                updated == Some(Merge(old(tasks)[IndexOfId(old(tasks), id)], patch))
    {
      var index := IndexOfId(tasks, id);
      if index == -1 {
        return None;
      }
      tasks := tasks[index := Merge(tasks[index], patch)];
      updated := Some(tasks[index]);
    }

    /** `delete`: false and no change when no task has the id; otherwise true
      and the first such task is spliced out. */
    method Delete(id: int) returns (deleted: bool)
      modifies this
      ensures deleted <==> 0 <= IndexOfId(old(tasks), id)
      ensures tasks == Removed(old(tasks), id)
    {
      var index := IndexOfId(tasks, id);
      if index == -1 {
        return false;
      }
      tasks := tasks[..index] + tasks[index + 1..];
      deleted := true;
    }
  }
}
