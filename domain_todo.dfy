/** The TODO entity and its lifecycle: creation, completion, reopening and partial update,
    plus the option records the repositories take (filter, sort and pagination). */
module DomainTodo {
  import opened Wrappers

  /** An instant, as nanoseconds on the service's clock. */
  type Time = int

  /** commonv1.Status and commonv1.Priority are protobuf int32 enums. */
  type Status = int
  type Priority = int

  const StatusUnspecified: Status := 0
  const StatusNotStarted: Status := 1
  const StatusInProgress: Status := 2
  const StatusCompleted: Status := 3

  const PriorityUnspecified: Priority := 0
  const PriorityLow: Priority := 1
  const PriorityMedium: Priority := 2
  const PriorityHigh: Priority := 3

  /** The value of every field of a TODO except its media attachments.
      A Go pointer field is an Option; a nil slice and an empty slice are both []. */
  datatype TodoView = TodoView(
    id: string,
    userId: string,
    title: string,
    description: string,
    status: Status,
    priority: Priority,
    dueDate: Option<Time>,
    tags: seq<string>,
    isShared: bool,
    sharedBy: Option<string>,
    teamId: Option<string>,
    createdAt: Time,
    updatedAt: Time,
    completedAt: Option<Time>,
    assignedTo: Option<string>,
    parentId: Option<string>,
    position: Int32)

  /** The lifecycle invariant: a completion time is recorded exactly when the status is COMPLETED. */
  predicate CompletionConsistent(v: TodoView) {
    v.completedAt.Some? <==> v.status == StatusCompleted
  }

  /** The TODO that NewTODO builds for `userId` and `title` at instant `now`, under identifier `id`. */
  function NewTodoView(id: string, userId: string, title: string, now: Time): (v: TodoView)
    ensures v.id == id && v.userId == userId && v.title == title && v.description == ""
    ensures v.status == StatusNotStarted && v.priority == PriorityMedium
    ensures !v.isShared && v.position == 0 && v.createdAt == v.updatedAt == now
    ensures v.dueDate.None? && v.completedAt.None? && v.tags == []
    ensures v.sharedBy.None? && v.teamId.None? && v.assignedTo.None? && v.parentId.None?
    ensures CompletionConsistent(v)
  {
    TodoView(id, userId, title, "", StatusNotStarted, PriorityMedium, None, [], false, None, None,
             now, now, None, None, None, 0)
  }

  /** The state after Complete at instant `now`. */
  function CompletedView(v: TodoView, now: Time): (r: TodoView)
    ensures r.status == StatusCompleted && r.completedAt == Some(now) && r.updatedAt == now
    ensures r == v.(status := r.status, completedAt := r.completedAt, updatedAt := r.updatedAt)
    ensures CompletionConsistent(r)
  {
    v.(status := StatusCompleted, completedAt := Some(now), updatedAt := now)
  }

  /** The state after Reopen at instant `now`. */
  function ReopenedView(v: TodoView, now: Time): (r: TodoView)
    ensures r.status == StatusNotStarted && r.completedAt.None? && r.updatedAt == now
    ensures r == v.(status := r.status, completedAt := r.completedAt, updatedAt := r.updatedAt)
    ensures CompletionConsistent(r)
  {
    v.(status := StatusNotStarted, completedAt := None, updatedAt := now)
  }

  /** The arguments of TODO.Update; None stands for a nil pointer or a nil tag slice. */
  datatype TodoPatch = TodoPatch(
    title: Option<string>,
    description: Option<string>,
    status: Option<Status>,
    priority: Option<Priority>,
    dueDate: Option<Time>,
    tags: Option<seq<string>>,
    assignedTo: Option<string>,
    parentId: Option<string>,
    position: Option<Int32>)

  /** A patch that changes nothing but the update time. */
  const EmptyPatch := TodoPatch(None, None, None, None, None, None, None, None, None)

  function Patched<T>(current: T, arg: Option<T>): T {
    if arg.Some? then arg.value else current
  }

  /** The completion time after an update: setting COMPLETED keeps an existing
      time or records `now`, the clock reading taken for it; setting any other status clears it. */
  function PatchedCompletedAt(current: Option<Time>, status: Option<Status>, now: Time): Option<Time> {
    if status.None? then current
    else if status.value == StatusCompleted then (if current.None? then Some(now) else current)
    else None
  }

  /** The state after Update(p). Update reads the clock twice: `completedNow` for a completion
      time it records, then `now` for the update time. */
  function UpdatedView(v: TodoView, p: TodoPatch, completedNow: Time, now: Time): TodoView {
    TodoView(v.id, v.userId, Patched(v.title, p.title), Patched(v.description, p.description),
             Patched(v.status, p.status), Patched(v.priority, p.priority),
             if p.dueDate.Some? then p.dueDate else v.dueDate, Patched(v.tags, p.tags),
             v.isShared, v.sharedBy, v.teamId, v.createdAt, now, PatchedCompletedAt(v.completedAt, p.status, completedNow),
             if p.assignedTo.Some? then p.assignedTo else v.assignedTo,
             if p.parentId.Some? then p.parentId else v.parentId, Patched(v.position, p.position))
  }

  /** Update overwrites every field whose argument is present, keeps every other one,
      always refreshes the update time and never touches identity, ownership, sharing or creation. */
  lemma UpdateFieldEffects(v: TodoView, p: TodoPatch, completedNow: Time, now: Time)
    ensures var r := UpdatedView(v, p, completedNow, now);
      && (p.title.None? ==> r.title == v.title) && (p.title.Some? ==> r.title == p.title.value)
      && (p.description.None? ==> r.description == v.description)
      && (p.description.Some? ==> r.description == p.description.value)
      && (p.status.None? ==> r.status == v.status) && (p.status.Some? ==> r.status == p.status.value)
      && (p.priority.None? ==> r.priority == v.priority) && (p.priority.Some? ==> r.priority == p.priority.value)
      && (p.dueDate.None? ==> r.dueDate == v.dueDate) && (p.dueDate.Some? ==> r.dueDate == p.dueDate)
      && (p.tags.None? ==> r.tags == v.tags) && (p.tags.Some? ==> r.tags == p.tags.value)
      && (p.assignedTo.None? ==> r.assignedTo == v.assignedTo) && (p.assignedTo.Some? ==> r.assignedTo == p.assignedTo)
      && (p.parentId.None? ==> r.parentId == v.parentId) && (p.parentId.Some? ==> r.parentId == p.parentId)
      && (p.position.None? ==> r.position == v.position) && (p.position.Some? ==> r.position == p.position.value)
      && r.updatedAt == now
      && r.id == v.id && r.userId == v.userId && r.createdAt == v.createdAt
      && r.isShared == v.isShared && r.sharedBy == v.sharedBy && r.teamId == v.teamId
  {
  }

  /** Update to COMPLETED keeps an existing completion time or records the first clock reading;
      Update to any other status clears it; Update without a status leaves it alone, and then the
      first reading does not matter. */
  lemma UpdateCompletionRules(v: TodoView, p: TodoPatch, completedNow: Time, now: Time)
    ensures var r := UpdatedView(v, p, completedNow, now);
      && (p.status.Some? && p.status.value == StatusCompleted ==>
            r.completedAt == if v.completedAt.Some? then v.completedAt else Some(completedNow))
      && (p.status.Some? && p.status.value != StatusCompleted ==> r.completedAt.None?)
      && (p.status.None? ==> r.completedAt == v.completedAt)
    ensures p.status.None? ==> UpdatedView(v, p, completedNow, now) == UpdatedView(v, p, now, now)
  {
  }

  /** Complete, Reopen and Update each keep the lifecycle invariant. */
  lemma LifecyclePreservesConsistency(v: TodoView, p: TodoPatch, completedNow: Time, now: Time)
    requires CompletionConsistent(v)
    ensures CompletionConsistent(CompletedView(v, now))
    ensures CompletionConsistent(ReopenedView(v, now))
    ensures CompletionConsistent(UpdatedView(v, p, completedNow, now))
  {
  }

  /** An update that sets a status establishes the invariant whatever the state before. */
  lemma StatusUpdateEstablishesConsistency(v: TodoView, p: TodoPatch, completedNow: Time, now: Time)
    requires p.status.Some?
    ensures CompletionConsistent(UpdatedView(v, p, completedNow, now))
  {
  }

  /** Setting COMPLETED twice keeps the first completion time (the behaviour the domain tests pin). */
  lemma RepeatedCompletionKeepsFirstTime(v: TodoView, t1: Time, u1: Time, t2: Time, u2: Time)
    requires v.completedAt.None?
    ensures var p := EmptyPatch.(status := Some(StatusCompleted));
      UpdatedView(UpdatedView(v, p, t1, u1), p, t2, u2).completedAt == Some(t1)
  {
  }

  /** A TODO as a mutable object: services fetch it from a repository, change it in place and
      store it back, so two holders of the same reference see the same changes. Its fields are
      kept together as one record value. */
  class Todo {
    var data: TodoView

    /** The record value of every field. */
    function View(): TodoView
      reads this
    {
      data
    }

    /** NewTODO; the fresh identifier and the current instant are parameters. */
    constructor (newId: string, userId: string, title: string, now: Time)
      ensures View() == NewTodoView(newId, userId, title, now)
    {
      data := NewTodoView(newId, userId, title, now);
    }

    /** A TODO object holding the given field values (a struct literal). */
    constructor FromView(v: TodoView)
      ensures View() == v
    {
      data := v;
    }

    function IsCompleted(): (b: bool)
      reads this
      ensures b <==> View().status == StatusCompleted
      ensures CompletionConsistent(View()) ==> (b <==> View().completedAt.Some?)
    {
      data.status == StatusCompleted
    }

    method Complete(now: Time)
      modifies this
      ensures View() == CompletedView(old(View()), now)
    {
      data := data.(status := StatusCompleted, completedAt := Some(now), updatedAt := now);
    }

    method Reopen(now: Time)
      modifies this
      ensures View() == ReopenedView(old(View()), now)
    {
      data := data.(status := StatusNotStarted, completedAt := None, updatedAt := now);
    }

    /** Update; `completedNow` and `now` are its two clock readings. */
    method Update(p: TodoPatch, completedNow: Time, now: Time)
      modifies this
      ensures View() == UpdatedView(old(View()), p, completedNow, now)
    {
      data := UpdatedView(data, p, completedNow, now);
    }

    /** An assignment to the status field alone, as the in-memory bulk status update does it. */
    method SetStatus(status: Status)
      modifies this
      ensures View() == old(View()).(status := status)
    {
      data := data.(status := status);
    }
  }

  /** TODOFilter. `ids` is None for a nil slice: GetSharedTODOs tells nil apart from empty. */
  datatype TodoFilter = TodoFilter(
    ids: Option<seq<string>>,
    userId: Option<string>,
    statuses: seq<Status>,
    priorities: seq<Priority>,
    dueDateFrom: Option<Time>,
    dueDateTo: Option<Time>,
    createdFrom: Option<Time>,
    createdTo: Option<Time>,
    completedFrom: Option<Time>,
    completedTo: Option<Time>,
    tags: seq<string>,
    assignedTo: Option<string>,
    parentId: Option<string>,
    teamId: Option<string>,
    isShared: Option<bool>,
    searchQuery: Option<string>,
    searchFields: seq<string>)

  /** The filter with no criterion set. */
  const NoFilter := TodoFilter(None, None, [], [], None, None, None, None, None, None, [], None, None,
                               None, None, None, [])

  /** The IDs criterion as a list; nil and empty both impose nothing. */
  function FilterIds(f: TodoFilter): seq<string> {
    if f.ids.Some? then f.ids.value else []
  }

  datatype SortOption = SortOption(field: string, descending: bool)

  datatype ListOptions = ListOptions(filter: TodoFilter, sortOptions: seq<SortOption>, page: Int32, pageSize: Int32)

  datatype PaginationResult = PaginationResult(
    totalItems: int,
    totalPages: int,
    currentPage: int,
    pageSize: int,
    hasNext: bool,
    hasPrev: bool)
}
