/** The TODO service: validation order, error codes and repository effects of every TODO
    operation, over the in-memory repository. A service built with a websocket service hands a
    "todo_update" message to the hub's broadcast queue; that message is returned as `event`. */
module TodoService {
  import opened Wrappers
  import opened DomainTodo
  import opened MockTodoRepository
  import WebSocketService

  /** The TODO that CreateTODO builds: NewTODO, then each supplied optional field. */
  function CreatedView(newId: string, userId: string, title: string, description: Option<string>,
                       status: Option<Status>, priority: Option<Priority>, dueDate: Option<Time>,
                       tags: Option<seq<string>>, assignedTo: Option<string>, parentId: Option<string>,
                       now: Time): (v: TodoView)
    ensures v.id == newId && v.userId == userId && v.title == title
    ensures v.description == (if description.Some? then description.value else "")
    ensures v.status == (if status.Some? then status.value else StatusNotStarted)
    ensures v.priority == (if priority.Some? then priority.value else PriorityMedium)
    ensures v.dueDate == dueDate && v.assignedTo == assignedTo && v.parentId == parentId
    ensures v.tags == (if tags.Some? then tags.value else [])
    ensures v.createdAt == v.updatedAt == now && v.completedAt.None?
    ensures !v.isShared && v.sharedBy.None? && v.teamId.None? && v.position == 0
  {
    NewTodoView(newId, userId, title, now).(
      description := Patched("", description),
      status := Patched(StatusNotStarted, status),
      priority := Patched(PriorityMedium, priority),
      dueDate := dueDate,
      tags := Patched([], tags),
      assignedTo := assignedTo,
      parentId := parentId)
  }

  /** With no optional argument CreateTODO stores exactly what NewTODO builds. */
  lemma CreatedWithoutOptionsIsNew(newId: string, userId: string, title: string, now: Time)
    ensures CreatedView(newId, userId, title, None, None, None, None, None, None, None, now)
            == NewTodoView(newId, userId, title, now)
  {
  }

  /** Creation keeps the completion invariant exactly when the supplied status is not COMPLETED:
      a todo created as COMPLETED has no completion time. */
  lemma CreatedConsistency(newId: string, userId: string, title: string, description: Option<string>,
                           status: Option<Status>, priority: Option<Priority>, dueDate: Option<Time>,
                           tags: Option<seq<string>>, assignedTo: Option<string>, parentId: Option<string>,
                           now: Time)
    ensures CompletionConsistent(CreatedView(newId, userId, title, description, status, priority, dueDate,
                                             tags, assignedTo, parentId, now))
            <==> status != Some(StatusCompleted)
  {
  }

  /** The parent check of UpdateTODO and MoveTODO: a nil or empty parent is not checked; a parent
      equal to the todo itself is InvalidArgument; a missing one NotFound. */
  function ParentCheck(id: string, parentId: Option<string>, stored: set<string>): (r: Outcome)
    ensures parentId.None? || parentId == Some("") ==> r == Pass
    ensures parentId.Some? && parentId.value != "" && parentId.value == id ==> r == Fail(InvalidArgument)
    ensures parentId.Some? && parentId.value != "" && parentId.value != id ==>
              (r == Pass <==> parentId.value in stored) && (r != Pass ==> r == Fail(NotFound))
  {
    if parentId.Some? && parentId.value != "" then
      if parentId.value == id then Fail(InvalidArgument)
      else if parentId.value !in stored then Fail(NotFound)
      else Pass
    else Pass
  }

  /** The broadcast a service with a websocket service makes. */
  function EventFor(notify: bool, t: TodoView, action: string, now: Time): Option<WebSocketService.Message> {
    if notify then Some(WebSocketService.TodoUpdateEvent(t, action, now)) else None
  }

  class Service {
    const repo: MockRepository
    /** Whether the service was built with a websocket service. */
    const notify: bool

    constructor (repo: MockRepository, notify: bool)
      ensures this.repo == repo && this.notify == notify
    {
      this.repo := repo;
      this.notify := notify;
    }

    /** CreateTODO; `newId` and `now` stand for the fresh UUID and the clock. */
    method CreateTodo(userId: string, title: string, description: Option<string>, status: Option<Status>,
                      priority: Option<Priority>, dueDate: Option<Time>, tags: Option<seq<string>>,
                      assignedTo: Option<string>, parentId: Option<string>, newId: string, now: Time)
      returns (r: Result<Todo>, event: Option<WebSocketService.Message>)
      requires repo.Valid()
      modifies repo
      ensures repo.Valid()
      ensures title == "" ==> r == Err(InvalidArgument)
      ensures title != "" && userId == "" ==> r == Err(InvalidArgument)
      ensures title != "" && userId != "" && parentId.Some? && parentId.value !in old(repo.todos) ==> r == Err(NotFound)
      ensures title != "" && userId != "" && (parentId.None? || parentId.value in old(repo.todos)) ==> r.Ok?
      ensures r.Err? ==> repo.todos == old(repo.todos) && event.None?
      ensures r.Ok? ==> && fresh(r.value)
                        && r.value.View() == CreatedView(newId, userId, title, description, status, priority, dueDate,
                                                         tags, assignedTo, parentId, now)
                        && repo.todos == old(repo.todos)[newId := r.value]
                        && event == EventFor(notify, r.value.View(), "created", now)
    {
      event := None;
      if title == "" {
        return Err(InvalidArgument), None;
      }
      if userId == "" {
        return Err(InvalidArgument), None;
      }
      if parentId.Some? {
        var parentExists := repo.Exists(parentId.value);
        if !parentExists {
          return Err(NotFound), None;
        }
      }
      var todo := new Todo.FromView(CreatedView(newId, userId, title, description, status, priority, dueDate,
                                                tags, assignedTo, parentId, now));
      var saved := repo.Create(todo);
      if saved.Fail? {
        return Err(Internal), None;
      }
      event := EventFor(notify, todo.View(), "created", now);
      r := Ok(todo);
    }

    /** GetTODO */
    method GetTodo(id: string) returns (r: Result<Todo>)
      requires repo.Valid()
      ensures id == "" ==> r == Err(InvalidArgument)
      ensures id != "" && id !in repo.todos ==> r == Err(NotFound)
      ensures id != "" && id in repo.todos ==> r == Ok(repo.todos[id])
    {
      if id == "" {
        return Err(InvalidArgument);
      }
      var found := repo.GetById(id);
      if found.Err? {
        return Err(NotFound);
      }
      r := Ok(found.value);
    }

    /** UpdateTODO: the fetched todo is changed in place, so the stored object is the one returned.
        `completedNow` and `now` are the two clock readings of TODO.Update. */
    method UpdateTodo(id: string, p: TodoPatch, completedNow: Time, now: Time) returns (r: Result<Todo>, event: Option<WebSocketService.Message>)
      requires repo.Valid()
      modifies repo, repo.todos.Values
      ensures repo.Valid() && repo.todos == old(repo.todos)
      ensures id == "" ==> r == Err(InvalidArgument)
      ensures id != "" && id !in old(repo.todos) ==> r == Err(NotFound)
      ensures id != "" && id in old(repo.todos) ==>
                 r == (if ParentCheck(id, p.parentId, old(repo.todos.Keys)).Pass? then Ok(old(repo.todos[id]))
                       else Err(ParentCheck(id, p.parentId, old(repo.todos.Keys)).code))
      ensures r.Err? ==> event.None? && forall k :: k in repo.todos ==> repo.todos[k].View() == old(repo.todos[k].View())
      ensures r.Ok? ==> && r.value.View() == UpdatedView(old(repo.todos[id].View()), p, completedNow, now)
                        && event == EventFor(notify, r.value.View(), "updated", now)
                        && forall k :: k in repo.todos && k != id ==> repo.todos[k].View() == old(repo.todos[k].View())
    {
      event := None;
      if id == "" {
        return Err(InvalidArgument), None;
      }
      var found := repo.GetById(id);
      if found.Err? {
        return Err(NotFound), None;
      }
      var todo := found.value;
      if p.parentId.Some? && p.parentId.value != "" {
        if p.parentId.value == id {
          return Err(InvalidArgument), None;
        }
        var parentExists := repo.Exists(p.parentId.value);
        if !parentExists {
          return Err(NotFound), None;
        }
      }
      todo.Update(p, completedNow, now);
      var saved := repo.Update(todo);
      if saved.Fail? {
        return Err(Internal), None;
      }
      event := EventFor(notify, todo.View(), "updated", now);
      r := Ok(todo);
    }

    /** DeleteTODO: the broadcast carries the todo as it was fetched before deletion. */
    method DeleteTodo(id: string, now: Time) returns (r: Outcome, event: Option<WebSocketService.Message>)
      requires repo.Valid()
      modifies repo
      ensures repo.Valid()
      ensures id == "" ==> r == Fail(InvalidArgument)
      ensures id != "" && id !in old(repo.todos) ==> r == Fail(NotFound)
      ensures id != "" && id in old(repo.todos) ==> r == Pass
      ensures r.Fail? ==> repo.todos == old(repo.todos) && event.None?
      ensures r.Pass? ==> repo.todos == old(repo.todos) - {id} && event == EventFor(notify, old(repo.todos[id].View()), "deleted", now)
    {
      event := None;
      if id == "" {
        return Fail(InvalidArgument), None;
      }
      var found := repo.GetById(id);
      if found.Err? {
        return Fail(NotFound), None;
      }
      var deleted := repo.Delete(id);
      if deleted.Fail? {
        return Fail(Internal), None;
      }
      event := EventFor(notify, found.value.View(), "deleted", now);
      r := Pass;
    }

    /** ListTODOs: the repository's List with the options assembled from the arguments. */
    method ListTodos(filter: TodoFilter, sortOptions: seq<SortOption>, page: Int32, pageSize: Int32)
      returns (r: ListOutcome, ghost sorted: seq<TodoView>)
      requires repo.Valid()
      ensures repo.SortedListing(sorted, ListOptions(filter, sortOptions, page, pageSize))
      ensures |sorted| == |repo.MatchingIds(filter)|
      ensures var w := MockPage(Wrap32(|repo.MatchingIds(filter)|), page, pageSize);
              && (r.Panicked? <==> w.SlicePanic?)
              && (w.InRange? ==> r == Listed(sorted[w.start..w.end], w.pagination))
              && (w.OutOfRange? ==> r == Listed([], w.pagination))
    {
      r, sorted := repo.List(ListOptions(filter, sortOptions, page, pageSize));
    }

    /** BulkUpdateStatus: an empty list is InvalidArgument; otherwise the repository's bulk update. */
    method BulkUpdateStatus(ids: seq<string>, status: Status) returns (r: Outcome)
      requires repo.Valid()
      modifies repo.todos.Values
      ensures repo.Valid()
      ensures r == if |ids| == 0 then Fail(InvalidArgument) else Pass
      ensures forall k :: k in repo.todos ==>
                repo.todos[k].View() == if k in ids then old(repo.todos[k].View()).(status := status) else old(repo.todos[k].View())
    {
      if |ids| == 0 {
        return Fail(InvalidArgument);
      }
      var updated := repo.BulkUpdateStatus(ids, status);
      if updated.Fail? {
        return Fail(Internal);
      }
      r := Pass;
    }

    /** BulkDelete: an empty list is InvalidArgument; otherwise every listed ID is removed. */
    method BulkDelete(ids: seq<string>) returns (r: Outcome)
      requires repo.Valid()
      modifies repo
      ensures repo.Valid()
      ensures r == if |ids| == 0 then Fail(InvalidArgument) else Pass
      ensures repo.todos == old(repo.todos) - set k | k in ids
    {
      if |ids| == 0 {
        return Fail(InvalidArgument);
      }
      var deleted := repo.BulkDelete(ids);
      if deleted.Fail? {
        return Fail(Internal);
      }
      r := Pass;
    }

    /** CompleteTODO: completes whatever the current status; makes no broadcast. */
    method CompleteTodo(id: string, now: Time) returns (r: Result<Todo>)
      requires repo.Valid()
      modifies repo, repo.todos.Values
      ensures repo.Valid() && repo.todos == old(repo.todos)
      ensures r == if id == "" then Err(InvalidArgument) else if id !in old(repo.todos) then Err(NotFound) else Ok(old(repo.todos[id]))
      ensures r.Err? ==> forall k :: k in repo.todos ==> repo.todos[k].View() == old(repo.todos[k].View())
      ensures r.Ok? ==> && r.value.View() == CompletedView(old(repo.todos[id].View()), now)
                        && forall k :: k in repo.todos && k != id ==> repo.todos[k].View() == old(repo.todos[k].View())
    {
      if id == "" {
        return Err(InvalidArgument);
      }
      var found := repo.GetById(id);
      if found.Err? {
        return Err(NotFound);
      }
      var todo := found.value;
      todo.Complete(now);
      var saved := repo.Update(todo);
      if saved.Fail? {
        return Err(Internal);
      }
      r := Ok(todo);
    }

    /** ReopenTODO: only a completed todo can be reopened. */
    method ReopenTodo(id: string, now: Time) returns (r: Result<Todo>)
      requires repo.Valid()
      modifies repo, repo.todos.Values
      ensures repo.Valid() && repo.todos == old(repo.todos)
      ensures r == if id == "" then Err(InvalidArgument)
                   else if id !in old(repo.todos) then Err(NotFound)
                   else if old(repo.todos[id].View()).status != StatusCompleted then Err(FailedPrecondition)
                   else Ok(old(repo.todos[id]))
      ensures r.Err? ==> forall k :: k in repo.todos ==> repo.todos[k].View() == old(repo.todos[k].View())
      ensures r.Ok? ==> && r.value.View() == ReopenedView(old(repo.todos[id].View()), now)
                        && forall k :: k in repo.todos && k != id ==> repo.todos[k].View() == old(repo.todos[k].View())
    {
      if id == "" {
        return Err(InvalidArgument);
      }
      var found := repo.GetById(id);
      if found.Err? {
        return Err(NotFound);
      }
      var todo := found.value;
      if !todo.IsCompleted() {
        return Err(FailedPrecondition);
      }
      todo.Reopen(now);
      var saved := repo.Update(todo);
      if saved.Fail? {
        return Err(Internal);
      }
      r := Ok(todo);
    }

    /** MoveTODO: the parent checks of UpdateTODO, then an update of parent and position only. */
    method MoveTodo(id: string, parentId: Option<string>, position: Option<Int32>, now: Time) returns (r: Result<Todo>)
      requires repo.Valid()
      modifies repo, repo.todos.Values
      ensures repo.Valid() && repo.todos == old(repo.todos)
      ensures id == "" ==> r == Err(InvalidArgument)
      ensures id != "" && id !in old(repo.todos) ==> r == Err(NotFound)
      ensures id != "" && id in old(repo.todos) ==>
                 r == (if ParentCheck(id, parentId, old(repo.todos.Keys)).Pass? then Ok(old(repo.todos[id]))
                       else Err(ParentCheck(id, parentId, old(repo.todos.Keys)).code))
      ensures r.Err? ==> forall k :: k in repo.todos ==> repo.todos[k].View() == old(repo.todos[k].View())
      ensures r.Ok? ==> && r.value.View() == UpdatedView(old(repo.todos[id].View()), EmptyPatch.(parentId := parentId, position := position), now, now)
                        && forall k :: k in repo.todos && k != id ==> repo.todos[k].View() == old(repo.todos[k].View())
    {
      if id == "" {
        return Err(InvalidArgument);
      }
      var found := repo.GetById(id);
      if found.Err? {
        return Err(NotFound);
      }
      var todo := found.value;
      if parentId.Some? && parentId.value != "" {
        if parentId.value == id {
          return Err(InvalidArgument);
        }
        var parentExists := repo.Exists(parentId.value);
        if !parentExists {
          return Err(NotFound);
        }
      }
      todo.Update(EmptyPatch.(parentId := parentId, position := position), now, now);
      var saved := repo.Update(todo);
      if saved.Fail? {
        return Err(Internal);
      }
      r := Ok(todo);
    }
  }

  /** A move changes only the parent, the position and the update time of the todo. */
  lemma MoveChangesOnlyPlacement(v: TodoView, parentId: Option<string>, position: Option<Int32>, now: Time)
    ensures var r := UpdatedView(v, EmptyPatch.(parentId := parentId, position := position), now, now);
            r == v.(parentId := r.parentId, position := r.position, updatedAt := now)
            && (parentId.Some? ==> r.parentId == parentId) && (parentId.None? ==> r.parentId == v.parentId)
            && (position.Some? ==> r.position == position.value) && (position.None? ==> r.position == v.position)
  {
  }
}
