/** The in-memory TODO repository the service tests run against: map-backed CRUD, conjunctive
    filter matching with ASCII case-insensitive search, an exchange sort on a copied slice,
    and slice pagination. */
module MockTodoRepository {
  import opened Wrappers
  import opened DomainTodo
  import Text

  // ---------------------------------------------------------------- case-insensitive text

  /** toLower on one byte: only 'A'..'Z' change, each to the byte 32 higher. */
  function ToLower(c: char): (r: char)
    ensures 'A' <= c <= 'Z' ==> r as int == c as int + 32 && 'a' <= r <= 'z'
    ensures !('A' <= c <= 'Z') ==> r == c
  {
    if 'A' <= c <= 'Z' then (c as int + 32) as char else c
  }

  /** The loop of equalsIgnoreCase from position `i` on. */
  function EqualsLowerFrom(s1: string, s2: string, i: nat): bool
    requires |s1| == |s2| && i <= |s1|
    decreases |s1| - i
  {
    i == |s1| || (ToLower(s1[i]) == ToLower(s2[i]) && EqualsLowerFrom(s1, s2, i + 1))
  }

  /** equalsIgnoreCase: equal lengths and equal bytes after toLower. */
  function EqualsIgnoreCase(s1: string, s2: string): bool {
    |s1| == |s2| && EqualsLowerFrom(s1, s2, 0)
  }

  lemma {:induction false} EqualsLowerFromIff(s1: string, s2: string, i: nat)
    requires |s1| == |s2| && i <= |s1|
    ensures EqualsLowerFrom(s1, s2, i) <==> forall k :: i <= k < |s1| ==> ToLower(s1[k]) == ToLower(s2[k])
    decreases |s1| - i
  {
    if i < |s1| {
      EqualsLowerFromIff(s1, s2, i + 1);
    }
  }

  /** equalsIgnoreCase holds iff the lengths agree and every pair of bytes agrees after toLower. */
  lemma EqualsIgnoreCaseIff(s1: string, s2: string)
    ensures EqualsIgnoreCase(s1, s2) <==>
              |s1| == |s2| && forall k :: 0 <= k < |s1| ==> ToLower(s1[k]) == ToLower(s2[k])
  {
    if |s1| == |s2| {
      EqualsLowerFromIff(s1, s2, 0);
    }
  }

  /** The loop of containsIgnoreCase from window position `i` on. */
  function ContainsFrom(s: string, sub: string, i: nat): bool
    requires |sub| <= |s| && i <= |s| - |sub| + 1
    decreases |s| - |sub| + 1 - i
  {
    if i > |s| - |sub| then false
    else EqualsIgnoreCase(s[i..i + |sub|], sub) || ContainsFrom(s, sub, i + 1)
  }

  /** containsIgnoreCase */
  function ContainsIgnoreCase(s: string, sub: string): (b: bool)
    ensures |s| < |sub| ==> !b
  {
    if |s| < |sub| then false else ContainsFrom(s, sub, 0)
  }

  /** Some length-|sub| window of `s` at position `i` equals `sub` ignoring case. */
  predicate WindowMatches(s: string, sub: string, i: int) {
    0 <= i && i + |sub| <= |s| && EqualsIgnoreCase(s[i..i + |sub|], sub)
  }

  lemma {:induction false} ContainsFromIff(s: string, sub: string, i: nat)
    requires |sub| <= |s| && i <= |s| - |sub| + 1
    ensures ContainsFrom(s, sub, i) <==> exists k :: i <= k && WindowMatches(s, sub, k)
    decreases |s| - |sub| + 1 - i
  {
    if i <= |s| - |sub| {
      ContainsFromIff(s, sub, i + 1);
      if WindowMatches(s, sub, i) {
        assert exists k :: i <= k && WindowMatches(s, sub, k);
      } else if exists k :: i <= k && WindowMatches(s, sub, k) {
        var k :| i <= k && WindowMatches(s, sub, k);
        assert i + 1 <= k;
      }
    }
  }

  /** containsIgnoreCase(s, sub) holds iff some length-|sub| window of `s` equals `sub` under
      equalsIgnoreCase; in particular it is false when `s` is shorter than `sub`. */
  lemma ContainsIgnoreCaseIff(s: string, sub: string)
    ensures ContainsIgnoreCase(s, sub) <==> exists k :: WindowMatches(s, sub, k)
  {
    if |sub| <= |s| {
      ContainsFromIff(s, sub, 0);
    }
  }

  /** A case-sensitive occurrence is also a case-insensitive one. */
  lemma ContainsImpliesContainsIgnoreCase(s: string, sub: string)
    requires Text.Contains(s, sub)
    ensures ContainsIgnoreCase(s, sub)
  {
    Text.ContainsIffOccurs(s, sub);
    var i :| Text.OccursAt(s, sub, i);
    EqualsIgnoreCaseIff(s[i..i + |sub|], sub);
    assert WindowMatches(s, sub, i);
    ContainsIgnoreCaseIff(s, sub);
  }

  // ---------------------------------------------------------------- filter matching

  /** The tag criterion: the loops over filter tags and todo tags, stopping at the first equal pair. */
  function AnyTagShared(filterTags: seq<string>, todoTags: seq<string>): bool {
    |filterTags| > 0 && (filterTags[0] in todoTags || AnyTagShared(filterTags[1..], todoTags))
  }

  lemma {:induction false} AnyTagSharedIff(filterTags: seq<string>, todoTags: seq<string>)
    ensures AnyTagShared(filterTags, todoTags) <==>
              exists i, j :: 0 <= i < |filterTags| && 0 <= j < |todoTags| && filterTags[i] == todoTags[j]
  {
    if |filterTags| > 0 {
      AnyTagSharedIff(filterTags[1..], todoTags);
      if exists i, j :: 0 <= i < |filterTags| && 0 <= j < |todoTags| && filterTags[i] == todoTags[j] {
        var i, j :| 0 <= i < |filterTags| && 0 <= j < |todoTags| && filterTags[i] == todoTags[j];
        if i > 0 {
          assert filterTags[1..][i - 1] == todoTags[j];
        }
      }
      if filterTags[0] in todoTags {
        var j :| 0 <= j < |todoTags| && todoTags[j] == filterTags[0];
        assert filterTags[0] == todoTags[j];
      }
      if AnyTagShared(filterTags[1..], todoTags) && filterTags[0] !in todoTags {
        var i, j :| 0 <= i < |filterTags[1..]| && 0 <= j < |todoTags| && filterTags[1..][i] == todoTags[j];
        assert filterTags[i + 1] == todoTags[j];
      }
    }
  }

  /** Some tag contains the query, ignoring case. */
  function AnyTagContains(tags: seq<string>, query: string): bool {
    |tags| > 0 && (ContainsIgnoreCase(tags[0], query) || AnyTagContains(tags[1..], query))
  }

  /** The fields searched when the filter names none. */
  const DefaultSearchFields: seq<string> := ["title", "description", "tags"]

  /** One field of the search: an unknown field name never matches, and an empty description
      never matches even an empty query. */
  predicate FieldMatches(t: TodoView, field: string, query: string) {
    if field == "title" then ContainsIgnoreCase(t.title, query)
    else if field == "description" then t.description != "" && ContainsIgnoreCase(t.description, query)
    else if field == "tags" then AnyTagContains(t.tags, query)
    else false
  }

  /** The loop over search fields, stopping at the first match. */
  function SearchMatches(t: TodoView, query: string, fields: seq<string>): bool {
    |fields| > 0 && (FieldMatches(t, fields[0], query) || SearchMatches(t, query, fields[1..]))
  }

  lemma {:induction false} SearchMatchesIff(t: TodoView, query: string, fields: seq<string>)
    ensures SearchMatches(t, query, fields) <==> exists k :: 0 <= k < |fields| && FieldMatches(t, fields[k], query)
  {
    if |fields| > 0 {
      SearchMatchesIff(t, query, fields[1..]);
      if exists k :: 0 <= k < |fields| && FieldMatches(t, fields[k], query) {
        var k :| 0 <= k < |fields| && FieldMatches(t, fields[k], query);
        if k > 0 {
          assert fields[1..][k - 1] == fields[k];
        }
      }
      if SearchMatches(t, query, fields[1..]) {
        var k :| 0 <= k < |fields[1..]| && FieldMatches(t, fields[1..][k], query);
        assert fields[k + 1] == fields[1..][k];
      }
    }
  }

  /** The fields a search looks at: the filter's, or the defaults when it names none. */
  function EffectiveSearchFields(f: TodoFilter): seq<string> {
    if |f.searchFields| == 0 then DefaultSearchFields else f.searchFields
  }

  /** Whether "TeamID non-nil and non-empty": what the IsShared criterion compares against. */
  predicate SharedWithTeam(t: TodoView) {
    t.teamId.Some? && t.teamId.value != ""
  }

  /** matchesFilter: the conjunction of every criterion the filter sets. Empty list criteria
      impose nothing; a date bound is failed by a missing date. */
  predicate MatchesFilter(t: TodoView, f: TodoFilter) {
    && (|FilterIds(f)| > 0 ==> t.id in FilterIds(f))
    && (f.userId.Some? ==> t.userId == f.userId.value)
    && (|f.statuses| > 0 ==> t.status in f.statuses)
    && (|f.priorities| > 0 ==> t.priority in f.priorities)
    && (f.dueDateFrom.Some? ==> t.dueDate.Some? && !(t.dueDate.value < f.dueDateFrom.value))
    && (f.dueDateTo.Some? ==> t.dueDate.Some? && !(t.dueDate.value > f.dueDateTo.value))
    && (f.createdFrom.Some? ==> !(t.createdAt < f.createdFrom.value))
    && (f.createdTo.Some? ==> !(t.createdAt > f.createdTo.value))
    && (f.completedFrom.Some? ==> t.completedAt.Some? && !(t.completedAt.value < f.completedFrom.value))
    && (f.completedTo.Some? ==> t.completedAt.Some? && !(t.completedAt.value > f.completedTo.value))
    && (|f.tags| > 0 ==> AnyTagShared(f.tags, t.tags))
    && (f.assignedTo.Some? ==> t.assignedTo == f.assignedTo)
    && (f.parentId.Some? ==> t.parentId == f.parentId)
    && (f.teamId.Some? ==> t.teamId == f.teamId)
    && (f.isShared.Some? ==> SharedWithTeam(t) == f.isShared.value)
    && (f.searchQuery.Some? ==> SearchMatches(t, f.searchQuery.value, EffectiveSearchFields(f)))
  }

  /** The filter that sets nothing admits every todo. */
  lemma NoFilterMatchesAll(t: TodoView)
    ensures MatchesFilter(t, NoFilter)
  {
  }

  /** Under the tag criterion a todo matches iff some filter tag equals some todo tag. */
  lemma TagCriterion(t: TodoView, tags: seq<string>)
    requires |tags| > 0
    ensures MatchesFilter(t, NoFilter.(tags := tags)) <==>
              exists i, j :: 0 <= i < |tags| && 0 <= j < |t.tags| && tags[i] == t.tags[j]
  {
    AnyTagSharedIff(tags, t.tags);
  }

  /** A search with no fields named looks at title, description and tags; a todo matches iff one
      of those matches. An empty description is never a match. */
  lemma SearchCriterion(t: TodoView, query: string)
    ensures MatchesFilter(t, NoFilter.(searchQuery := Some(query))) <==>
              ContainsIgnoreCase(t.title, query)
              || (t.description != "" && ContainsIgnoreCase(t.description, query))
              || AnyTagContains(t.tags, query)
  {
    var fs := DefaultSearchFields;
    assert fs[0] == "title" && fs[1..][0] == "description" && fs[1..][1..][0] == "tags";
    assert fs[1..][1..][1..] == [];
    assert "description" != "title" by { assert "description"[0] != "title"[0]; }
    assert "tags" != "title" && "tags" != "description" by {
      assert "tags"[1] != "title"[1] && "tags"[0] != "description"[0];
    }
    assert SearchMatches(t, query, fs[1..][1..][1..]) == false;
    assert SearchMatches(t, query, fs[1..][1..]) == FieldMatches(t, "tags", query);
    assert SearchMatches(t, query, fs[1..]) == (FieldMatches(t, "description", query) || FieldMatches(t, "tags", query));
    assert SearchMatches(t, query, fs) ==
             (FieldMatches(t, "title", query) || FieldMatches(t, "description", query) || FieldMatches(t, "tags", query));
  }

  /** Adding a user criterion to a filter keeps exactly the matches owned by that user. */
  lemma UserCriterionNarrows(t: TodoView, f: TodoFilter, u: string)
    requires f.userId.None?
    ensures MatchesFilter(t, f.(userId := Some(u))) <==> MatchesFilter(t, f) && t.userId == u
  {
  }

  // ---------------------------------------------------------------- sorting

  /** The three keys sortTODOs knows. */
  datatype SortKey = ByCreatedAt | ByDueDate | ByPriority

  function SortKeyOf(sortBy: string): Option<SortKey> {
    if sortBy == "created_at" then Some(ByCreatedAt)
    else if sortBy == "due_date" then Some(ByDueDate)
    else if sortBy == "priority" then Some(ByPriority)
    else None
  }

  /** The swap condition of sortTODOs for an earlier element `a` and a later element `b`.
      For due dates a missing date is the smallest value: it is swapped towards the front
      ascending and towards the back descending. */
  predicate OutOfOrder(a: TodoView, b: TodoView, key: SortKey, desc: bool) {
    match key
    case ByCreatedAt => if desc then a.createdAt < b.createdAt else a.createdAt > b.createdAt
    case ByDueDate =>
      if desc then (a.dueDate.None? && b.dueDate.Some?) || (a.dueDate.Some? && b.dueDate.Some? && a.dueDate.value < b.dueDate.value)
      else (a.dueDate.Some? && b.dueDate.None?) || (a.dueDate.Some? && b.dueDate.Some? && a.dueDate.value > b.dueDate.value)
    case ByPriority => if desc then a.priority < b.priority else a.priority > b.priority
  }

  lemma OutOfOrderTransitive(a: TodoView, b: TodoView, c: TodoView, key: SortKey, desc: bool)
    requires OutOfOrder(a, b, key, desc) && OutOfOrder(b, c, key, desc)
    ensures OutOfOrder(a, c, key, desc)
  {
  }

  lemma OutOfOrderAsymmetric(a: TodoView, b: TodoView, key: SortKey, desc: bool)
    requires OutOfOrder(a, b, key, desc)
    ensures !OutOfOrder(b, a, key, desc)
  {
  }

  /** No pair of positions is out of order. */
  predicate InOrder(s: seq<TodoView>, key: SortKey, desc: bool) {
    forall i, j :: 0 <= i < j < |s| ==> !OutOfOrder(s[i], s[j], key, desc)
  }

  /** The first `i` positions hold their final entries: none is out of order with anything after it. */
  ghost predicate PrefixPlaced(s: seq<TodoView>, i: int, key: SortKey, desc: bool) {
    forall p, q :: 0 <= p < i && p < q < |s| ==> !OutOfOrder(s[p], s[q], key, desc)
  }

  /** Position `i` is not out of order with any position strictly between `i` and `j`. */
  ghost predicate LeadsUpTo(s: seq<TodoView>, i: int, j: int, key: SortKey, desc: bool)
    requires 0 <= i < |s| && j <= |s|
  {
    forall k :: i < k < j ==> !OutOfOrder(s[i], s[k], key, desc)
  }

  /** An exchange of positions i and j behind a placed prefix of length i keeps it placed. */
  lemma SwapKeepsPrefix(s: seq<TodoView>, i: int, j: int, key: SortKey, desc: bool)
    requires 0 <= i < j < |s| && PrefixPlaced(s, i, key, desc)
    ensures PrefixPlaced(s[i := s[j]][j := s[i]], i, key, desc)
  {
    var t := s[i := s[j]][j := s[i]];
    forall p, q | 0 <= p < i && p < q < |t|
      ensures !OutOfOrder(t[p], t[q], key, desc)
    {
      var q' := if q == i then j else if q == j then i else q;
      assert t[p] == s[p] && t[q] == s[q'] && p < q';
    }
  }

  /** Exchanging an out-of-order pair (i, j), where i leads up to j, makes i lead up to j + 1. */
  lemma SwapExtendsLead(s: seq<TodoView>, i: int, j: int, key: SortKey, desc: bool)
    requires 0 <= i < j < |s| && LeadsUpTo(s, i, j, key, desc) && OutOfOrder(s[i], s[j], key, desc)
    ensures LeadsUpTo(s[i := s[j]][j := s[i]], i, j + 1, key, desc)
  {
    var t := s[i := s[j]][j := s[i]];
    forall k | i < k < j + 1
      ensures !OutOfOrder(t[i], t[k], key, desc)
    {
      if k == j {
        OutOfOrderAsymmetric(s[i], s[j], key, desc);
      } else {
        assert t[k] == s[k];
        if OutOfOrder(s[j], s[k], key, desc) {
          OutOfOrderTransitive(s[i], s[j], s[k], key, desc);
        }
      }
    }
  }

  /** An exchange keeps the contents. */
  lemma SwapKeepsMultiset(s: seq<TodoView>, i: int, j: int)
    requires 0 <= i < j < |s|
    ensures multiset(s[i := s[j]][j := s[i]]) == multiset(s)
  {
    var t := s[i := s[j]][j := s[i]];
    assert t == s[..i] + [s[j]] + s[i + 1..j] + [s[i]] + s[j + 1..];
    assert s == s[..i] + [s[i]] + s[i + 1..j] + [s[j]] + s[j + 1..];
  }

  /** Positions i and j in order: i leads up to j + 1. */
  lemma InOrderExtendsLead(s: seq<TodoView>, i: int, j: int, key: SortKey, desc: bool)
    requires 0 <= i < j < |s| && LeadsUpTo(s, i, j, key, desc) && !OutOfOrder(s[i], s[j], key, desc)
    ensures LeadsUpTo(s, i, j + 1, key, desc)
  {
  }

  /** When i leads up to the end, position i is placed too. */
  lemma LeadPlaces(s: seq<TodoView>, i: int, key: SortKey, desc: bool)
    requires 0 <= i < |s| && PrefixPlaced(s, i, key, desc) && LeadsUpTo(s, i, |s|, key, desc)
    ensures PrefixPlaced(s, i + 1, key, desc)
  {
  }

  /** A placed prefix covering all but the last position is a sorted sequence. */
  lemma PlacedIsInOrder(s: seq<TodoView>, i: int, key: SortKey, desc: bool)
    requires i >= |s| - 1 && PrefixPlaced(s, i, key, desc)
    ensures InOrder(s, key, desc)
  {
  }

  /** The nested exchange loops of sortTODOs, run in place on the copied slice. */
  method ExchangeSort(a: array<TodoView>, key: SortKey, desc: bool)
    modifies a
    ensures InOrder(a[..], key, desc)
    ensures multiset(a[..]) == multiset(old(a[..]))
  {
    var i := 0;
    while i < a.Length - 1
      invariant 0 <= i <= a.Length
      invariant PrefixPlaced(a[..], i, key, desc)
      invariant multiset(a[..]) == multiset(old(a[..]))
    {
      var j := i + 1;
      while j < a.Length
        invariant i < j <= a.Length
        invariant PrefixPlaced(a[..], i, key, desc) && LeadsUpTo(a[..], i, j, key, desc)
        invariant multiset(a[..]) == multiset(old(a[..]))
      {
        ghost var s := a[..];
        if OutOfOrder(a[i], a[j], key, desc) {
          SwapKeepsPrefix(s, i, j, key, desc);
          SwapExtendsLead(s, i, j, key, desc);
          SwapKeepsMultiset(s, i, j);
          a[i], a[j] := a[j], a[i];
          assert a[..] == s[i := s[j]][j := s[i]];
        } else {
          InOrderExtendsLead(s, i, j, key, desc);
        }
        j := j + 1;
      }
      LeadPlaces(a[..], i, key, desc);
      i := i + 1;
    }
    PlacedIsInOrder(a[..], i, key, desc);
  }

  /** sortTODOs: a sorted copy; the input is not touched. An unknown key gives an unchanged copy.
      Any order other than "desc" sorts ascending. */
  method SortTodos(todos: seq<TodoView>, sortBy: string, sortOrder: string) returns (sorted: seq<TodoView>)
    ensures multiset(sorted) == multiset(todos)
    ensures SortKeyOf(sortBy).None? ==> sorted == todos
    ensures SortKeyOf(sortBy).Some? ==> InOrder(sorted, SortKeyOf(sortBy).value, sortOrder == "desc")
    ensures sortBy == "created_at" ==> forall i, j :: 0 <= i < j < |sorted| ==>
              if sortOrder == "desc" then sorted[i].createdAt >= sorted[j].createdAt else sorted[i].createdAt <= sorted[j].createdAt
    ensures sortBy == "priority" ==> forall i, j :: 0 <= i < j < |sorted| ==>
              if sortOrder == "desc" then sorted[i].priority >= sorted[j].priority else sorted[i].priority <= sorted[j].priority
    // missing due dates come first ascending and last descending
    ensures sortBy == "due_date" && sortOrder != "desc" ==> forall i, j :: 0 <= i < j < |sorted| ==>
              sorted[j].dueDate.None? ==> sorted[i].dueDate.None?
    ensures sortBy == "due_date" && sortOrder == "desc" ==> forall i, j :: 0 <= i < j < |sorted| ==>
              sorted[i].dueDate.None? ==> sorted[j].dueDate.None?
  {
    var a := new TodoView[|todos|](k requires 0 <= k < |todos| => todos[k]);
    assert a[..] == todos;
    var key := SortKeyOf(sortBy);
    if key.Some? {
      ExchangeSort(a, key.value, sortOrder == "desc");
    }
    sorted := a[..];
  }

  // ---------------------------------------------------------------- pagination

  /** Where a page of the in-memory List falls, computed in int32 as the code does. A wrapped
      index that makes the slice expression invalid is a runtime panic. */
  datatype MockWindow =
    | InRange(start: nat, end: nat, pagination: PaginationResult)
    | OutOfRange(pagination: PaginationResult)
    | SlicePanic

  /** The int32 ceiling page count (n + size - 1) / size, wrap-around included. */
  function MockTotalPages(n: Int32, size: Int32): int
    requires size >= 1
  {
    GoDiv(Wrap32(n + size - 1), size)
  }

  /** The pagination step of the in-memory List over `n` filtered items. */
  function MockPage(n: Int32, page: Int32, pageSize: Int32): (w: MockWindow)
    ensures w.InRange? ==> w.start <= w.end <= n
  {
    var p := EffectivePage(page);
    var size := EffectiveSize(pageSize);
    var start := Wrap32((p - 1) * size);
    var end0 := Wrap32(start + size);
    var end := if end0 > n then n else end0;
    if start >= n then
      OutOfRange(PaginationResult(n, MockTotalPages(n, size), p, size, false, p > 1))
    else if start < 0 || end < start then SlicePanic
    else
      var total := MockTotalPages(n, size);
      var totalPages := if total == 0 then 1 else total;
      InRange(start, end, PaginationResult(n, totalPages, p, size, p < totalPages, p > 1))
  }

  /** Page numbers below 1 count as page 1. */
  function EffectivePage(page: Int32): Int32 {
    if page < 1 then 1 else page
  }

  /** Page sizes below 1 count as 20. */
  function EffectiveSize(pageSize: Int32): Int32 {
    if pageSize < 1 then 20 else pageSize
  }

  /** Without int32 overflow the page holds items [(page-1)*size, min(page*size, n)) and
      totalPages is ceil(n/size), which is at least 1 on a page in range; past the end the page
      is empty and HasNext is false; page and size are the clamped ones. */
  lemma MockPageMeaning(n: Int32, page: Int32, pageSize: Int32)
    requires n >= 0
    requires EffectivePage(page) * EffectiveSize(pageSize) < 0x8000_0000
    requires n + EffectiveSize(pageSize) <= 0x8000_0000
    ensures var p := EffectivePage(page);
            var size := EffectiveSize(pageSize);
            var w := MockPage(n, page, pageSize);
            && !w.SlicePanic?
            && w.pagination.currentPage == p && w.pagination.pageSize == size && w.pagination.totalItems == n
            && w.pagination.hasPrev == (p > 1)
            && (w.InRange? <==> (p - 1) * size < n)
            && (w.InRange? ==> w.start == (p - 1) * size && w.end == (if p * size < n then p * size else n)
                                && w.pagination.totalPages == (n + size - 1) / size >= 1
                                && w.pagination.hasNext == (p < w.pagination.totalPages))
            && (w.OutOfRange? ==> w.pagination.totalPages == (n + size - 1) / size && !w.pagination.hasNext)
  {
    var p := EffectivePage(page);
    var size := EffectiveSize(pageSize);
    WindowArithmetic(n, p, size);
  }

  /** The int32 arithmetic of MockPage does not wrap within the bounds of MockPageMeaning. */
  lemma WindowArithmetic(n: Int32, p: Int32, size: Int32)
    requires n >= 0 && p >= 1 && size >= 1 && p * size < 0x8000_0000 && n + size <= 0x8000_0000
    ensures 0 <= (p - 1) * size && Wrap32((p - 1) * size) == (p - 1) * size
    ensures Wrap32(Wrap32((p - 1) * size) + size) == p * size
    ensures MockTotalPages(n, size) == (n + size - 1) / size
    ensures (p - 1) * size < n ==> (n + size - 1) / size >= 1
  {
    NonNegativeProduct(p - 1, size);
    assert Wrap32(n + size - 1) == n + size - 1;
    if (p - 1) * size < n {
      assert n + size - 1 >= size;
    }
  }

  lemma NonNegativeProduct(a: int, b: int)
    requires a >= 0 && b >= 0
    ensures a * b >= 0 && a * b + b == (a + 1) * b
  {
  }

  /** Ten items at page size 3: four pages, and page 2 holds items 3, 4 and 5. */
  lemma TenItemsPageSizeThree()
    ensures MockPage(10, 2, 3) == InRange(3, 6, PaginationResult(10, 4, 2, 3, true, true))
  {
  }

  /** An empty repository listed past its end reports zero pages: this branch lacks the ">= 1" clamp. */
  lemma EmptyOutOfRangeHasZeroPages()
    ensures MockPage(0, 1, 10) == OutOfRange(PaginationResult(0, 0, 1, 10, false, false))
  {
  }

  /** The result of the in-memory List. */
  datatype ListOutcome = Listed(items: seq<TodoView>, pagination: PaginationResult) | Panicked

  /** The mock repository: todos keyed by ID; the stored objects are shared with callers. */
  class MockRepository {
    var todos: map<string, Todo>

    /** Every todo is stored under its own ID. */
    ghost predicate Valid()
      reads this, todos.Values
    {
      forall k :: k in todos ==> todos[k].data.id == k
    }

    constructor ()
      ensures todos == map[] && Valid()
    {
      todos := map[];
    }

    /** The values of the stored todos, by ID. */
    ghost function Contents(): map<string, TodoView>
      reads this, todos.Values
    {
      map k | k in todos :: todos[k].data
    }

    /** Create stores (or overwrites) the todo under its ID. */
    method Create(t: Todo) returns (r: Outcome)
      requires Valid()
      modifies this
      ensures todos == old(todos)[t.data.id := t] && r == Pass
      ensures Valid()
    {
      todos := todos[t.data.id := t];
      r := Pass;
    }

    method GetById(id: string) returns (r: Result<Todo>)
      requires Valid()
      ensures id in todos ==> r == Ok(todos[id])
      ensures id !in todos ==> r == Err(NotFound)
    {
      if id in todos {
        r := Ok(todos[id]);
      } else {
        r := Err(NotFound);
      }
    }

    /** Update stores the todo under its ID if that ID is present, and fails otherwise. */
    method Update(t: Todo) returns (r: Outcome)
      requires Valid()
      modifies this
      ensures r == (if t.data.id in old(todos) then Pass else Fail(NotFound))
      ensures todos == if r.Pass? then old(todos)[t.data.id := t] else old(todos)
      ensures Valid()
    {
      if t.data.id in todos {
        todos := todos[t.data.id := t];
        r := Pass;
      } else {
        r := Fail(NotFound);
      }
    }

    method Delete(id: string) returns (r: Outcome)
      requires Valid()
      modifies this
      ensures r == (if id in old(todos) then Pass else Fail(NotFound))
      ensures todos == old(todos) - {id}
      ensures Valid()
    {
      if id in todos {
        todos := todos - {id};
        r := Pass;
      } else {
        r := Fail(NotFound);
      }
    }

    method Exists(id: string) returns (b: bool)
      ensures b <==> id in todos
    {
      b := id in todos;
    }

    /** The in-memory bulk status update: the status of every present ID changes, every other
        field of every todo (the completion time included) and every absent ID is left alone. */
    method BulkUpdateStatus(ids: seq<string>, status: Status) returns (r: Outcome)
      requires Valid()
      modifies todos.Values
      ensures r == Pass && Valid()
      ensures forall k :: k in todos ==>
                todos[k].data == if k in ids then old(todos[k].data).(status := status) else old(todos[k].data)
    {
      var i := 0;
      while i < |ids|
        invariant 0 <= i <= |ids|
        invariant Valid()
        invariant forall k :: k in todos ==>
                    todos[k].data == if k in ids[..i] then old(todos[k].data).(status := status) else old(todos[k].data)
      {
        if ids[i] in todos {
          todos[ids[i]].SetStatus(status);
        }
        assert ids[..i + 1] == ids[..i] + [ids[i]];
        i := i + 1;
      }
      assert ids[..i] == ids;
      r := Pass;
    }

    /** The in-memory bulk delete: every listed ID is gone afterwards. */
    method BulkDelete(ids: seq<string>) returns (r: Outcome)
      requires Valid()
      modifies this
      ensures todos == old(todos) - set k | k in ids
      ensures r == Pass && Valid()
    {
      var i := 0;
      while i < |ids|
        invariant 0 <= i <= |ids|
        invariant todos == old(todos) - set k | k in ids[..i]
      {
        assert ids[..i + 1] == ids[..i] + [ids[i]];
        todos := todos - {ids[i]};
        i := i + 1;
      }
      assert ids[..i] == ids;
      r := Pass;
    }

    /** The IDs of the stored todos that match `f`. */
    ghost function MatchingIds(f: TodoFilter): set<string>
      reads this, todos.Values
    {
      set k | k in todos && MatchesFilter(todos[k].data, f)
    }

    /** The filtering loop of List over the map, in the map's (arbitrary) iteration order:
        the values of exactly the matching todos, each once. */
    method FilterTodos(f: TodoFilter) returns (filtered: seq<TodoView>)
      requires Valid()
      ensures forall x :: x in filtered ==> x.id in todos && todos[x.id].data == x && MatchesFilter(x, f)
      ensures forall k :: k in todos && MatchesFilter(todos[k].data, f) ==> todos[k].data in filtered
      ensures forall i, j :: 0 <= i < j < |filtered| ==> filtered[i].id != filtered[j].id
    {
      filtered := [];
      var pending := todos.Keys;
      while pending != {}
        invariant pending <= todos.Keys
        invariant forall x :: x in filtered ==> x.id in todos && x.id !in pending && todos[x.id].data == x && MatchesFilter(x, f)
        invariant forall k :: k in todos && k !in pending && MatchesFilter(todos[k].data, f) ==> todos[k].data in filtered
        invariant forall i, j :: 0 <= i < j < |filtered| ==> filtered[i].id != filtered[j].id
        decreases pending
      {
        var k :| k in pending;
        var v := todos[k].data;
        if MatchesFilter(v, f) {
          filtered := filtered + [v];
        }
        pending := pending - {k};
      }
    }

    /** `s` lists every stored todo matching `options` once, ordered by the first sort option
        when its key is known. */
    ghost predicate SortedListing(s: seq<TodoView>, options: ListOptions)
      reads this, todos.Values
    {
      && (forall x :: x in s ==> x.id in todos && todos[x.id].data == x && MatchesFilter(x, options.filter))
      && (forall k :: k in todos && MatchesFilter(todos[k].data, options.filter) ==> todos[k].data in s)
      && (forall i, j :: 0 <= i < j < |s| ==> s[i].id != s[j].id)
      && (|options.sortOptions| > 0 && SortKeyOf(options.sortOptions[0].field).Some? ==>
            InOrder(s, SortKeyOf(options.sortOptions[0].field).value, options.sortOptions[0].descending))
    }

    /** List: filter, sort by the first sort option only, then paginate. The count, the page
        numbers and whether the slice panics depend only on how many stored todos match; the page
        is the window of the sorted matches, `sorted`, that MockPage names. */
    method List(options: ListOptions) returns (r: ListOutcome, ghost sorted: seq<TodoView>)
      requires Valid()
      ensures SortedListing(sorted, options) && |sorted| == |MatchingIds(options.filter)|
      ensures var w := MockPage(Wrap32(|MatchingIds(options.filter)|), options.page, options.pageSize);
              && (r.Panicked? <==> w.SlicePanic?)
              && (w.InRange? ==> r == Listed(sorted[w.start..w.end], w.pagination))
              && (w.OutOfRange? ==> r == Listed([], w.pagination))
    {
      var filtered := FilterTodos(options.filter);
      MatchingCount(filtered, options.filter);
      if |options.sortOptions| > 0 {
        var opt := options.sortOptions[0];
        var sortOrder := if opt.descending then "desc" else "asc";
        var before := filtered;
        filtered := SortTodos(filtered, opt.field, sortOrder);
        SameElementsKeepIds(before, filtered);
        assert |filtered| == |multiset(filtered)| == |before|;
      }
      sorted := filtered;
      // int32(len(todos)) wraps, and never exceeds the length
      var n := Wrap32(|filtered|);
      var w := MockPage(n, options.page, options.pageSize);
      match w
      case InRange(start, end, pagination) =>
        r := Listed(filtered[start..end], pagination);
      case OutOfRange(pagination) =>
        r := Listed([], pagination);
      case SlicePanic =>
        r := Panicked;
    }

    /** A list of exactly the matching todos, each once, is as long as the set of matching IDs. */
    lemma MatchingCount(s: seq<TodoView>, f: TodoFilter)
      requires Valid()
      requires forall x :: x in s ==> x.id in todos && todos[x.id].data == x && MatchesFilter(x, f)
      requires forall k :: k in todos && MatchesFilter(todos[k].data, f) ==> todos[k].data in s
      requires forall i, j :: 0 <= i < j < |s| ==> s[i].id != s[j].id
      ensures |s| == |MatchingIds(f)|
    {
      forall k
        ensures k in Ids(s) <==> k in MatchingIds(f)
      {
        IdsMeaning(s, k);
        if k in MatchingIds(f) {
          assert todos[k].data in s;
        }
      }
      assert Ids(s) == MatchingIds(f);
      DistinctIdsCardinality(s);
    }
  }

  /** The IDs of the todos in a list. */
  function Ids(s: seq<TodoView>): set<string> {
    if |s| == 0 then {} else {s[0].id} + Ids(s[1..])
  }

  lemma {:induction false} IdsMeaning(s: seq<TodoView>, k: string)
    ensures k in Ids(s) <==> exists x :: x in s && x.id == k
  {
    if |s| > 0 {
      IdsMeaning(s[1..], k);
      assert forall x :: x in s <==> x == s[0] || x in s[1..];
    }
  }

  /** A list with distinct IDs has as many IDs as elements. */
  lemma {:induction false} DistinctIdsCardinality(s: seq<TodoView>)
    requires forall i, j :: 0 <= i < j < |s| ==> s[i].id != s[j].id
    ensures |Ids(s)| == |s|
  {
    if |s| > 0 {
      var rest := s[1..];
      assert forall i, j :: 0 <= i < j < |rest| ==> rest[i].id == s[i + 1].id && rest[j].id == s[j + 1].id;
      DistinctIdsCardinality(rest);
      IdsMeaning(rest, s[0].id);
    }
  }

  /** A permutation of a list with distinct IDs has distinct IDs and the same elements. */
  lemma SameElementsKeepIds(before: seq<TodoView>, after: seq<TodoView>)
    requires multiset(after) == multiset(before)
    requires forall i, j :: 0 <= i < j < |before| ==> before[i].id != before[j].id
    ensures forall x :: x in after <==> x in before
    ensures forall i, j :: 0 <= i < j < |after| ==> after[i].id != after[j].id
  {
    forall x
      ensures x in after <==> x in before
    {
      assert x in after <==> x in multiset(after);
      assert x in before <==> x in multiset(before);
    }
    forall i, j | 0 <= i < j < |after|
      ensures after[i].id != after[j].id
    {
      PermutationKeepsIdsDistinct(before, after, i, j);
    }
  }

  lemma PermutationKeepsIdsDistinct(before: seq<TodoView>, after: seq<TodoView>, i: int, j: int)
    requires multiset(after) == multiset(before)
    requires forall p, q :: 0 <= p < q < |before| ==> before[p].id != before[q].id
    requires 0 <= i < j < |after|
    ensures after[i].id != after[j].id
  {
    assert after[i] in multiset(before) && after[j] in multiset(before);
    var p :| 0 <= p < |before| && before[p] == after[i];
    var q :| 0 <= q < |before| && before[q] == after[j];
    TwoPositionsCount(after, i, j);
    DistinctIdsCountOne(before, p);
    assert p != q;
  }

  /** An element at two positions occurs at least twice. */
  lemma TwoPositionsCount(s: seq<TodoView>, i: int, j: int)
    requires 0 <= i < j < |s|
    ensures s[i] == s[j] ==> multiset(s)[s[i]] >= 2
  {
    assert s == s[..j] + s[j..];
    assert s[i] in s[..j];
    assert s[j..][0] == s[j];
    assert multiset(s) == multiset(s[..j]) + multiset(s[j..]);
  }

  /** In a list with distinct IDs every element occurs once. */
  lemma DistinctIdsCountOne(s: seq<TodoView>, p: int)
    requires forall a, b :: 0 <= a < b < |s| ==> s[a].id != s[b].id
    requires 0 <= p < |s|
    ensures multiset(s)[s[p]] == 1
  {
    assert s == s[..p] + [s[p]] + s[p + 1..];
    assert multiset(s) == multiset(s[..p]) + multiset([s[p]]) + multiset(s[p + 1..]);
    assert s[p] !in s[..p];
    assert s[p] !in s[p + 1..];
  }
}
