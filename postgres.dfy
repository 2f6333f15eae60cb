/** The query construction of the PostgreSQL TODO repository: WHERE conditions with `$n`
    placeholders numbered by a running counter, the ORDER BY whitelist, the LIMIT/OFFSET
    pagination arithmetic, the shared-ID intersection of GetSharedTODOs and the empty-input
    guards of the bulk operations. The SQL itself is never executed here: the row count is a
    parameter. */
module PostgresRepository {
  import opened Wrappers
  import opened DomainTodo
  import Text
  import MockTodoRepository

  // ---------------------------------------------------------------- WHERE conditions

  /** A bound query argument. */
  datatype Arg = StrArg(s: string) | IntArg(i: int) | TimeArg(t: Time) | BoolArg(b: bool) | TagsArg(tags: seq<string>)

  /** The shape of one condition; a search names the recognised fields it ORs together. */
  datatype Op = InList | Equals | AtLeast | AtMost | Overlaps | SearchAny(fields: seq<string>)

  /** A condition before numbering: a column, an operator and the values it binds. */
  datatype Criterion = Criterion(column: string, op: Op, values: seq<Arg>)

  /** A condition whose placeholders are $first, $first+1, ... one per value. */
  datatype Cond = Cond(criterion: Criterion, first: nat)

  /** The placeholder text "$i". */
  function Placeholder(i: nat): string {
    "$" + Text.NatToDecimal(i)
  }

  /** The placeholders $first .. $first+count-1, in order. */
  function Placeholders(first: nat, count: nat): (r: seq<string>)
    ensures |r| == count && forall k :: 0 <= k < count ==> r[k] == Placeholder(first + k)
  {
    seq(count, k requires 0 <= k < count => Placeholder(first + k))
  }

  /** The search fields the switch recognises, in their order; others are skipped. */
  function Recognised(fields: seq<string>): (r: seq<string>)
    ensures forall x :: x in r <==> x in fields && x in {"title", "description", "tags"}
    ensures |r| <= |fields|
  {
    if |fields| == 0 then []
    else (if fields[0] in {"title", "description", "tags"} then [fields[0]] else []) + Recognised(fields[1..])
  }

  /** One search term; every term of a search uses the same placeholder. */
  function SearchTerm(field: string, placeholder: string): string {
    if field == "title" then "title ILIKE " + placeholder
    else if field == "description" then "description ILIKE " + placeholder
    else placeholder + " = ANY(tags)"
  }

  /** The SQL text of a condition. */
  function Render(c: Cond): string {
    var p := Placeholder(c.first);
    match c.criterion.op
    case InList => c.criterion.column + " IN (" + Text.Join(Placeholders(c.first, |c.criterion.values|), ",") + ")"
    case Equals => c.criterion.column + " = " + p
    case AtLeast => c.criterion.column + " >= " + p
    case AtMost => c.criterion.column + " <= " + p
    case Overlaps => c.criterion.column + " && " + p
    case SearchAny(fields) => "(" + Text.Join(seq(|fields|, k requires 0 <= k < |fields| => SearchTerm(fields[k], p)), " OR ") + ")"
  }

  /** The WHERE clause: empty without conditions, otherwise the conditions joined by AND. */
  function WhereClause(conds: seq<Cond>): (r: string)
    ensures conds == [] ==> r == ""
  {
    if |conds| == 0 then ""
    else "WHERE " + Text.Join(seq(|conds|, k requires 0 <= k < |conds| => Render(conds[k])), " AND ")
  }

  function StrArgs(xs: seq<string>): (r: seq<Arg>)
    ensures |r| == |xs| && forall k :: 0 <= k < |xs| ==> r[k] == StrArg(xs[k])
  {
    seq(|xs|, k requires 0 <= k < |xs| => StrArg(xs[k]))
  }

  function IntArgs(xs: seq<int>): (r: seq<Arg>)
    ensures |r| == |xs| && forall k :: 0 <= k < |xs| ==> r[k] == IntArg(xs[k])
  {
    seq(|xs|, k requires 0 <= k < |xs| => IntArg(xs[k]))
  }

  /** The value of a set pointer (the default is never used). */
  function Get<T>(o: Option<T>, default: T): T {
    if o.Some? then o.value else default
  }

  function Opt<T>(present: bool, x: T): seq<T> {
    if present then [x] else []
  }

  /** The search criterion, present only when some requested (or default) field is recognised;
      its single value is the query wrapped in '%'. */
  function SearchCriteria(f: TodoFilter): seq<Criterion> {
    var fields := Recognised(MockTodoRepository.EffectiveSearchFields(f));
    Opt(f.searchQuery.Some? && |fields| > 0,
        Criterion("", SearchAny(fields), [StrArg("%" + Get(f.searchQuery, "") + "%")]))
  }

  /** The IDs, owner, status and priority criteria, after `acc`. */
  function ListCriteria(acc: seq<Criterion>, f: TodoFilter): seq<Criterion> {
    acc
    + Opt(|FilterIds(f)| > 0, Criterion("id", InList, StrArgs(FilterIds(f))))
    + Opt(f.userId.Some?, Criterion("user_id", Equals, [StrArg(Get(f.userId, ""))]))
    + Opt(|f.statuses| > 0, Criterion("status", InList, IntArgs(f.statuses)))
    + Opt(|f.priorities| > 0, Criterion("priority", InList, IntArgs(f.priorities)))
  }

  /** The due-date bounds and the tag and assignee criteria, after `acc`. */
  function DueTagAssigneeCriteria(acc: seq<Criterion>, f: TodoFilter): seq<Criterion> {
    acc
    + Opt(f.dueDateFrom.Some?, Criterion("due_date", AtLeast, [TimeArg(Get(f.dueDateFrom, 0))]))
    + Opt(f.dueDateTo.Some?, Criterion("due_date", AtMost, [TimeArg(Get(f.dueDateTo, 0))]))
    + Opt(|f.tags| > 0, Criterion("tags", Overlaps, [TagsArg(f.tags)]))
    + Opt(f.assignedTo.Some?, Criterion("assigned_to", Equals, [StrArg(Get(f.assignedTo, ""))]))
  }

  /** The parent, team and sharing criteria, after `acc`. */
  function FieldCriteria(acc: seq<Criterion>, f: TodoFilter): seq<Criterion> {
    acc
    + Opt(f.parentId.Some?, Criterion("parent_id", Equals, [StrArg(Get(f.parentId, ""))]))
    + Opt(f.teamId.Some?, Criterion("team_id", Equals, [StrArg(Get(f.teamId, ""))]))
    + Opt(f.isShared.Some?, Criterion("is_shared", Equals, [BoolArg(Get(f.isShared, false))]))
  }

  /** The creation and completion bounds and the search, after `acc`. */
  function TimeAndSearchCriteria(acc: seq<Criterion>, f: TodoFilter): seq<Criterion> {
    acc
    + Opt(f.createdFrom.Some?, Criterion("created_at", AtLeast, [TimeArg(Get(f.createdFrom, 0))]))
    + Opt(f.createdTo.Some?, Criterion("created_at", AtMost, [TimeArg(Get(f.createdTo, 0))]))
    + Opt(f.completedFrom.Some?, Criterion("completed_at", AtLeast, [TimeArg(Get(f.completedFrom, 0))]))
    + Opt(f.completedTo.Some?, Criterion("completed_at", AtMost, [TimeArg(Get(f.completedTo, 0))]))
    + SearchCriteria(f)
  }

  /** The conditions List adds, in the order it adds them: one per criterion the filter sets. */
  function CriteriaOf(f: TodoFilter): seq<Criterion> {
    TimeAndSearchCriteria(FieldCriteria(DueTagAssigneeCriteria(ListCriteria([], f), f), f), f)
  }

  /** The criteria of numbered conditions. */
  function Shape(conds: seq<Cond>): (r: seq<Criterion>)
    ensures |r| == |conds| && forall k :: 0 <= k < |conds| ==> r[k] == conds[k].criterion
  {
    seq(|conds|, k requires 0 <= k < |conds| => conds[k].criterion)
  }

  /** All values of the conditions, in order. */
  function Flatten(conds: seq<Cond>): seq<Arg> {
    if |conds| == 0 then [] else Flatten(conds[..|conds| - 1]) + conds[|conds| - 1].criterion.values
  }

  /** Each condition's first placeholder comes right after all values of the conditions before it. */
  predicate Numbered(conds: seq<Cond>) {
    forall i :: 0 <= i < |conds| ==> conds[i].first == 1 + |Flatten(conds[..i])|
  }

  /** The builder's state: conditions numbered from $1, the argument list their values, and the
      counter one past the last placeholder. */
  predicate WellNumbered(conds: seq<Cond>, args: seq<Arg>, argIndex: int) {
    Numbered(conds) && args == Flatten(conds) && argIndex == |args| + 1
  }

  /** The values of a prefix of the conditions are a prefix of all values. */
  lemma {:induction false} FlattenPrefix(conds: seq<Cond>, k: nat)
    requires k <= |conds|
    ensures Flatten(conds[..k]) <= Flatten(conds)
    decreases |conds|
  {
    if k < |conds| {
      var init := conds[..|conds| - 1];
      FlattenPrefix(init, k);
      assert init[..k] == conds[..k];
    } else {
      assert conds[..k] == conds;
    }
  }

  /** Placeholder $n binds argument n: value j of condition i is argument first+j. */
  lemma PlaceholderBindsValue(conds: seq<Cond>, args: seq<Arg>, argIndex: int, i: int, j: int)
    requires WellNumbered(conds, args, argIndex)
    requires 0 <= i < |conds| && 0 <= j < |conds[i].criterion.values|
    ensures 1 <= conds[i].first + j < argIndex
    ensures args[conds[i].first - 1 + j] == conds[i].criterion.values[j]
  {
    FlattenPrefix(conds, i + 1);
    assert conds[..i + 1][..i] == conds[..i];
    assert Flatten(conds[..i + 1]) == Flatten(conds[..i]) + conds[i].criterion.values;
  }

  /** Numbering is consecutive: each condition starts where the one before it ends. */
  lemma ConsecutiveNumbering(conds: seq<Cond>, i: int)
    requires Numbered(conds) && 0 <= i < |conds| - 1
    ensures conds[i + 1].first == conds[i].first + |conds[i].criterion.values|
  {
    assert conds[..i + 1][..i] == conds[..i];
  }

  /** One `if` block of List: append the condition at the counter and advance it. */
  method Add(conds: seq<Cond>, args: seq<Arg>, argIndex: int, c: Criterion)
    returns (conds': seq<Cond>, args': seq<Arg>, argIndex': int)
    requires WellNumbered(conds, args, argIndex)
    ensures WellNumbered(conds', args', argIndex')
    ensures conds' == conds + [Cond(c, argIndex)] && Shape(conds') == Shape(conds) + [c]
    ensures args' == args + c.values && argIndex' == argIndex + |c.values|
  {
    conds' := conds + [Cond(c, argIndex)];
    assert conds'[..|conds'| - 1] == conds;
    forall i | 0 <= i < |conds'|
      ensures conds'[i].first == 1 + |Flatten(conds'[..i])|
    {
      if i < |conds| {
        assert conds'[..i] == conds[..i];
      }
    }
    args' := args + c.values;
    argIndex' := argIndex + |c.values|;
  }

  /** Add when `present`. */
  method AddIf(present: bool, conds: seq<Cond>, args: seq<Arg>, argIndex: int, c: Criterion)
    returns (conds': seq<Cond>, args': seq<Arg>, argIndex': int)
    requires WellNumbered(conds, args, argIndex)
    ensures WellNumbered(conds', args', argIndex')
    ensures Shape(conds') == Shape(conds) + Opt(present, c)
    ensures args' == args + (if present then c.values else [])
  {
    if present {
      conds', args', argIndex' := Add(conds, args, argIndex, c);
    } else {
      conds', args', argIndex' := conds, args, argIndex;
    }
  }

  /** The WHERE-building part of List, block by block. */
  method BuildConditions(f: TodoFilter) returns (conds: seq<Cond>, args: seq<Arg>, argIndex: int)
    ensures WellNumbered(conds, args, argIndex)
    ensures Shape(conds) == CriteriaOf(f)
  {
    assert Shape([]) == [];
    conds, args, argIndex := AddListCriteria(f, [], [], 1);
    conds, args, argIndex := AddDueTagAssigneeCriteria(f, conds, args, argIndex);
    conds, args, argIndex := AddFieldCriteria(f, conds, args, argIndex);
    conds, args, argIndex := AddTimeAndSearchCriteria(f, conds, args, argIndex);
  }

  method AddListCriteria(f: TodoFilter, conds0: seq<Cond>, args0: seq<Arg>, argIndex0: int)
    returns (conds: seq<Cond>, args: seq<Arg>, argIndex: int)
    requires WellNumbered(conds0, args0, argIndex0)
    ensures WellNumbered(conds, args, argIndex)
    ensures Shape(conds) == ListCriteria(Shape(conds0), f)
  {
    conds, args, argIndex := AddIf(|FilterIds(f)| > 0, conds0, args0, argIndex0, Criterion("id", InList, StrArgs(FilterIds(f))));
    conds, args, argIndex := AddIf(f.userId.Some?, conds, args, argIndex, Criterion("user_id", Equals, [StrArg(Get(f.userId, ""))]));
    conds, args, argIndex := AddIf(|f.statuses| > 0, conds, args, argIndex, Criterion("status", InList, IntArgs(f.statuses)));
    conds, args, argIndex := AddIf(|f.priorities| > 0, conds, args, argIndex, Criterion("priority", InList, IntArgs(f.priorities)));
  }

  method AddDueTagAssigneeCriteria(f: TodoFilter, conds0: seq<Cond>, args0: seq<Arg>, argIndex0: int)
    returns (conds: seq<Cond>, args: seq<Arg>, argIndex: int)
    requires WellNumbered(conds0, args0, argIndex0)
    ensures WellNumbered(conds, args, argIndex)
    ensures Shape(conds) == DueTagAssigneeCriteria(Shape(conds0), f)
  {
    conds, args, argIndex := AddIf(f.dueDateFrom.Some?, conds0, args0, argIndex0,
                                   Criterion("due_date", AtLeast, [TimeArg(Get(f.dueDateFrom, 0))]));
    conds, args, argIndex := AddIf(f.dueDateTo.Some?, conds, args, argIndex,
                                   Criterion("due_date", AtMost, [TimeArg(Get(f.dueDateTo, 0))]));
    conds, args, argIndex := AddIf(|f.tags| > 0, conds, args, argIndex, Criterion("tags", Overlaps, [TagsArg(f.tags)]));
    conds, args, argIndex := AddIf(f.assignedTo.Some?, conds, args, argIndex,
                                   Criterion("assigned_to", Equals, [StrArg(Get(f.assignedTo, ""))]));
  }

  method AddFieldCriteria(f: TodoFilter, conds0: seq<Cond>, args0: seq<Arg>, argIndex0: int)
    returns (conds: seq<Cond>, args: seq<Arg>, argIndex: int)
    requires WellNumbered(conds0, args0, argIndex0)
    ensures WellNumbered(conds, args, argIndex)
    ensures Shape(conds) == FieldCriteria(Shape(conds0), f)
  {
    conds, args, argIndex := AddIf(f.parentId.Some?, conds0, args0, argIndex0,
                                   Criterion("parent_id", Equals, [StrArg(Get(f.parentId, ""))]));
    conds, args, argIndex := AddIf(f.teamId.Some?, conds, args, argIndex,
                                   Criterion("team_id", Equals, [StrArg(Get(f.teamId, ""))]));
    conds, args, argIndex := AddIf(f.isShared.Some?, conds, args, argIndex,
                                   Criterion("is_shared", Equals, [BoolArg(Get(f.isShared, false))]));
  }

  method AddTimeAndSearchCriteria(f: TodoFilter, conds0: seq<Cond>, args0: seq<Arg>, argIndex0: int)
    returns (conds: seq<Cond>, args: seq<Arg>, argIndex: int)
    requires WellNumbered(conds0, args0, argIndex0)
    ensures WellNumbered(conds, args, argIndex)
    ensures Shape(conds) == TimeAndSearchCriteria(Shape(conds0), f)
  {
    conds, args, argIndex := AddIf(f.createdFrom.Some?, conds0, args0, argIndex0,
                                   Criterion("created_at", AtLeast, [TimeArg(Get(f.createdFrom, 0))]));
    conds, args, argIndex := AddIf(f.createdTo.Some?, conds, args, argIndex,
                                   Criterion("created_at", AtMost, [TimeArg(Get(f.createdTo, 0))]));
    conds, args, argIndex := AddIf(f.completedFrom.Some?, conds, args, argIndex,
                                   Criterion("completed_at", AtLeast, [TimeArg(Get(f.completedFrom, 0))]));
    conds, args, argIndex := AddIf(f.completedTo.Some?, conds, args, argIndex,
                                   Criterion("completed_at", AtMost, [TimeArg(Get(f.completedTo, 0))]));
    // the search adds its condition only when some field is recognised
    var fields := Recognised(MockTodoRepository.EffectiveSearchFields(f));
    conds, args, argIndex := AddIf(f.searchQuery.Some? && |fields| > 0, conds, args, argIndex,
                                   Criterion("", SearchAny(fields), [StrArg("%" + Get(f.searchQuery, "") + "%")]));
  }

  /** A filter that sets nothing yields no WHERE clause and no arguments. */
  lemma NoFilterNoConditions()
    ensures CriteriaOf(NoFilter) == []
  {
    assert Recognised(MockTodoRepository.DefaultSearchFields) != [] by {
      assert "title" in Recognised(MockTodoRepository.DefaultSearchFields);
    }
  }

  /** The search criterion contributes at most one condition with exactly one argument, the query
      between '%' signs, shared by all the recognised fields; none when no field is recognised. */
  lemma SearchContributesOneArgument(f: TodoFilter)
    ensures |SearchCriteria(f)| <= 1
    ensures |SearchCriteria(f)| == 1 <==>
              f.searchQuery.Some? && exists x :: x in MockTodoRepository.EffectiveSearchFields(f) && x in {"title", "description", "tags"}
    ensures |SearchCriteria(f)| == 1 ==>
              SearchCriteria(f)[0].values == [StrArg("%" + f.searchQuery.value + "%")]
              && SearchCriteria(f)[0].op == SearchAny(Recognised(MockTodoRepository.EffectiveSearchFields(f)))
  {
    var fields := Recognised(MockTodoRepository.EffectiveSearchFields(f));
    if exists x :: x in MockTodoRepository.EffectiveSearchFields(f) && x in {"title", "description", "tags"} {
      var x :| x in MockTodoRepository.EffectiveSearchFields(f) && x in {"title", "description", "tags"};
      assert x in fields;
    }
    if |fields| > 0 {
      assert fields[0] in fields;
    }
  }

  /** The default fields are all recognised. */
  lemma DefaultSearchFieldsRecognised()
    ensures Recognised(MockTodoRepository.DefaultSearchFields) == MockTodoRepository.DefaultSearchFields
  {
    var d := MockTodoRepository.DefaultSearchFields;
    assert d[1..][1..][1..] == [];
  }

  // ---------------------------------------------------------------- ORDER BY

  /** The columns a sort may name. */
  const SortColumns: set<string> := {"due_date", "status", "priority", "title", "created_at", "updated_at",
                                     "completed_at", "assigned_to", "parent_id", "position"}

  /** The camelCase spellings mapSortField accepts. */
  const CamelCaseAliases: map<string, string> := map["dueDate" := "due_date", "createdAt" := "created_at",
                                                     "updatedAt" := "updated_at", "completedAt" := "completed_at",
                                                     "assignedTo" := "assigned_to", "parentId" := "parent_id"]

  /** mapSortField: a column name maps to itself, a camelCase alias to its column, and anything
      else to created_at, so no caller text reaches the ORDER BY clause. */
  function MapSortField(field: string): (r: string)
    ensures r in SortColumns
    ensures field in SortColumns ==> r == field
    ensures field in CamelCaseAliases ==> r == CamelCaseAliases[field]
    ensures field !in SortColumns && field !in CamelCaseAliases ==> r == "created_at"
  {
    if field == "due_date" || field == "dueDate" then "due_date"
    else if field == "status" then "status"
    else if field == "priority" then "priority"
    else if field == "title" then "title"
    else if field == "created_at" || field == "createdAt" then "created_at"
    else if field == "updated_at" || field == "updatedAt" then "updated_at"
    else if field == "completed_at" || field == "completedAt" then "completed_at"
    else if field == "assigned_to" || field == "assignedTo" then "assigned_to"
    else if field == "parent_id" || field == "parentId" then "parent_id"
    else if field == "position" then "position"
    else "created_at"
  }

  /** One ORDER BY term. */
  function OrderPart(o: SortOption): string {
    MapSortField(o.field) + " " + (if o.descending then "DESC" else "ASC")
  }

  /** What OrderByClause returns for `sortOptions`: the default order, or one part per option. */
  ghost predicate OrderByFor(orderBy: string, sortOptions: seq<SortOption>) {
    && (|sortOptions| == 0 ==> orderBy == "ORDER BY created_at DESC")
    && (|sortOptions| > 0 ==> exists parts: seq<string> ::
          && orderBy == "ORDER BY " + Text.Join(parts, ", ")
          && |parts| == |sortOptions|
          && (forall k :: 0 <= k < |parts| ==> parts[k] == OrderPart(sortOptions[k])))
  }

  /** The ordering of List: created_at DESC without sort options, otherwise one term per option
      in the order given. */
  method OrderByClause(sortOptions: seq<SortOption>) returns (orderBy: string)
    ensures |sortOptions| == 0 ==> orderBy == "ORDER BY created_at DESC"
    ensures |sortOptions| > 0 ==> exists parts: seq<string> ::
              && orderBy == "ORDER BY " + Text.Join(parts, ", ")
              && |parts| == |sortOptions|
              && (forall k :: 0 <= k < |parts| ==> parts[k] == OrderPart(sortOptions[k]))
  {
    orderBy := "ORDER BY created_at DESC";
    if |sortOptions| > 0 {
      var parts: seq<string> := [];
      var i := 0;
      while i < |sortOptions|
        invariant 0 <= i <= |sortOptions|
        invariant |parts| == i && forall k :: 0 <= k < i ==> parts[k] == OrderPart(sortOptions[k])
      {
        parts := parts + [OrderPart(sortOptions[i])];
        i := i + 1;
      }
      orderBy := "ORDER BY " + Text.Join(parts, ", ");
    }
  }

  // ---------------------------------------------------------------- pagination

  /** Page sizes below 1 count as 20 and above 100 as 100. */
  function NormalizedPageSize(pageSize: Int32): (r: Int32)
    ensures 1 <= r <= 100
    ensures 1 <= pageSize <= 100 ==> r == pageSize
    ensures pageSize < 1 ==> r == 20
    ensures pageSize > 100 ==> r == 100
  {
    if pageSize < 1 then 20 else if pageSize > 100 then 100 else pageSize
  }

  /** (page - 1) * pageSize in int32. */
  function Offset(page: Int32, pageSize: Int32): Int32 {
    Wrap32((page - 1) * pageSize)
  }

  /** The ceiling page count of the totals, in int32, at least 1. */
  function TotalPages(totalItems: Int32, pageSize: Int32): int
    requires pageSize >= 1
  {
    var t := GoDiv(Wrap32(totalItems + pageSize - 1), pageSize);
    if t == 0 then 1 else t
  }

  /** The pagination result of List for `totalItems` matching rows. */
  function PostgresPagination(totalItems: Int32, page: Int32, pageSize: Int32): PaginationResult {
    var p := MockTodoRepository.EffectivePage(page);
    var size := NormalizedPageSize(pageSize);
    var totalPages := TotalPages(totalItems, size);
    PaginationResult(totalItems, totalPages, p, size, p < totalPages, p > 1)
  }

  /** (a + b - 1) / b is the ceiling of a / b. */
  lemma CeilingDivision(a: int, b: int)
    requires a >= 0 && b > 0
    ensures ((a + b - 1) / b - 1) * b < a <= ((a + b - 1) / b) * b
  {
    var q := (a + b - 1) / b;
    assert q * b <= a + b - 1 < q * b + b;
    assert (q - 1) * b == q * b - b;
  }

  /** In int32 without overflow, totalPages is the ceiling of totalItems/size, and 1 for no items. */
  lemma TotalPagesMeaning(totalItems: Int32, size: Int32)
    requires 0 <= totalItems && totalItems + 100 <= 0x8000_0000 && 1 <= size <= 100
    ensures totalItems > 0 ==> (TotalPages(totalItems, size) - 1) * size < totalItems <= TotalPages(totalItems, size) * size
    ensures totalItems == 0 ==> TotalPages(totalItems, size) == 1
    ensures TotalPages(totalItems, size) >= 1
  {
    var a := totalItems + size - 1;
    assert Wrap32(a) == a;
    assert GoDiv(a, size) == a / size;
    CeilingDivision(totalItems, size);
    if totalItems > 0 {
      assert a / size >= 1;
    } else {
      assert a / size == 0;
    }
  }

  /** Pages start at 1 and hold 1 to 100 items; below int32 overflow totalPages is the ceiling of
      totalItems/size and at least 1; HasNext holds iff the page is before the last, and HasPrev
      iff it is after the first. */
  lemma PaginationMeaning(totalItems: Int32, page: Int32, pageSize: Int32)
    requires 0 <= totalItems && totalItems + 100 <= 0x8000_0000
    ensures var r := PostgresPagination(totalItems, page, pageSize);
            && r.currentPage >= 1 && 1 <= r.pageSize <= 100 && r.totalPages >= 1
            && (totalItems > 0 ==> (r.totalPages - 1) * r.pageSize < totalItems <= r.totalPages * r.pageSize)
            && (totalItems == 0 ==> r.totalPages == 1)
            && r.hasNext == (r.currentPage < r.totalPages) && r.hasPrev == (r.currentPage > 1)
  {
    TotalPagesMeaning(totalItems, NormalizedPageSize(pageSize));
  }

  /** While (page-1)*size fits in int32 the offset is exactly the items of the earlier pages. */
  lemma OffsetSkipsEarlierPages(page: Int32, pageSize: Int32)
    requires var p := MockTodoRepository.EffectivePage(page); (p - 1) * NormalizedPageSize(pageSize) < 0x8000_0000
    ensures var p := MockTodoRepository.EffectivePage(page); var size := NormalizedPageSize(pageSize);
            Offset(p, size) == (p - 1) * size >= 0
  {
    var p := MockTodoRepository.EffectivePage(page);
    var size := NormalizedPageSize(pageSize);
    MockTodoRepository.NonNegativeProduct(p - 1, size);
  }

  /** The two statements List sends: the count over the WHERE arguments, and the page query whose
      LIMIT and OFFSET placeholders follow the WHERE placeholders. */
  datatype ListQuery = ListQuery(countSql: string, selectSql: string, countArgs: seq<Arg>, args: seq<Arg>,
                                 limitIndex: nat, offsetIndex: nat, page: Int32, pageSize: Int32, offset: Int32)

  const SelectColumns := "SELECT id, user_id, title, description, status, priority, due_date, "
                         + "tags, is_shared, shared_by, created_at, updated_at, completed_at, assigned_to, parent_id, position "
                         + "FROM todos "

  /** The query-building part of List. */
  method BuildListQuery(options: ListOptions) returns (conds: seq<Cond>, q: ListQuery)
    ensures WellNumbered(conds, q.countArgs, q.limitIndex) && Shape(conds) == CriteriaOf(options.filter)
    ensures q.countSql == "SELECT COUNT(*) FROM todos " + WhereClause(conds)
    ensures q.offsetIndex == q.limitIndex + 1 && |q.args| == q.offsetIndex
    ensures q.args == q.countArgs + [IntArg(q.pageSize), IntArg(q.offset)]
    ensures q.args[q.limitIndex - 1] == IntArg(q.pageSize) && q.args[q.offsetIndex - 1] == IntArg(q.offset)
    ensures exists orderBy: string ::
              && q.selectSql == SelectColumns + WhereClause(conds) + " " + orderBy
                                + " LIMIT " + Placeholder(q.limitIndex) + " OFFSET " + Placeholder(q.offsetIndex)
              && OrderByFor(orderBy, options.sortOptions)
    ensures q.page == MockTodoRepository.EffectivePage(options.page) && q.pageSize == NormalizedPageSize(options.pageSize)
    ensures q.offset == Offset(q.page, q.pageSize)
  {
    var args, argIndex;
    conds, args, argIndex := BuildConditions(options.filter);
    var whereClause := WhereClause(conds);
    var orderBy := OrderByClause(options.sortOptions);
    var page := MockTodoRepository.EffectivePage(options.page);
    var pageSize := NormalizedPageSize(options.pageSize);
    var offset := Offset(page, pageSize);
    var selectSql := SelectColumns + whereClause + " " + orderBy
                     + " LIMIT " + Placeholder(argIndex) + " OFFSET " + Placeholder(argIndex + 1);
    q := ListQuery("SELECT COUNT(*) FROM todos " + whereClause, selectSql, args,
                   args + [IntArg(pageSize), IntArg(offset)], argIndex, argIndex + 1, page, pageSize, offset);
  }

  // ---------------------------------------------------------------- shared TODOs

  /** The requested IDs that are shared, in requested order (duplicates kept). */
  function KeepShared(requested: seq<string>, shared: set<string>): (r: seq<string>)
    ensures |r| <= |requested|
  {
    if |requested| == 0 then []
    else KeepShared(requested[..|requested| - 1], shared)
         + (if requested[|requested| - 1] in shared then [requested[|requested| - 1]] else [])
  }

  lemma {:induction false} KeepSharedMembers(requested: seq<string>, shared: set<string>)
    ensures forall x :: x in KeepShared(requested, shared) <==> x in requested && x in shared
    decreases |requested|
  {
    if |requested| > 0 {
      var init := requested[..|requested| - 1];
      KeepSharedMembers(init, shared);
      assert requested == init + [requested[|requested| - 1]];
    }
  }

  /** The intersection loops of GetSharedTODOs. The result list starts nil and stays nil when
      nothing is kept. */
  method IntersectShared(requested: seq<string>, sharedIds: seq<string>) returns (filtered: Option<seq<string>>)
    ensures var kept := KeepShared(requested, set x | x in sharedIds);
            filtered == if |kept| == 0 then None else Some(kept)
  {
    var sharedMap: set<string> := {};
    var i := 0;
    while i < |sharedIds|
      invariant 0 <= i <= |sharedIds|
      invariant sharedMap == set x | x in sharedIds[..i]
    {
      assert sharedIds[..i + 1] == sharedIds[..i] + [sharedIds[i]];
      sharedMap := sharedMap + {sharedIds[i]};
      i := i + 1;
    }
    assert sharedIds[..i] == sharedIds;
    filtered := None;
    ghost var kept: seq<string> := [];
    var j := 0;
    while j < |requested|
      invariant 0 <= j <= |requested|
      invariant kept == KeepShared(requested[..j], sharedMap)
      invariant filtered == if |kept| == 0 then None else Some(kept)
    {
      assert requested[..j + 1][..j] == requested[..j];
      assert requested[..j + 1][j] == requested[j];
      if requested[j] in sharedMap {
        filtered := Some((if filtered.Some? then filtered.value else []) + [requested[j]]);
        kept := kept + [requested[j]];
      }
      j := j + 1;
    }
    assert requested[..j] == requested;
  }

  /** What GetSharedTODOs does with the team's shared IDs: answer with an empty page, or run List
      with an ID filter. */
  datatype SharedPlan = EmptyShared(pagination: PaginationResult) | ListWith(options: ListOptions)

  /** GetSharedTODOs as written: with no shared IDs an empty page reporting one page and the
      request's page and size unclamped; otherwise List, filtered by the shared IDs, or by the
      requested IDs that are shared. */
  method GetSharedTodos(options: ListOptions, sharedIds: seq<string>) returns (plan: SharedPlan)
    ensures |sharedIds| == 0 ==> plan == EmptyShared(PaginationResult(0, 1, options.page, options.pageSize, false, false))
    ensures |sharedIds| > 0 && options.filter.ids.None? ==>
              plan == ListWith(options.(filter := options.filter.(ids := Some(sharedIds))))
    ensures |sharedIds| > 0 && options.filter.ids.Some? ==>
              var kept := KeepShared(options.filter.ids.value, set x | x in sharedIds);
              plan == ListWith(options.(filter := options.filter.(ids := if |kept| == 0 then None else Some(kept))))
  {
    if |sharedIds| == 0 {
      return EmptyShared(PaginationResult(0, 1, options.page, options.pageSize, false, false));
    }
    if options.filter.ids.None? {
      plan := ListWith(options.(filter := options.filter.(ids := Some(sharedIds))));
    } else {
      var filtered := IntersectShared(options.filter.ids.value, sharedIds);
      plan := ListWith(options.(filter := options.filter.(ids := filtered)));
    }
  }

  /** As written, when the requested IDs and the shared IDs are disjoint the ID criterion vanishes
      altogether: the planned filter admits a todo that is neither requested nor shared. */
  lemma DisjointRequestAdmitsUnsharedTodo(t: TodoView)
    requires t.id == "other"
    ensures var options := ListOptions(NoFilter.(ids := Some(["requested"])), [], 1, 20);
            var kept := KeepShared(["requested"], set x | x in ["shared"]);
            var planned := options.filter.(ids := if |kept| == 0 then None else Some(kept));
            && kept == []
            && MockTodoRepository.MatchesFilter(t, planned)
            && CriteriaOf(planned) == []
  {
    var kept := KeepShared(["requested"], set x | x in ["shared"]);
    assert ["requested"][..0] == [];
    assert "requested" !in (set x | x in ["shared"]);
    assert kept == [];
    NoFilterNoConditions();
  }

  /** GetSharedTODOs with an empty intersection answered by an empty page, as intended. */
  method GetSharedTodosCorrected(options: ListOptions, sharedIds: seq<string>) returns (plan: SharedPlan)
    ensures |sharedIds| == 0 ==> plan == EmptyShared(PaginationResult(0, 1, options.page, options.pageSize, false, false))
    ensures plan.ListWith? ==> plan.options == options.(filter := plan.options.filter)
    ensures plan.ListWith? ==> plan.options.filter == options.filter.(ids := plan.options.filter.ids)
    // every todo such a plan admits is shared, and requested when IDs were requested
    ensures plan.ListWith? ==> forall t: TodoView :: MockTodoRepository.MatchesFilter(t, plan.options.filter) ==>
              t.id in sharedIds && (options.filter.ids.Some? ==> t.id in options.filter.ids.value)
  {
    if |sharedIds| == 0 {
      return EmptyShared(PaginationResult(0, 1, options.page, options.pageSize, false, false));
    }
    if options.filter.ids.None? {
      plan := ListWith(options.(filter := options.filter.(ids := Some(sharedIds))));
    } else {
      var filtered := IntersectShared(options.filter.ids.value, sharedIds);
      KeepSharedMembers(options.filter.ids.value, set x | x in sharedIds);
      if filtered.None? {
        plan := EmptyShared(PaginationResult(0, 1, options.page, options.pageSize, false, false));
      } else {
        plan := ListWith(options.(filter := options.filter.(ids := filtered)));
      }
    }
  }

  // ---------------------------------------------------------------- bulk operations

  /** One SQL statement with its arguments. */
  datatype Statement = Statement(sql: string, args: seq<Arg>)

  /** The text of the bulk status update over `n` IDs: IN ($1, ..., $n), status $n+1, updated_at $n+2. */
  function BulkUpdateSql(n: nat): string
    requires n >= 1
  {
    "UPDATE todos SET status = " + Placeholder(n + 1) + ", updated_at = " + Placeholder(n + 2)
    + " WHERE id IN (" + Text.Join(Placeholders(1, n), ", ") + ")"
  }

  /** The bulk status update as written: nothing for an empty list; otherwise the IDs, the status
      (placed at index n), then the status and the clock appended again. */
  function BulkUpdateStatusAsWritten(ids: seq<string>, status: Status, now: Time): (r: Option<Statement>)
    ensures |ids| == 0 <==> r.None?
  {
    if |ids| == 0 then None
    else Some(Statement(BulkUpdateSql(|ids|), StrArgs(ids) + [IntArg(status)] + [IntArg(status), TimeArg(now)]))
  }

  /** As written the statement has n+2 placeholders but n+3 arguments, and $n+2 (updated_at) is
      bound to the status rather than the clock. */
  lemma BulkUpdateStatusArgumentMismatch(ids: seq<string>, status: Status, now: Time)
    requires |ids| > 0
    ensures var st := BulkUpdateStatusAsWritten(ids, status, now).value;
            |st.args| == |ids| + 3 && st.args[|ids| + 1] == IntArg(status) && st.args[|ids| + 1] != TimeArg(now)
  {
  }

  /** The bulk status update with one argument per placeholder. */
  function BulkUpdateStatusCorrected(ids: seq<string>, status: Status, now: Time): (r: Option<Statement>)
    ensures |ids| == 0 <==> r.None?
    ensures r.Some? ==> && |r.value.args| == |ids| + 2
                        && (forall k :: 0 <= k < |ids| ==> r.value.args[k] == StrArg(ids[k]))
                        && r.value.args[|ids|] == IntArg(status) && r.value.args[|ids| + 1] == TimeArg(now)
  {
    if |ids| == 0 then None
    else Some(Statement(BulkUpdateSql(|ids|), StrArgs(ids) + [IntArg(status), TimeArg(now)]))
  }

  /** The bulk delete: nothing, not even a transaction, for an empty list; otherwise one DELETE
      per ID, in order, each binding its ID to $1. */
  function BulkDeletePlan(ids: seq<string>): (r: Option<seq<Statement>>)
    ensures |ids| == 0 <==> r.None?
    ensures r.Some? ==> |r.value| == |ids| && forall k :: 0 <= k < |ids| ==>
              r.value[k] == Statement("DELETE FROM todos WHERE id = $1", [StrArg(ids[k])])
  {
    if |ids| == 0 then None
    else Some(seq(|ids|, k requires 0 <= k < |ids| => Statement("DELETE FROM todos WHERE id = $1", [StrArg(ids[k])])))
  }
}
