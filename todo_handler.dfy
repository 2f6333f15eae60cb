/** The TODO handlers' request decoding: the gRPC ListTODOs request and the HTTP advanced search
    query both become a filter, sort options and a page. What the service then returns, and its
    conversion to protobuf or JSON, is outside the model. */
module TodoHandler {
  import opened Wrappers
  import opened DomainTodo
  import Text
  import AuthMiddleware
  import MockTodoRepository
  import PostgresRepository

  datatype PaginationRequest = PaginationRequest(page: Int32, pageSize: Int32)

  datatype DateRange = DateRange(start: Option<Time>, end: Option<Time>)

  /** The fields of a ListTODOs request the handler reads; a sort option entry may be nil. */
  datatype ListTodosRequest = ListTodosRequest(
    ids: Option<seq<string>>,
    userId: Option<string>,
    statuses: seq<Status>,
    priorities: seq<Priority>,
    dueDateRange: Option<DateRange>,
    tags: seq<string>,
    assignedTo: Option<string>,
    parentId: Option<string>,
    searchQuery: Option<string>,
    sortOptions: seq<Option<SortOption>>,
    pagination: Option<PaginationRequest>)

  // ---------------------------------------------------------------- ListTODOs

  /** The page and page size of ListTODOs: page 1 and size 20 unless the request gives positive
      values, and a size above 100 is cut to 100. */
  function ListPagination(p: Option<PaginationRequest>): (r: (Int32, Int32))
    ensures r.0 >= 1 && 1 <= r.1 <= 100
    ensures p.Some? && p.value.page > 0 ==> r.0 == p.value.page
    ensures p.None? || p.value.page <= 0 ==> r.0 == 1
    ensures p.Some? && 0 < p.value.pageSize <= 100 ==> r.1 == p.value.pageSize
    ensures p.Some? && p.value.pageSize > 100 ==> r.1 == 100
    ensures p.None? || p.value.pageSize <= 0 ==> r.1 == 20
  {
    if p.None? then (1, 20)
    else
      var page := if p.value.page > 0 then p.value.page else 1;
      var pageSize := if p.value.pageSize > 0 then (if p.value.pageSize > 100 then 100 else p.value.pageSize) else 20;
      (page, pageSize)
  }

  /** The handler's page size is one the repository keeps as it is. */
  lemma ListPageSizeNeedsNoNormalizing(p: Option<PaginationRequest>)
    ensures PostgresRepository.NormalizedPageSize(ListPagination(p).1) == ListPagination(p).1
  {
  }

  /** The present entries of a list of optional sort options, in order. */
  function Present(s: seq<Option<SortOption>>): (r: seq<SortOption>)
    ensures |r| <= |s|
    ensures forall x :: x in r <==> Some(x) in s
  {
    if |s| == 0 then []
    else
      var init := Present(s[..|s| - 1]);
      assert s == s[..|s| - 1] + [s[|s| - 1]];
      if s[|s| - 1].Some? then init + [s[|s| - 1].value] else init
  }

  /** ListTODOs' sort option loop: the nil entries are skipped, the others kept in order. */
  method SortOptionsOf(options: seq<Option<SortOption>>) returns (r: seq<SortOption>)
    ensures r == Present(options)
  {
    r := [];
    for i := 0 to |options|
      invariant r == Present(options[..i])
    {
      assert options[..i + 1] == options[..i] + [options[i]];
      if options[i].Some? {
        r := r + [options[i].value];
      }
    }
    assert options[..|options|] == options;
  }

  /** convertFilter: the request's criteria, with the authenticated user standing in for a missing
      user id, the statuses and priorities copied element by element, the due date range split
      into its bounds, and a search query searching title, description and tags. */
  method ConvertFilter(req: ListTodosRequest, userId: string) returns (f: TodoFilter)
    ensures f.ids == req.ids
    ensures f.userId == (if req.userId.Some? then req.userId else Some(userId))
    ensures f.statuses == req.statuses && f.priorities == req.priorities
    ensures f.dueDateFrom == (if req.dueDateRange.Some? then req.dueDateRange.value.start else None)
    ensures f.dueDateTo == (if req.dueDateRange.Some? then req.dueDateRange.value.end else None)
    ensures f.tags == req.tags && f.assignedTo == req.assignedTo && f.parentId == req.parentId
    ensures f.searchQuery == req.searchQuery
    ensures f.searchFields == (if req.searchQuery.Some? then MockTodoRepository.DefaultSearchFields else [])
    // the criteria the request cannot express stay unset
    ensures f.createdFrom.None? && f.createdTo.None? && f.completedFrom.None? && f.completedTo.None?
    ensures f.teamId.None? && f.isShared.None?
  {
    var statuses: seq<Status> := [];
    if |req.statuses| > 0 {
      for i := 0 to |req.statuses|
        invariant statuses == req.statuses[..i]
      {
        statuses := statuses + [req.statuses[i]];
      }
    }
    var priorities: seq<Priority> := [];
    if |req.priorities| > 0 {
      for i := 0 to |req.priorities|
        invariant priorities == req.priorities[..i]
      {
        priorities := priorities + [req.priorities[i]];
      }
    }
    var dueDateFrom, dueDateTo := None, None;
    if req.dueDateRange.Some? {
      dueDateFrom, dueDateTo := req.dueDateRange.value.start, req.dueDateRange.value.end;
    }
    var searchFields := if req.searchQuery.Some? then MockTodoRepository.DefaultSearchFields else [];
    f := TodoFilter(req.ids, if req.userId.Some? then req.userId else Some(userId), statuses, priorities,
                    dueDateFrom, dueDateTo, None, None, None, None, req.tags, req.assignedTo, req.parentId,
                    None, None, req.searchQuery, searchFields);
  }

  /** ListTODOs up to the service call: an unauthenticated context is refused, otherwise the
      options the service is asked for. */
  method ListTodos(ctx: AuthMiddleware.Context, req: ListTodosRequest) returns (r: Result<ListOptions>)
    ensures r.Err? <==> AuthMiddleware.GetUserIdFromContext(ctx).Err?
    ensures r.Err? ==> r.code == Unauthenticated
    ensures r.Ok? ==>
              && r.value.filter.userId == (if req.userId.Some? then req.userId
                                           else Some(AuthMiddleware.GetUserIdFromContext(ctx).value))
              && r.value.filter.statuses == req.statuses && r.value.filter.priorities == req.priorities
              && r.value.sortOptions == Present(req.sortOptions)
              && (r.value.page, r.value.pageSize) == ListPagination(req.pagination)
  {
    var userId := AuthMiddleware.GetUserIdFromContext(ctx);
    if userId.Err? {
      return Err(userId.code);
    }
    var sortOptions := SortOptionsOf(req.sortOptions);
    var page := ListPagination(req.pagination);
    var filter := ConvertFilter(req, userId.value);
    r := Ok(ListOptions(filter, sortOptions, page.0, page.1));
  }

  // ---------------------------------------------------------------- parseInt32

  /** strconv.ParseInt(s, 10, 32): an optional sign, then one or more decimal digits, whose value
      must fit in int32. */
  function ParseInt32(s: string): (r: Option<Int32>)
    ensures r.Some? ==> s != "" && s != "-" && s != "+"
  {
    if s == "" then None
    else
      var negative := s[0] == '-';
      var digits := if s[0] == '-' || s[0] == '+' then s[1..] else s;
      if digits == [] || !AllDigits(digits) then None
      else
        var v: int := if negative then 0 - Text.DigitsValue(digits) else Text.DigitsValue(digits);
        if -0x8000_0000 <= v < 0x8000_0000 then Some(v) else None
  }

  predicate AllDigits(s: string) {
    forall k :: 0 <= k < |s| ==> Text.IsDigit(s[k])
  }

  /** Every int32, written in decimal, parses back to itself. */
  lemma ParseInt32RoundTrip(n: Int32)
    ensures ParseInt32(Text.IntToDecimal(n)) == Some(n)
  {
    if n < 0 {
      var m: nat := 0 - n as int;
      var d := Text.NatToDecimal(m);
      assert ("-" + d)[1..] == d;
      Text.DecimalRoundTrip(m);
    } else {
      Text.DecimalRoundTrip(n);
    }
  }

  /** What ParseInt32 rejects: any character other than a digit after the optional sign. */
  lemma ParseInt32RejectsNonDigits(s: string, k: int)
    requires 0 < k < |s| && !Text.IsDigit(s[k])
    ensures ParseInt32(s) == None
  {
    var digits := if s[0] == '-' || s[0] == '+' then s[1..] else s;
    if s[0] == '-' || s[0] == '+' {
      assert 0 <= k - 1 < |digits| && digits[k - 1] == s[k];
    } else {
      assert digits[k] == s[k];
    }
  }

  // ---------------------------------------------------------------- HandleAdvancedSearch

  /** URL query values by parameter name. */
  type Query = map<string, seq<string>>

  /** url.Values.Get: the first value, or "". */
  function QueryGet(q: Query, key: string): (v: string)
    ensures key !in q || q[key] == [] ==> v == ""
    ensures key in q && q[key] != [] ==> v == q[key][0]
  {
    if key in q && |q[key]| > 0 then q[key][0] else ""
  }

  /** All values of a parameter. */
  function QueryValues(q: Query, key: string): seq<string> {
    if key in q then q[key] else []
  }

  /** The protobuf name tables of the status and priority enumerations. */
  const StatusValues: map<string, Status> := map[
    "STATUS_UNSPECIFIED" := StatusUnspecified, "STATUS_NOT_STARTED" := StatusNotStarted,
    "STATUS_IN_PROGRESS" := StatusInProgress, "STATUS_COMPLETED" := StatusCompleted]
  const PriorityValues: map<string, Priority> := map[
    "PRIORITY_UNSPECIFIED" := PriorityUnspecified, "PRIORITY_LOW" := PriorityLow,
    "PRIORITY_MEDIUM" := PriorityMedium, "PRIORITY_HIGH" := PriorityHigh]

  /** The values of the names the table knows, in order; unknown names are dropped. */
  function KnownValues(table: map<string, int>, names: seq<string>): (r: seq<int>)
    ensures |r| <= |names|
    ensures forall v :: v in r <==> exists i :: 0 <= i < |names| && names[i] in table && table[names[i]] == v
    ensures (forall i :: 0 <= i < |names| ==> names[i] in table) ==> |r| == |names|
  {
    if |names| == 0 then []
    else
      var init := names[..|names| - 1];
      var last := names[|names| - 1];
      var rest := KnownValues(table, init);
      assert forall i :: 0 <= i < |init| ==> init[i] == names[i];
      if last in table then rest + [table[last]] else rest
  }

  /** Decoding a list of names appends the value of each name it knows. */
  method DecodeNames(table: map<string, int>, names: seq<string>) returns (r: seq<int>)
    ensures r == KnownValues(table, names)
  {
    r := [];
    for i := 0 to |names|
      invariant r == KnownValues(table, names[..i])
    {
      assert names[..i + 1][..i] == names[..i];
      if names[i] in table {
        r := r + [table[names[i]]];
      }
    }
    assert names[..|names|] == names;
  }

  /** A name the table does not know leaves the decoded list as it was. */
  lemma UnknownNameDropped(table: map<string, int>, names: seq<string>, unknown: string)
    requires unknown !in table
    ensures KnownValues(table, names + [unknown]) == KnownValues(table, names)
  {
    assert (names + [unknown])[..|names|] == names;
  }

  /** A page parameter: a parsable positive value, otherwise `default`. */
  function PageParam(s: string, default: Int32): (r: Int32)
    ensures ParseInt32(s).Some? && ParseInt32(s).value > 0 ==> r == ParseInt32(s).value
    ensures ParseInt32(s).None? || ParseInt32(s).value <= 0 ==> r == default
  {
    if s != "" && ParseInt32(s).Some? && ParseInt32(s).value > 0 then ParseInt32(s).value else default
  }

  /** A date parameter: set when present and parsable by `parseTime` (RFC 3339 parsing). */
  function DateParam(q: Query, key: string, parseTime: string -> Option<Time>): (r: Option<Time>)
    ensures r.Some? <==> QueryGet(q, key) != "" && parseTime(QueryGet(q, key)).Some?
    ensures r.Some? ==> r == parseTime(QueryGet(q, key))
  {
    var s := QueryGet(q, key);
    if s != "" && parseTime(s).Some? then parseTime(s) else None
  }

  /** An optional string parameter: set when present and non-empty. */
  function StringParam(q: Query, key: string): (r: Option<string>)
    ensures r.Some? <==> QueryGet(q, key) != ""
    ensures r.Some? ==> r.value == QueryGet(q, key)
  {
    if QueryGet(q, key) != "" then Some(QueryGet(q, key)) else None
  }

  /** What HandleAdvancedSearch answers before the service call: an HTTP error status, or the
      search it runs. */
  datatype SearchRequest = HttpError(status: int) | Search(options: ListOptions)

  /** The filter HandleAdvancedSearch builds from the query for the authenticated `userId`. */
  ghost predicate IsSearchFilter(f: TodoFilter, q: Query, userId: string, parseTime: string -> Option<Time>) {
    && f.userId == Some(if QueryGet(q, "user_id") != "" then QueryGet(q, "user_id") else userId)
    && f.ids.None?
    && f.statuses == KnownValues(StatusValues, QueryValues(q, "status"))
    && f.priorities == KnownValues(PriorityValues, QueryValues(q, "priority"))
    && f.createdFrom == DateParam(q, "created_from", parseTime)
    && f.createdTo == DateParam(q, "created_to", parseTime)
    && f.completedFrom == DateParam(q, "completed_from", parseTime)
    && f.completedTo == DateParam(q, "completed_to", parseTime)
    && f.dueDateFrom == DateParam(q, "due_from", parseTime)
    && f.dueDateTo == DateParam(q, "due_to", parseTime)
    && f.tags == QueryValues(q, "tag")
    && f.assignedTo == StringParam(q, "assigned_to")
    && f.parentId == StringParam(q, "parent_id")
    && f.teamId == StringParam(q, "team_id")
    && (f.isShared.Some? <==> QueryGet(q, "is_shared") != "")
    && (f.isShared.Some? ==> (f.isShared.value <==> QueryGet(q, "is_shared") in {"true", "1"}))
    && f.searchQuery == StringParam(q, "q")
    && (f.searchQuery.None? ==> f.searchFields == [])
    && (f.searchQuery.Some? && QueryValues(q, "search_field") != [] ==> f.searchFields == QueryValues(q, "search_field"))
    && (f.searchQuery.Some? && QueryValues(q, "search_field") == [] ==>
          f.searchFields == MockTodoRepository.DefaultSearchFields)
  }

  /** The filter part of HandleAdvancedSearch. */
  method SearchFilter(q: Query, userId: string, parseTime: string -> Option<Time>) returns (f: TodoFilter)
    ensures IsSearchFilter(f, q, userId, parseTime)
  {
    var userIdParam := QueryGet(q, "user_id");
    var statuses := DecodeNames(StatusValues, QueryValues(q, "status"));
    var priorities := DecodeNames(PriorityValues, QueryValues(q, "priority"));
    var tags: seq<string> := [];
    if |QueryValues(q, "tag")| > 0 {
      tags := QueryValues(q, "tag");
    }
    var isShared: Option<bool> := None;
    var isSharedParam := QueryGet(q, "is_shared");
    if isSharedParam != "" {
      isShared := Some(isSharedParam == "true" || isSharedParam == "1");
    }
    var searchQuery: Option<string> := None;
    var searchFields: seq<string> := [];
    var searchParam := QueryGet(q, "q");
    if searchParam != "" {
      searchQuery := Some(searchParam);
      var fields := QueryValues(q, "search_field");
      searchFields := if |fields| > 0 then fields else MockTodoRepository.DefaultSearchFields;
    }
    f := TodoFilter(None, Some(if userIdParam != "" then userIdParam else userId), statuses, priorities,
                    DateParam(q, "due_from", parseTime), DateParam(q, "due_to", parseTime),
                    DateParam(q, "created_from", parseTime), DateParam(q, "created_to", parseTime),
                    DateParam(q, "completed_from", parseTime), DateParam(q, "completed_to", parseTime),
                    tags, StringParam(q, "assigned_to"), StringParam(q, "parent_id"), StringParam(q, "team_id"),
                    isShared, searchQuery, searchFields);
  }

  /** HandleAdvancedSearch up to the service call. Only GET is served (405), and only for an
      authenticated context (401); the page is at least 1 and the page size in 1..100. */
  method HandleAdvancedSearch(httpMethod: string, ctx: AuthMiddleware.Context, q: Query,
                              parseTime: string -> Option<Time>)
    returns (r: SearchRequest)
    ensures httpMethod != "GET" ==> r == HttpError(405)
    ensures httpMethod == "GET" && AuthMiddleware.GetUserIdFromContext(ctx).Err? ==> r == HttpError(401)
    ensures r.Search? <==> httpMethod == "GET" && AuthMiddleware.GetUserIdFromContext(ctx).Ok?
    ensures r.Search? ==> IsSearchFilter(r.options.filter, q, AuthMiddleware.GetUserIdFromContext(ctx).value, parseTime)
    ensures r.Search? ==>
              && r.options.page == PageParam(QueryGet(q, "page"), 1) >= 1
              && 1 <= r.options.pageSize <= 100
              && (PageParam(QueryGet(q, "page_size"), 20) <= 100 ==>
                    r.options.pageSize == PageParam(QueryGet(q, "page_size"), 20))
              && (PageParam(QueryGet(q, "page_size"), 20) > 100 ==> r.options.pageSize == 100)
              && (QueryGet(q, "sort_by") == "" ==> r.options.sortOptions == [])
              && (QueryGet(q, "sort_by") != "" ==>
                    r.options.sortOptions == [SortOption(QueryGet(q, "sort_by"), QueryGet(q, "sort_order") == "desc")])
  {
    if httpMethod != "GET" {
      return HttpError(405);
    }
    var userId := AuthMiddleware.GetUserIdFromContext(ctx);
    if userId.Err? {
      return HttpError(401);
    }
    var f := SearchFilter(q, userId.value, parseTime);
    var page := PageParam(QueryGet(q, "page"), 1);
    var pageSize := PageParam(QueryGet(q, "page_size"), 20);
    if pageSize > 100 {
      pageSize := 100;
    }
    var sortOptions: seq<SortOption> := [];
    var sortBy := QueryGet(q, "sort_by");
    if sortBy != "" {
      sortOptions := sortOptions + [SortOption(sortBy, QueryGet(q, "sort_order") == "desc")];
    }
    r := Search(ListOptions(f, sortOptions, page, pageSize));
  }
}
