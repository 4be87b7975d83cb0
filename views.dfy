/**
 * The two views of todos/views.py: the paginated, filterable list
 * (`TodoListView`) and the toggle endpoint (`toggle_todo_completion`).
 *
 * Selecting, ordering, paging and counting are functions of the table and the
 * request parameters. Populating an empty table and toggling a row change
 * the table and are methods over a `TodoStore`.
 */
module Views {
  import opened Models
  import ExternalTodos

  /** `paginate_by`: records per page. */
  const PaginateBy := 20

  /** The three entries of the `filters` dictionary of `get_queryset`. */
  datatype Filter = FilterAll | FilterTodo | FilterComplete

  /**
   * `request.GET.get("filter", "all")` looked up in the `filters` dictionary;
   * a key the dictionary lacks is replaced by "all".
   */
  function ParseFilter(param: Option<string>): (f: Filter)
    ensures f == FilterTodo <==> param == Some("todo")
    ensures f == FilterComplete <==> param == Some("complete")
    ensures f == FilterAll <==> param != Some("todo") && param != Some("complete")
  {
    var key := param.GetOr("all");
    if key == "todo" then FilterTodo
    else if key == "complete" then FilterComplete
    else FilterAll
  }

  /** The dictionary key of a filter. */
  function FilterName(f: Filter): string {
    match f
    case FilterAll => "all"
    case FilterTodo => "todo"
    case FilterComplete => "complete"
  }

  /**
   * `current_filter` of `get_context_data`: the parameter itself when it is
   * one of the three known names, and "all" otherwise (also when absent).
   */
  function CurrentFilter(param: Option<string>): (name: string)
    ensures name == "all" || name == "todo" || name == "complete"
    ensures name != "all" ==> param == Some(name)
    ensures param == Some("todo") || param == Some("complete") ==> param == Some(name)
  {
    var name := param.GetOr("all");
    if name in {"todo", "complete", "all"} then name else "all"
  }

  /**
   * The context's normalisation and the queryset's dispatch are written
   * separately in the source; they agree: `current_filter` always names the
   * filter that was applied.
   */
  lemma CurrentFilterNamesAppliedFilter(param: Option<string>)
    ensures CurrentFilter(param) == FilterName(ParseFilter(param))
  {
  }

  /** The lambda a filter stands for, applied to one record. */
  predicate Matches(f: Filter, t: Todo) {
    match f
    case FilterAll => true
    case FilterTodo => !t.completed
    case FilterComplete => t.completed
  }

  /** The records of the table that the filter keeps. */
  function Selected(rows: map<Uuid, Todo>, f: Filter): set<Todo> {
    set t | t in rows.Values && Matches(f, t)
  }

  /** The primary keys of the rows the filter keeps. */
  function MatchingKeys(rows: map<Uuid, Todo>, f: Filter): set<Uuid> {
    set u | u in rows && Matches(f, rows[u])
  }

  /** The number of rows the filter keeps (the queryset's `.count()`). */
  function Count(rows: map<Uuid, Todo>, f: Filter): nat {
    |MatchingKeys(rows, f)|
  }

  predicate UniqueApiIds(s: set<Todo>) {
    forall a, b :: a in s && b in s && a.apiId == b.apiId ==> a == b
  }

  /** Strictly ascending api_id: the order `ordering = ["api_id"]` asks for. */
  predicate Ascending(r: seq<Todo>) {
    forall i, j :: 0 <= i < j < |r| ==> r[i].apiId < r[j].apiId
  }

  predicate IsLeast(m: Todo, s: set<Todo>) {
    m in s && forall t :: t in s ==> m.apiId <= t.apiId
  }

  lemma {:induction false} LeastExists(s: set<Todo>)
    requires s != {}
    ensures exists m :: IsLeast(m, s)
    decreases |s|
  {
    var x :| x in s;
    if s == {x} {
      assert IsLeast(x, s);
    } else {
      var rest := s - {x};
      assert rest != {} by {
        var y :| y in s && y != x;
        assert y in rest;
      }
      assert |rest| < |s|;
      LeastExists(rest);
      var m :| IsLeast(m, rest);
      if x.apiId < m.apiId {
        assert IsLeast(x, s);
      } else {
        assert IsLeast(m, s);
      }
    }
  }

  /** The records of `s` in ascending api_id order. */
  function SortByApiId(s: set<Todo>): (r: seq<Todo>)
    requires UniqueApiIds(s)
    ensures |r| == |s|
    ensures forall t :: t in r <==> t in s
    ensures Ascending(r)
    decreases |s|
  {
    if s == {} then []
    else
      LeastExists(s);
      var m :| IsLeast(m, s);
      var rest := SortByApiId(s - {m});
      PrependLeast(m, s, rest);
      [m] + rest
  }

  /** Putting the least record in front of the sorted remainder sorts the whole set. */
  lemma PrependLeast(m: Todo, s: set<Todo>, rest: seq<Todo>)
    requires UniqueApiIds(s) && IsLeast(m, s)
    requires forall t :: t in rest <==> t in s - {m}
    requires Ascending(rest)
    ensures forall t :: t in [m] + rest <==> t in s
    ensures Ascending([m] + rest)
  {
    forall t | t in rest
      ensures m.apiId < t.apiId
    {
      assert t in s && t != m;
    }
  }

  /** The table's constraints make api_id unique among its records. */
  lemma ConsistentApiIdsUnique(rows: map<Uuid, Todo>)
    requires Consistent(rows)
    ensures UniqueApiIds(rows.Values)
  {
    forall a, b | a in rows.Values && b in rows.Values && a.apiId == b.apiId
      ensures a == b
    {
      var u :| u in rows && rows[u] == a;
      var v :| v in rows && rows[v] == b;
    }
  }

  /**
   * `get_queryset` without the paging: the records the filter keeps, in
   * ascending api_id order.
   */
  function Ordered(rows: map<Uuid, Todo>, f: Filter): (r: seq<Todo>)
    requires Consistent(rows)
    ensures forall t :: t in r <==> t in rows.Values && Matches(f, t)
    ensures Ascending(r)
  {
    ConsistentApiIdsUnique(rows);
    SortByApiId(Selected(rows, f))
  }

  /**
   * The selection holds one record per matching row: its length is the
   * filtered count, and with "all" it is the number of rows.
   */
  lemma {:induction false} OrderedLength(rows: map<Uuid, Todo>, f: Filter)
    requires Consistent(rows)
    ensures |Ordered(rows, f)| == Count(rows, f)
    ensures |Ordered(rows, FilterAll)| == |rows|
  {
    SelectedCount(rows, f);
    SelectedCount(rows, FilterAll);
    assert MatchingKeys(rows, FilterAll) == rows.Keys;
  }

  lemma {:induction false} SelectedCount(rows: map<Uuid, Todo>, f: Filter)
    requires Consistent(rows)
    ensures |Selected(rows, f)| == Count(rows, f)
    decreases |rows|
  {
    if rows != map[] {
      var u :| u in rows;
      var rest := rows - {u};
      assert |rest| < |rows|;
      RemoveRowCounts(rows, u, f);
      SelectedCount(rest, f);
    }
  }

  /** Taking one row out changes the selection and the count by the same amount. */
  lemma RemoveRowCounts(rows: map<Uuid, Todo>, u: Uuid, f: Filter)
    requires Consistent(rows) && u in rows
    ensures Consistent(rows - {u})
    ensures |Selected(rows, f)| - |Selected(rows - {u}, f)| == |MatchingKeys(rows, f)| - |MatchingKeys(rows - {u}, f)|
  {
    var rest := rows - {u};
    RemoveRow(rows, u, f);
    if Matches(f, rows[u]) {
      assert |Selected(rows, f)| == |Selected(rest, f)| + 1;
      assert |MatchingKeys(rows, f)| == |MatchingKeys(rest, f)| + 1;
    }
  }

  /** Taking one row out of the table takes its record out of the selection and its key out of the count. */
  lemma RemoveRow(rows: map<Uuid, Todo>, u: Uuid, f: Filter)
    requires Consistent(rows) && u in rows
    ensures Consistent(rows - {u})
    ensures rows[u] !in Selected(rows - {u}, f) && u !in MatchingKeys(rows - {u}, f)
    ensures Selected(rows, f) ==
      if Matches(f, rows[u]) then Selected(rows - {u}, f) + {rows[u]} else Selected(rows - {u}, f)
    ensures MatchingKeys(rows, f) ==
      if Matches(f, rows[u]) then MatchingKeys(rows - {u}, f) + {u} else MatchingKeys(rows - {u}, f)
  {
    var rest := rows - {u};
    var t := rows[u];
    assert t !in rest.Values;
    forall x | x in rows.Values
      ensures x in rest.Values + {t}
    {
      var w :| w in rows && rows[w] == x;
      if w != u {
        assert rest[w] == x;
      }
    }
    forall x | x in rest.Values
      ensures x in rows.Values
    {
      var w :| w in rest && rest[w] == x;
      assert rows[w] == x;
    }
    assert rows.Values == rest.Values + {t};
  }

  /**
   * `total_todos`, `completed_todos` and `uncompleted_todos` are counted over
   * the whole table, whatever the filter, and the last two add up to the first.
   */
  lemma CountsAddUp(rows: map<Uuid, Todo>)
    ensures Count(rows, FilterComplete) + Count(rows, FilterTodo) == |rows|
  {
    var done := MatchingKeys(rows, FilterComplete);
    var open := MatchingKeys(rows, FilterTodo);
    assert done * open == {};
    assert done + open == rows.Keys;
  }

  /** The Paginator's page count: at least one page, even for no records. */
  function NumPages(n: nat): (p: nat)
    ensures 1 <= p
    ensures n == 0 ==> p == 1
    ensures n <= p * PaginateBy
    ensures n > 0 ==> (p - 1) * PaginateBy < n
  {
    if n == 0 then 1 else (n + PaginateBy - 1) / PaginateBy
  }

  /**
   * Page k (counted from 1) of an ordered selection; None when k is outside
   * 1..NumPages, where the framework answers 404.
   */
  function PageOf<T>(s: seq<T>, k: int): (r: Option<seq<T>>)
    ensures r.Some? <==> 1 <= k <= NumPages(|s|)
    ensures r.Some? ==> |r.value| <= PaginateBy
    ensures r.Some? && k < NumPages(|s|) ==> |r.value| == PaginateBy
    ensures r.Some? ==> (k - 1) * PaginateBy + |r.value| <= |s|
    ensures r.Some? && k == NumPages(|s|) ==> (k - 1) * PaginateBy + |r.value| == |s|
    ensures r.Some? ==> forall i :: 0 <= i < |r.value| ==> r.value[i] == s[(k - 1) * PaginateBy + i]
  {
    if 1 <= k <= NumPages(|s|) then
      var lo := (k - 1) * PaginateBy;
      var hi := if k * PaginateBy < |s| then k * PaginateBy else |s|;
      Some(s[lo..hi])
    else None
  }

  /** Reference paging: cut off 20 records at a time. */
  function Chunks<T>(s: seq<T>): seq<seq<T>>
    decreases |s|
  {
    if |s| <= PaginateBy then [s] else [s[..PaginateBy]] + Chunks(s[PaginateBy..])
  }

  function Concat<T>(pages: seq<seq<T>>): seq<T> {
    if pages == [] then [] else pages[0] + Concat(pages[1..])
  }

  /** Every page, in page order. */
  function AllPages<T>(s: seq<T>): seq<seq<T>> {
    seq(NumPages(|s|), j requires 0 <= j < NumPages(|s|) => PageOf(s, j + 1).value)
  }

  lemma {:induction false} ChunksConcat<T>(s: seq<T>)
    ensures Concat(Chunks(s)) == s
    decreases |s|
  {
    if |s| > PaginateBy {
      ChunksConcat(s[PaginateBy..]);
      assert s == s[..PaginateBy] + s[PaginateBy..];
    }
  }

  /** Page k of the records is page k - 1 of the records after the first page. */
  lemma PageOfTail<T>(s: seq<T>, k: int)
    requires |s| > PaginateBy && 2 <= k <= NumPages(|s|)
    ensures NumPages(|s|) == NumPages(|s| - PaginateBy) + 1
    ensures PageOf(s, k) == PageOf(s[PaginateBy..], k - 1)
  {
    var tail := s[PaginateBy..];
    var lo := (k - 1) * PaginateBy;
    var hi := if k * PaginateBy < |s| then k * PaginateBy else |s|;
    assert (k - 2) * PaginateBy == lo - PaginateBy;
    assert (k - 1) * PaginateBy == k * PaginateBy - PaginateBy;
    assert tail[lo - PaginateBy .. hi - PaginateBy] == s[lo..hi];
  }

  lemma {:induction false} PageIsChunk<T>(s: seq<T>, k: int)
    requires 1 <= k <= NumPages(|s|)
    ensures |Chunks(s)| == NumPages(|s|)
    ensures PageOf(s, k) == Some(Chunks(s)[k - 1])
    decreases |s|
  {
    if |s| <= PaginateBy {
      assert s[0..|s|] == s;
    } else {
      var tail := s[PaginateBy..];
      PageOfTail(s, NumPages(|s|));
      PageIsChunk(tail, 1);
      if k > 1 {
        PageOfTail(s, k);
        PageIsChunk(tail, k - 1);
      }
    }
  }

  lemma PagesAreChunks<T>(s: seq<T>)
    ensures AllPages(s) == Chunks(s)
  {
    PageIsChunk(s, 1);
    forall j | 0 <= j < NumPages(|s|)
      ensures AllPages(s)[j] == Chunks(s)[j]
    {
      PageIsChunk(s, j + 1);
    }
  }

  /**
   * The pages partition the ordered selection: read one after the other
   * they give back every selected record once, in order.
   */
  lemma PagesPartitionSelection<T>(s: seq<T>)
    ensures Concat(AllPages(s)) == s
  {
    PagesAreChunks(s);
    ChunksConcat(s);
  }

  /** With 25 records: two pages, of 20 and 5; there is no third page. */
  lemma TwentyFiveRecords<T>(s: seq<T>)
    requires |s| == 25
    ensures NumPages(|s|) == 2
    ensures PageOf(s, 1) == Some(s[..20]) && PageOf(s, 2) == Some(s[20..])
    ensures PageOf(s, 3) == None
  {
    assert s[20..25] == s[20..];
  }

  /** A page holds only records of the sequence it is cut from, and keeps their order. */
  lemma PageWithin(s: seq<Todo>, k: int)
    ensures PageOf(s, k).Some? ==> forall t :: t in PageOf(s, k).value ==> t in s
    ensures PageOf(s, k).Some? && Ascending(s) ==> Ascending(PageOf(s, k).value)
  {
    var page := PageOf(s, k);
    if page.Some? {
      forall t | t in page.value
        ensures t in s
      {
        var i :| 0 <= i < |page.value| && page.value[i] == t;
        assert s[(k - 1) * PaginateBy + i] == t;
      }
    }
  }

  /** The template context of `get_context_data`. */
  datatype ListContext = ListContext(
    todos: Option<seq<Todo>>,   // the page's records; None when the page is out of range
    isPaginated: bool,
    totalTodos: nat,
    completedTodos: nat,
    uncompletedTodos: nat,
    currentFilter: string)

  /**
   * The context for one request over the table as it stands after the
   * populate step. `pageParam` is the `page` parameter, 1 when absent.
   */
  function Context(rows: map<Uuid, Todo>, filterParam: Option<string>, pageParam: Option<int>)
    : (c: ListContext)
    requires Consistent(rows)
    ensures c.totalTodos == |rows| == c.completedTodos + c.uncompletedTodos
    ensures c.completedTodos == Count(rows, FilterComplete)
    ensures c.currentFilter == FilterName(ParseFilter(filterParam))
    ensures c.todos == PageOf(Ordered(rows, ParseFilter(filterParam)), pageParam.GetOr(1))
    ensures c.isPaginated <==> Count(rows, ParseFilter(filterParam)) > PaginateBy
    ensures c.todos.Some? <==> 1 <= pageParam.GetOr(1) <= NumPages(Count(rows, ParseFilter(filterParam)))
    ensures c.todos.Some? ==> |c.todos.value| <= PaginateBy
    ensures c.todos.Some? ==> forall t :: t in c.todos.value ==>
      t in rows.Values && Matches(ParseFilter(filterParam), t)
    ensures c.todos.Some? ==> Ascending(c.todos.value)
  {
    var f := ParseFilter(filterParam);
    var ordered := Ordered(rows, f);
    var page := PageOf(ordered, pageParam.GetOr(1));
    OrderedLength(rows, f);
    CountsAddUp(rows);
    CurrentFilterNamesAppliedFilter(filterParam);
    PageWithin(ordered, pageParam.GetOr(1));
    ListContext(
      page,
      NumPages(|ordered|) > 1,
      |rows|,
      Count(rows, FilterComplete),
      Count(rows, FilterTodo),
      CurrentFilter(filterParam))
  }

  /**
   * One GET of the list: when the table is empty, run the fetch routine and
   * swallow whatever it raises; then build the context over the table.
   */
  method ListTodos(store: TodoStore, filterParam: Option<string>, pageParam: Option<int>,
                   apiUrl: Option<string>, fetched: ExternalTodos.FetchResult,
                   draws: seq<int>, ids: seq<Uuid>)
    returns (c: ListContext)
    requires Consistent(store.rows)
    requires fetched.Fetched? ==> |fetched.items| <= |draws| && |fetched.items| <= |ids|
    requires ExternalTodos.DrawsInRange(draws)
    modifies store
    ensures Consistent(store.rows)
    ensures old(store.rows) != map[] ==> store.rows == old(store.rows)
    ensures old(store.rows) == map[] ==>
      if apiUrl.Some? && fetched.Fetched? && fetched.items != []
         && CanInsert(map[], ExternalTodos.Drafts(fetched.items, draws, ids))
      then store.rows == WithBatch(map[], ExternalTodos.Drafts(fetched.items, draws, ids))
      else store.rows == map[]
    ensures c == Context(store.rows, filterParam, pageParam)
  {
    if |store.rows| == 0 {
      var populated := ExternalTodos.FetchAndStore(store, apiUrl, fetched, draws, ids);
    }
    c := Context(store.rows, filterParam, pageParam);
  }

  /**
   * The first visit to an empty table whose fetch succeeds shows the fetched
   * items: the total is their number, and the unfiltered first page holds the
   * first 20 of them (all of them when there are fewer).
   */
  lemma FirstVisitShowsFetchedItems(items: seq<ExternalTodos.RawItem>, draws: seq<int>, ids: seq<Uuid>)
    requires |items| <= |draws| && |items| <= |ids| && ExternalTodos.DrawsInRange(draws)
    requires CanInsert(map[], ExternalTodos.Drafts(items, draws, ids))
    ensures Consistent(WithBatch(map[], ExternalTodos.Drafts(items, draws, ids)))
    ensures var c := Context(WithBatch(map[], ExternalTodos.Drafts(items, draws, ids)), None, None);
      && c.totalTodos == |items|
      && c.todos.Some?
      && |c.todos.value| == (if |items| < PaginateBy then |items| else PaginateBy)
      && c.todos.value <= Ordered(WithBatch(map[], ExternalTodos.Drafts(items, draws, ids)), FilterAll)
      && forall t :: t in c.todos.value ==>
           exists k :: 0 <= k < |items| && t == Persisted(ExternalTodos.Drafts(items, draws, ids)[k])
  {
    var batch := ExternalTodos.Drafts(items, draws, ids);
    var rows := WithBatch(map[], batch);
    BatchInserted(map[], batch);
    OrderedLength(rows, FilterAll);
    var ordered := Ordered(rows, FilterAll);
    assert |ordered| == |items|;
    assert NumPages(|ordered|) == 1 ==> |PageOf(ordered, 1).value| == |ordered|;
    var c := Context(rows, None, None);
    assert ParseFilter(None) == FilterAll && None.GetOr(1) == 1;
    assert c.todos == PageOf(ordered, 1);
    var page := c.todos.value;
    assert page == ordered[..|page|];
    PageWithin(ordered, 1);
    RowsComeFromBatch(batch);
  }

  /** Every record of a table filled by one bulk insert is one of the batch's instances. */
  lemma RowsComeFromBatch(batch: seq<Draft>)
    requires CanInsert(map[], batch)
    ensures forall t :: t in WithBatch(map[], batch).Values ==>
      exists k :: 0 <= k < |batch| && t == Persisted(batch[k])
  {
    var rows := WithBatch(map[], batch);
    BatchInserted(map[], batch);
    forall t | t in rows.Values
      ensures exists k :: 0 <= k < |batch| && t == Persisted(batch[k])
    {
      var u :| u in rows && rows[u] == t;
      var k :| 0 <= k < |batch| && batch[k].uuid == u;
    }
  }

  /** The `todo_id` member of the request's JSON object, when present. */
  datatype IdField =
    | Blank            // a falsy value: "", null, 0, false
    | Malformed        // a truthy value that is not a UUID; the lookup raises
    | Id(uuid: Uuid)

  /** The request body after `json.loads`. */
  datatype RequestBody =
    | InvalidJson                         // json.loads raises JSONDecodeError
    | NotAnObject                         // valid JSON with no `.get` (a list, a number, ...)
    | JsonObject(todoId: Option<IdField>)

  datatype ToggleError = MissingTodoId | TodoNotFound | BadJson | Unexpected

  /** The JsonResponse of the endpoint. */
  datatype ToggleReply = Toggled(completed: bool) | Rejected(error: ToggleError)

  function StatusCode(reply: ToggleReply): (code: int)
    ensures code == 200 <==> reply.Toggled?
    ensures code == 404 <==> reply == Rejected(TodoNotFound)
    ensures code == 400 <==> reply.Rejected? && reply.error != TodoNotFound
  {
    match reply
    case Toggled(_) => 200
    case Rejected(TodoNotFound) => 404
    case Rejected(_) => 400
  }

  /** The "error" member; the text of an unexpected exception is not modelled. */
  function ErrorText(e: ToggleError): (text: Option<string>)
    ensures text.Some? <==> e != Unexpected
  {
    match e
    case MissingTodoId => Some("Missing todo_id")
    case TodoNotFound => Some("Todo not found")
    case BadJson => Some("Invalid JSON")
    case Unexpected => None
  }

  /** The three fixed error texts are distinct, so a client can tell the cases apart. */
  lemma ErrorTextsDistinct(e1: ToggleError, e2: ToggleError)
    requires ErrorText(e1).Some? && ErrorText(e1) == ErrorText(e2)
    ensures e1 == e2
  {
    assert "Missing todo_id"[0] == 'M' && "Todo not found"[0] == 'T' && "Invalid JSON"[0] == 'I';
  }

  /** The table after `todo.completed = not todo.completed; todo.save()`. */
  function Flip(rows: map<Uuid, Todo>, u: Uuid): map<Uuid, Todo>
    requires u in rows
  {
    rows[u := rows[u].(completed := !rows[u].completed)]
  }

  /**
   * A toggle changes exactly one field of exactly one row and keeps the
   * table's constraints.
   */
  lemma FlipChangesOneField(rows: map<Uuid, Todo>, u: Uuid)
    requires Consistent(rows) && u in rows
    ensures Consistent(Flip(rows, u))
    ensures Flip(rows, u).Keys == rows.Keys
    ensures Flip(rows, u)[u].completed == !rows[u].completed
    ensures Flip(rows, u)[u] == rows[u].(completed := Flip(rows, u)[u].completed)
    ensures forall v :: v in rows && v != u ==> Flip(rows, u)[v] == rows[v]
  {
  }

  /** Toggling the same row twice restores the table. */
  lemma FlipTwice(rows: map<Uuid, Todo>, u: Uuid)
    requires u in rows
    ensures u in Flip(rows, u) && Flip(Flip(rows, u), u) == rows
  {
    var once := Flip(rows, u);
    assert once[u].(completed := !once[u].completed) == rows[u];
    assert rows[u := rows[u]] == rows;
  }

  /** A toggle moves one row between the completed and the uncompleted count. */
  lemma FlipMovesOneRow(rows: map<Uuid, Todo>, u: Uuid)
    requires u in rows
    ensures rows[u].completed ==> Count(Flip(rows, u), FilterComplete) + 1 == Count(rows, FilterComplete)
    ensures !rows[u].completed ==> Count(Flip(rows, u), FilterComplete) == Count(rows, FilterComplete) + 1
  {
    var after := Flip(rows, u);
    var before := MatchingKeys(rows, FilterComplete);
    var now := MatchingKeys(after, FilterComplete);
    if rows[u].completed {
      assert u !in now;
      assert before == now + {u};
    } else {
      assert u !in before;
      assert now == before + {u};
    }
  }

  /**
   * `toggle_todo_completion` for a POST: parse, check `todo_id`, look the row
   * up by primary key, flip `completed`, save, and report the new value.
   */
  method ToggleTodoCompletion(store: TodoStore, body: RequestBody) returns (reply: ToggleReply)
    requires Consistent(store.rows)
    modifies store
    ensures Consistent(store.rows)
    ensures reply.Rejected? && reply.error != Unexpected ==>
      && (ErrorText(reply.error) == Some("Invalid JSON") <==> body.InvalidJson?)
      && (ErrorText(reply.error) == Some("Missing todo_id") <==>
            body.JsonObject? && (body.todoId.None? || body.todoId.value.Blank?))
      && (ErrorText(reply.error) == Some("Todo not found") <==>
            body.JsonObject? && body.todoId.Some? && body.todoId.value.Id?
            && body.todoId.value.uuid !in old(store.rows))
    ensures body.InvalidJson? ==> reply == Rejected(BadJson) && store.rows == old(store.rows)
    ensures body.NotAnObject? ==> reply == Rejected(Unexpected) && store.rows == old(store.rows)
    ensures body.JsonObject? && (body.todoId.None? || body.todoId.value.Blank?) ==>
      reply == Rejected(MissingTodoId) && store.rows == old(store.rows)
    ensures body == JsonObject(Some(Malformed)) ==>
      reply == Rejected(Unexpected) && store.rows == old(store.rows)
    ensures body.JsonObject? && body.todoId.Some? && body.todoId.value.Id? ==>
      var u := body.todoId.value.uuid;
      if u in old(store.rows)
      then reply == Toggled(!old(store.rows)[u].completed) && store.rows == Flip(old(store.rows), u)
      else reply == Rejected(TodoNotFound) && store.rows == old(store.rows)
  {
    match body
    case InvalidJson =>
      reply := Rejected(BadJson);
    case NotAnObject =>
      reply := Rejected(Unexpected);
    case JsonObject(todoId) =>
      if todoId.None? || todoId.value.Blank? {
        reply := Rejected(MissingTodoId);
      } else if todoId.value.Malformed? {
        reply := Rejected(Unexpected);
      } else if todoId.value.uuid !in store.rows {
        reply := Rejected(TodoNotFound);
      } else {
        var u := todoId.value.uuid;
        var todo := store.rows[u];
        todo := todo.(completed := !todo.completed);
        FlipChangesOneField(store.rows, u);
        store.rows := store.rows[u := todo];
        reply := Toggled(todo.completed);
      }
  }

  /** Two successful toggles of one row leave the table as it was. */
  method ToggleTwice(store: TodoStore, u: Uuid) returns (first: ToggleReply, second: ToggleReply)
    requires Consistent(store.rows) && u in store.rows
    modifies store
    ensures first == Toggled(!old(store.rows)[u].completed)
    ensures second == Toggled(old(store.rows)[u].completed)
    ensures store.rows == old(store.rows)
  {
    first := ToggleTodoCompletion(store, JsonObject(Some(Id(u))));
    second := ToggleTodoCompletion(store, JsonObject(Some(Id(u))));
    FlipTwice(old(store.rows), u);
  }
}
