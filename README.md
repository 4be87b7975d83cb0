# Todo list: a verified model of its application logic

This project models the application logic of a small Django todo site and proves properties about it in Dafny. There are three pieces:

- **The external fetch routine** (`get_external_todo_data`). It fetches a list of raw items from a remote API and builds one unsaved `Todo` per item. While doing so it gives each new userId a random image number in 1..7 and reuses that number for the user's later items. It then bulk-inserts the batch. An empty list, a failed fetch or a failed insert gives None. A missing `TODO_API_URL` setting raises.
- **The list view** (`TodoListView`). When the table is empty, it runs the fetch routine once and swallows any failure. It then selects rows by the `filter` parameter (`todo`, `complete`, or anything else meaning all), orders them by `api_id`, cuts them into pages of 20, and counts total, completed and uncompleted rows over the whole table.
- **The toggle endpoint** (`toggle_todo_completion`). It classifies a POST body as invalid JSON, missing `todo_id`, unknown todo, or success. On success it flips `completed` on exactly one row.

The table is a `map` from uuid to `Todo`, held in the class `Models.TodoStore`. `Models.Consistent` states the two constraints the database enforces: the primary key is unique, and `api_id` is unique. Every write keeps both.

Files:
- `models.dfy` (module `Models`) covers the record, the unsaved instance, the table constraints and the atomic bulk insert.
- `external_todos.dfy` (module `ExternalTodos`) covers the fetch routine. It has a reference definition of which draw each user gets (`FirstSeen`, `IndexOf`, `Drafts`) and the loop `BuildDrafts`, proved equal to it.
- `views.dfy` (module `Views`) covers filter dispatch and normalisation, ordering, paging, counts, the list request, and the toggle endpoint.

Inputs that the source takes from outside:
- The HTTP fetch is an input, `FetchResult`: either the decoded items or a failure.
- `random.randint(1, 7)` is an oracle sequence `draws`, consumed one draw per call.
- The uuid4 default of each new instance is an oracle sequence `ids`.
- The `TODO_API_URL` setting is an `Option<string>`.
- The toggle request body is given already parsed, as `RequestBody`.

Points where the model follows the code rather than what a reader might expect:
- On success the fetch routine returns the whole table (`Todo.objects.all()`, todos/helpers/todo_list_view_helper.py:95). Its docstring (line 68) says it returns the newly created objects.
- A page number outside 1..NumPages is not clamped to the nearest page. Django's `ListView` raises 404, modelled as `None`.
- A `todo_id` that is not a UUID, or a JSON body that is not an object, makes the lookup or `.get` raise. Both reach the generic handler (todos/views.py:150-152) and get 400, not 404 or "Missing todo_id".

## Model

| member | source | states |
|---|---|---|
| Models.BatchInserted | todos/helpers/todo_list_view_helper.py:93-95 | A bulk insert that violates no constraint keeps the table consistent and keeps every old row. It adds exactly one row per instance, under that instance's uuid, and nothing else, so the size grows by the batch length. |
| Models.TodoStore.BulkCreate | todos/helpers/todo_list_view_helper.py:93-94 | The insert succeeds exactly when every NOT NULL column has a value and no uuid or api_id clashes with the table or within the batch. On success the table gains the batch; on failure nothing changes (atomic). |
| ExternalTodos.CompletedOf | todos/helpers/todo_list_view_helper.py:89 | `completed` defaults to false only when the member is absent. A JSON null gives no value, so the row cannot be inserted. |
| ExternalTodos.FirstSeen | todos/helpers/todo_list_view_helper.py:79-81 | The keys of `user_image_mapping` once the loop has run: the same values as the input, without repetition, and no longer than the input. |
| ExternalTodos.FirstSeenInOrder | todos/helpers/todo_list_view_helper.py:79-81 | The keys come in first-occurrence order: of two of them, the earlier one first occurs earlier in the input. |
| ExternalTodos.IndexOf | todos/helpers/todo_list_view_helper.py:79-81 | The position of the first occurrence of a value: it holds the value and no earlier position does. |
| ExternalTodos.BuildDrafts | todos/helpers/todo_list_view_helper.py:75-91 | The loop gives one instance per item, in item order. Each copies id, userId and title, and `completed` as `CompletedOf`. Items with the same userId get the same image, every image is in 1..7, and the number of draws equals the number of distinct userIds. The result equals the reference batch `Drafts`. |
| ExternalTodos.FetchAndStore | todos/helpers/todo_list_view_helper.py:71-100 | A missing setting raises and leaves the table unchanged. A failed fetch, an empty list or a failed insert returns None and leaves the table unchanged. Otherwise the table becomes the old rows plus the batch, and the whole table is returned. |
| ExternalTodos.StoredBatch | todos/helpers/todo_list_view_helper.py:78-95 | After a successful fetch the table keeps every old row and has exactly one more row per item. Each new row carries its item's id, userId, title and completed, and an image in 1..7. Rows of the same userId share an image. |
| ExternalTodos.DraftsFields | todos/helpers/todo_list_view_helper.py:83-90 | Each instance of the batch copies its item's id, userId and title, and takes `completed` as `CompletedOf`. Items with the same userId get the same image, and every image lies in 1..7. |
| ExternalTodos.SameUserSameImage | todos/helpers/todo_list_view_helper.py:79-88 | Two items of one batch with the same userId get the same image, and that image lies in 1..7. |
| ExternalTodos.DrawsInFirstOccurrenceOrder | todos/helpers/todo_list_view_helper.py:79-81 | The j-th distinct userId, in first-occurrence order, gets the j-th random draw. |
| ExternalTodos.DrawCountIsDistinctUsers | todos/helpers/todo_list_view_helper.py:79-81 | The number of draws taken equals the number of distinct userIds in the batch. |
| Views.ParseFilter | todos/views.py:71-82 | "todo" selects uncompleted rows and "complete" selects completed rows. Any other value, or no value, selects all (each as an if-and-only-if). |
| Views.CurrentFilter | todos/views.py:107-110 | `current_filter` is always one of "all", "todo", "complete". It is the parameter itself when that is "todo" or "complete", and "all" otherwise. |
| Views.CurrentFilterNamesAppliedFilter | todos/views.py:71-110 | The context's normalisation and the queryset's dispatch agree: `current_filter` names the filter that was applied. |
| Views.SortByApiId | todos/views.py:46 | Orders a set of records with unique api_ids: the result has exactly the set's records, once each, in strictly ascending api_id. |
| Views.Ordered | todos/views.py:73-84 | The queryset holds exactly the table's records that the filter keeps, in strictly ascending api_id. |
| Views.OrderedLength | todos/views.py:73-84 | The selection has one record per matching row. With "all" it has as many records as the table has rows. |
| Views.CountsAddUp | todos/views.py:103-106 | Completed plus uncompleted equals the total, all counted over the whole table. |
| Views.NumPages | todos/views.py:45 | The page count is at least 1 and is the least number of 20-record pages that holds all records. |
| Views.PageOf | todos/views.py:45-46 | Page k exists exactly for 1 <= k <= NumPages. Page k holds at most 20 records (exactly 20 before the last page), namely positions 20(k-1) onward of the ordered selection. The last page ends at the end of the selection. |
| Views.PagesPartitionSelection | todos/views.py:45 | Read one after another, the pages give back the ordered selection exactly: every record once, in order. |
| Views.TwentyFiveRecords | todos/views.py:45 | 25 records make two pages, the first 20 and the last 5; there is no third page. |
| Views.Context | todos/views.py:101-111 | The page is page k of the ordered selection, which ties it to the facts of `PageOf`, `PagesPartitionSelection` and `TwentyFiveRecords`. Total is the table size and equals completed plus uncompleted. `current_filter` names the applied filter. `is_paginated` holds exactly when more than 20 rows match. The page exists exactly when the page number is in range. A page holds at most 20 matching records of the table, in ascending api_id. |
| Views.ListTodos | todos/views.py:64-69 | A non-empty table is never repopulated and stays unchanged. An empty table receives the fetched batch exactly when the setting is present, the fetch succeeds with a non-empty list, and the batch violates no constraint. Otherwise it stays empty, because any failure is swallowed. The context is computed over the table as it then stands. |
| Views.FirstVisitShowsFetchedItems | todos/views.py:64-69 | After a successful first fetch the context's total is the number of fetched items. The unfiltered first page is a prefix of the selection ordered by api_id, and every record on it is one of the fetched items. It therefore holds the fetched items with the 20 lowest ids, or all of them when there are fewer. |
| Views.RowsComeFromBatch | todos/helpers/todo_list_view_helper.py:93-95 | Every record of a table filled by one bulk insert is the row of one of the batch's instances. |
| Views.StatusCode | todos/views.py:134-152 | 200 exactly for a successful toggle, 404 exactly for an unknown todo, 400 for every other error. |
| Views.ErrorText | todos/views.py:134-149 | The reply carries an error text exactly for the three anticipated errors. |
| Views.ErrorTextsDistinct | todos/views.py:136-149 | "Missing todo_id", "Todo not found" and "Invalid JSON" are distinct, so each text identifies its error. |
| Views.FlipChangesOneField | todos/views.py:139-141 | A toggle keeps the table consistent and its keys unchanged. It negates `completed` of the named row, leaves that row's other fields alone, and leaves every other row unchanged. |
| Views.FlipTwice | todos/views.py:140-141 | Toggling the same row twice restores the table. |
| Views.FlipMovesOneRow | todos/views.py:140-141 | A toggle moves exactly one row between the completed and the uncompleted count. |
| Views.ToggleTodoCompletion | todos/views.py:130-152 | Unparseable JSON gives "Invalid JSON". A missing or falsy `todo_id` gives "Missing todo_id". A non-object body or a non-UUID id gives the generic 400. An unknown id gives "Todo not found". Each of the three texts appears exactly in its case. All of these leave the table unchanged. A known id flips that row alone and reports the new value. |
| Views.ToggleTwice | todos/views.py:130-142 | Two successful toggles of one row report the flipped and then the original value, and leave the table as it was. |

## Left out

- `fetch_todos_from_api` (HTTP session, urllib3 retry and backoff, timeout, JSON decoding) is network I/O over a foreign library. It is the input `FetchResult`: the decoded items, or a failure.
- `decouple.config`, `logging` and `random.randint` are foreign calls. The setting is an `Option<string>`, logging is dropped, and the random draws are an oracle sequence of values in 1..7. The model requires at least one draw and one uuid per item, as an unbounded random source provides.
- uuid4 generation and the `created_at`/`updated_at` timestamps are library defaults with no logic. Uuids come from an oracle sequence; timestamps are not modelled.
- `Todo.__str__` is display only.
- Item members of the wrong JSON type are not modelled: each member is either a value of its column's type, absent, or null. Django coerces some wrong types on insert (a numeric string or float for an integer column, a number for the title, 1/0 or "t"/"f" for the flag) and rejects others. A userId given as the string "1" is a different dictionary key from 1, so it would draw its own image, yet both are stored as user 1.
- A payload that is not a list, or an item that is not an object, makes the loop or `item.get` raise, and the routine returns None. Both fold into `FetchFailed`.
- BulkCreate, CanInsert: `api_id` and `user_id` are unbounded integers here. Their `IntegerField` columns are 32-bit on PostgreSQL and 64-bit on SQLite, and the engine is chosen by configuration. An out-of-range id makes the insert fail, and the routine then returns None. The model inserts it.
- `image` is kept as the number drawn. The column is a text field, so the table stores its decimal text ("5"). The conversion is not modelled.
- `title`'s 200-character limit is not modelled, because whether it is enforced depends on the database engine, which is set by configuration.
- The Paginator's handling of the `page` parameter values "last", non-numeric and empty is not modelled. The parameter is an optional integer, 1 when absent.
- Template rendering and the queryset's laziness are not modelled.
- The 405 for non-POST methods comes from the `require_http_methods` decorator and is not modelled.
- In the generic 400 branch of the toggle endpoint, the message is the text of a foreign exception, so it is not modelled. Only the two causes visible in this code reach that branch in the model: a body that is not a JSON object, and a `todo_id` that is not a UUID. Database failures are not modelled.
- Races between concurrent first requests and between concurrent toggles are concurrency, not sequential logic.
- `static/js/todos.js`, `config/settings.py` and `config/urls.py` are browser UI, configuration and routing.
