# taskdo todo store and query builder, modelled in Dafny

This project models the two computational cores of the taskdo todo service.

- **The in-memory todo table of `app/main.py`.** The global list `todos_db` holds todo records. Its handlers are:
  - `list_todos`: a prefix slice of the list.
  - `get_todo`: a linear search.
  - `create_todo`: the new id is the largest id plus one, and the record is appended.
  - `update_todo`: a partial merge of the fields the caller sent, with `updated_at` refreshed.
  - `delete_todo`: a search, then `pop`.
  - Filters by deadline and by area.

  The record constraints come from `Priority`, `TodoArea`, `TodoBase`, `Todo` and `TodoUpdate`. A handler's 404 is a `None` result.
- **The document and predicate transforms of `app/database.py`.**
  - `convert_date_to_datetime`.
  - The owner-scoped query that `get_user_todos` builds, including the conversion of its string deadline bounds.
  - The predicates `get_todos_by_deadline` and `get_todos_by_area` send to the store.

Modules, one per concern:

- `Wrappers` (`wrappers.dfy`): `Option` and `Result`.
- `Calendar` (`calendar.dfy`): Python's `date`, `time` and `datetime` values, their validity, and their ordering.
- `Todos` (`todos.dfy`): the entities of `app/main.py`, their field constraints, and the merge that `update_todo` performs.
- `Store` (`store.dfy`): the class `TodoStore`, whose field `todos: seq<Todo>` is `todos_db`.
  - Its methods `Get`, `Create`, `Update` and `Delete` are the handlers that search or change the list. `Get`, `Update` and `Delete` keep the source's search loops. `Create` has no loop: the `max(...)` comprehension it evaluates is the recursive function `MaxId`.
  - The method `SetAttrs` is the `setattr` loop of `update_todo`.
  - Pure functions give the slices and list comprehensions: `ListTodos`, `ByDeadline`, `ByArea`.
  - The store invariant `Valid()` says that ids are unique and positive.
- `Documents` (`documents.dfy`): documents are `map<string, Value>`. This module holds `ConvertDateToDatetime`.
- `Queries` (`queries.dfy`): the query builder, the two predicates, and `Matches`.
  - `Matches` models the part of the store's query language those predicates use: equality on a field, and `$gte`/`$lt` on datetimes.
  - It serves as the reference for what each predicate selects.

Parameters stand in for I/O:

- The clock (`datetime.now()`) is the parameter `now` (and `today` for the seed records).
- `datetime.fromisoformat` is the parameter `parse: string -> Option<DateTime>`. `None` stands for its `ValueError`.
- `datetime.strptime` in `get_todos_by_deadline` is replaced by the caller passing the parsed `Date`.

Three behaviours of the code worth knowing:

- A new todo's id is the largest id plus one.
- The deadline range's upper bound is `$lt 23:59:59.999999` of the day. Over microsecond datetimes, `Queries.DeadlinePredicateSelectsDay` states that this excludes the day's last instant.
- `update_todo` writes an explicit null through into the record. `Todos.MergeKeepsValidity` shows that this makes the record invalid.

## Model

| member | source | states |
|---|---|---|
| `Calendar.ValidDate` | app/main.py:44 | a Python `date` has a day from 1 to 31, February 29 only in a leap year, and every day 1 to 28 of every month of years 1 to 9999 is a date |
| `Calendar.ValidTime` | app/database.py:113-114 | `datetime.min.time()` and `datetime.max.time()` are valid times, and a valid time has an hour from 0 to 23 and a microsecond from 0 to 999999 |
| `Calendar.Before` | app/database.py:113-114 | datetime `<`: on different days it is the order of the days, on the same day the order of the times |
| `Calendar.BeforeIsStrictTotalOrder` | app/database.py:112-115 | datetime `<` is irreflexive, asymmetric, total and transitive |
| `Calendar.MinTimeIsFirst` | app/database.py:113 | `datetime.min.time()` is not after any valid time, and is before every other one |
| `Calendar.MaxTimeIsLast` | app/database.py:114 | `datetime.max.time()` is not before any valid time, and is after every other one |
| `Calendar.DayBounds` | app/database.py:112-115 | midnight and 23:59:59.999999 of a day bracket every instant of that day, and midnight comes first |
| `Todos.PriorityFromValue` | app/main.py:24-27 | an integer is a priority exactly when it is 1, 2 or 3, and the priority maps back to that integer |
| `Todos.PriorityRoundTrip` | app/main.py:24-27 | value-to-priority inverts priority-to-value |
| `Todos.AreaFromName` | app/main.py:30-34 | a string names an area exactly when one of the four areas has that name |
| `Todos.AreaRoundTrip` | app/main.py:30-34 | name-to-area inverts area-to-name |
| `Todos.CreateRequest` | app/main.py:37-44 | a create request carries the caller's title, description, area and deadline, and its priority is the one sent, or `Low` when none was sent |
| `Todos.ValidCreate` | app/main.py:37-44 | a valid create request has a title of 3 to 512 characters and a deadline in a real month; every title of that length with a day 1 to 28 of a year 1 to 9999 is accepted |
| `Todos.ValidTodo` | app/main.py:37-44 | a valid stored record has all five `TodoBase` fields, a title of 3 to 512 characters and a valid deadline date; a record with any of those five fields null is invalid |
| `Todos.ValidUpdate` | app/main.py:60-65 | a title the update sends is 3 to 512 characters and a deadline it sends is a valid date; an update that sends neither a title nor a deadline, or only explicit nulls for them, is valid |
| `Todos.NewTodo` | app/main.py:107-112 | the created record carries the given id and `now` in both timestamps, and satisfies the `TodoBase` constraints exactly when the payload does |
| `Todos.UpdateData` | app/main.py:121 | `exclude_unset` yields at most five items in field-declaration order; every field the caller set (an explicit null included) is among them with its value, every item is one the caller set, and there are no items exactly when the caller set nothing |
| `Todos.AppendInFieldOrder` | app/main.py:121 | joining two item lists in field order, where every item of the second comes after every item of the first, stays in field order |
| `Todos.SetAttr` | app/main.py:123 | `setattr` of one item replaces exactly the field it names; every other field, the id and both timestamps keep their values |
| `Todos.SetAll` | app/main.py:122-123 | the `setattr` loop never changes the id or the timestamps |
| `Todos.Merge` | app/main.py:121-124 | the merged record keeps the id and `created_at`, and its `updated_at` is `now` |
| `Todos.SetAllConcat` | app/main.py:122-123 | running the `setattr` loop over `a + b` is running it over `a` and then over `b` |
| `Todos.MergeSemantics` | app/main.py:118-126 | the merged record equals the old one with each sent field replaced (an explicit null included) and `updated_at` set to `now`; id, `created_at` and unsent fields are unchanged |
| `Todos.EmptyUpdateOnlyRefreshes` | app/main.py:121-124 | an update that sends no field changes only `updated_at` |
| `Todos.MergeKeepsValidity` | app/main.py:60-65 | a valid record stays valid after a valid update if and only if the update sends no explicit null |
| `Store.MaxId` | app/main.py:106 | the result is 0 for an empty list; otherwise it is an id in the list and no id exceeds it |
| `Store.NextId` | app/main.py:106 | the new id is larger than every existing id, and is 1 for an empty list |
| `Store.FirstIndex` | app/main.py:98-100 | the result is a position holding the id with no earlier match, or `None` exactly when no todo has the id |
| `Store.Removed` | app/main.py:133 | `pop(i)` shortens the list by one, keeps the todos before `i`, and shifts those after it down by one in order |
| `Store.SliceTo` | app/main.py:92 | Python `s[:n]` is a prefix whose length is `min(n, len)` for `n >= 0` and `max(0, len + n)` for negative `n` |
| `Store.ListTodos` | app/main.py:90-93 | the result is a prefix of the list: the whole list when `first_n` is absent or 0, otherwise length `min(n, len)` or `max(0, len + n)` |
| `Store.Filter` | app/main.py:139 | the comprehension keeps exactly the members that pass the test, and no more than the list has |
| `Store.FilterConcat` | app/main.py:139 | the comprehension distributes over concatenation, so it keeps the list's order |
| `Store.ByDeadline` | app/main.py:137-140 | a todo is in the result exactly when it is in the list and its deadline is the given date |
| `Store.ByArea` | app/main.py:143-146 | a todo is in the result exactly when it is in the list and its area is the given area |
| `Store.FiltersIdempotent` | app/main.py:139-145 | filtering a filter's result by the same value changes nothing |
| `Store.Seed` | app/main.py:69-86 | the seed list holds two records with ids 1 and 2, so its ids are unique and positive, and on a valid `today` both satisfy the `TodoBase` constraints |
| `Store.AppendFreshKeepsUnique` | app/main.py:106-113 | appending a record with the next id keeps the ids unique |
| `Store.CreateThenGet` | app/main.py:104-114 | right after a create, a search for the new id finds the appended record |
| `Store.RemovedKeepsUnique` | app/main.py:130-134 | removing a todo keeps the remaining ids unique |
| `Store.DeleteThenGet` | app/main.py:129-134 | after deleting the todo with an id, a search for that id finds nothing |
| `Store.UpdateThenGet` | app/main.py:117-126 | replacing a todo by a record with the same id keeps ids unique, and the id is still found at the same position |
| `Store.RemovedMaxLeavesSmallerIds` | app/main.py:133 | once the holder of the largest id is removed, every remaining id is smaller than it |
| `Store.NextIdAfterDeletingMax` | app/main.py:106 | after deleting the holder of the largest (positive) id, the next id is at most the deleted one |
| `Store.IdReuse` | app/main.py:106 | if the id just below the largest is still in use, deleting the holder of the largest id makes the next create hand out that same id again |
| `Store.SeedIdReuse` | app/main.py:69-86 | with the seed list, deleting todo 2 makes the next id 2 again |
| `Store.SetAttrs` | app/main.py:122-123 | the `setattr` loop leaves the record that assigning every sent item in order gives |
| `Store.UpdateRecord` | app/main.py:121-124 | the in-place update of one found record yields its merge: id and `created_at` kept, `updated_at` set to `now` |
| `Store.TodoStore.constructor` | app/main.py:69-86 | the store starts as the two seed records, with the invariant established |
| `Store.TodoStore.Get` | app/main.py:96-101 | returns the todo at the first position holding the id, or `None` (404) exactly when no todo has it; the list is not changed |
| `Store.TodoStore.Create` | app/main.py:104-114 | appends a record with the next id, the payload's fields and `now` in both timestamps, returns it, and keeps the invariant |
| `Store.TodoStore.Update` | app/main.py:117-126 | replaces the first todo with the id by its merge and returns it, leaving every other position unchanged; `None` (404) leaves the list unchanged |
| `Store.TodoStore.Delete` | app/main.py:129-134 | removes and returns the first todo with the id, keeping the others in order; `None` (404) leaves the list unchanged |
| `Documents.ConvertDateToDatetime` | app/database.py:24-31 | same keys; every key but `deadline` keeps its value; a date or datetime deadline becomes midnight of the same day; without one, the document is returned unchanged |
| `Documents.ConvertIdempotent` | app/database.py:27-30 | converting twice gives the same document as converting once |
| `Documents.ConvertedDeadlineValid` | app/database.py:28-30 | the converted deadline of a valid date is a valid datetime |
| `Queries.Matches` | app/database.py:110-118 | a matching document holds every plain-valued field of the predicate with that value, and the empty predicate matches every document |
| `Queries.ScopedQuery` | app/database.py:53-55 | keys are `user_id` plus the query's keys, and query values override the base; `user_id` is the caller's id unless the query supplies one; no query or an empty one gives exactly `{"user_id": id}` |
| `Queries.ScopedToOwner` | app/database.py:53 | a predicate whose `user_id` condition is an id matches only documents of that user |
| `Queries.QueryCanOverrideOwner` | app/database.py:54-55 | a query carrying another user's `user_id` matches a document exactly when the document belongs to that other user, and the bare owner scope matches none of those documents |
| `Queries.UserTodosQuery` | app/database.py:51-70 | the owner-scoped query is sent unchanged unless `deadline` is a dictionary. Then string `$gte`/`$lt` bounds become their parsed datetimes, every other key and bound is kept, and an unparsable bound is an error (`$gte` checked first) |
| `Queries.DeadlinePredicate` | app/database.py:108-117 | keys `deadline` and `user_id`; the deadline is a `$gte`/`$lt` range whose two datetimes fall on the given day, lower before upper; the caller's id is always present |
| `Queries.DeadlinePredicateSelectsDay` | app/database.py:111-117 | a document matches exactly when it is the user's and its deadline is an instant of that day other than 23:59:59.999999 |
| `Queries.StoredDeadlineMatches` | app/database.py:105-119 | a document stored through the date conversion matches the deadline predicate for a day exactly when its deadline was that day and it is the user's |
| `Queries.AreaPredicate` | app/database.py:124 | the predicate has exactly the keys `area` and `user_id`, and the caller's id |
| `Queries.AreaPredicateSelectsArea` | app/database.py:122-124 | a document matches exactly when its area is the given string and it is the user's |

## Left out

- The FastAPI application and its wiring: CORS, the static mount, the route decorators, response models and JSON encoders (app/main.py:9-21, app/main.py:56-57). A 404 `HTTPException` is a `None` result.
- Pydantic parsing, defaults and serialisation. The field constraints are the predicates `ValidCreate`, `ValidUpdate` and `ValidTodo`. `CreateRequest` gives a create request the default priority `Low` (`DefaultPriority`) when the caller leaves it out; how the body's JSON is parsed into its arguments is not modelled. A 422 for an invalid payload is not modelled.
- The clock. `datetime.now()` is the parameter `now`, and the seed's `datetime.now().date()` is the parameter `today`. The source reads the clock separately for each default, and the two seed deadlines (app/main.py:76, app/main.py:84) are two separate readings; the model uses one `now` and one `today` for both records. `create_todo` also reads the clock twice (app/main.py:110-111); the model gives both timestamps the same `now`, so a new record's `created_at` and `updated_at` are equal in the model, while in the source `updated_at` can be slightly later. The model has no clock that only moves forward, so no ordering between `updated_at` and `created_at` is stated.
- Object identity. An update changes the stored record in place, and the handler returns that same object. The model replaces the list element by a new value, so the aliasing is not shown.
- Concurrent requests on the global list are not modelled: each handler runs as one atomic step.
- The MongoDB layer: client and collection setup, and `find_one`, `insert_one`, `find`, `find_one_and_update`, `delete_one` (app/database.py:9-21 and each use). The store is a boundary that receives a predicate or a document. User lookup and creation, and the `_id` added after inserts (app/database.py:34-43), are part of that layer.
- The debug prints in `get_user_todos` (app/database.py:72, app/database.py:74).
- Queries.UserTodosQuery: in the source, `base_query["deadline"]` is the caller's own nested dictionary. The bound rewriting therefore also changes the caller's query. The value model does not show this aliasing.
- Queries.Matches: only the features the predicates use are modelled:
  - equality on a field;
  - `$gte`/`$lt` between datetimes.

  Comparisons between other types, missing-field rules for null, and all other operators are not modelled.
  The model compares datetimes to the microsecond. BSON dates hold milliseconds only, and the MongoDB driver truncates the microseconds when it encodes a query. The store therefore sees the upper bound as 23:59:59.999, and what the real query excludes is the day's last millisecond. This is driver behaviour that the source does not show.
- `datetime.fromisoformat` and `datetime.strptime` (app/database.py:62, app/database.py:68, app/database.py:108) are not implemented. The first is the `parse` parameter. For the second, `get_todos_by_deadline` receives the parsed date, so its `ValueError` on a malformed date string is not modelled.
- app/check.py is not part of this model. It is not valid Python, and the store it sketches is the one of app/main.py without dates and areas.
- Authentication, tokens, password hashing and user registration are not part of this model.
