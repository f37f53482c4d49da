/**
  The in-memory todo table: the global list `todos_db` and the request
  handlers that read it (`list_todos`, `get_todo`, the deadline and area
  filters) and change it (`create_todo`, `update_todo`, `delete_todo`).
  A handler's 404 is a `None` result.
 */
module Store {
  import opened Wrappers
  import opened Calendar
  import opened Todos

  /** No two todos in the list share an id. */
  predicate UniqueIds(s: seq<Todo>) {
    forall i, j :: 0 <= i < j < |s| ==> s[i].id != s[j].id
  }

  /** Every id is at least 1, as the seed and `create_todo` hand them out. */
  predicate PositiveIds(s: seq<Todo>) {
    forall i :: 0 <= i < |s| ==> s[i].id >= 1
  }

  /** `max([todo.id for todo in s], default=0)`. */
  function MaxId(s: seq<Todo>): (m: int)
    ensures s == [] ==> m == 0
    ensures forall i :: 0 <= i < |s| ==> s[i].id <= m
    ensures s != [] ==> exists i :: 0 <= i < |s| && s[i].id == m
  {
    if s == [] then 0
    else if |s| == 1 then s[0].id
    else
      var m := MaxId(s[1..]);
      assert forall i :: 1 <= i < |s| ==> s[i] == s[1..][i - 1];
      if s[0].id >= m then s[0].id else m
  }

  /** The id `create_todo` assigns: larger than every id in the list. */
  function NextId(s: seq<Todo>): (n: int)
    ensures forall i :: 0 <= i < |s| ==> s[i].id < n
    ensures s == [] ==> n == 1
  {
    MaxId(s) + 1
  }

  /** The position of the first todo with the given id, as the handlers' `for` loops find it. */
  function FirstIndex(s: seq<Todo>, id: int): (r: Option<nat>)
    ensures r.Some? ==> r.value < |s| && s[r.value].id == id
    ensures r.Some? ==> forall j :: 0 <= j < r.value ==> s[j].id != id
    ensures r.None? <==> forall j :: 0 <= j < |s| ==> s[j].id != id
  {
    if s == [] then None
    else if s[0].id == id then Some(0)
    else
      var r := FirstIndex(s[1..], id);
      assert forall j :: 1 <= j < |s| ==> s[j] == s[1..][j - 1];
      if r.Some? then Some(r.value + 1) else None
  }

  /** The list after `pop(i)`: position `i` is gone and the rest keep their order. */
  function Removed(s: seq<Todo>, i: nat): (r: seq<Todo>)
    requires i < |s|
    ensures |r| == |s| - 1
    ensures forall k :: 0 <= k < i ==> r[k] == s[k]
    ensures forall k :: i <= k < |r| ==> r[k] == s[k + 1]
  {
    s[..i] + s[i + 1..]
  }

  /** Python's `s[:n]`: a negative `n` counts from the end. */
  function SliceTo(s: seq<Todo>, n: int): (r: seq<Todo>)
    ensures r <= s
    ensures |r| == if n >= 0 then (if n <= |s| then n else |s|) else (if |s| + n >= 0 then |s| + n else 0)
  {
    if n >= 0 then (if n <= |s| then s[..n] else s)
    else if |s| + n >= 0 then s[..|s| + n]
    else []
  }

  /**
    `list_todos(first_n)`: the whole list when `first_n` is falsy (absent
    or 0), otherwise the prefix `todos_db[:first_n]`.
   */
  function ListTodos(s: seq<Todo>, firstN: Option<int>): (r: seq<Todo>)
    ensures r <= s
    ensures firstN == None || firstN == Some(0) ==> r == s
    ensures firstN.Some? && firstN.value > 0 ==>
              |r| == if firstN.value <= |s| then firstN.value else |s|
    ensures firstN.Some? && firstN.value < 0 ==>
              |r| == if |s| + firstN.value >= 0 then |s| + firstN.value else 0
  {
    if firstN.Some? && firstN.value != 0 then SliceTo(s, firstN.value) else s
  }

  /** A list comprehension `[todo for todo in s if p(todo)]`. */
  function Filter(s: seq<Todo>, p: Todo -> bool): (r: seq<Todo>)
    ensures |r| <= |s|
    ensures forall x :: x in r <==> x in s && p(x)
  {
    if s == [] then []
    else
      var rest := Filter(s[1..], p);
      assert forall x :: x in s <==> x == s[0] || x in s[1..];
      if p(s[0]) then [s[0]] + rest else rest
  }

  /** Filtering a concatenation filters each part and keeps them in order. */
  lemma {:induction false} FilterConcat(a: seq<Todo>, b: seq<Todo>, p: Todo -> bool)
    ensures Filter(a + b, p) == Filter(a, p) + Filter(b, p)
  {
    if a == [] {
      assert a + b == b;
    } else {
      assert (a + b)[1..] == a[1..] + b;
      FilterConcat(a[1..], b, p);
    }
  }

  /** A filter keeps everything only when everything passes. */
  lemma {:induction false} FilterAll(s: seq<Todo>, p: Todo -> bool)
    ensures Filter(s, p) == s <==> forall i :: 0 <= i < |s| ==> p(s[i])
  {
    if s != [] {
      FilterAll(s[1..], p);
    }
  }

  /** `get_todos_by_deadline`: the todos due on `d`, in list order. */
  function ByDeadline(s: seq<Todo>, d: Date): (r: seq<Todo>)
    ensures forall t :: t in r <==> t in s && t.deadline == Some(d)
  {
    Filter(s, (t: Todo) => t.deadline == Some(d))
  }

  /** `get_todos_by_area`: the todos in area `a`, in list order. */
  function ByArea(s: seq<Todo>, a: TodoArea): (r: seq<Todo>)
    ensures forall t :: t in r <==> t in s && t.area == Some(a)
  {
    Filter(s, (t: Todo) => t.area == Some(a))
  }

  /** Both filters are idempotent: filtering their result again changes nothing. */
  lemma FiltersIdempotent(s: seq<Todo>, d: Date, a: TodoArea)
    ensures ByDeadline(ByDeadline(s, d), d) == ByDeadline(s, d)
    ensures ByArea(ByArea(s, a), a) == ByArea(s, a)
  {
    var r := ByDeadline(s, d);
    FilterAll(r, (t: Todo) => t.deadline == Some(d));
    var q := ByArea(s, a);
    FilterAll(q, (t: Todo) => t.area == Some(a));
  }

  /** The two records `todos_db` starts with: ids 1 and 2, valid when `today` is a valid date. */
  function Seed(today: Date, now: DateTime): (s: seq<Todo>)
    ensures |s| == 2 && s[0].id == 1 && s[1].id == 2
    ensures UniqueIds(s) && PositiveIds(s)
    ensures ValidDate(today) ==> forall i :: 0 <= i < |s| ==> ValidTodo(s[i])
  {
    [ Todo(1, Some("Complete Project"), Some("Finish the FastAPI todo project"),
           Some(High), Some(Work), Some(today), now, now),
      Todo(2, Some("Review Code"), Some("Review pull requests"),
           Some(Medium), Some(Work), Some(today), now, now) ]
  }

  /** A created todo's id is fresh, so the ids stay unique. */
  lemma AppendFreshKeepsUnique(s: seq<Todo>, t: Todo)
    requires UniqueIds(s) && t.id == NextId(s)
    ensures UniqueIds(s + [t])
  {
  }

  /** Right after `create_todo`, `get_todo` on the new id finds the new record. */
  lemma CreateThenGet(s: seq<Todo>, c: TodoCreate, now: DateTime)
    ensures FirstIndex(s + [NewTodo(NextId(s), c, now)], NextId(s)) == Some(|s|)
  {
    var id := NextId(s);
    var u := s + [NewTodo(id, c, now)];
    assert u[|s|].id == id;
    assert forall j :: 0 <= j < |s| ==> u[j] == s[j];
    var r := FirstIndex(u, id);
    assert r.Some?;
    assert r.value == |s|;
  }

  /** Removing one todo keeps the remaining ids unique. */
  lemma RemovedKeepsUnique(s: seq<Todo>, i: nat)
    requires UniqueIds(s) && i < |s|
    ensures UniqueIds(Removed(s, i))
  {
  }

  /** After `delete_todo` removes the todo with id `s[i].id`, that id is no longer found. */
  lemma DeleteThenGet(s: seq<Todo>, i: nat)
    requires UniqueIds(s) && i < |s|
    ensures FirstIndex(Removed(s, i), s[i].id) == None
  {
  }

  /** An update keeps every id where it was, so the same id is found at the same place. */
  lemma UpdateThenGet(s: seq<Todo>, i: nat, t: Todo)
    requires UniqueIds(s) && i < |s| && t.id == s[i].id
    ensures UniqueIds(s[i := t])
    ensures PositiveIds(s) ==> PositiveIds(s[i := t])
    ensures FirstIndex(s[i := t], t.id) == Some(i)
  {
    var r := s[i := t];
    assert forall k :: 0 <= k < |s| ==> r[k].id == s[k].id;
  }

  /** Every id left after removing the holder of the largest id is smaller than it. */
  lemma RemovedMaxLeavesSmallerIds(s: seq<Todo>, i: nat)
    requires UniqueIds(s) && i < |s| && s[i].id == MaxId(s)
    ensures forall k :: 0 <= k < |Removed(s, i)| ==> Removed(s, i)[k].id < s[i].id
  {
  }

  /**
    Once the todo holding the largest id is deleted, the next `create_todo`
    assigns an id no larger than the deleted one (ids the store hands out
    are positive; a lone todo with id 0 or less would be followed by 1).
   */
  lemma NextIdAfterDeletingMax(s: seq<Todo>, i: nat)
    requires UniqueIds(s) && i < |s| && s[i].id == MaxId(s) && s[i].id >= 1
    ensures NextId(Removed(s, i)) <= s[i].id
  {
  }

  /**
    Ids are reused: when the id just below the largest one is still in use
    at position `j`, deleting the holder of the largest id and creating a
    todo hands out the deleted id again.
   */
  lemma IdReuse(s: seq<Todo>, i: nat, j: nat)
    requires UniqueIds(s) && i < |s| && s[i].id == MaxId(s)
    requires j < |s| && j != i && s[j].id == s[i].id - 1
    ensures NextId(Removed(s, i)) == s[i].id
  {
    RemovedMaxLeavesSmallerIds(s, i);
    var r := Removed(s, i);
    var j' := if j < i then j else j - 1;
    assert r[j'] == s[j];
  }

  /** With the seeded list: delete the todo 2, and the next create hands out id 2 again. */
  lemma SeedIdReuse(today: Date, now: DateTime)
    ensures NextId(Removed(Seed(today, now), 1)) == 2
  {
  }

  /** The `setattr` loop of `update_todo`: assign the items of `data` to the record, in order. */
  method SetAttrs(t: Todo, data: seq<Assignment>) returns (r: Todo)
    ensures r == SetAll(t, data)
  {
    r := t;
    var k := 0;
    while k < |data|
      invariant 0 <= k <= |data|
      invariant r == SetAll(t, data[..k])
    {
      assert data[..k + 1][..k] == data[..k];
      r := SetAttr(r, data[k]);
      k := k + 1;
    }
    assert data[..k] == data;
  }

  /** The body of `update_todo` once the record is found: the `setattr` loop, then `updated_at`. */
  method UpdateRecord(t: Todo, u: TodoUpdate, now: DateTime) returns (r: Todo)
    ensures r == Merge(t, u, now)
    ensures r.id == t.id && r.createdAt == t.createdAt && r.updatedAt == now
  {
    r := SetAttrs(t, UpdateData(u));
    r := r.(updatedAt := now);
  }

  /** The global `todos_db`, whose handlers read and change it in place. */
  class TodoStore {
    var todos: seq<Todo>

    ghost predicate Valid()
      reads this
    {
      UniqueIds(todos) && PositiveIds(todos)
    }

    /** The list as the module loads it. */
    constructor (today: Date, now: DateTime)
      ensures todos == Seed(today, now)
      ensures Valid()
    {
      todos := Seed(today, now);
    }

    /** `get_todo`: the first todo with the given id, or `None` for the 404. */
    method Get(id: int) returns (r: Option<Todo>)
      ensures r.Some? <==> FirstIndex(todos, id).Some?
      ensures r.Some? ==> r.value == todos[FirstIndex(todos, id).value]
    {
      var i := 0;
      while i < |todos|
        invariant 0 <= i <= |todos|
        invariant forall j :: 0 <= j < i ==> todos[j].id != id
      {
        if todos[i].id == id {
          return Some(todos[i]);
        }
        i := i + 1;
      }
      return None;
    }

    /** `create_todo`: append a record with a fresh id and both timestamps `now`. */
    method Create(c: TodoCreate, now: DateTime) returns (t: Todo)
      requires Valid()
      modifies this
      ensures Valid()
      ensures t == NewTodo(NextId(old(todos)), c, now)
      ensures todos == old(todos) + [t]
    {
      t := NewTodo(NextId(todos), c, now);
      AppendFreshKeepsUnique(todos, t);
      todos := todos + [t];
    }

    /**
      `update_todo`: merge the fields the caller sent into the first todo
      with the given id, in place, and return it; `None` (the 404) leaves
      the list as it was.
     */
    method Update(id: int, u: TodoUpdate, now: DateTime) returns (r: Option<Todo>)
      requires Valid()
      modifies this
      ensures Valid()
      ensures FirstIndex(old(todos), id).None? ==> r == None && todos == old(todos)
      ensures FirstIndex(old(todos), id).Some? ==>
                var i := FirstIndex(old(todos), id).value;
                r == Some(Merge(old(todos)[i], u, now)) && todos == old(todos)[i := r.value]
    {
      var i := 0;
      while i < |todos| && todos[i].id != id
        invariant 0 <= i <= |todos|
        invariant forall j :: 0 <= j < i ==> todos[j].id != id
      {
        i := i + 1;
      }
      if i == |todos| {
        return None;
      }
      ghost var before := todos;
      assert FirstIndex(before, id) == Some(i);
      var todo := UpdateRecord(todos[i], u, now);
      UpdateThenGet(todos, i, todo);
      todos := todos[i := todo];
      r := Some(todo);
    }

    /**
      `delete_todo`: remove the first todo with the given id and return it;
      `None` (the 404) leaves the list as it was.
     */
    method Delete(id: int) returns (r: Option<Todo>)
      requires Valid()
      modifies this
      ensures Valid()
      ensures FirstIndex(old(todos), id).None? ==> r == None && todos == old(todos)
      ensures FirstIndex(old(todos), id).Some? ==>
                var i := FirstIndex(old(todos), id).value;
                r == Some(old(todos)[i]) && todos == Removed(old(todos), i)
    {
      var i := 0;
      while i < |todos|
        invariant 0 <= i <= |todos|
        invariant forall j :: 0 <= j < i ==> todos[j].id != id
      {
        if todos[i].id == id {
          r := Some(todos[i]);
          RemovedKeepsUnique(todos, i);
          todos := Removed(todos, i);
          return;
        }
        i := i + 1;
      }
      return None;
    }
  }
}
