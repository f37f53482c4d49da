/**
  The records of the in-memory todo service: the `Priority` and `TodoArea`
  enumerations, the `TodoCreate` and `TodoUpdate` payloads, the stored
  `Todo`, the field constraints the payload models declare, and the
  partial-merge update that `update_todo` performs on a stored record.
 */
module Todos {
  import opened Wrappers
  import opened Calendar

  /** `Priority` is an integer enumeration: lower value, higher urgency. */
  datatype Priority = High | Medium | Low

  function PriorityValue(p: Priority): (n: int)
    ensures 1 <= n <= 3
  {
    match p
    case High => 1
    case Medium => 2
    case Low => 3
  }

  /** `Priority(n)`: `None` is the `ValueError` for a value outside the enumeration. */
  function PriorityFromValue(n: int): (r: Option<Priority>)
    ensures r.Some? <==> 1 <= n <= 3
    ensures r.Some? ==> PriorityValue(r.value) == n
  {
    if n == 1 then Some(High) else if n == 2 then Some(Medium) else if n == 3 then Some(Low) else None
  }

  lemma PriorityRoundTrip(p: Priority)
    ensures PriorityFromValue(PriorityValue(p)) == Some(p)
  {
  }

  /** The priority a `TodoCreate` gets when the caller gives none. */
  const DefaultPriority := Low

  /** `TodoArea` is a string enumeration of four topic areas. */
  datatype TodoArea = Sports | University | Life | Work

  function AreaName(a: TodoArea): (s: string)
    ensures |s| > 0
  {
    match a
    case Sports => "sports"
    case University => "university"
    case Life => "life"
    case Work => "work"
  }

  /** `TodoArea(s)`: `None` is the `ValueError` for a name outside the enumeration. */
  function AreaFromName(s: string): (r: Option<TodoArea>)
    ensures r.Some? ==> AreaName(r.value) == s
    ensures r.None? ==> forall a: TodoArea :: AreaName(a) != s
  {
    if s == "sports" then Some(Sports)
    else if s == "university" then Some(University)
    else if s == "life" then Some(Life)
    else if s == "work" then Some(Work)
    else None
  }

  lemma AreaRoundTrip(a: TodoArea)
    ensures AreaFromName(AreaName(a)) == Some(a)
  {
  }

  const MinTitleLength := 3
  const MaxTitleLength := 512

  predicate ValidTitle(title: string) {
    MinTitleLength <= |title| <= MaxTitleLength
  }

  /** The body of a create request, after parsing has filled in the default priority. */
  datatype TodoCreate = TodoCreate(
    title: string,
    description: string,
    priority: Priority,
    area: TodoArea,
    deadline: Date)

  /**
    A create request as parsing builds it from the request body: a
    priority the caller left out becomes `DefaultPriority`.
   */
  function CreateRequest(title: string, description: string, priority: Option<Priority>,
                         area: TodoArea, deadline: Date): (c: TodoCreate)
    ensures c.priority == (if priority.Some? then priority.value else Low)
    ensures c.title == title && c.description == description
    ensures c.area == area && c.deadline == deadline
  {
    TodoCreate(title, description, if priority.Some? then priority.value else DefaultPriority, area, deadline)
  }

  /** The constraints `TodoBase` declares on a create request. */
  predicate ValidCreate(c: TodoCreate)
    ensures ValidCreate(c) ==> 3 <= |c.title| <= 512 && 1 <= c.deadline.month <= 12
    ensures (&& 3 <= |c.title| <= 512 && 1 <= c.deadline.year <= 9999
             && 1 <= c.deadline.month <= 12 && 1 <= c.deadline.day <= 28) ==> ValidCreate(c)
  {
    ValidTitle(c.title) && ValidDate(c.deadline)
  }

  /**
    A stored todo. The five `TodoBase` fields are optional because
    `update_todo` can write an explicit `None` into any of them.
   */
  datatype Todo = Todo(
    id: int,
    title: Option<string>,
    description: Option<string>,
    priority: Option<Priority>,
    area: Option<TodoArea>,
    deadline: Option<Date>,
    createdAt: DateTime,
    updatedAt: DateTime)

  /** The constraints `TodoBase` declares, read on a stored record. */
  predicate ValidTodo(t: Todo)
    ensures ValidTodo(t) ==> t.title.Some? && 3 <= |t.title.value| <= 512
    ensures ValidTodo(t) ==>
              && t.description.Some? && t.priority.Some? && t.area.Some?
              && t.deadline.Some? && ValidDate(t.deadline.value)
    ensures (|| t.title == None || t.description == None || t.priority == None
             || t.area == None || t.deadline == None) ==> !ValidTodo(t)
  {
    && t.title.Some? && ValidTitle(t.title.value)
    && t.description.Some?
    && t.priority.Some?
    && t.area.Some?
    && t.deadline.Some? && ValidDate(t.deadline.value)
  }

  /** The record `create_todo` builds: the given id, the payload's fields, both timestamps `now`. */
  function NewTodo(id: int, c: TodoCreate, now: DateTime): (t: Todo)
    ensures t.id == id && t.createdAt == now && t.updatedAt == now
    ensures ValidTodo(t) <==> ValidCreate(c)
  {
    Todo(id, Some(c.title), Some(c.description), Some(c.priority), Some(c.area), Some(c.deadline), now, now)
  }

  /**
    One field of a `TodoUpdate`: `Unset` when the caller left it out of the
    request, `Set(None)` when the caller sent an explicit null.
   */
  datatype Patch<T> = Unset | Set(value: Option<T>)

  datatype TodoUpdate = TodoUpdate(
    title: Patch<string>,
    description: Patch<string>,
    priority: Patch<Priority>,
    area: Patch<TodoArea>,
    deadline: Patch<Date>)

  /** The constraints `TodoUpdate` declares: they bind only the values that are not null. */
  predicate ValidUpdate(u: TodoUpdate)
    ensures ValidUpdate(u) && u.title.Set? && u.title.value.Some? ==> 3 <= |u.title.value.value| <= 512
    ensures ValidUpdate(u) && u.deadline.Set? && u.deadline.value.Some? ==> ValidDate(u.deadline.value.value)
    ensures (u.title.Unset? || u.title == Set(None)) && (u.deadline.Unset? || u.deadline == Set(None))
            ==> ValidUpdate(u)
  {
    && (u.title.Set? && u.title.value.Some? ==> ValidTitle(u.title.value.value))
    && (u.deadline.Set? && u.deadline.value.Some? ==> ValidDate(u.deadline.value.value))
  }

  /** True when the caller sent an explicit null for some field. */
  predicate HasNull(u: TodoUpdate) {
    || u.title == Set(None)
    || u.description == Set(None)
    || u.priority == Set(None)
    || u.area == Set(None)
    || u.deadline == Set(None)
  }

  /** The value a field holds after a merge: the patch if it was sent, the current value otherwise. */
  function Patched<T>(p: Patch<T>, current: Option<T>): Option<T> {
    if p.Set? then p.value else current
  }

  /** One `(key, value)` item of `todo_update.dict(exclude_unset=True)`. */
  datatype Assignment =
    | TitleTo(title: Option<string>)
    | DescriptionTo(description: Option<string>)
    | PriorityTo(priority: Option<Priority>)
    | AreaTo(area: Option<TodoArea>)
    | DeadlineTo(deadline: Option<Date>)

  function TitlePart(u: TodoUpdate): (p: seq<Assignment>)
    ensures |p| <= 1 && (u.title.Set? <==> p != [])
    ensures u.title.Set? ==> TitleTo(u.title.value) in p
    ensures forall x :: x in p ==> FieldNo(x) == 0 && Sent(u, x)
  {
    if u.title.Set? then [TitleTo(u.title.value)] else []
  }

  function DescriptionPart(u: TodoUpdate): (p: seq<Assignment>)
    ensures |p| <= 1 && (u.description.Set? <==> p != [])
    ensures u.description.Set? ==> DescriptionTo(u.description.value) in p
    ensures forall x :: x in p ==> FieldNo(x) == 1 && Sent(u, x)
  {
    if u.description.Set? then [DescriptionTo(u.description.value)] else []
  }

  function PriorityPart(u: TodoUpdate): (p: seq<Assignment>)
    ensures |p| <= 1 && (u.priority.Set? <==> p != [])
    ensures u.priority.Set? ==> PriorityTo(u.priority.value) in p
    ensures forall x :: x in p ==> FieldNo(x) == 2 && Sent(u, x)
  {
    if u.priority.Set? then [PriorityTo(u.priority.value)] else []
  }

  function AreaPart(u: TodoUpdate): (p: seq<Assignment>)
    ensures |p| <= 1 && (u.area.Set? <==> p != [])
    ensures u.area.Set? ==> AreaTo(u.area.value) in p
    ensures forall x :: x in p ==> FieldNo(x) == 3 && Sent(u, x)
  {
    if u.area.Set? then [AreaTo(u.area.value)] else []
  }

  function DeadlinePart(u: TodoUpdate): (p: seq<Assignment>)
    ensures |p| <= 1 && (u.deadline.Set? <==> p != [])
    ensures u.deadline.Set? ==> DeadlineTo(u.deadline.value) in p
    ensures forall x :: x in p ==> FieldNo(x) == 4 && Sent(u, x)
  {
    if u.deadline.Set? then [DeadlineTo(u.deadline.value)] else []
  }

  /** Each field occurs at most once, and the fields occur in declaration order. */
  predicate InFieldOrder(data: seq<Assignment>) {
    forall k, l :: 0 <= k < l < |data| ==> FieldNo(data[k]) < FieldNo(data[l])
  }

  /** Appending at most one item of field `n` after items of earlier fields keeps the order. */
  lemma AppendInFieldOrder(a: seq<Assignment>, b: seq<Assignment>, n: nat)
    requires InFieldOrder(a) && (forall x :: x in a ==> FieldNo(x) < n)
    requires |b| <= 1 && forall x :: x in b ==> FieldNo(x) == n
    ensures InFieldOrder(a + b)
    ensures forall x :: x in a + b ==> FieldNo(x) <= n
  {
    forall k, l | 0 <= k < l < |a + b|
      ensures FieldNo((a + b)[k]) < FieldNo((a + b)[l])
    {
      if l >= |a| {
        assert (a + b)[k] == a[k] && (a + b)[k] in a;
        assert (a + b)[l] in b;
      } else {
        assert (a + b)[k] == a[k] && (a + b)[l] == a[l];
      }
    }
  }

  /** The caller sent this item's value for this item's field. */
  predicate Sent(u: TodoUpdate, a: Assignment) {
    match a
    case TitleTo(v) => u.title == Set(v)
    case DescriptionTo(v) => u.description == Set(v)
    case PriorityTo(v) => u.priority == Set(v)
    case AreaTo(v) => u.area == Set(v)
    case DeadlineTo(v) => u.deadline == Set(v)
  }

  lemma AppendSent(u: TodoUpdate, a: seq<Assignment>, b: seq<Assignment>)
    requires (forall x :: x in a ==> Sent(u, x)) && forall x :: x in b ==> Sent(u, x)
    ensures forall x :: x in a + b ==> Sent(u, x)
  {
  }

  /** The position of an item's field in the declaration order of `TodoUpdate`. */
  function FieldNo(a: Assignment): nat {
    match a
    case TitleTo(_) => 0
    case DescriptionTo(_) => 1
    case PriorityTo(_) => 2
    case AreaTo(_) => 3
    case DeadlineTo(_) => 4
  }

  /**
    `todo_update.dict(exclude_unset=True)`: one item for each field the
    caller sent, carrying the value sent, in declaration order, and nothing
    else.
   */
  function UpdateData(u: TodoUpdate): (data: seq<Assignment>)
    ensures |data| <= 5
    ensures InFieldOrder(data)
    ensures u.title.Set? ==> TitleTo(u.title.value) in data
    ensures u.description.Set? ==> DescriptionTo(u.description.value) in data
    ensures u.priority.Set? ==> PriorityTo(u.priority.value) in data
    ensures u.area.Set? ==> AreaTo(u.area.value) in data
    ensures u.deadline.Set? ==> DeadlineTo(u.deadline.value) in data
    ensures forall a :: a in data ==> Sent(u, a)
    ensures u == TodoUpdate(Unset, Unset, Unset, Unset, Unset) <==> data == []
  {
    var d1 := TitlePart(u);
    var d2 := d1 + DescriptionPart(u);
    AppendInFieldOrder(d1, DescriptionPart(u), 1);
    AppendSent(u, d1, DescriptionPart(u));
    var d3 := d2 + PriorityPart(u);
    AppendInFieldOrder(d2, PriorityPart(u), 2);
    AppendSent(u, d2, PriorityPart(u));
    var d4 := d3 + AreaPart(u);
    AppendInFieldOrder(d3, AreaPart(u), 3);
    AppendSent(u, d3, AreaPart(u));
    var d5 := d4 + DeadlinePart(u);
    AppendInFieldOrder(d4, DeadlinePart(u), 4);
    AppendSent(u, d4, DeadlinePart(u));
    d5
  }

  /** `setattr(todo, key, value)` for one item of the update data. */
  function SetAttr(t: Todo, a: Assignment): (r: Todo)
    ensures r.id == t.id && r.createdAt == t.createdAt && r.updatedAt == t.updatedAt
    ensures r.title == (if a.TitleTo? then a.title else t.title)
    ensures r.description == (if a.DescriptionTo? then a.description else t.description)
    ensures r.priority == (if a.PriorityTo? then a.priority else t.priority)
    ensures r.area == (if a.AreaTo? then a.area else t.area)
    ensures r.deadline == (if a.DeadlineTo? then a.deadline else t.deadline)
  {
    match a
    case TitleTo(v) => t.(title := v)
    case DescriptionTo(v) => t.(description := v)
    case PriorityTo(v) => t.(priority := v)
    case AreaTo(v) => t.(area := v)
    case DeadlineTo(v) => t.(deadline := v)
  }

  /** The record after the `setattr` loop has run over all of `data`, in order. */
  function SetAll(t: Todo, data: seq<Assignment>): (r: Todo)
    ensures r.id == t.id && r.createdAt == t.createdAt && r.updatedAt == t.updatedAt
    decreases |data|
  {
    if data == [] then t else SetAttr(SetAll(t, data[..|data| - 1]), data[|data| - 1])
  }

  /** Running the loop over `a + b` is running it over `a`, then over `b`. */
  lemma {:induction false} SetAllConcat(t: Todo, a: seq<Assignment>, b: seq<Assignment>)
    ensures SetAll(t, a + b) == SetAll(SetAll(t, a), b)
    decreases |b|
  {
    if b == [] {
      assert a + b == a;
    } else {
      var b' := b[..|b| - 1];
      assert (a + b)[..|a + b| - 1] == a + b';
      assert (a + b)[|a + b| - 1] == b[|b| - 1];
      SetAllConcat(t, a, b');
    }
  }

  lemma SetAllSingle(t: Todo, a: seq<Assignment>)
    requires |a| <= 1
    ensures SetAll(t, a) == if a == [] then t else SetAttr(t, a[0])
  {
  }

  /** The record `update_todo` leaves behind: the `setattr` loop, then `updated_at` refreshed. */
  function Merge(t: Todo, u: TodoUpdate, now: DateTime): (r: Todo)
    ensures r.id == t.id && r.createdAt == t.createdAt && r.updatedAt == now
  {
    SetAll(t, UpdateData(u)).(updatedAt := now)
  }

  /**
    A merge changes exactly the fields the caller sent, writing an explicit
    null through as null, and refreshes `updated_at`; the id, `created_at`
    and every field the caller left out keep their values.
   */
  lemma MergeSemantics(t: Todo, u: TodoUpdate, now: DateTime)
    ensures Merge(t, u, now) == Todo(
      t.id,
      Patched(u.title, t.title),
      Patched(u.description, t.description),
      Patched(u.priority, t.priority),
      Patched(u.area, t.area),
      Patched(u.deadline, t.deadline),
      t.createdAt,
      now)
    ensures Merge(t, u, now).id == t.id && Merge(t, u, now).createdAt == t.createdAt
  {
    var p1, p2, p3, p4, p5 := TitlePart(u), DescriptionPart(u), PriorityPart(u), AreaPart(u), DeadlinePart(u);
    var t1 := SetAll(t, p1);
    assert t1 == t.(title := Patched(u.title, t.title)) by { SetAllSingle(t, p1); }
    var t2 := SetAll(t1, p2);
    assert t2 == t1.(description := Patched(u.description, t.description)) by { SetAllSingle(t1, p2); }
    var t3 := SetAll(t2, p3);
    assert t3 == t2.(priority := Patched(u.priority, t.priority)) by { SetAllSingle(t2, p3); }
    var t4 := SetAll(t3, p4);
    assert t4 == t3.(area := Patched(u.area, t.area)) by { SetAllSingle(t3, p4); }
    var t5 := SetAll(t4, p5);
    assert t5 == t4.(deadline := Patched(u.deadline, t.deadline)) by { SetAllSingle(t4, p5); }
    assert SetAll(t, UpdateData(u)) == t5 by {
      assert UpdateData(u) == (p1 + p2 + p3 + p4) + p5;
      SetAllConcat(t, p1 + p2 + p3 + p4, p5);
      SetAllConcat(t, p1 + p2 + p3, p4);
      SetAllConcat(t, p1 + p2, p3);
      SetAllConcat(t, p1, p2);
    }
  }

  /** An update that sends nothing only refreshes `updated_at`. */
  lemma EmptyUpdateOnlyRefreshes(t: Todo, now: DateTime)
    ensures Merge(t, TodoUpdate(Unset, Unset, Unset, Unset, Unset), now) == t.(updatedAt := now)
  {
  }

  /**
    A valid record stays valid under a valid update exactly when the update
    sends no explicit null: the null is written into a required field.
   */
  lemma MergeKeepsValidity(t: Todo, u: TodoUpdate, now: DateTime)
    requires ValidTodo(t) && ValidUpdate(u)
    ensures ValidTodo(Merge(t, u, now)) <==> !HasNull(u)
  {
    MergeSemantics(t, u, now);
  }
}
