/**
  The query predicates the MongoDB layer builds: the owner-scoped query of
  `get_user_todos`, with its string deadline bounds turned into datetimes,
  and the fixed predicates of `get_todos_by_deadline` and
  `get_todos_by_area`. `Matches` gives them a meaning: the part of the
  store's query language they use (equality on a field, `$gte` and `$lt`
  on datetimes).
 */
module Queries {
  import opened Wrappers
  import opened Calendar
  import opened Documents

  const UserIdKey := "user_id"
  const AreaKey := "area"
  const GteOp := "$gte"
  const LtOp := "$lt"

  /** `datetime.fromisoformat` rejected the string bound `text` of operator `op`. */
  datatype QueryError = InvalidIsoFormat(op: string, text: string)

  function Lookup(doc: Document, key: string): Option<Value> {
    if key in doc then Some(doc[key]) else None
  }

  /** A dictionary whose keys are all operators, such as `{"$gte": ..., "$lt": ...}`. */
  predicate IsOperatorDict(cond: Value) {
    cond.Dict? && cond.fields != map[] && forall op :: op in cond.fields ==> |op| > 0 && op[0] == '$'
  }

  /** One comparison operator against a field value; only datetime comparisons are modelled. */
  predicate OperatorHolds(op: string, bound: Value, v: Option<Value>) {
    && v.Some? && v.value.DateTimeV? && bound.DateTimeV?
    && ((op == GteOp && !Before(v.value.dateTime, bound.dateTime))
        || (op == LtOp && Before(v.value.dateTime, bound.dateTime)))
  }

  predicate FieldMatches(cond: Value, v: Option<Value>) {
    if IsOperatorDict(cond) then
      forall op :: op in cond.fields ==> OperatorHolds(op, cond.fields[op], v)
    else
      v == Some(cond)
  }

  /**
    A stored document satisfies a predicate when every condition holds of
    its field: a plain value must equal the field, an operator dictionary
    must have all its comparisons hold.
   */
  predicate Matches(pred: Document, doc: Document)
    ensures Matches(pred, doc) ==>
              forall k :: k in pred && !IsOperatorDict(pred[k]) ==> k in doc && doc[k] == pred[k]
    ensures pred == map[] ==> Matches(pred, doc)
  {
    forall k :: k in pred ==> FieldMatches(pred[k], Lookup(doc, k))
  }

  /** A predicate whose `user_id` condition is an id selects only that user's documents. */
  lemma ScopedToOwner(pred: Document, userId: int, doc: Document)
    requires UserIdKey in pred && pred[UserIdKey] == Int(userId)
    requires Matches(pred, doc)
    ensures Lookup(doc, UserIdKey) == Some(Int(userId))
  {
  }

  function QueryKeys(query: Option<Document>): set<string> {
    if query.Some? then query.value.Keys else {}
  }

  /**
    `base_query` of `get_user_todos` before its bounds are converted:
    `{"user_id": user_id}` updated with the caller's query, whose keys win,
    a `user_id` among them included.
   */
  function ScopedQuery(userId: int, query: Option<Document>): (q: Document)
    ensures q.Keys == {UserIdKey} + QueryKeys(query)
    ensures forall k :: k in QueryKeys(query) ==> q[k] == query.value[k]
    ensures UserIdKey !in QueryKeys(query) ==> q[UserIdKey] == Int(userId)
    ensures query == None || query == Some(map[]) ==> q == map[UserIdKey := Int(userId)]
  {
    var base := map[UserIdKey := Int(userId)];
    if query.Some? && query.value != map[] then base + query.value else base
  }

  /**
    The caller's query can replace the owner scope: with a `user_id` key of
    another user, the query selects exactly that user's documents, and the
    bare owner scope does not select them.
   */
  lemma QueryCanOverrideOwner(userId: int, other: int, doc: Document)
    requires userId != other
    ensures Matches(ScopedQuery(userId, Some(map[UserIdKey := Int(other)])), doc) <==>
              Lookup(doc, UserIdKey) == Some(Int(other))
    ensures Lookup(doc, UserIdKey) == Some(Int(other)) ==> !Matches(ScopedQuery(userId, None), doc)
  {
    var q := ScopedQuery(userId, Some(map[UserIdKey := Int(other)]));
    assert q == map[UserIdKey := Int(other)];
    assert !IsOperatorDict(Int(other));
    if Matches(q, doc) {
      assert FieldMatches(q[UserIdKey], Lookup(doc, UserIdKey));
    }
    var base := ScopedQuery(userId, None);
    assert !FieldMatches(base[UserIdKey], Some(Int(other)));
  }

  /** `fromisoformat` on the string bound `op` fails. */
  predicate BoundFails(bounds: map<string, Value>, op: string, parse: string -> Option<DateTime>) {
    op in bounds && bounds[op].Str? && parse(bounds[op].s).None?
  }

  /** The bound `op` after conversion: a string becomes the datetime it parses to. */
  function ConvertedBound(bounds: map<string, Value>, op: string, parse: string -> Option<DateTime>): Value
    requires op in bounds
  {
    if (op == GteOp || op == LtOp) && bounds[op].Str? && parse(bounds[op].s).Some?
    then DateTimeV(parse(bounds[op].s).value)
    else bounds[op]
  }

  predicate HasBoundDict(q: Document) {
    DeadlineKey in q && q[DeadlineKey].Dict?
  }

  /**
    The query `get_user_todos` sends: the owner-scoped query, with a string
    `$gte` or `$lt` inside a dictionary-valued `deadline` replaced by the
    datetime `parse` (standing for `datetime.fromisoformat`) gives; a
    string it cannot parse is the `ValueError`, `$gte` checked first.
   */
  method UserTodosQuery(userId: int, query: Option<Document>, parse: string -> Option<DateTime>)
    returns (r: Result<Document, QueryError>)
    ensures !HasBoundDict(ScopedQuery(userId, query)) ==> r == Ok(ScopedQuery(userId, query))
    ensures HasBoundDict(ScopedQuery(userId, query)) ==>
              var q := ScopedQuery(userId, query);
              var bounds := q[DeadlineKey].fields;
              && (r.Err? <==> BoundFails(bounds, GteOp, parse) || BoundFails(bounds, LtOp, parse))
              && (r.Err? ==> r.error == if BoundFails(bounds, GteOp, parse)
                                         then InvalidIsoFormat(GteOp, bounds[GteOp].s)
                                         else InvalidIsoFormat(LtOp, bounds[LtOp].s))
              && (r.Ok? ==>
                    && r.value.Keys == q.Keys
                    && (forall k :: k in q && k != DeadlineKey ==> r.value[k] == q[k])
                    && r.value[DeadlineKey].Dict?
                    && r.value[DeadlineKey].fields.Keys == bounds.Keys
                    && forall op :: op in bounds ==>
                         r.value[DeadlineKey].fields[op] == ConvertedBound(bounds, op, parse))
  {
    var baseQuery := map[UserIdKey := Int(userId)];
    if query.Some? && query.value != map[] {
      baseQuery := baseQuery + query.value;
    }
    if DeadlineKey in baseQuery && baseQuery[DeadlineKey].Dict? {
      var bounds := baseQuery[DeadlineKey].fields;
      if GteOp in bounds && bounds[GteOp].Str? {
        var parsed := parse(bounds[GteOp].s);
        if parsed.None? {
          return Err(InvalidIsoFormat(GteOp, bounds[GteOp].s));
        }
        bounds := bounds[GteOp := DateTimeV(parsed.value)];
      }
      if LtOp in bounds && bounds[LtOp].Str? {
        var parsed := parse(bounds[LtOp].s);
        if parsed.None? {
          return Err(InvalidIsoFormat(LtOp, bounds[LtOp].s));
        }
        bounds := bounds[LtOp := DateTimeV(parsed.value)];
      }
      baseQuery := baseQuery[DeadlineKey := Dict(bounds)];
    }
    return Ok(baseQuery);
  }

  /** The predicate of `get_todos_by_deadline` for the day `d` (the date `strptime` gave). */
  function DeadlinePredicate(d: Date, userId: int): (p: Document)
    ensures p.Keys == {DeadlineKey, UserIdKey}
    ensures p[UserIdKey] == Int(userId)
    ensures IsOperatorDict(p[DeadlineKey]) && p[DeadlineKey].fields.Keys == {GteOp, LtOp}
    ensures p[DeadlineKey].fields[GteOp].DateTimeV? && p[DeadlineKey].fields[LtOp].DateTimeV?
    ensures Before(p[DeadlineKey].fields[GteOp].dateTime, p[DeadlineKey].fields[LtOp].dateTime)
    ensures p[DeadlineKey].fields[GteOp].dateTime.date == d && p[DeadlineKey].fields[LtOp].dateTime.date == d
  {
    var bounds := map[GteOp := DateTimeV(Combine(d, MinTime)), LtOp := DateTimeV(Combine(d, MaxTime))];
    assert GteOp in bounds;
    map[DeadlineKey := Dict(bounds), UserIdKey := Int(userId)]
  }

  /**
    The deadline predicate selects the user's documents whose deadline is an
    instant of day `d` before 23:59:59.999999: the upper bound is exclusive.
   */
  lemma DeadlinePredicateSelectsDay(d: Date, userId: int, doc: Document)
    requires DeadlineKey in doc && doc[DeadlineKey].DateTimeV? ==> ValidTime(doc[DeadlineKey].dateTime.time)
    ensures Matches(DeadlinePredicate(d, userId), doc) <==>
              && Lookup(doc, UserIdKey) == Some(Int(userId))
              && DeadlineKey in doc && doc[DeadlineKey].DateTimeV?
              && doc[DeadlineKey].dateTime.date == d
              && doc[DeadlineKey].dateTime.time != MaxTime
  {
  }

  /**
    A todo stored through `convert_date_to_datetime` is selected by the
    deadline predicate for day `d` exactly when its deadline was day `d`
    and it belongs to the user.
   */
  lemma StoredDeadlineMatches(d: Date, userId: int, data: Document)
    requires HasDateDeadline(data)
    ensures Matches(DeadlinePredicate(d, userId), ConvertDateToDatetime(data)) <==>
              DayOf(data[DeadlineKey]) == d && Lookup(data, UserIdKey) == Some(Int(userId))
  {
  }

  /** The predicate of `get_todos_by_area`. */
  function AreaPredicate(area: string, userId: int): (p: Document)
    ensures p.Keys == {AreaKey, UserIdKey}
    ensures p[UserIdKey] == Int(userId)
  {
    map[AreaKey := Str(area), UserIdKey := Int(userId)]
  }

  /** The area predicate selects exactly the user's documents in that area. */
  lemma AreaPredicateSelectsArea(area: string, userId: int, doc: Document)
    ensures Matches(AreaPredicate(area, userId), doc) <==>
              Lookup(doc, AreaKey) == Some(Str(area)) && Lookup(doc, UserIdKey) == Some(Int(userId))
  {
  }
}
