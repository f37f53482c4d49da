/**
  Documents as the MongoDB layer sends and receives them: string-keyed
  dictionaries of values, and `convert_date_to_datetime`, which prepares a
  todo document for storage.
 */
module Documents {
  import opened Calendar

  /** The Python values that occur in todo documents and queries. */
  datatype Value =
    | Null
    | Bool(b: bool)
    | Int(i: int)
    | Str(s: string)
    | DateV(date: Date)
    | DateTimeV(dateTime: DateTime)
    | Dict(fields: map<string, Value>)

  type Document = map<string, Value>

  const DeadlineKey := "deadline"

  /** `isinstance(v, date)`: true of datetimes as well, since `datetime` subclasses `date`. */
  predicate IsDate(v: Value) {
    v.DateV? || v.DateTimeV?
  }

  /** The calendar day of a date or datetime. */
  function DayOf(v: Value): Date
    requires IsDate(v)
  {
    if v.DateV? then v.date else v.dateTime.date
  }

  predicate HasDateDeadline(data: Document) {
    DeadlineKey in data && IsDate(data[DeadlineKey])
  }

  /**
    `convert_date_to_datetime`: a copy of `data` whose date-valued
    `deadline` becomes midnight of the same day; every other key keeps its
    value, and a document without a date deadline comes back unchanged.
   */
  function ConvertDateToDatetime(data: Document): (r: Document)
    ensures r.Keys == data.Keys
    ensures forall k :: k in data && k != DeadlineKey ==> r[k] == data[k]
    ensures HasDateDeadline(data) ==>
              r[DeadlineKey].DateTimeV?
              && r[DeadlineKey].dateTime.date == DayOf(data[DeadlineKey])
              && r[DeadlineKey].dateTime.time == MinTime
    ensures !HasDateDeadline(data) ==> r == data
  {
    if HasDateDeadline(data) then
      data[DeadlineKey := DateTimeV(Combine(DayOf(data[DeadlineKey]), MinTime))]
    else
      data
  }

  /** Converting twice gives what converting once gives. */
  lemma ConvertIdempotent(data: Document)
    ensures ConvertDateToDatetime(ConvertDateToDatetime(data)) == ConvertDateToDatetime(data)
  {
  }

  /** A converted deadline is a valid datetime when the original day is a valid date. */
  lemma ConvertedDeadlineValid(data: Document)
    requires HasDateDeadline(data) && ValidDate(DayOf(data[DeadlineKey]))
    ensures ValidDateTime(ConvertDateToDatetime(data)[DeadlineKey].dateTime)
  {
  }
}
