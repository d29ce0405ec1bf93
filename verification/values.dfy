/** The untyped values the collector receives from the listing call (decoded JSON, i.e.
    Python dicts, lists, strings, numbers, booleans and None) and the exceptions the
    collector can raise while handling them. */
module Values {
  import opened Results

  datatype Json =
    | JNull
    | JBool(b: bool)
    | JNumber(n: int)
    | JString(s: string)
    | JArray(items: seq<Json>)
    | JObject(fields: map<string, Json>)

  /** A listed item: a Python dict with string keys. */
  type Record = map<string, Json>

  /** Why a `ValueError` was raised. */
  datatype ValueErrorKind =
    | UnpackMismatch(expected: nat, got: nat)  // `a, b = xs` with |xs| != 2
    | TimeDataMismatch                         // strptime: the text does not match the format
    | FieldOutOfRange                          // strptime matched, but date()/datetime() refused the fields

  /** The Python exceptions that can reach the per-item `except` clause or escape the call. */
  datatype Fault =
    | AttributeError(attribute: string)  // a str method called on a value that is not a str
    | KeyError(key: Json)                // `d[k]` with `k` not a key of `d`
    | TypeError                          // subscript of a non-dict, or an unhashable dict key
    | ValueError(kind: ValueErrorKind)
    | OverflowError                      // datetime arithmetic past datetime.MAXYEAR
    | ValidationError(detail: string)    // raised by a schema model constructor
    | ConnectorError(detail: string)     // raised while obtaining the listing

  /** Values that may be used as a dict key (lists and dicts may not). */
  predicate Hashable(v: Json) {
    !v.JArray? && !v.JObject?
  }

  /** `record.get(key)`: a missing key reads as None. */
  function Get(record: Record, key: string): (v: Json)
    ensures key in record ==> v == record[key]
    ensures key !in record ==> v == JNull
  {
    if key in record then record[key] else JNull
  }

  /** `record[key]`: a missing key raises KeyError. */
  function Subscript(record: Record, key: string): (r: Result<Json, Fault>)
    ensures r.Success? <==> key in record
    ensures r.Success? ==> r.value == record[key]
    ensures r.Failure? ==> r.error == KeyError(JString(key))
  {
    if key in record then Success(record[key]) else Failure(KeyError(JString(key)))
  }
}
