/** The Lambda event both handlers receive: a JSON document that the runtime
    has already parsed into Python values, plus the shape of their replies. */
module Events {

  datatype Option<+T> = None | Some(value: T)

  /** A parsed JSON value. Python's json module keeps integers and floats
      apart, and the handlers' validation (`isinstance(..., float)`) does too. */
  datatype Json =
    | JNull
    | JBool(b: bool)
    | JInt(i: int)
    | JFloat(f: real)
    | JString(s: string)
    | JList(items: seq<Json>)
    | JObject(fields: map<string, Json>)

  /** The top-level event dictionary. */
  type Event = map<string, Json>

  /** What a handler hands back to the Lambda runtime: the status-500
      "Malformed Input" reply of the validation guard, a status-200 reply
      carrying the computed body, or an exception that escapes the handler
      (a KeyError or TypeError while reading the list elements). */
  datatype Reply<+T> = Malformed(message: string) | Success(body: T) | Raised {

    /** The status code of a reply that the handler returns normally. */
    function StatusCode(): (code: int)
      requires !Raised?
      ensures code == 500 <==> Malformed?
      ensures code == 200 <==> Success?
    {
      if Malformed? then 500 else 200
    }
  }

  /** `x[key]` on an element of the input list: None where Python raises,
      because the element is not a dict or has no such key. */
  function Field(x: Json, key: string): Option<Json>
  {
    if x.JObject? && key in x.fields then Some(x.fields[key]) else None
  }

  /** The value an element takes when numpy turns a list of them into a float
      array and computes with it: a boolean is 0 or 1, an int or a float is
      its own value; anything else makes the arithmetic raise. */
  function AsNumber(v: Json): Option<real>
  {
    match v
    case JBool(b) => Some(if b then 1.0 else 0.0)
    case JInt(i) => Some(i as real)
    case JFloat(f) => Some(f)
    case _ => None
  }

  /** `x[key]` read as a number, None where the handler raises. */
  function NumberField(x: Json, key: string): (r: Option<real>)
    ensures r.Some? <==> x.JObject? && key in x.fields && AsNumber(x.fields[key]).Some?
  {
    match Field(x, key)
    case None => None
    case Some(v) => AsNumber(v)
  }

  /** The guard both handlers open with: the list key and the trait key are
      present, the list is a non-empty list and the trait estimate is a float.
      Python's `and` short-circuits, so the guard itself never raises. */
  predicate WellFormed(event: Event, listKey: string, traitKey: string)
  {
    && listKey in event
    && traitKey in event
    && event[listKey].JList?
    && |event[listKey].items| > 0
    && event[traitKey].JFloat?
  }

  /** Reads every element of a list with `decode`, as the handlers' list
      comprehensions do: one element that cannot be read makes the whole
      read raise. */
  function DecodeAll<T>(xs: seq<Json>, decode: Json -> Option<T>): (r: Option<seq<T>>)
    ensures r.Some? <==> forall i :: 0 <= i < |xs| ==> decode(xs[i]).Some?
    ensures r.Some? ==> |r.value| == |xs|
    ensures r.Some? ==> forall i :: 0 <= i < |xs| ==> decode(xs[i]) == Some(r.value[i])
  {
    if xs == [] then Some([])
    else
      match (decode(xs[0]), DecodeAll(xs[1..], decode))
      case (Some(y), Some(ys)) => Some([y] + ys)
      case _ => None
  }
}
