/**
 * Classifying one availability probe (`check_date`). The remote search is a
 * `fetch` run inside the browser; what matters here is the value the script
 * hands back (a JSON value) or the exception `execute_async_script` raises.
 */
module Probe {

  /** A JSON value as Selenium returns it to Python (numbers are integers here). */
  datatype Json =
    | JNull
    | JBool(b: bool)
    | JNum(n: int)
    | JStr(s: string)
    | JArr(items: seq<Json>)
    | JObj(fields: map<string, Json>)

  /** What `driver.execute_async_script` does: return a value, or raise. */
  datatype ScriptResult = Raised | Returned(value: Json)

  /** Python truthiness of the decoded value: the falsy values are exactly
      None, False, 0 and the empty string, list and dict. */
  predicate Truthy(j: Json): (t: bool)
    ensures !t <==> j in {JNull, JBool(false), JNum(0), JStr(""), JArr([]), JObj(map[])}
  {
    match j
    case JNull => false
    case JBool(b) => b
    case JNum(n) => n != 0
    case JStr(s) => s != ""
    case JArr(items) => items != []
    case JObj(fields) => fields != map[]
  }

  /** `d.get(key, default)` on a dict. */
  function Get(fields: map<string, Json>, key: string, default: Json): Json
  {
    if key in fields then fields[key] else default
  }

  /** The `error` field the page's `catch` handler fills in, present and truthy. */
  predicate ErrorReported(j: Json)
  {
    j.JObj? && "error" in j.fields && Truthy(j.fields["error"])
  }

  /** The search API's answer `{"data": {"route_itineraries": items}}`. */
  function SearchReply(items: seq<Json>): Json
  {
    JObj(map["data" := JObj(map["route_itineraries" := JArr(items)])])
  }

  /** The classification at the end of `check_date`: True only for an object without a truthy `error` whose
      `data.route_itineraries` is truthy. A falsy response, a reported error,
      and every exception (raised by the script, by `in`/indexing on a
      non-dict, or by `.get` on a non-dict `data`) give False. */
  function Classify(r: ScriptResult): (found: bool)
    ensures r.Raised? ==> !found
    ensures r.Returned? && !Truthy(r.value) ==> !found
    ensures r.Returned? && ErrorReported(r.value) ==> !found
    ensures found ==> r.Returned? && r.value.JObj? && "data" in r.value.fields
  {
    match r
    case Raised => false
    case Returned(j) =>
      if !Truthy(j) then false
      else if !j.JObj? then false
      else if ErrorReported(j) then false
      else
        var data := Get(j.fields, "data", JObj(map[]));
        if !data.JObj? then false
        else Truthy(Get(data.fields, "route_itineraries", JArr([])))
  }

  /** On a well-formed search reply, tickets are found exactly when the
      itinerary list is non-empty. */
  lemma ClassifySearchReply(items: seq<Json>)
    ensures Classify(Returned(SearchReply(items))) <==> items != []
  {
    var j := SearchReply(items);
    assert "data" in j.fields && "error" !in j.fields;
    assert j.fields["data"] == JObj(map["route_itineraries" := JArr(items)]);
  }

  /** With no truthy `error`, the verdict on a response whose `data` is a dict
      is the truthiness of its `route_itineraries`; a missing key counts as
      the `[]` default. Any other keys, at either level, play no part. */
  lemma ClassifyDataObject(fields: map<string, Json>, df: map<string, Json>)
    requires !("error" in fields && Truthy(fields["error"]))
    requires "data" in fields && fields["data"] == JObj(df)
    ensures Classify(Returned(JObj(fields))) <==> "route_itineraries" in df && Truthy(df["route_itineraries"])
  {
  }

  /** In particular, when `route_itineraries` is a list, tickets are found
      exactly when it is non-empty; when it is absent, none are. */
  lemma ClassifyItineraries(fields: map<string, Json>, df: map<string, Json>, items: seq<Json>)
    requires !("error" in fields && Truthy(fields["error"]))
    requires "data" in fields && fields["data"] == JObj(df)
    ensures "route_itineraries" in df && df["route_itineraries"] == JArr(items) ==>
      (Classify(Returned(JObj(fields))) <==> items != [])
    ensures "route_itineraries" !in df ==> !Classify(Returned(JObj(fields)))
  {
    ClassifyDataObject(fields, df);
  }

  /** A response without `data` finds nothing (the `{}` default has no
      itineraries), and neither does one whose `data` is not a dict
      (`.get` raises AttributeError, caught as False). */
  lemma ClassifyWithoutDataObject(fields: map<string, Json>)
    requires !("data" in fields && fields["data"].JObj?)
    ensures !Classify(Returned(JObj(fields)))
  {
  }
}
