/**
 * The location endpoint of the OpenF1 REST client: a date range given as
 * `start_date`/`end_date` becomes the API's `date>`/`date<` filters, and an
 * empty answer is an error. The HTTP request itself is a parameter.
 */
module OpenF1Client {
  import opened Wrappers
  import opened Json

  /** The query `getLocation` sends for the parameters it is given. */
  function LocationQuery(params: Option<Record>): (queryParams: Record)
    // both dates given: the two keys become the range filters
    ensures params.Some? && FieldTruthy(params.value, "start_date") && FieldTruthy(params.value, "end_date") ==>
      && queryParams.Keys == params.value.Keys - {"start_date", "end_date"} + {"date>", "date<"}
      && queryParams["date>"] == params.value["start_date"]
      && queryParams["date<"] == params.value["end_date"]
      && (forall k :: k in params.value && k !in {"start_date", "end_date", "date>", "date<"} ==>
            queryParams[k] == params.value[k])
    // otherwise the parameters are used as given
    ensures params.Some? && !(FieldTruthy(params.value, "start_date") && FieldTruthy(params.value, "end_date")) ==>
      queryParams == params.value
    ensures params.None? ==> queryParams == map[]
  {
    var given := if params.Some? then params.value else map[];
    if FieldTruthy(given, "start_date") && FieldTruthy(given, "end_date") then
      var otherParams := given - {"start_date", "end_date"};
      otherParams + map["date>" := given["start_date"], "date<" := given["end_date"]]
    else
      given
  }

  /** `getLocation`: requests `/location` with the rewritten query through
    * `fetch`; an empty array answer throws, any other answer is returned. */
  function GetLocation(fetch: Record -> Outcome<Json>, params: Option<Record>): (r: Outcome<Json>)
    ensures fetch(LocationQuery(params)) == Returned(JArr([])) ==> r == Threw
    ensures fetch(LocationQuery(params)).Returned? && fetch(LocationQuery(params)) != Returned(JArr([])) ==>
      r == fetch(LocationQuery(params))
    ensures fetch(LocationQuery(params)).Threw? ==> r.Threw?
    ensures r.Returned? ==> r.value != JArr([])
  {
    var result := fetch(LocationQuery(params));
    match result
    case Threw => Threw
    case Returned(v) => if v.JArr? && |v.items| == 0 then Threw else result
  }
}
