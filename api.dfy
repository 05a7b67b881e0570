/**
 * How the answers of the catalog's HTTP endpoints become the values the
 * application awaits. Fetching, URL encoding and JSON decoding are not
 * modelled: a reply is either a transport failure (a rejected fetch or a
 * non-success status) or a decoded body whose `meals` field may be null.
 */
module Api {
  import opened Wrappers
  import opened Recipes

  datatype Reply = Body(meals: Option<seq<Recipe>>) | TransportError

  /**
   * The filter-by-ingredient and filter-by-category requests: a null `meals`
   * field is an empty list, not a failure; only a transport error fails.
   */
  function ListOutcome(reply: Reply): (r: Outcome<seq<Recipe>>)
    ensures r.Fail? <==> reply.TransportError?
    ensures r == Ok([]) <==> reply == Body(None) || reply == Body(Some([]))
    ensures reply.Body? && reply.meals.Some? ==> r == Ok(reply.meals.value)
  {
    match reply
    case TransportError => Fail
    case Body(meals) => Ok(if meals.Some? then meals.value else [])
  }

  /**
   * The lookup-by-id request returns `meals[0]`: indexing a null `meals`
   * throws, and indexing an empty one yields `undefined`, which is not a failure.
   */
  function DetailOutcome(reply: Reply): (r: Outcome<Option<Recipe>>)
    ensures r.Fail? <==> reply.TransportError? || reply == Body(None)
    ensures r == Ok(None) <==> reply == Body(Some([]))
    ensures r.Ok? && r.value.Some? ==> r.value.value == reply.meals.value[0]
  {
    match reply
    case TransportError => Fail
    case Body(None) => Fail
    case Body(Some(meals)) => Ok(if meals == [] then None else Some(meals[0]))
  }
}
