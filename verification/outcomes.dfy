/** Shared result shapes: Python's `None`, an exception that propagates out of a call,
    the two kinds of failure search_logic.py and model.py tell apart, and `asyncio.gather` over
    completed tasks. */
module Outcomes {

  /** A Python value that may be `None`. */
  datatype Option<+T> = None | Some(value: T)

  /** How a Python call ended: it returned `value`, or an exception escaped it. */
  datatype Outcome<+T> = Done(value: T) | Escaped

  /** The failures an I/O step can raise. `RequestError` is the HTTP library's own error
      class (`aiohttp.ClientError` in search_logic.py, `requests.RequestException` in
      model.py), which both files catch. Its subclasses count as well, such as the
      `JSONDecodeError` of `requests`' `response.json()`. `OtherError` is any other
      exception, which neither file catches. Examples are a timeout surfacing as
      `asyncio.TimeoutError` and a `KeyError` on a malformed reply. */
  datatype Failure = RequestError | OtherError

  /** `asyncio.gather(*tasks)` without `return_exceptions`: the results in task order,
      or an escaping exception as soon as one task raised. */
  function GatherAll<T>(tasks: seq<Outcome<T>>): (r: Outcome<seq<T>>)
    ensures r.Done? <==> forall i :: 0 <= i < |tasks| ==> tasks[i].Done?
    ensures r.Done? ==> |r.value| == |tasks|
    ensures r.Done? ==> forall i :: 0 <= i < |tasks| ==> r.value[i] == tasks[i].value
  {
    if tasks == [] then Done([])
    else
      match (tasks[0], GatherAll(tasks[1..]))
      case (Done(x), Done(xs)) => Done([x] + xs)
      case _ => Escaped
  }
}
