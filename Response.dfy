/**
  * A JSON-RPC response: the id of the request it answers and the result the
  * remote method returned, an arbitrary value held as it was given. The
  * getters `getId` and `getResult` are the datatype's destructors `id` and
  * `result`; nothing changes a response after it is built.
  */
module Responses {
  datatype Response<V> = Response(id: string, result: V)

  /** `new Response($id, $result)`: total for every id and every result. */
  function NewResponse<V>(id: string, result: V): (r: Response<V>)
    ensures r.id == id && r.result == result
  {
    Response(id, result)
  }

  /** The decoded reply {"id":"123456","result":...} gives back id "123456" and that result. */
  lemma ResponseRoundTrip<V>(result: V)
    ensures NewResponse("123456", result).id == "123456"
    ensures NewResponse("123456", result).result == result
  {
  }
}
