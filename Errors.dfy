/**
  * The error codes reserved by section 5.1 of the JSON-RPC 2.0
  * specification that the client names. Section 5.1 reserves the whole
  * range -32768 to -32000 for pre-defined errors.
  */
module Errors {
  const INTERNAL_ERROR: int := -32603
  const INVALID_PARAMS: int := -32602
  const INVALID_REQUEST: int := -32600
  const METHOD_NOT_FOUND: int := -32601
  const PARSE_ERROR: int := -32700

  const RESERVED_MIN: int := -32768
  const RESERVED_MAX: int := -32000

  /** The five named codes. */
  function NamedCodes(): (codes: seq<int>)
    ensures |codes| == 5
  {
    [PARSE_ERROR, INVALID_REQUEST, METHOD_NOT_FOUND, INVALID_PARAMS, INTERNAL_ERROR]
  }

  predicate InReservedRange(code: int) {
    RESERVED_MIN <= code <= RESERVED_MAX
  }

  /** The constants have the values section 5.1 gives them. */
  lemma CodeValues()
    ensures PARSE_ERROR == -32700
    ensures INVALID_REQUEST == -32600 && METHOD_NOT_FOUND == -32601
    ensures INVALID_PARAMS == -32602 && INTERNAL_ERROR == -32603
  {
  }

  /** No two named codes coincide. */
  lemma NamedCodesDistinct()
    ensures forall j, l :: 0 <= j < l < |NamedCodes()| ==> NamedCodes()[j] != NamedCodes()[l]
  {
  }

  /** Every named code lies in the reserved range. */
  lemma NamedCodesReserved()
    ensures forall j :: 0 <= j < |NamedCodes()| ==> InReservedRange(NamedCodes()[j])
  {
  }
}
