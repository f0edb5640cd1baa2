/**
 * IsNotFoundError (errors.go): does the causal chain of an error, followed through Unwrap,
 * contain the package's not-found error?
 */
module ErrorChain {
  import opened Wrappers

  /**
   * A Go `error` value as far as IsNotFoundError can tell them apart: the not-found error, an
   * error that has an Unwrap method (whose result may be nil), and any other error.
   */
  datatype GoError =
    | NotFoundError(message: string)
    | Wrapping(message: string, cause: Option<GoError>)
    | Plain(message: string)

  /** The errors met by repeatedly calling Unwrap, starting with `err` itself (nil ends it). */
  function Chain(err: Option<GoError>): (chain: seq<GoError>)
    ensures err.Some? ==> |chain| > 0 && chain[0] == err.value
    ensures err.None? ==> chain == []
  {
    match err
    case None => []
    case Some(e) =>
      if e.Wrapping? then [e] + Chain(e.cause) else [e]
  }

  /** IsNotFoundError: walks the unwrap chain until nil, a not-found error or an opaque error. */
  method IsNotFoundError(err: Option<GoError>) returns (found: bool)
    ensures found <==> exists i :: 0 <= i < |Chain(err)| && Chain(err)[i].NotFoundError?
    ensures err.None? ==> !found
    ensures err.Some? && err.value.NotFoundError? ==> found
  {
    var cur := err;
    while true
      invariant (exists i :: 0 <= i < |Chain(cur)| && Chain(cur)[i].NotFoundError?)
            <==> (exists i :: 0 <= i < |Chain(err)| && Chain(err)[i].NotFoundError?)
      decreases |Chain(cur)|
    {
      if cur.None? {
        return false;
      }
      var e := cur.value;
      if e.NotFoundError? {
        return true;
      }
      if !e.Wrapping? {
        return false;
      }
      ChainStep(cur);
      cur := e.cause;
    }
  }

  lemma ChainStep(cur: Option<GoError>)
    requires cur.Some? && cur.value.Wrapping? && !cur.value.NotFoundError?
    ensures |Chain(cur.value.cause)| < |Chain(cur)|
    ensures (exists i :: 0 <= i < |Chain(cur)| && Chain(cur)[i].NotFoundError?)
        <==> (exists i :: 0 <= i < |Chain(cur.value.cause)| && Chain(cur.value.cause)[i].NotFoundError?)
  {
    var rest := Chain(cur.value.cause);
    assert Chain(cur) == [cur.value] + rest;
    forall i | 0 <= i < |rest| && rest[i].NotFoundError?
      ensures Chain(cur)[i + 1].NotFoundError?
    {
    }
  }
}
