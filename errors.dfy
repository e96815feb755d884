/** The status-code table that `handle_error` consults for every reply other than HTTP 200. */
module ErrorTable {

  /** The cause reported for a status code. The wording of the log lines is not modelled,
      only which of the table's entries (or the generic fallback) a code selects. */
  datatype Message =
    | RateLimited
    | Unauthorized
    | Forbidden
    | NotFound
    | ServerError
    | BadGateway
    | ServiceUnavailable
    | GatewayTimeout
    | Redirected
    | UnexpectedCode(code: int)

  /** The one status code that `handle_error` answers with a retry. */
  const TooManyRequests := 429

  /** The fixed table of nine entries. */
  const ErrorMessages: map<int, Message> := map[
    429 := RateLimited,
    401 := Unauthorized,
    403 := Forbidden,
    404 := NotFound,
    500 := ServerError,
    502 := BadGateway,
    503 := ServiceUnavailable,
    504 := GatewayTimeout,
    302 := Redirected
  ]

  /** Lookup with a default: a code missing from the table gets the generic message,
      which carries the code itself. */
  function MessageFor(code: int): (m: Message)
    ensures m.UnexpectedCode? <==> code !in {429, 401, 403, 404, 500, 502, 503, 504, 302}
    ensures m.UnexpectedCode? ==> m.code == code
  {
    if code in ErrorMessages then ErrorMessages[code] else UnexpectedCode(code)
  }

  /** The status code each message stands for, listed independently of the table. */
  function CodeOf(m: Message): int
  {
    match m
    case RateLimited => 429
    case Unauthorized => 401
    case Forbidden => 403
    case NotFound => 404
    case ServerError => 500
    case BadGateway => 502
    case ServiceUnavailable => 503
    case GatewayTimeout => 504
    case Redirected => 302
    case UnexpectedCode(c) => c
  }

  /** The message determines the code: no two codes share a message. */
  lemma MessageDeterminesCode(code: int)
    ensures CodeOf(MessageFor(code)) == code
  {
  }

  /** Every message the lookup can produce is reached, from exactly the code `CodeOf` names
      for it; a generic message carrying a code of the table is never produced. */
  lemma EveryMessageReached(m: Message)
    requires m.UnexpectedCode? ==> m.code !in ErrorMessages
    ensures MessageFor(CodeOf(m)) == m
  {
  }

  /** The table holds exactly nine codes. */
  lemma TableSize()
    ensures |ErrorMessages| == 9
  {
    assert ErrorMessages.Keys == {429, 401, 403, 404, 500, 502, 503, 504, 302};
  }
}
