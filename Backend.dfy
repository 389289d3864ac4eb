/**
 * What compliancechcker.py and riskanalyser.py share besides `extract_text`: the outcome of
 * `call_llm`, written identically in both, and the `clauses` list a handler reads from a
 * parsed JSON value with `.get("clauses", [])` and then iterates.
 */
module Backend {
  import opened Wrappers

  /**
   * What one `call_llm` ends with. `requests.post` can raise, and so can the lookup of
   * `["choices"][0]["message"]["content"]` in a 200 reply; `call_llm` catches neither.
   * A 200 reply whose body is not JSON makes `response.json()` raise
   * `requests.exceptions.JSONDecodeError`, a subclass of `json.JSONDecodeError`, kept apart
   * because a handler that catches the latter catches it too. A non-200 reply returns
   * `None`, and so does a `content` that is JSON `null`.
   */
  datatype LlmReply = Content(text: string) | NoContent | Undecodable(message: string) | Raised(message: string) {
    /** `call_llm` raised instead of returning. */
    predicate Throws() {
      Undecodable? || Raised?
    }
  }

  /** The value under `"clauses"`, as a `for` loop sees it. */
  datatype ClausesField =
    | Absent
    | ClauseList(clauses: seq<string>)
    /** `null`, a number or a boolean: iterating it raises `TypeError`. */
    | NotIterable

  /** A parsed JSON value: an object, as far as its `clauses` key goes, or anything else. */
  datatype JsonBody = Object(clauses: ClausesField) | NotAnObject

  /**
   * `for clause in body.get("clauses", [])`: the clauses the loop visits, or `None` where
   * `.get` (on a value that is not an object) or the iteration raises.
   */
  function ClausesOf(body: JsonBody): (r: Option<seq<string>>)
    ensures r.None? <==> body.NotAnObject? || body.clauses.NotIterable?
    ensures body.Object? && body.clauses.Absent? ==> r == Some([])
    ensures body.Object? && body.clauses.ClauseList? ==> r == Some(body.clauses.clauses)
  {
    match body
    case NotAnObject => None
    case Object(field) =>
      match field
      case Absent => Some([])
      case ClauseList(cs) => Some(cs)
      case NotIterable => None
  }
}
