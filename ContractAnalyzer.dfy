/**
 * The compliance-checker page of the web front end (frontend/src/app/contract-analyzer/page.tsx):
 * a PDF is picked or dropped, posted with up to three attempts, and the verdict per clause is
 * shown in a table. The browser's file objects, `fetch` and the response body are replaced by
 * their observable parts and outcomes.
 */
module ContractAnalyzer {
  import opened Wrappers
  import opened Text

  const PdfType := "application/pdf"
  const SelectPdf := "Please select a PDF file"

  /** A picked or dropped file: its name and MIME type. */
  datatype FileInfo = FileInfo(name: string, mimeType: string)

  /** One row of the result map, as `check_clause_violation` fills it. */
  datatype ComplianceCheck = ComplianceCheck(clause: string, legalRule: string, reason: string, violates: string)

  type ComplianceData = map<string, ComplianceCheck>

  /** What a request can throw: the abort `DOMException`, an `Error` with its message, or any other value. */
  datatype Thrown = AbortError | ErrorWith(message: string) | NonError

  datatype Response = Response(ok: bool, status: nat)

  /** The outcome of one `fetch`: it threw, or it gave a response. */
  datatype Attempt = Threw(error: Thrown) | Responded(response: Response)

  predicate IsOk(a: Attempt) {
    a.Responded? && a.response.ok
  }

  /** The retry loop ends by rethrowing the third attempt's exception, or with the last response seen. */
  datatype LoopEnd = Rethrown(error: Thrown) | Finished(response: Option<Response>)

  const MaxAttempts: nat := 3

  /** The response held by `response` after the first `n` attempts: the last one that did not throw. */
  function LastResponse(attempts: nat -> Attempt, n: nat): Option<Response>
    decreases n
  {
    if n == 0 then None
    else if attempts(n - 1).Responded? then Some(attempts(n - 1).response)
    else LastResponse(attempts, n - 1)
  }

  /** The number of requests the loop sends: up to and including the first OK one, at most three. */
  function AttemptsMade(attempts: nat -> Attempt): nat {
    if IsOk(attempts(0)) then 1 else if IsOk(attempts(1)) then 2 else MaxAttempts
  }

  /** How the loop ends, in closed form. */
  function LoopOutcome(attempts: nat -> Attempt): LoopEnd {
    var made := AttemptsMade(attempts);
    if made == MaxAttempts && attempts(MaxAttempts - 1).Threw? then Rethrown(attempts(MaxAttempts - 1).error)
    else Finished(LastResponse(attempts, made))
  }

  /**
   * The `for (let attempt = 0; attempt < 3; attempt++)` loop. `attempts(k)` is the outcome of
   * attempt `k`; `made` is the number of requests sent.
   */
  method RetryFetch(attempts: nat -> Attempt) returns (end: LoopEnd, made: nat)
    ensures 1 <= made <= MaxAttempts
    ensures forall k :: 0 <= k < made - 1 ==> !IsOk(attempts(k))
    ensures made < MaxAttempts ==> IsOk(attempts(made - 1))
    ensures end.Rethrown? <==> made == MaxAttempts && attempts(MaxAttempts - 1).Threw?
    ensures end.Rethrown? ==> end.error == attempts(MaxAttempts - 1).error
    ensures end.Finished? ==> end.response == LastResponse(attempts, made)
    ensures end == LoopOutcome(attempts) && made == AttemptsMade(attempts)
  {
    var response: Option<Response> := None;
    var attempt := 0;
    while attempt < MaxAttempts
      invariant 0 <= attempt <= MaxAttempts
      invariant forall k :: 0 <= k < attempt ==> !IsOk(attempts(k))
      invariant response == LastResponse(attempts, attempt)
      invariant attempt == MaxAttempts ==> !attempts(MaxAttempts - 1).Threw?
    {
      match attempts(attempt) {
        case Threw(e) =>
          if attempt == MaxAttempts - 1 {
            return Rethrown(e), attempt + 1;
          }
        case Responded(r) =>
          response := Some(r);
          if r.ok {
            return Finished(response), attempt + 1;
          }
      }
      attempt := attempt + 1;
    }
    return Finished(response), attempt;
  }

  /** An exception on the first two attempts is swallowed: the loop goes on to the next attempt. */
  lemma EarlyExceptionsRetried(attempts: nat -> Attempt)
    requires attempts(0).Threw? && attempts(1).Threw?
    ensures LoopOutcome(attempts) == match attempts(2)
      case Threw(e) => Rethrown(e)
      case Responded(r) => Finished(Some(r))
  {
  }

  /** When all three attempts answer with an error status, the last status is the one reported. */
  lemma AllRefusedKeepsLast(attempts: nat -> Attempt)
    requires forall k :: 0 <= k < MaxAttempts ==> attempts(k).Responded? && !attempts(k).response.ok
    ensures LoopOutcome(attempts) == Finished(Some(attempts(2).response))
  {
    assert !IsOk(attempts(0)) && !IsOk(attempts(1)) && attempts(2).Responded?;
  }

  /** `${response?.status ?? "unknown"}` */
  function StatusText(response: Option<Response>): string {
    if response.Some? then NatToString(response.value.status) else "unknown"
  }

  /** What ends the `try` after the loop: a rethrown error, the HTTP error, or the parsed body. */
  function AfterLoop(end: LoopEnd, body: Result<ComplianceData, Thrown>): (r: Result<ComplianceData, Thrown>)
    ensures end.Rethrown? ==> r == Err(end.error)
    ensures end.Finished? && (end.response.None? || !end.response.value.ok) ==>
      r == Err(ErrorWith("HTTP error! status: " + StatusText(end.response)))
    ensures r.Ok? <==> end.Finished? && end.response.Some? && end.response.value.ok && body.Ok?
    ensures r.Ok? ==> r.value == body.value
  {
    match end
    case Rethrown(e) => Err(e)
    case Finished(response) =>
      if response.None? || !response.value.ok then Err(ErrorWith("HTTP error! status: " + StatusText(response)))
      else body
  }

  /** The `catch` block's message. */
  function ErrorMessage(e: Thrown): (m: string)
    ensures e.AbortError? ==> m == "Request timed out after 5 minutes"
    ensures e.ErrorWith? ==> m == e.message
    ensures e.NonError? ==> m == "An unexpected error occurred"
  {
    match e
    case AbortError => "Request timed out after 5 minutes"
    case ErrorWith(message) => message
    case NonError => "An unexpected error occurred"
  }

  /** The badge of a table row: "Compliant" only for the exact answer "NO". */
  function Badge(c: ComplianceCheck): (shown: string)
    ensures shown == "Compliant" <==> c.violates == "NO"
    ensures shown != "Compliant" ==> shown == "Non-Compliant"
  {
    if c.violates == "NO" then "Compliant" else "Non-Compliant"
  }

  /** The fallback record of a failed model call is never shown as compliant. */
  lemma UnknownIsNonCompliant(clause: string, legalRule: string, reason: string)
    ensures Badge(ComplianceCheck(clause, legalRule, reason, "UNKNOWN")) == "Non-Compliant"
  {
    assert "UNKNOWN" != "NO";
  }

  /** The page's state. */
  class Analyzer {
    var file: Option<FileInfo>
    var complianceData: Option<ComplianceData>
    var isLoading: bool
    var error: Option<string>
    var isDragging: bool

    constructor ()
      ensures file == None && complianceData == None && !isLoading && error == None && !isDragging
    {
      file := None;
      complianceData := None;
      isLoading := false;
      error := None;
      isDragging := false;
    }

    /** `handleFileChange`: any picked file is taken; picking none changes nothing. */
    method FileChange(selected: Option<FileInfo>)
      modifies this
      ensures selected.Some? ==> file == selected && error == None
      ensures selected.None? ==> file == old(file) && error == old(error)
      ensures complianceData == old(complianceData) && isLoading == old(isLoading) && isDragging == old(isDragging)
    {
      if selected.Some? {
        file := selected;
        error := None;
      }
    }

    method DragOver()
      modifies this
      ensures isDragging
      ensures file == old(file) && error == old(error) && complianceData == old(complianceData) && isLoading == old(isLoading)
    {
      isDragging := true;
    }

    method DragLeave()
      modifies this
      ensures !isDragging
      ensures file == old(file) && error == old(error) && complianceData == old(complianceData) && isLoading == old(isLoading)
    {
      isDragging := false;
    }

    /** `handleDrop`: only a PDF is taken; anything else (or nothing) sets the error and keeps the file. */
    method Drop(dropped: Option<FileInfo>)
      modifies this
      ensures !isDragging
      ensures dropped.Some? && dropped.value.mimeType == PdfType ==> file == dropped && error == None
      ensures !(dropped.Some? && dropped.value.mimeType == PdfType) ==> file == old(file) && error == Some(SelectPdf)
      ensures complianceData == old(complianceData) && isLoading == old(isLoading)
    {
      isDragging := false;
      if dropped.Some? && dropped.value.mimeType == PdfType {
        file := dropped;
        error := None;
      } else {
        error := Some(SelectPdf);
      }
    }

    /**
     * `handleSubmit`. `attempts` gives each request's outcome and `body` the outcome of
     * `response.json()` on the successful response.
     */
    method Submit(attempts: nat -> Attempt, body: Result<ComplianceData, Thrown>)
      modifies this
      ensures old(file).None? ==>
        error == Some(SelectPdf) && isLoading == old(isLoading) && complianceData == old(complianceData)
      ensures old(file).Some? ==> !isLoading
      ensures old(file).Some? ==>
        match AfterLoop(LoopOutcome(attempts), body)
        case Ok(data) => complianceData == Some(data) && error == None
        case Err(e) => complianceData == None && error == Some(ErrorMessage(e))
      ensures file == old(file) && isDragging == old(isDragging)
    {
      if file.None? {
        error := Some(SelectPdf);
        return;
      }
      isLoading := true;
      error := None;
      var end, made := RetryFetch(attempts);
      var outcome := AfterLoop(end, body);
      match outcome {
        case Ok(data) =>
          complianceData := Some(data);
        case Err(e) =>
          error := Some(ErrorMessage(e));
          complianceData := None;
      }
      isLoading := false;
    }
  }
}
