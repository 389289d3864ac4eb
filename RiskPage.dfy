/**
 * The risk-detection page of the web front end (frontend/src/app/riskdetection/page.tsx): a
 * PDF is picked or dropped and posted once; the answer's good clauses, risk clauses and
 * recommendations are shown. The browser's file objects, `fetch` and `response.json()` are
 * replaced by their observable parts and outcomes. As in the source, "no error" is the empty
 * string.
 */
module RiskPage {
  import opened Wrappers

  const PdfType := "application/pdf"
  const UploadPdf := "Please upload a PDF file"
  const SelectFile := "Please select a file"
  const AnalyzeFailed := "Failed to analyze the contract"
  const SomethingWrong := "Something went wrong"

  /** A picked or dropped file: its name and MIME type. */
  datatype FileInfo = FileInfo(name: string, mimeType: string)

  /** One shown clause; `reason` and `risk` are optional in the answer. */
  datatype Clause = Clause(clause: string, reason: Option<string>, risk: Option<string>)

  datatype Recommendation = Recommendation(item: Clause, suggestedRewrite: string)

  datatype AnalysisResult = AnalysisResult(goodClauses: seq<Clause>, riskClauses: seq<Clause>, recommendations: seq<Recommendation>)

  /** What the `try` block can throw: an `Error` with its message, or any other value. */
  datatype Thrown = ErrorWith(message: string) | NonError

  /**
   * The outcome of the request: `fetch` threw, or it answered; `body` is what
   * `response.json()` gives on an OK answer.
   */
  datatype FetchOutcome =
    | FetchThrew(error: Thrown)
    | Answered(ok: bool, body: Result<AnalysisResult, Thrown>)

  /** The `catch` block's message. */
  function CatchMessage(e: Thrown): (m: string)
    ensures e.ErrorWith? ==> m == e.message
    ensures e.NonError? ==> m == SomethingWrong
  {
    match e
    case ErrorWith(message) => message
    case NonError => SomethingWrong
  }

  /**
   * What the submit ends with once past the guard: the parsed analysis, or the message the
   * error banner shows.
   */
  function SubmitResult(outcome: FetchOutcome): (r: Result<AnalysisResult, string>)
    ensures r.Ok? <==> outcome.Answered? && outcome.ok && outcome.body.Ok?
    ensures r.Ok? ==> r.value == outcome.body.value
    ensures outcome.Answered? && !outcome.ok ==> r == Err(AnalyzeFailed)
    ensures outcome.FetchThrew? ==> r == Err(CatchMessage(outcome.error))
    ensures outcome.Answered? && outcome.ok && outcome.body.Err? ==> r == Err(CatchMessage(outcome.body.error))
  {
    match outcome
    case FetchThrew(e) => Err(CatchMessage(e))
    case Answered(ok, body) =>
      if !ok then Err(CatchMessage(ErrorWith(AnalyzeFailed)))
      else match body
        case Ok(data) => Ok(data)
        case Err(e) => Err(CatchMessage(e))
  }

  /** A refused answer always shows a non-empty error, so the banner appears. */
  lemma RefusedShowsBanner(outcome: FetchOutcome)
    requires outcome.Answered? && !outcome.ok
    ensures SubmitResult(outcome).Err? && SubmitResult(outcome).error != ""
  {
    assert |AnalyzeFailed| > 0;
  }

  /** `disabled={isLoading || !file}` on the submit button. */
  predicate SubmitDisabled(isLoading: bool, file: Option<FileInfo>) {
    isLoading || file.None?
  }

  /** The page's state. */
  class RiskView {
    var file: Option<FileInfo>
    var fileName: string
    var isLoading: bool
    var analysis: Option<AnalysisResult>
    var error: string

    constructor ()
      ensures file == None && fileName == "" && !isLoading && analysis == None && error == ""
    {
      file := None;
      fileName := "";
      isLoading := false;
      analysis := None;
      error := "";
    }

    /** `handleFileChange`: any picked file is taken; picking none changes nothing. */
    method FileChange(selected: Option<FileInfo>)
      modifies this
      ensures selected.Some? ==> file == selected && fileName == selected.value.name && error == ""
      ensures selected.None? ==> file == old(file) && fileName == old(fileName) && error == old(error)
      ensures isLoading == old(isLoading) && analysis == old(analysis)
    {
      if selected.Some? {
        file := selected;
        fileName := selected.value.name;
        error := "";
      }
    }

    /** `handleDrop`: only a PDF is taken; anything else (or nothing) sets the error and keeps the file. */
    method Drop(dropped: Option<FileInfo>)
      modifies this
      ensures dropped.Some? && dropped.value.mimeType == PdfType ==>
        file == dropped && fileName == dropped.value.name && error == ""
      ensures !(dropped.Some? && dropped.value.mimeType == PdfType) ==>
        file == old(file) && fileName == old(fileName) && error == UploadPdf
      ensures isLoading == old(isLoading) && analysis == old(analysis)
    {
      if dropped.Some? && dropped.value.mimeType == PdfType {
        file := dropped;
        fileName := dropped.value.name;
        error := "";
      } else {
        error := UploadPdf;
      }
    }

    /**
     * `handleSubmit`: with no file only the error is set; otherwise one request goes out, an
     * answer replaces the analysis, a failure sets the error and keeps the previous analysis,
     * and the loading flag ends false either way.
     */
    method Submit(outcome: FetchOutcome)
      modifies this
      ensures old(file).None? ==>
        error == SelectFile && isLoading == old(isLoading) && analysis == old(analysis)
      ensures old(file).Some? ==> !isLoading
      ensures old(file).Some? ==>
        match SubmitResult(outcome)
        case Ok(data) => analysis == Some(data) && error == ""
        case Err(message) => analysis == old(analysis) && error == message
      ensures file == old(file) && fileName == old(fileName)
    {
      if file.None? {
        error := SelectFile;
        return;
      }
      isLoading := true;
      error := "";
      match outcome {
        case FetchThrew(e) =>
          error := CatchMessage(e);
        case Answered(ok, body) =>
          if !ok {
            error := CatchMessage(ErrorWith(AnalyzeFailed));
          } else {
            match body {
              case Ok(data) =>
                analysis := Some(data);
              case Err(e) =>
                error := CatchMessage(e);
            }
          }
      }
      isLoading := false;
    }

    /**
     * A click on the submit button: a disabled button ignores it, so nothing changes; an
     * enabled one always has a file, so `handleSubmit` gets past its no-file guard, sends the
     * request and applies its outcome.
     */
    method ClickSubmit(outcome: FetchOutcome)
      modifies this
      ensures SubmitDisabled(old(isLoading), old(file)) ==>
        file == old(file) && fileName == old(fileName) && isLoading == old(isLoading)
        && analysis == old(analysis) && error == old(error)
      ensures !SubmitDisabled(old(isLoading), old(file)) ==>
        && file.Some? && !isLoading && file == old(file) && fileName == old(fileName)
        && match SubmitResult(outcome)
           case Ok(data) => analysis == Some(data) && error == ""
           case Err(message) => analysis == old(analysis) && error == message
    {
      if !SubmitDisabled(isLoading, file) {
        Submit(outcome);
      }
    }
  }
}
