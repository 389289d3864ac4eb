/**
 * The contract-generator form of the web front end
 * (frontend/src/app/contract-generation/page.tsx): the user picks one of nine contract types
 * and fills in the parties, duration, clause query and jurisdiction; the form posts them and
 * shows the generated text and the PDF link. `fetch` and `response.json()` are replaced by
 * their outcomes.
 */
module ContractGeneration {
  import opened Wrappers
  import opened Text
  import ContractPdf

  /** The form's `contractTypes`, in the order of the select's options. */
  const FormTypes: seq<string> :=
    ["nda", "contractor", "sla", "partnership", "sales", "employment", "lease", "mou", "noncompete"]

  /** The form offers exactly the nine types of the back end's clause library, each once. */
  lemma FormTypesMatchLibrary()
    ensures |FormTypes| == |ContractPdf.ContractTypes| == 9
    ensures forall t :: t in FormTypes <==> t in ContractPdf.ContractTypes
  {
    forall t ensures t in FormTypes <==> t in ContractPdf.ContractTypes {
      if t in ContractPdf.ContractTypes {
        var k :| 0 <= k < 9 && ContractPdf.ContractTypes[k] == t;
        assert t == FormTypes[[0, 5, 1, 2, 3, 4, 6, 7, 8][k]];
      }
      if t in FormTypes {
        var k :| 0 <= k < 9 && FormTypes[k] == t;
        assert t == ContractPdf.ContractTypes[[0, 2, 3, 4, 5, 1, 6, 7, 8][k]];
      }
    }
  }

  /** The option label: `type.charAt(0).toUpperCase() + type.slice(1)`. */
  function OptionLabel(t: string): (r: string)
    ensures |r| == |t|
    ensures |t| > 0 ==> r[0] == UpperChar(t[0]) && r[1..] == t[1..]
  {
    JsCapitalize(t)
  }

  /** Capitalising the first letter keeps the nine options' labels apart. */
  lemma LabelsDistinct()
    ensures forall i, j :: 0 <= i < j < |FormTypes| ==> OptionLabel(FormTypes[i]) != OptionLabel(FormTypes[j])
    ensures OptionLabel(FormTypes[0]) == "Nda"
  {
    forall i, j | 0 <= i < j < |FormTypes| ensures OptionLabel(FormTypes[i]) != OptionLabel(FormTypes[j]) {
      var x, y := FormTypes[i], FormTypes[j];
      if x[0] == y[0] {
        assert x[1] != y[1];
        assert OptionLabel(x)[1] != OptionLabel(y)[1];
      } else {
        assert 'a' <= x[0] <= 'z' && 'a' <= y[0] <= 'z';
        assert OptionLabel(x)[0] != OptionLabel(y)[0];
      }
    }
    assert OptionLabel("nda") == "N" + "da";
  }

  /** The type-specific input shown under the common fields. */
  datatype ExtraInput = PropertyAddress | Position | GoodsDescription | Scope

  function ExtraField(contractType: string): (r: Option<ExtraInput>)
    ensures r == Some(PropertyAddress) <==> contractType == "lease"
    ensures r == Some(Position) <==> contractType == "employment"
    ensures r == Some(GoodsDescription) <==> contractType == "sales"
    ensures r == Some(Scope) <==> contractType == "noncompete"
    ensures r.None? <==> contractType !in {"lease", "employment", "sales", "noncompete"}
  {
    if contractType == "lease" then Some(PropertyAddress)
    else if contractType == "employment" then Some(Position)
    else if contractType == "sales" then Some(GoodsDescription)
    else if contractType == "noncompete" then Some(Scope)
    else None
  }

  /** The values the form's inputs hold. */
  datatype FormValues = FormValues(
    contractType: string, partyA: string, partyB: string, duration: string, clauseQuery: string,
    jurisdiction: string, propertyAddress: string, position: string, goodsDescription: string, scope: string)

  const PayloadKeys: set<string> := {"contract_type", "party_a", "party_b", "duration", "clause_query", "jurisdiction"}

  /** The posted body: six of the form's fields under the back end's names; the extra fields are not sent. */
  function Payload(f: FormValues): (p: map<string, string>)
    ensures p.Keys == PayloadKeys
    ensures p["contract_type"] == f.contractType && p["party_a"] == f.partyA && p["party_b"] == f.partyB
    ensures p["duration"] == f.duration && p["clause_query"] == f.clauseQuery && p["jurisdiction"] == f.jurisdiction
    ensures "position" !in p && "property_address" !in p && "goods_description" !in p && "scope" !in p
  {
    map["contract_type" := f.contractType, "party_a" := f.partyA, "party_b" := f.partyB,
        "duration" := f.duration, "clause_query" := f.clauseQuery, "jurisdiction" := f.jurisdiction]
  }

  /**
   * Whatever the form holds, the template the back end builds from its payload never fails
   * for a missing key, yet fills every type-specific field with the empty default: what is
   * typed into the extra input does not reach the contract.
   */
  lemma PayloadDropsExtras(f: FormValues, clause: string)
    ensures ContractPdf.GetLegalTemplate(Payload(f), clause).Ok?
    ensures ContractPdf.ExtrasOf(Payload(f)) == ContractPdf.Extras("", "", "", "")
  {
    var p := Payload(f);
    assert "party_a" in p && "party_b" in p && "duration" in p && "contract_type" in p;
  }

  /**
   * The parsed answer as the page reads it: `contract`, `text`, `pdf_url` and `error`
   * (`None` when absent), and `serialized`, the answer's `JSON.stringify`.
   */
  datatype Answer = Answer(contract: Option<string>, text: Option<string>, pdfUrl: Option<string>,
                           error: Option<string>, serialized: string)

  /** A string field is truthy when present and not empty. */
  predicate Truthy(s: Option<string>) {
    s.Some? && s.value != ""
  }

  /** `data.contract || data.text || JSON.stringify(data)` */
  function ContractTextOf(data: Answer): (r: string)
    ensures Truthy(data.contract) ==> r == data.contract.value
    ensures !Truthy(data.contract) && Truthy(data.text) ==> r == data.text.value
    ensures !Truthy(data.contract) && !Truthy(data.text) ==> r == data.serialized
  {
    if Truthy(data.contract) then data.contract.value
    else if Truthy(data.text) then data.text.value
    else data.serialized
  }

  /** `data.pdf_url || ""` */
  function PdfUrlOf(data: Answer): (r: string)
    ensures Truthy(data.pdfUrl) ==> r == data.pdfUrl.value
    ensures !Truthy(data.pdfUrl) ==> r == ""
  {
    if Truthy(data.pdfUrl) then data.pdfUrl.value else ""
  }

  const GenerateFailed := "Failed to generate contract"

  /** What the `try` block can throw: an `Error` with its message, or any other value. */
  datatype Thrown = ErrorWith(message: string) | NonError

  /** The request's outcome: `fetch` threw, or it answered with `ok` and the outcome of `response.json()`. */
  datatype FetchOutcome =
    | FetchThrew(error: Thrown)
    | Answered(ok: bool, body: Result<Answer, Thrown>)

  /** The `catch` block's message. */
  function CatchMessage(e: Thrown): (m: string)
    ensures e.ErrorWith? ==> m == e.message
    ensures e.NonError? ==> m == GenerateFailed
  {
    match e
    case ErrorWith(message) => message
    case NonError => GenerateFailed
  }

  /**
   * What one submit ends with: the answer to show, or the error message. A refused answer
   * reports its own `error` field when that is truthy, the generic message otherwise.
   */
  function SubmitResult(outcome: FetchOutcome): (r: Result<Answer, string>)
    ensures r.Ok? <==> outcome.Answered? && outcome.ok && outcome.body.Ok?
    ensures r.Ok? ==> r.value == outcome.body.value
    ensures outcome.Answered? && !outcome.ok && outcome.body.Ok? ==>
      r == Err(if Truthy(outcome.body.value.error) then outcome.body.value.error.value else GenerateFailed)
    ensures outcome.Answered? && outcome.body.Err? ==> r == Err(CatchMessage(outcome.body.error))
    ensures outcome.FetchThrew? ==> r == Err(CatchMessage(outcome.error))
  {
    match outcome
    case FetchThrew(e) => Err(CatchMessage(e))
    case Answered(ok, body) =>
      match body
      case Err(e) => Err(CatchMessage(e))
      case Ok(data) =>
        if !ok then
          Err(CatchMessage(ErrorWith(if Truthy(data.error) then data.error.value else GenerateFailed)))
        else Ok(data)
  }

  /** A refused answer never leaves the error empty-handed: some message is always shown. */
  lemma RefusedHasMessage(outcome: FetchOutcome)
    requires outcome.Answered? && !outcome.ok && outcome.body.Ok?
    ensures SubmitResult(outcome).Err? && SubmitResult(outcome).error != ""
  {
    assert |GenerateFailed| > 0;
  }

  /** The form's state: its inputs, the generated text and link, and the status flags. */
  class Generator {
    var form: FormValues
    var contractText: string
    var pdfUrl: string
    var isLoading: bool
    var error: Option<string>
    var success: bool

    constructor ()
      ensures form == FormValues(FormTypes[0], "", "", "", "", "New Delhi", "", "", "", "")
      ensures form.contractType == "nda" && form.jurisdiction == "New Delhi"
      ensures contractText == "" && pdfUrl == "" && !isLoading && error == None && !success
    {
      form := FormValues("nda", "", "", "", "", "New Delhi", "", "", "", "");
      contractText, pdfUrl := "", "";
      isLoading := false;
      error := None;
      success := false;
    }

    /** The select's `onChange`. */
    method SelectType(t: string)
      modifies this
      ensures form == old(form).(contractType := t)
      ensures contractText == old(contractText) && pdfUrl == old(pdfUrl)
      ensures isLoading == old(isLoading) && error == old(error) && success == old(success)
    {
      form := form.(contractType := t);
    }

    /**
     * `handleSubmit`. `sent` is the body posted. The error, success flag and link are reset
     * first; an answer sets the text, the link and `success`; a failure sets only the error.
     */
    method Submit(outcome: FetchOutcome) returns (sent: map<string, string>)
      modifies this
      ensures sent == Payload(form) && form == old(form) && !isLoading
      ensures match SubmitResult(outcome)
        case Ok(data) =>
          contractText == ContractTextOf(data) && pdfUrl == PdfUrlOf(data) && success && error == None
        case Err(message) =>
          contractText == old(contractText) && pdfUrl == "" && !success && error == Some(message)
    {
      isLoading := true;
      error := None;
      success := false;
      pdfUrl := "";
      sent := Payload(form);
      match SubmitResult(outcome) {
        case Ok(data) =>
          contractText := ContractTextOf(data);
          pdfUrl := PdfUrlOf(data);
          success := true;
        case Err(message) =>
          error := Some(message);
      }
      isLoading := false;
    }
  }

  /** `disabled={isLoading}` on the submit button. */
  predicate SubmitDisabled(isLoading: bool) {
    isLoading
  }
}
