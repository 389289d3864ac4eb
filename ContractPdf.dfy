/**
 * The second contract generator (contractpdf.py): a fixed clause library per contract type,
 * the clause closest to the user's query, an optional rewording by a model, and a fixed
 * text template per contract type. Similarity of two texts is a parameter (the embedding
 * model and the cosine are not modelled); the model call and the PDF upload are given as
 * their outcomes.
 */
module ContractPdf {
  import opened Wrappers
  import opened Text
  import opened Selection

  /** The nine keys of `clause_library`, in the order they are declared. */
  const ContractTypes: seq<string> :=
    ["nda", "employment", "contractor", "sla", "partnership", "sales", "lease", "mou", "noncompete"]

  const ClauseLibrary: map<string, seq<string>> := map[
    "nda" := [
      "Confidential information shall be protected and not disclosed without prior consent.",
      "All proprietary data shared shall be returned or destroyed upon termination.",
      "Violation of confidentiality shall incur penalties under IT Act, 2000."],
    "employment" := [
      "Employment shall be subject to applicable labor laws and company policy.",
      "Notice period shall be 30 days unless otherwise mutually agreed.",
      "All employee IP contributions remain with the employer."],
    "contractor" := [
      "Contractor shall be responsible for tax and statutory compliance.",
      "Deliverables shall be owned by the client upon payment.",
      "Agreement may be terminated with 15 days' notice by either party."],
    "sla" := [
      "Service uptime shall not fall below 98% in any given month.",
      "Issues shall be resolved within 24 hours unless specified otherwise.",
      "Force majeure clauses shall apply during natural calamities."],
    "partnership" := [
      "Partners share profits and losses equally unless agreed otherwise.",
      "Bank accounts shall be jointly operated with dual signatories.",
      "Partnership may be dissolved upon mutual consent."],
    "sales" := [
      "Ownership of goods transfers upon full payment.",
      "All goods must comply with applicable BIS standards.",
      "Defective goods must be reported within 10 days of delivery."],
    "lease" := [
      "Premises shall not be sublet without prior written approval.",
      "Security deposit is refundable subject to condition of property.",
      "Maintenance responsibility lies with the lessee unless otherwise agreed."],
    "mou" := [
      "This document is a non-binding statement of intent.",
      "All mutual responsibilities shall be documented before execution.",
      "Parties agree to confidentiality until a formal agreement is signed."],
    "noncompete" := [
      "Employee shall not engage in similar employment within 1 year of exit.",
      "Restriction is limited to the state of employment.",
      "Violation shall result in damages to be determined by arbitration."]
  ]

  /** The nine types are different strings: the first two letters tell them apart. */
  lemma TypesDistinct()
    ensures |ContractTypes| == 9
    ensures forall i, j :: 0 <= i < j < |ContractTypes| ==> ContractTypes[i] != ContractTypes[j]
  {
    forall i, j | 0 <= i < j < |ContractTypes| ensures ContractTypes[i] != ContractTypes[j] {
      assert ContractTypes[i][0] != ContractTypes[j][0] || ContractTypes[i][1] != ContractTypes[j][1];
    }
  }

  /** The library has nine different types, exactly the keys above, with three clauses each. */
  lemma LibraryShape()
    ensures |ContractTypes| == 9
    ensures forall i, j :: 0 <= i < j < |ContractTypes| ==> ContractTypes[i] != ContractTypes[j]
    ensures forall t :: t in ClauseLibrary <==> t in ContractTypes
    ensures forall t :: t in ClauseLibrary ==> |ClauseLibrary[t]| == 3
  {
    TypesDistinct();
    LibraryKeys();
    LibraryCounts();
  }

  lemma LibraryKeys()
    ensures forall t :: t in ClauseLibrary <==> t in ContractTypes
  {
  }

  lemma LibraryCounts()
    ensures forall t :: t in ClauseLibrary ==> |ClauseLibrary[t]| == 3
  {
  }

  const DefaultClause := "This Agreement shall be governed by the laws of India."

  /** The clauses a library holds for a type; `clause_library.get(contract_type, [])`. */
  function LibraryClauses(library: map<string, seq<string>>, contractType: Option<string>): seq<string> {
    if contractType.Some? && contractType.value in library then library[contractType.value] else []
  }

  /**
   * `retrieve_clause` over a clause library: the clause most similar to the query, the first
   * one on a tie (`argmax`); the fixed governing-law clause when the type has no clauses.
   */
  function RetrieveClause(library: map<string, seq<string>>, query: string, contractType: Option<string>,
                          similarity: (string, string) -> real): (r: string)
    ensures LibraryClauses(library, contractType) == [] ==> r == DefaultClause
    ensures LibraryClauses(library, contractType) != [] ==>
      var clauses := LibraryClauses(library, contractType);
      exists k :: (
        && 0 <= k < |clauses| && r == clauses[k]
        && (forall i :: 0 <= i < |clauses| ==> similarity(query, clauses[i]) <= similarity(query, clauses[k]))
        && (forall i :: 0 <= i < k ==> similarity(query, clauses[i]) < similarity(query, clauses[k])))
  {
    var clauses := LibraryClauses(library, contractType);
    if |clauses| == 0 then DefaultClause
    else
      var scores := seq(|clauses|, i requires 0 <= i < |clauses| => similarity(query, clauses[i]));
      var k := FirstArgMax(scores);
      assert forall i :: 0 <= i < |clauses| ==> scores[i] == similarity(query, clauses[i]);
      clauses[k]
  }

  /** No clause of the library is the default one. */
  lemma DefaultNotInLibrary()
    ensures forall t, c :: t in ClauseLibrary && c in ClauseLibrary[t] ==> c != DefaultClause
  {
    forall t, c | t in ClauseLibrary && c in ClauseLibrary[t] ensures c != DefaultClause {
      assert |c| != |DefaultClause|;
    }
  }

  /** Every type of the library has clauses, and none of them is the default clause. */
  predicate ProperLibrary(library: map<string, seq<string>>) {
    forall t :: t in library ==> library[t] != [] && DefaultClause !in library[t]
  }

  /** Over a proper library, the default clause comes back exactly for the types it lacks. */
  lemma RetrieveDefaultWhenAbsent(library: map<string, seq<string>>, query: string, contractType: Option<string>,
                                  similarity: (string, string) -> real)
    requires ProperLibrary(library)
    ensures RetrieveClause(library, query, contractType, similarity) == DefaultClause
      <==> contractType.None? || contractType.value !in library
  {
    if contractType.Some? && contractType.value in library {
      var r := RetrieveClause(library, query, contractType, similarity);
      assert r in library[contractType.value];
    }
  }

  lemma ClauseLibraryProper()
    ensures ProperLibrary(ClauseLibrary)
  {
    LibraryShape();
    DefaultNotInLibrary();
  }

  /** With the real library, the default clause comes back exactly for the types outside it. */
  lemma RetrieveDefaultIff(query: string, contractType: Option<string>, similarity: (string, string) -> real)
    ensures RetrieveClause(ClauseLibrary, query, contractType, similarity) == DefaultClause
      <==> contractType.None? || contractType.value !in ContractTypes
  {
    LibraryShape();
    ClauseLibraryProper();
    RetrieveDefaultWhenAbsent(ClauseLibrary, query, contractType, similarity);
  }

  /**
   * The outcome of the refinement request: an exception (network, timeout, a reply without
   * the expected fields raises inside the `try`), or the status and, for a reply, the message
   * content when the body has one.
   */
  datatype RefineReply = Raised | Replied(status: int, content: Option<string>)

  /** `refine_clause_with_llm` after the request: the stripped reply, or the clause unchanged. */
  function RefineClause(clause: string, reply: RefineReply): (r: string)
    ensures reply.Raised? || reply.status != 200 || reply.content.None? ==> r == clause
    ensures reply.Replied? && reply.status == 200 && reply.content.Some? ==>
      r == PyStrip(reply.content.value) && (r == [] || (!IsPySpace(r[0]) && !IsPySpace(r[|r| - 1])))
  {
    match reply
    case Raised => clause
    case Replied(status, content) =>
      if status != 200 then clause
      else match content
        case None => clause
        case Some(text) => PyStrip(text)
  }

  /** `data.get(key, default)` */
  function GetOr(data: map<string, string>, key: string, default: string): string {
    if key in data then data[key] else default
  }

  /** The message of `KeyError(key)`: `str(e)` puts the key between single quotes. */
  function KeyErrorMessage(key: string): string {
    "'" + key + "'"
  }

  /** The first of the required fields, in reading order, that `data` lacks. */
  function FirstMissing(data: map<string, string>): string {
    if "party_a" !in data then "party_a" else if "party_b" !in data then "party_b"
    else if "duration" !in data then "duration" else "contract_type"
  }

  datatype Extras = Extras(position: string, propertyAddress: string, goodsDescription: string, scope: string)

  function ExtrasOf(data: map<string, string>): Extras {
    Extras(GetOr(data, "position", ""), GetOr(data, "property_address", ""),
           GetOr(data, "goods_description", ""), GetOr(data, "scope", ""))
  }

  /** The text of a template before its legal clause, which ends with the clause's number. */
  function Front(t: string, a: string, b: string, d: string, extra: Extras): string {
    if t == "nda" then
      "NON-DISCLOSURE AGREEMENT\n\nThis Non-Disclosure Agreement is made between " + a + " and " + b
      + ".\n\n1. Term: " + d + "\n2. Confidentiality Obligations\n3. "
    else if t == "employment" then
      "EMPLOYMENT AGREEMENT\n\nThis Employment Agreement is made between " + a + " and " + b
      + ".\n\n1. Position: " + extra.position + "\n2. Duration: " + d + "\n3. "
    else if t == "contractor" then
      "INDEPENDENT CONTRACTOR AGREEMENT\n\nThis Independent Contractor Agreement is made between " + a + " and " + b
      + ".\n\n1. Duration: " + d + "\n2. Role: Contractor\n3. "
    else if t == "sla" then
      "SERVICE LEVEL AGREEMENT\n\nThis Service Level Agreement is made between " + a + " and " + b
      + ".\n\n1. Term: " + d + "\n2. "
    else if t == "partnership" then
      "PARTNERSHIP AGREEMENT\n\nThis Partnership Agreement is made between " + a + " and " + b
      + ".\n\n1. Term: " + d + "\n2. "
    else if t == "sales" then
      "SALES AGREEMENT\n\nThis Sales Agreement is made between " + a + " (Seller) and " + b
      + " (Buyer).\n\n1. Duration: " + d + "\n2. Goods/Services: " + extra.goodsDescription + "\n3. "
    else if t == "lease" then
      "LEASE AGREEMENT\n\nThis Lease Agreement is made between " + a + " (Lessor) and " + b
      + " (Lessee).\n\n1. Property: " + extra.propertyAddress + "\n2. Duration: " + d + "\n3. "
    else if t == "mou" then
      "MEMORANDUM OF UNDERSTANDING\n\nThis Memorandum of Understanding is entered into by " + a + " and " + b
      + ".\n\n1. Term: " + d + "\n2. "
    else
      "NON-COMPETE AGREEMENT\n\nThis agreement is between " + a + " and " + b
      + ".\n\n1. Duration: " + d + "\n2. Scope: " + extra.scope + "\n3. "
  }

  /** The number of the jurisdiction item: the three short templates have one item fewer. */
  function JurisdictionNumber(t: string): char {
    if t == "sla" || t == "partnership" || t == "mou" then '3' else '4'
  }

  /** The part every template shares, from the legal clause to the signatures. */
  function Closing(n: char, clause: string, j: string, a: string, b: string): string {
    "Legal Clause: " + clause + "\n" + [n] + ". Jurisdiction: " + j + "\n\nSigned: " + a + ", " + b
  }

  /** The `templates` dictionary, every entry built whatever the requested type. */
  function Templates(a: string, b: string, d: string, j: string, extra: Extras, clause: string): (m: map<string, string>)
    ensures forall t :: t in m <==> t in ContractTypes
  {
    map t | t in ContractTypes :: Front(t, a, b, d, extra) + Closing(JurisdictionNumber(t), clause, j, a, b)
  }

  const InvalidType := "Invalid contract type."

  /**
   * `get_legal_template`. The three parties' fields and the type are read with `data[...]`,
   * so a missing one raises `KeyError`, in the order party_a, party_b, duration,
   * contract_type; the jurisdiction defaults to New Delhi and the extra fields to "".
   */
  function GetLegalTemplate(data: map<string, string>, clause: string): (r: Result<string, string>)
    ensures r.Err? <==> !("party_a" in data && "party_b" in data && "duration" in data && "contract_type" in data)
    ensures r.Err? ==> r.error == KeyErrorMessage(FirstMissing(data))
    ensures r.Ok? && data["contract_type"] !in ContractTypes ==> r.value == InvalidType
  {
    if "party_a" !in data then Err(KeyErrorMessage("party_a"))
    else if "party_b" !in data then Err(KeyErrorMessage("party_b"))
    else if "duration" !in data then Err(KeyErrorMessage("duration"))
    else
      var a, b, d := data["party_a"], data["party_b"], data["duration"];
      var j := GetOr(data, "jurisdiction", "New Delhi");
      if "contract_type" !in data then Err(KeyErrorMessage("contract_type"))
      else
        Ok(Fill(data["contract_type"], a, b, d, j, ExtrasOf(data), clause))
  }

  /** `templates.get(T, "Invalid contract type.")` */
  function Fill(t: string, a: string, b: string, d: string, j: string, extra: Extras, clause: string): string {
    var templates := Templates(a, b, d, j, extra, clause);
    if t in templates then templates[t] else InvalidType
  }

  /** `p` occurs in `x + p + y`. */
  lemma ContainsMiddle(x: string, p: string, y: string)
    ensures Contains(x + p + y, p)
  {
    assert (x + p + y)[|x|..|x| + |p|] == p;
    assert OccursAt(x + p + y, p, |x|);
  }

  /** Whatever comes before it, the closing part names the clause and the jurisdiction and ends with the signatures. */
  lemma ClosingShape(front: string, n: char, clause: string, j: string, a: string, b: string)
    ensures var s := front + Closing(n, clause, j, a, b);
      && Contains(s, "Legal Clause: " + clause)
      && Contains(s, "Jurisdiction: " + j)
      && IsSuffix("Signed: " + a + ", " + b, s)
  {
    var legal, jur, signed := "Legal Clause: " + clause, "Jurisdiction: " + j, "Signed: " + a + ", " + b;
    var mid := "\n" + [n] + ". ";
    var rest := mid + jur + "\n\n" + signed;
    assert Closing(n, clause, j, a, b) == legal + rest;
    var s := front + Closing(n, clause, j, a, b);
    AppendAssoc(front, legal, rest);
    ContainsMiddle(front, legal, rest);
    assert s == (front + legal + mid) + jur + ("\n\n" + signed);
    ContainsMiddle(front + legal + mid, jur, "\n\n" + signed);
    assert s == (front + legal + mid + jur + "\n\n") + signed;
  }

  /** A template of a library type names the clause and the jurisdiction and ends with the signatures. */
  lemma ValidTemplateShape(data: map<string, string>, clause: string)
    requires "party_a" in data && "party_b" in data && "duration" in data && "contract_type" in data
    requires data["contract_type"] in ContractTypes
    ensures GetLegalTemplate(data, clause).Ok?
    ensures var s := GetLegalTemplate(data, clause).value;
      var j := GetOr(data, "jurisdiction", "New Delhi");
      && Contains(s, "Legal Clause: " + clause)
      && Contains(s, "Jurisdiction: " + j)
      && IsSuffix("Signed: " + data["party_a"] + ", " + data["party_b"], s)
  {
    var t, a, b := data["contract_type"], data["party_a"], data["party_b"];
    var j := GetOr(data, "jurisdiction", "New Delhi");
    ClosingShape(Front(t, a, b, data["duration"], ExtrasOf(data)), JurisdictionNumber(t), clause, j, a, b);
  }

  /** The optional fields with their defaults written in. */
  function WithDefaults(data: map<string, string>): map<string, string> {
    data["jurisdiction" := GetOr(data, "jurisdiction", "New Delhi")]
        ["position" := GetOr(data, "position", "")]
        ["property_address" := GetOr(data, "property_address", "")]
        ["goods_description" := GetOr(data, "goods_description", "")]
        ["scope" := GetOr(data, "scope", "")]
  }

  /** Leaving out an optional field is the same as sending its default. */
  lemma DefaultsFilled(data: map<string, string>, clause: string)
    ensures GetLegalTemplate(WithDefaults(data), clause) == GetLegalTemplate(data, clause)
  {
    var full := WithDefaults(data);
    assert ExtrasOf(full) == ExtrasOf(data);
    assert GetOr(full, "jurisdiction", "New Delhi") == GetOr(data, "jurisdiction", "New Delhi");
    WithDefaultsKeeps(data, "party_a");
    WithDefaultsKeeps(data, "party_b");
    WithDefaultsKeeps(data, "duration");
    WithDefaultsKeeps(data, "contract_type");
  }

  /** Filling in the defaults leaves every other field as it was. */
  lemma WithDefaultsKeeps(data: map<string, string>, key: string)
    requires key != "jurisdiction" && key != "position" && key != "property_address"
    requires key != "goods_description" && key != "scope"
    ensures key in WithDefaults(data) <==> key in data
    ensures key in data ==> WithDefaults(data)[key] == data[key]
  {
  }

  /**
   * The outcome of writing the PDF and uploading it: an exception (`save_as_pdf`, the file or
   * the request), or the HTTP status, the body's "status" field and the result of looking up
   * `["data"]["downloadPage"]` (the `KeyError` message when absent).
   */
  datatype UploadOutcome =
    | UploadRaised(message: string)
    | UploadReplied(status: int, statusField: Option<string>, downloadPage: Result<string, string>)

  datatype GenerateOracles = GenerateOracles(
    similarity: (string, string) -> real,
    refine: (string, Option<string>, string) -> RefineReply,
    upload: string -> UploadOutcome)

  datatype GenerateResponse =
    | Generated(message: string, contract: string, pdfUrl: string)
    | ErrorResponse(status: nat, error: string)

  /** The city passed to the refinement: read under the misspelt key "jusridiction". */
  function RefinementCity(data: map<string, string>): string {
    GetOr(data, "jusridiction", "New Delhi")
  }

  /** The form's "jurisdiction" field never reaches the refinement. */
  lemma CityIgnoresJurisdiction(data: map<string, string>, j: string)
    ensures RefinementCity(data["jurisdiction" := j]) == RefinementCity(data)
    ensures "jusridiction" !in data ==> RefinementCity(data) == "New Delhi"
  {
  }

  /** The clause that goes into the template: retrieved from `library`, then refined. */
  function RefinedClause(library: map<string, seq<string>>, data: map<string, string>, o: GenerateOracles): string {
    var query := GetOr(data, "clause_query", "");
    var contractType := if "contract_type" in data then Some(data["contract_type"]) else None;
    var clause := RetrieveClause(library, query, contractType, o.similarity);
    RefineClause(clause, o.refine(clause, contractType, RefinementCity(data)))
  }

  /**
   * `generate_contract`: every failure inside the `try` becomes a 400 with the exception's
   * message. `library` is the clause library, `ClauseLibrary` in the application.
   */
  function GenerateContract(library: map<string, seq<string>>, data: map<string, string>, o: GenerateOracles): (r: GenerateResponse)
    ensures r.ErrorResponse? ==> r.status == 400
    ensures GetLegalTemplate(data, RefinedClause(library, data, o)).Err? ==>
      r == ErrorResponse(400, GetLegalTemplate(data, RefinedClause(library, data, o)).error)
    ensures r.Generated? <==>
      && GetLegalTemplate(data, RefinedClause(library, data, o)).Ok?
      && var u := o.upload(GetLegalTemplate(data, RefinedClause(library, data, o)).value);
         u.UploadReplied? && u.status == 200 && u.statusField == Some("ok") && u.downloadPage.Ok?
    ensures r.Generated? ==>
      && r.message == "Contract generated and uploaded."
      && r.contract == GetLegalTemplate(data, RefinedClause(library, data, o)).value
      && r.pdfUrl == o.upload(r.contract).downloadPage.value
    ensures GetLegalTemplate(data, RefinedClause(library, data, o)).Ok? ==>
      var u := o.upload(GetLegalTemplate(data, RefinedClause(library, data, o)).value);
      && (u.UploadReplied? && u.status != 200 ==> r == ErrorResponse(400, "Upload failed to GoFile"))
      && (u.UploadReplied? && u.status == 200 && u.statusField != Some("ok") ==> r == ErrorResponse(400, "GoFile upload error"))
      && (u.UploadRaised? ==> r == ErrorResponse(400, u.message))
      && (u.UploadReplied? && u.status == 200 && u.statusField == Some("ok") && u.downloadPage.Err? ==>
            r == ErrorResponse(400, u.downloadPage.error))
  {
    match GetLegalTemplate(data, RefinedClause(library, data, o))
    case Err(e) => ErrorResponse(400, e)
    case Ok(contract) =>
      match o.upload(contract)
      case UploadRaised(e) => ErrorResponse(400, e)
      case UploadReplied(status, statusField, downloadPage) =>
        if status != 200 then ErrorResponse(400, "Upload failed to GoFile")
        else if statusField != Some("ok") then ErrorResponse(400, "GoFile upload error")
        else match downloadPage
          case Err(e) => ErrorResponse(400, e)
          case Ok(url) => Generated("Contract generated and uploaded.", contract, url)
  }

  /** An unknown type is not an error: its "contract" is the fixed message, uploaded as such. */
  lemma UnknownTypeUploaded(library: map<string, seq<string>>, data: map<string, string>, o: GenerateOracles)
    requires "party_a" in data && "party_b" in data && "duration" in data && "contract_type" in data
    requires data["contract_type"] !in ContractTypes
    ensures GenerateContract(library, data, o).Generated? ==> GenerateContract(library, data, o).contract == InvalidType
  {
  }
}
