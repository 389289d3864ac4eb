/**
 * riskanalyser.py: each clause is paired with its most similar legal rule, a language model
 * sorts it into good clauses, risky clauses and recommendations, and the per-clause answers
 * are merged into one result with exactly those three lists.
 *
 * The embedding model, the similarity measure, the language model and `json.loads` are
 * foreign code and are the fields of `RiskOracles`. An exception nothing catches becomes
 * the `Crash` response: Flask answers 500.
 */
module Risk {
  import opened Wrappers
  import opened Text
  import opened Selection
  import opened Extraction
  import opened Backend

  /** An entry of one of the lists, a JSON object such as `{"clause": …, "risk": …}`. */
  datatype Entry = Entry(fields: map<string, string>)

  /** A parsed per-clause answer: a JSON object whose values are lists of entries. */
  type ClauseResult = map<string, seq<Entry>>

  const GoodClauses := "good_clauses"
  const RiskClauses := "risk_clauses"
  const Recommendations := "recommendations"

  /** The keys of `combined`, in the order the inner loop visits them. */
  const CombinedKeys: seq<string> := [GoodClauses, RiskClauses, Recommendations]

  /** `result.get(key, [])` */
  function Get(result: ClauseResult, key: string): seq<Entry> {
    if key in result then result[key] else []
  }

  /** The lists the results hold under `key`, one after another in clause order. */
  function Gather(results: seq<ClauseResult>, key: string): seq<Entry>
    decreases |results|
  {
    if |results| == 0 then []
    else Gather(results[..|results| - 1], key) + Get(results[|results| - 1], key)
  }

  /** The number of entries the results hold under `key`. */
  function Count(results: seq<ClauseResult>, key: string): nat
    decreases |results|
  {
    if |results| == 0 then 0
    else Count(results[..|results| - 1], key) + |Get(results[|results| - 1], key)|
  }

  /** A combined list is as long as the per-clause lists put together. */
  lemma {:induction false} GatherLength(results: seq<ClauseResult>, key: string)
    ensures |Gather(results, key)| == Count(results, key)
    decreases |results|
  {
    if |results| > 0 {
      GatherLength(results[..|results| - 1], key);
    }
  }

  /** Gathering over two runs of clauses is gathering over each in turn. */
  lemma {:induction false} GatherConcat(a: seq<ClauseResult>, b: seq<ClauseResult>, key: string)
    ensures Gather(a + b, key) == Gather(a, key) + Gather(b, key)
    decreases |b|
  {
    if |b| == 0 {
      assert a + b == a;
    } else {
      var b' := b[..|b| - 1];
      assert (a + b)[..|a + b| - 1] == a + b';
      assert (a + b)[|a + b| - 1] == b[|b| - 1];
      GatherConcat(a, b', key);
      AppendAssoc(Gather(a, key), Gather(b', key), Get(b[|b| - 1], key));
    }
  }

  /** Results without the key contribute nothing to its list. */
  lemma {:induction false} GatherMissing(results: seq<ClauseResult>, key: string)
    requires forall i :: 0 <= i < |results| ==> key !in results[i]
    ensures Gather(results, key) == []
    decreases |results|
  {
    if |results| > 0 {
      GatherMissing(results[..|results| - 1], key);
    }
  }

  /** The three keys of `combined`, the only ones it ever holds. */
  predicate HasCombinedKeys(combined: map<string, seq<Entry>>) {
    combined.Keys == {GoodClauses, RiskClauses, Recommendations}
  }

  /** The inner loop: `for key in combined: combined[key].extend(result.get(key, []))`. */
  method Merge(combined: map<string, seq<Entry>>, result: ClauseResult) returns (next: map<string, seq<Entry>>)
    requires HasCombinedKeys(combined)
    ensures HasCombinedKeys(next)
    ensures forall k :: k in next ==> next[k] == combined[k] + Get(result, k)
  {
    KeysDistinct();
    next := combined;
    for j := 0 to |CombinedKeys|
      invariant next.Keys == combined.Keys
      invariant forall m :: 0 <= m < j ==> next[CombinedKeys[m]] == combined[CombinedKeys[m]] + Get(result, CombinedKeys[m])
      invariant forall m :: j <= m < |CombinedKeys| ==> next[CombinedKeys[m]] == combined[CombinedKeys[m]]
    {
      var key := CombinedKeys[j];
      next := next[key := next[key] + Get(result, key)];
    }
    forall k | k in next ensures next[k] == combined[k] + Get(result, k) {
      assert k == CombinedKeys[0] || k == CombinedKeys[1] || k == CombinedKeys[2];
    }
  }

  /**
   * The merge loop of `upload_contract` and `check_violation`: each clause's result is merged
   * into `combined` in turn.
   */
  method Combine(results: seq<ClauseResult>) returns (combined: map<string, seq<Entry>>)
    ensures HasCombinedKeys(combined)
    ensures forall k :: k in combined ==> combined[k] == Gather(results, k)
  {
    combined := map[GoodClauses := [], RiskClauses := [], Recommendations := []];
    for i := 0 to |results|
      invariant HasCombinedKeys(combined)
      invariant forall k :: k in combined ==> combined[k] == Gather(results[..i], k)
    {
      combined := Merge(combined, results[i]);
      forall k | k in combined ensures combined[k] == Gather(results[..i + 1], k) {
        GatherStep(results, i, k);
      }
    }
    assert results[..|results|] == results;
  }

  lemma GatherStep(results: seq<ClauseResult>, i: nat, key: string)
    requires i < |results|
    ensures Gather(results[..i + 1], key) == Gather(results[..i], key) + Get(results[i], key)
  {
    assert results[..i + 1][..i] == results[..i];
  }

  /** The three keys are different strings. */
  lemma KeysDistinct()
    ensures GoodClauses != RiskClauses && GoodClauses != Recommendations && RiskClauses != Recommendations
  {
    assert GoodClauses[0] != RiskClauses[0] && GoodClauses[0] != Recommendations[0];
    assert RiskClauses[1] != Recommendations[1];
  }

  // ---------------------------------------------------------------------------------------
  // `check_clause_violation`

  /**
   * What `json.loads` makes of a per-clause reply: an object whose values are lists of
   * entries, or a value that is not an object (a list, a string, a number, `null`).
   */
  datatype ParsedAnswer = Lists(lists: ClauseResult) | NotAnObject

  /**
   * The foreign functions: `get_embedding` of a clause, the cosine similarity of a clause
   * embedding to the embedding of a rule text, `call_llm` on the prompt built from a clause
   * and a rule text, `json.loads` of that reply (`None` where it raises), `call_llm` on the
   * clause-extraction prompt built from a contract text, and `json.loads` of that reply.
   */
  datatype RiskOracles<!E> = RiskOracles(
    embed: string -> Option<E>,
    similarity: (E, string) -> real,
    llm: (string, string) -> LlmReply,
    parseJson: string -> Option<ParsedAnswer>,
    extractClauses: string -> LlmReply,
    parseClauses: string -> Option<JsonBody>)

  const EmbeddingFailed := "Embedding failed."
  const ParseFailurePrefix := "Could not parse AI response: "

  /** The result holding a single risky clause. */
  function RiskOnly(clause: string, risk: string): ClauseResult {
    map[RiskClauses := [Entry(map["clause" := clause, "risk" := risk])]]
  }

  /**
   * The risk text of the fallback: `f"...{response}"` on a reply that `json.loads` refused,
   * where a missing reply prints as `None`.
   */
  function Shown(reply: LlmReply): string
    requires !reply.Throws()
  {
    match reply
    case Content(s) => s
    case NoContent => "None"
  }

  /** `similarities`: the clause's score against each rule text, in rule order. */
  function RuleScores<E>(e: E, ruleTexts: seq<string>, o: RiskOracles<E>): (r: seq<real>)
    ensures |r| == |ruleTexts|
    ensures forall i :: 0 <= i < |r| ==> r[i] == o.similarity(e, ruleTexts[i])
  {
    seq(|ruleTexts|, i requires 0 <= i < |ruleTexts| => o.similarity(e, ruleTexts[i]))
  }

  /** `legal_rules[max_index]['law_text']`: the first most similar rule; no threshold. */
  function ChosenRule<E>(e: E, ruleTexts: seq<string>, o: RiskOracles<E>): (r: string)
    requires |ruleTexts| > 0
    ensures exists k :: (
      && 0 <= k < |ruleTexts| && r == ruleTexts[k]
      && (forall i :: 0 <= i < |ruleTexts| ==> o.similarity(e, ruleTexts[i]) <= o.similarity(e, ruleTexts[k]))
      && (forall i :: 0 <= i < k ==> o.similarity(e, ruleTexts[i]) < o.similarity(e, ruleTexts[k])))
  {
    var scores := RuleScores(e, ruleTexts, o);
    var k := FirstArgMax(scores);
    ruleTexts[k]
  }

  /**
   * `check_clause_violation`; `None` where `call_llm` raises, outside the `try`. `ruleTexts`
   * are the law texts of the module's fixed, non-empty rule table.
   */
  function CheckClauseViolation<E>(clause: string, ruleTexts: seq<string>, o: RiskOracles<E>): (r: Option<ParsedAnswer>)
    requires |ruleTexts| > 0
    ensures o.embed(clause).None? ==> r == Some(Lists(RiskOnly(clause, EmbeddingFailed)))
    ensures o.embed(clause).Some? ==>
      var reply := o.llm(clause, ChosenRule(o.embed(clause).value, ruleTexts, o));
      && (r.None? <==> reply.Throws())
      && (reply.Content? && o.parseJson(reply.text).Some? ==> r == o.parseJson(reply.text))
      && (reply.Content? && o.parseJson(reply.text).None? ==>
            r == Some(Lists(RiskOnly(clause, ParseFailurePrefix + reply.text))))
      && (reply.NoContent? ==> r == Some(Lists(RiskOnly(clause, ParseFailurePrefix + "None"))))
  {
    match o.embed(clause)
    case None => Some(Lists(RiskOnly(clause, EmbeddingFailed)))
    case Some(e) =>
      var reply := o.llm(clause, ChosenRule(e, ruleTexts, o));
      match reply
      case Undecodable(_) => None
      case Raised(_) => None
      case NoContent => Some(Lists(RiskOnly(clause, ParseFailurePrefix + Shown(reply))))
      case Content(text) =>
        match o.parseJson(text)
        case Some(parsed) => Some(parsed)
        case None => Some(Lists(RiskOnly(clause, ParseFailurePrefix + Shown(reply))))
  }

  /** A fallback puts exactly one entry in the risky list and none in the other two. */
  lemma FallbackCounts(clause: string, risk: string)
    ensures |Get(RiskOnly(clause, risk), RiskClauses)| == 1
    ensures Get(RiskOnly(clause, risk), GoodClauses) == [] && Get(RiskOnly(clause, risk), Recommendations) == []
  {
    KeysDistinct();
  }

  /** The per-clause answers of a list of clauses, in order. */
  function PerClause<E>(clauses: seq<string>, ruleTexts: seq<string>, o: RiskOracles<E>): (r: seq<Option<ParsedAnswer>>)
    requires |ruleTexts| > 0
    ensures |r| == |clauses|
    ensures forall i :: 0 <= i < |r| ==> r[i] == CheckClauseViolation(clauses[i], ruleTexts, o)
  {
    seq(|clauses|, i requires 0 <= i < |clauses| => CheckClauseViolation(clauses[i], ruleTexts, o))
  }

  /** An answer the merge loop can use: the check did not raise and gave an object. */
  predicate Mergeable(a: Option<ParsedAnswer>) {
    a.Some? && a.value.Lists?
  }

  /**
   * The objects the merge loop reads with `result.get(key, [])`, in clause order; `None`
   * where a check raises or `.get` meets a value that is not an object.
   */
  function MergeableResults(answers: seq<Option<ParsedAnswer>>): (r: Option<seq<ClauseResult>>)
    ensures r.Some? <==> forall i :: 0 <= i < |answers| ==> Mergeable(answers[i])
    ensures r.Some? ==> |r.value| == |answers| && forall i :: 0 <= i < |answers| ==> r.value[i] == answers[i].value.lists
    decreases |answers|
  {
    if |answers| == 0 then Some([])
    else
      match MergeableResults(answers[..|answers| - 1])
      case None => None
      case Some(rs) =>
        var last := answers[|answers| - 1];
        if Mergeable(last) then Some(rs + [last.value.lists]) else None
  }

  // ---------------------------------------------------------------------------------------
  // `analyze_contract` and the endpoints

  /** `str(e)` of the `TypeError` `json.loads(None)` raises. */
  const NoReplyError := "the JSON object must be str, bytes or bytearray, not NoneType"
  const ParseError := "Failed to parse AI response."

  /**
   * `analyze_contract`: the parsed reply of the clause-extraction call, or the message of
   * the exception caught around it.
   */
  function AnalyzeContract<E>(text: string, o: RiskOracles<E>): (r: Result<JsonBody, string>)
    ensures o.extractClauses(text).Raised? ==> r == Err(o.extractClauses(text).message)
    ensures o.extractClauses(text).Undecodable? ==> r == Err(ParseError)
    ensures o.extractClauses(text).NoContent? ==> r == Err(NoReplyError)
    ensures o.extractClauses(text).Content? ==>
      var parsed := o.parseClauses(o.extractClauses(text).text);
      r == if parsed.Some? then Ok(parsed.value) else Err(ParseError)
  {
    match o.extractClauses(text)
    case Raised(m) => Err(m)
    case Undecodable(_) => Err(ParseError)
    case NoContent => Err(NoReplyError)
    case Content(reply) =>
      match o.parseClauses(reply)
      case None => Err(ParseError)
      case Some(body) => Ok(body)
  }

  /** The only analysis error that is falsy, and so skips the 500 branch, is a raised empty message. */
  lemma AnalysisErrorFalsy<E>(text: string, o: RiskOracles<E>)
    ensures AnalyzeContract(text, o).Err? && AnalyzeContract(text, o).error == "" <==>
      o.extractClauses(text) == Raised("")
  {
    if o.extractClauses(text).NoContent? {
      assert |NoReplyError| > 0;
    }
    if o.extractClauses(text).Content? && o.parseClauses(o.extractClauses(text).text).None? {
      assert |ParseError| > 0;
    }
  }

  datatype Upload =
    | NoFile
    | File(filename: string, read: Result<seq<Option<string>>, string>)

  datatype RiskResponse =
    | ErrorResponse(status: nat, error: string)
    | Combined(lists: map<string, seq<Entry>>)
    /** An exception no handler in the module catches; Flask answers 500. */
    | Crash

  /**
   * The shared tail of both endpoints: each clause is checked and its lists merged in turn,
   * or the loop raises.
   */
  method MergeClauses<E>(clauses: seq<string>, ruleTexts: seq<string>, o: RiskOracles<E>)
    returns (response: RiskResponse)
    requires |ruleTexts| > 0
    ensures !response.ErrorResponse?
    ensures response.Crash? <==>
      exists i :: 0 <= i < |clauses| && !Mergeable(CheckClauseViolation(clauses[i], ruleTexts, o))
    ensures response.Combined? ==>
      && response.lists.Keys == {GoodClauses, RiskClauses, Recommendations}
      && forall k :: k in response.lists ==>
           response.lists[k] == Gather(MergeableResults(PerClause(clauses, ruleTexts, o)).value, k)
  {
    var answers := PerClause(clauses, ruleTexts, o);
    match MergeableResults(answers)
    case None =>
      return Crash;
    case Some(results) =>
      var combined := Combine(results);
      return Combined(combined);
  }

  /**
   * The contract text `analyze_contract` is given: the extracted text, or `"None"` when an
   * extraction error with an empty message slipped past `if error:` and `None` was
   * formatted into the prompt.
   */
  function AnalyzedText(read: Result<seq<Option<string>>, string>): (t: string)
    ensures ExtractText(read).Ok? ==> t == ExtractText(read).value
    ensures ExtractText(read).Err? ==> t == "None"
  {
    match ExtractText(read)
    case Ok(text) => text
    case Err(_) => "None"
  }

  /**
   * `upload_contract`. Both error checks are `if error:`, which an empty message fails: an
   * empty extraction error goes on to the analysis, and an empty analysis error goes on to
   * `None.get`, which raises.
   */
  method UploadContract<E>(upload: Upload, ruleTexts: seq<string>, o: RiskOracles<E>)
    returns (response: RiskResponse)
    requires |ruleTexts| > 0
    ensures upload.NoFile? ==> response == ErrorResponse(400, "No file uploaded")
    ensures upload.File? && upload.filename == "" ==> response == ErrorResponse(400, "No selected file")
    ensures upload.File? && upload.filename != "" && ExtractText(upload.read).Err? && ExtractText(upload.read).error != "" ==>
      response == ErrorResponse(400, ExtractText(upload.read).error)
    ensures response.ErrorResponse? ==> response.error != ""
    ensures upload.File? && upload.filename != "" && !(ExtractText(upload.read).Err? && ExtractText(upload.read).error != "") ==>
      var analysis := AnalyzeContract(AnalyzedText(upload.read), o);
      && (analysis.Err? ==> response == if analysis.error != "" then ErrorResponse(500, analysis.error) else Crash)
      && (analysis.Ok? && ClausesOf(analysis.value).None? ==> response == Crash)
      && (analysis.Ok? && ClausesOf(analysis.value).Some? ==>
            var clauses := ClausesOf(analysis.value).value;
            && (response.Crash? <==>
                  exists i :: 0 <= i < |clauses| && !Mergeable(CheckClauseViolation(clauses[i], ruleTexts, o)))
            && (response.Combined? ==>
                  && response.lists.Keys == {GoodClauses, RiskClauses, Recommendations}
                  && forall k :: k in response.lists ==>
                       response.lists[k] == Gather(MergeableResults(PerClause(clauses, ruleTexts, o)).value, k)))
  {
    match upload
    case NoFile =>
      return ErrorResponse(400, "No file uploaded");
    case File(filename, read) =>
      if filename == "" {
        return ErrorResponse(400, "No selected file");
      }
      var extracted := ExtractText(read);
      if extracted.Err? && extracted.error != "" {
        return ErrorResponse(400, extracted.error);
      }
      match AnalyzeContract(AnalyzedText(read), o)
      case Err(e) =>
        if e != "" {
          return ErrorResponse(500, e);
        }
        return Crash;
      case Ok(body) =>
        match ClausesOf(body)
        case None =>
          return Crash;
        case Some(clauses) =>
          response := MergeClauses(clauses, ruleTexts, o);
  }

  /** `check_violation`: `request.json.get("clauses", [])`, merged the same way. */
  method CheckViolation<E>(body: JsonBody, ruleTexts: seq<string>, o: RiskOracles<E>)
    returns (response: RiskResponse)
    requires |ruleTexts| > 0
    ensures !response.ErrorResponse?
    ensures ClausesOf(body).None? ==> response == Crash
    ensures ClausesOf(body).Some? ==>
      var clauses := ClausesOf(body).value;
      && (response.Crash? <==>
            exists i :: 0 <= i < |clauses| && !Mergeable(CheckClauseViolation(clauses[i], ruleTexts, o)))
      && (response.Combined? ==>
            && response.lists.Keys == {GoodClauses, RiskClauses, Recommendations}
            && forall k :: k in response.lists ==>
                 response.lists[k] == Gather(MergeableResults(PerClause(clauses, ruleTexts, o)).value, k))
  {
    match ClausesOf(body)
    case None =>
      return Crash;
    case Some(clauses) =>
      response := MergeClauses(clauses, ruleTexts, o);
  }
}
