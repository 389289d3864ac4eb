/**
 * compliancechcker.py: the contract is cut into sentence clauses, each clause is matched
 * with the most similar legal rule, a language model judges the pair, and the verdicts are
 * collected in a map keyed by clause.
 *
 * The embedding model, the similarity measure, the language model and the two parsers
 * (`json.loads`, `ast.literal_eval`) are foreign code; they are the fields of `Oracles`.
 * Nothing is assumed about them except that each is a function of its input.
 */
module Compliance {
  import opened Wrappers
  import opened Text
  import opened Selection
  import opened Extraction
  import opened Backend

  // ---------------------------------------------------------------------------------------
  // `analyze_contract`

  /** `[cl.strip() for cl in pieces if len(cl.strip()) > 20]` */
  function KeepClauses(pieces: seq<string>): (r: seq<string>)
    ensures |r| <= |pieces|
    ensures forall i :: 0 <= i < |r| ==> |r[i]| > 20 && !IsPySpace(r[i][0]) && !IsPySpace(r[i][|r[i]| - 1])
  {
    if |pieces| == 0 then []
    else
      var cl := PyStrip(pieces[0]);
      (if |cl| > 20 then [cl] else []) + KeepClauses(pieces[1..])
  }

  /** The clauses of a contract: its `.`-separated pieces, stripped, when longer than 20. */
  function Clauses(text: string): seq<string> {
    KeepClauses(Split(text, '.'))
  }

  /** A character that occurs in no piece occurs in no clause. */
  lemma {:induction false} KeepClausesAvoid(pieces: seq<string>, c: char)
    requires forall i :: 0 <= i < |pieces| ==> c !in pieces[i]
    ensures forall i :: 0 <= i < |KeepClauses(pieces)| ==> c !in KeepClauses(pieces)[i]
    decreases |pieces|
  {
    if |pieces| > 0 {
      KeepClausesAvoid(pieces[1..], c);
      StripKeepsCharacters(pieces[0], IsPySpace);
    }
  }

  /** Clauses are kept in the order of their pieces. */
  lemma {:induction false} KeepClausesConcat(a: seq<string>, b: seq<string>)
    ensures KeepClauses(a + b) == KeepClauses(a) + KeepClauses(b)
    decreases |a|
  {
    if |a| == 0 {
      assert a + b == b;
    } else {
      assert (a + b)[0] == a[0] && (a + b)[1..] == a[1..] + b;
      KeepClausesConcat(a[1..], b);
      var cl := PyStrip(a[0]);
      var head := if |cl| > 20 then [cl] else [];
      AppendAssoc(head, KeepClauses(a[1..]), KeepClauses(b));
    }
  }

  /** Pieces that are already long stripped clauses are kept as they are. */
  lemma {:induction false} KeepClausesKeepsClauses(xs: seq<string>)
    requires forall i :: 0 <= i < |xs| ==> |xs[i]| > 20 && !IsPySpace(xs[i][0]) && !IsPySpace(xs[i][|xs[i]| - 1])
    ensures KeepClauses(xs) == xs
    decreases |xs|
  {
    if |xs| > 0 {
      StripPadded("", xs[0], "", IsPySpace);
      assert "" + xs[0] + "" == xs[0];
      KeepClausesKeepsClauses(xs[1..]);
      assert [xs[0]] + xs[1..] == xs;
    }
  }

  /** `analyze_contract`: never an error, and no clause holds a full stop. */
  function AnalyzeContract(text: string): (r: Result<seq<string>, string>)
    ensures r.Ok?
    ensures forall i :: 0 <= i < |r.value| ==> '.' !in r.value[i]
  {
    KeepClausesAvoid(Split(text, '.'), '.');
    Ok(Clauses(text))
  }

  /** Clauses joined with full stops are cut back into the same clauses. */
  lemma ClausesOfJoined(xs: seq<string>)
    requires |xs| > 0
    requires forall i :: 0 <= i < |xs| ==> '.' !in xs[i]
    requires forall i :: 0 <= i < |xs| ==> |xs[i]| > 20 && !IsPySpace(xs[i][0]) && !IsPySpace(xs[i][|xs[i]| - 1])
    ensures Clauses(Join(xs, ".")) == xs
  {
    SplitJoinPlain(xs, '.');
    assert "." == ['.'];
    KeepClausesKeepsClauses(xs);
  }

  // ---------------------------------------------------------------------------------------
  // The rule table and `find_most_relevant_rule`

  datatype LegalRule = LegalRule(lawId: string, category: string, lawText: string)

  /**
   * The foreign functions: `get_embedding` (`None` for an empty tensor), the `len(shape) == 1`
   * test, cosine similarity, `call_llm` on the prompt built from a clause and a rule text,
   * `json.loads` and `ast.literal_eval` (`None` where they
   * raise), and Python truthiness of a parsed value.
   */
  datatype Oracles<!E, !V> = Oracles(
    embed: string -> Option<E>,
    isVector: E -> bool,
    similarity: (E, E) -> real,
    llm: (string, string) -> LlmReply,
    parseJson: string -> Option<V>,
    literalEval: string -> Option<V>,
    truthy: V -> bool)

  /** `legal_rules_embeddings`: the embeddings of the rule texts that have one. */
  function RuleEmbeddings<E>(rules: seq<LegalRule>, embed: string -> Option<E>): seq<E> {
    if |rules| == 0 then []
    else
      (match embed(rules[0].lawText) case Some(e) => [e] case None => []) + RuleEmbeddings(rules[1..], embed)
  }

  /** `legal_rules_filtered`: the rules kept by the same test. */
  function FilteredRules<E>(rules: seq<LegalRule>, embed: string -> Option<E>): seq<LegalRule> {
    if |rules| == 0 then []
    else (if embed(rules[0].lawText).Some? then [rules[0]] else []) + FilteredRules(rules[1..], embed)
  }

  /** The two lists line up: the i-th embedding is that of the i-th kept rule. */
  lemma {:induction false} RulesAligned<E>(rules: seq<LegalRule>, embed: string -> Option<E>)
    ensures |RuleEmbeddings(rules, embed)| == |FilteredRules(rules, embed)|
    ensures forall i :: 0 <= i < |FilteredRules(rules, embed)| ==>
      embed(FilteredRules(rules, embed)[i].lawText) == Some(RuleEmbeddings(rules, embed)[i])
    ensures forall i :: 0 <= i < |FilteredRules(rules, embed)| ==> FilteredRules(rules, embed)[i] in rules
    decreases |rules|
  {
    if |rules| > 0 {
      RulesAligned(rules[1..], embed);
      var embs, kept := RuleEmbeddings(rules[1..], embed), FilteredRules(rules[1..], embed);
      forall i | 0 <= i < |kept| ensures kept[i] in rules {
        assert kept[i] in rules[1..];
      }
      match embed(rules[0].lawText)
      case Some(e) =>
        assert RuleEmbeddings(rules, embed) == [e] + embs;
        assert FilteredRules(rules, embed) == [rules[0]] + kept;
      case None =>
        assert RuleEmbeddings(rules, embed) == embs;
        assert FilteredRules(rules, embed) == kept;
    }
  }

  const SimilarityThreshold: real := 0.6
  const NoValidEmbedding := "No valid embedding generated."
  const NoRelevantRule := "No sufficiently relevant legal rule found."

  /** The rule `find_most_relevant_rule` hands back: a placeholder dict or a rule of the table. */
  datatype MatchedRule = Placeholder(text: string) | Found(rule: LegalRule) {
    /** `matched_rule['law_text']` */
    function LawText(): string {
      match this
      case Placeholder(t) => t
      case Found(r) => r.lawText
    }
  }

  datatype RuleMatch = RuleMatch(matched: MatchedRule, score: real)

  /** `cosine_similarity([e], embs)[0]`: one score per kept rule, in order. */
  function Scores<E>(e: E, embs: seq<E>, similarity: (E, E) -> real): (r: seq<real>)
    ensures |r| == |embs|
    ensures forall i :: 0 <= i < |r| ==> r[i] == similarity(e, embs[i])
  {
    seq(|embs|, i requires 0 <= i < |embs| => similarity(e, embs[i]))
  }

  predicate HasValidEmbedding<E, V>(clause: string, o: Oracles<E, V>) {
    o.embed(clause).Some? && o.isVector(o.embed(clause).value)
  }

  /** The clause's scores against the kept rules; meaningful when it has a valid embedding. */
  function ClauseScores<E, V>(clause: string, rules: seq<LegalRule>, o: Oracles<E, V>): (r: seq<real>)
    requires HasValidEmbedding(clause, o)
    ensures |r| == |FilteredRules(rules, o.embed)|
  {
    RulesAligned(rules, o.embed);
    Scores(o.embed(clause).value, RuleEmbeddings(rules, o.embed), o.similarity)
  }

  /**
   * `find_most_relevant_rule`. `None` is the `ValueError` sklearn's `cosine_similarity`
   * raises on the empty rule list when no rule has an embedding, before `np.argmax` runs;
   * it is not caught anywhere in the module.
   */
  function FindMostRelevantRule<E, V>(clause: string, rules: seq<LegalRule>, o: Oracles<E, V>): (r: Option<RuleMatch>)
    ensures !HasValidEmbedding(clause, o) ==> r == Some(RuleMatch(Placeholder(NoValidEmbedding), 0.0))
    ensures r.None? <==> HasValidEmbedding(clause, o) && |FilteredRules(rules, o.embed)| == 0
    ensures r.Some? && r.value.matched.Found? ==>
      r.value.score >= SimilarityThreshold && r.value.matched.rule in FilteredRules(rules, o.embed)
    ensures HasValidEmbedding(clause, o) && r.Some? ==>
      var scores := ClauseScores(clause, rules, o);
      var k := FirstArgMax(scores);
      && r.value.score == scores[k]
      && (scores[k] >= SimilarityThreshold ==> r.value.matched == Found(FilteredRules(rules, o.embed)[k]))
      && (scores[k] < SimilarityThreshold ==> r.value.matched == Placeholder(NoRelevantRule))
  {
    if !HasValidEmbedding(clause, o) then Some(RuleMatch(Placeholder(NoValidEmbedding), 0.0))
    else
      RulesAligned(rules, o.embed);
      var scores := ClauseScores(clause, rules, o);
      if |scores| == 0 then None
      else
        var k := FirstArgMax(scores);
        if scores[k] < SimilarityThreshold then Some(RuleMatch(Placeholder(NoRelevantRule), scores[k]))
        else Some(RuleMatch(Found(FilteredRules(rules, o.embed)[k]), scores[k]))
  }

  // ---------------------------------------------------------------------------------------
  // `extract_json`

  const Fence := "```"
  const JsonFence := "```json"

  /** `re.sub(r"```(?:json)?", "", s)`: each fence, with its `json` tag when there is one, goes. */
  function RemoveFences(s: string): string
    decreases |s|
  {
    if |s| == 0 then ""
    else if IsPrefix(JsonFence, s) then RemoveFences(s[|JsonFence|..])
    else if IsPrefix(Fence, s) then RemoveFences(s[|Fence|..])
    else [s[0]] + RemoveFences(s[1..])
  }

  /** Text before the first backtick is kept as it is. */
  lemma {:induction false} RemoveFencesKeepsPlain(a: string, s: string)
    requires '`' !in a
    ensures RemoveFences(a + s) == a + RemoveFences(s)
    decreases |a|
  {
    if |a| > 0 {
      var t := a + s;
      assert t[0] == a[0] && t[0] != '`';
      assert !IsPrefix(Fence, t) by {
        if |Fence| <= |t| {
          assert t[..|Fence|][0] == t[0];
        }
      }
      assert !IsPrefix(JsonFence, t) by {
        if |JsonFence| <= |t| {
          assert t[..|JsonFence|][0] == t[0];
        }
      }
      assert t[1..] == a[1..] + s;
      RemoveFencesKeepsPlain(a[1..], s);
      AppendAssoc([a[0]], a[1..], RemoveFences(s));
      assert [a[0]] + a[1..] == a;
    } else {
      assert a + s == s;
    }
  }

  /** A fence, tagged `json` or not, disappears together with its tag. */
  lemma RemoveFencesDropsFence(a: string, b: string)
    requires '`' !in a
    ensures RemoveFences(a + JsonFence + b) == a + RemoveFences(b)
    ensures !IsPrefix("json", b) ==> RemoveFences(a + Fence + b) == a + RemoveFences(b)
  {
    RemoveFencesKeepsPlain(a, JsonFence + b);
    assert (JsonFence + b)[..|JsonFence|] == JsonFence;
    assert (JsonFence + b)[|JsonFence|..] == b;
    assert a + JsonFence + b == a + (JsonFence + b);
    RemoveFencesKeepsPlain(a, Fence + b);
    assert a + Fence + b == a + (Fence + b);
    var t := Fence + b;
    assert t[..|Fence|] == Fence && t[|Fence|..] == b;
    if !IsPrefix("json", b) {
      assert !IsPrefix(JsonFence, t) by {
        if |JsonFence| <= |t| {
          assert t[..|JsonFence|][3..] == b[..4];
          assert JsonFence[3..] == "json";
        }
      }
    }
  }

  /** The bounds of `match.group()`: `t[start..end]`. */
  datatype Span = Span(start: nat, end: nat)

  /** The first position of `c` in `t`. */
  function FirstOf(t: string, c: char): (r: Option<nat>)
    ensures r.None? <==> c !in t
    ensures r.Some? ==> r.value < |t| && t[r.value] == c && c !in t[..r.value]
    decreases |t|
  {
    if |t| == 0 then None
    else if t[0] == c then Some(0)
    else
      match FirstOf(t[1..], c)
      case None => None
      case Some(k) => assert t[..k + 1] == [t[0]] + t[1..][..k]; Some(k + 1)
  }

  /** The last position of `c` in `t`. */
  function LastOf(t: string, c: char): (r: Option<nat>)
    ensures r.None? <==> c !in t
    ensures r.Some? ==> r.value < |t| && t[r.value] == c && c !in t[r.value + 1..]
    decreases |t|
  {
    if |t| == 0 then None
    else if t[|t| - 1] == c then Some(|t| - 1)
    else
      var front := t[..|t| - 1];
      match LastOf(front, c)
      case None => assert t == front + [t[|t| - 1]]; None
      case Some(k) => assert t[k + 1..] == front[k + 1..] + [t[|t| - 1]]; Some(k)
  }

  /**
   * `re.search(r"\{.*\}", t, re.DOTALL)`: from the first `{`, greedily, to the last `}` after
   * it; no match when no `}` follows a `{`.
   */
  function JsonSpan(t: string): (r: Option<Span>)
    ensures r.Some? <==> exists i, j :: 0 <= i < j < |t| && t[i] == '{' && t[j] == '}'
    ensures r.Some? ==>
      && r.value.start < r.value.end <= |t|
      && t[r.value.start] == '{' && t[r.value.end - 1] == '}'
      && '{' !in t[..r.value.start] && '}' !in t[r.value.end..]
  {
    match (FirstOf(t, '{'), LastOf(t, '}'))
    case (Some(i), Some(j)) =>
      if i < j then Some(Span(i, j + 1))
      else
        assert forall a, b :: 0 <= a < b < |t| && t[a] == '{' && t[b] == '}' ==> false by {
          forall a, b | 0 <= a < b < |t| && t[a] == '{' && t[b] == '}' ensures false {
          }
        }
        None
    case _ => None
  }

  /** `.replace('\n', ' ').replace('\r', '')` */
  function FlattenLines(s: string): (r: string)
    ensures '\n' !in r && '\r' !in r
  {
    var spaced := ReplaceAll(s, "\n", " ");
    ReplaceRemovesChar(s, '\n', " ");
    ReplaceKeepsAbsent(spaced, "\r", "", '\n');
    ReplaceRemovesChar(spaced, '\r', "");
    ReplaceAll(spaced, "\r", "")
  }

  /** The text `extract_json` works on once the fences are gone. */
  function Unfenced(text: string): string {
    PyStrip(RemoveFences(text))
  }

  /** What `extract_json` hands to `json.loads`: the `{…}` span, flattened to one line. */
  function JsonCandidate(t: string): (r: Option<string>)
    ensures r.Some? <==> JsonSpan(t).Some?
    ensures r.Some? ==>
      && |r.value| >= 2 && r.value[0] == '{' && r.value[|r.value| - 1] == '}'
      && '\n' !in r.value && '\r' !in r.value
  {
    match JsonSpan(t)
    case Some(span) =>
      var group := t[span.start..span.end];
      FlattenKeepsEnds(group);
      Some(FlattenLines(group))
    case None => None
  }

  /**
   * `extract_json`: the JSON parser gets the candidate when there is one, the literal parser
   * the whole unfenced text otherwise. `None` is the caught exception.
   */
  function ExtractJson<V>(text: string, parseJson: string -> Option<V>, literalEval: string -> Option<V>): (r: Option<V>)
    ensures JsonCandidate(Unfenced(text)).None? ==> r == literalEval(Unfenced(text))
    ensures JsonCandidate(Unfenced(text)).Some? ==> r == parseJson(JsonCandidate(Unfenced(text)).value)
  {
    var t := Unfenced(text);
    match JsonCandidate(t)
    case Some(candidate) => parseJson(candidate)
    case None => literalEval(t)
  }

  /** Flattening keeps the braces at both ends (neither is a newline or a carriage return). */
  lemma FlattenKeepsEnds(group: string)
    requires |group| >= 2 && group[0] == '{' && group[|group| - 1] == '}'
    ensures var r := FlattenLines(group); |r| > 0 && r[0] == '{' && r[|r| - 1] == '}'
  {
    var inner := group[1..|group| - 1];
    assert group == "{" + inner + "}";
    FlattenAround(inner);
  }

  lemma FlattenAround(inner: string)
    ensures FlattenLines("{" + inner + "}") == "{" + FlattenLines(inner) + "}"
  {
    ReplaceCharsConcat3("{", inner, "}", '\n', " ");
    var spaced := ReplaceAll(inner, "\n", " ");
    ReplaceCharsConcat3("{", spaced, "}", '\r', "");
  }

  lemma ReplaceCharsConcat3(a: string, b: string, c: string, x: char, v: string)
    requires |a| == 1 && |c| == 1 && a[0] != x && c[0] != x
    ensures ReplaceAll(a + b + c, [x], v) == a + ReplaceAll(b, [x], v) + c
  {
    ReplaceCharConcat(a + b, c, x, v);
    ReplaceCharConcat(a, b, x, v);
    ReplaceSingle(a, x, v);
    ReplaceSingle(c, x, v);
  }

  lemma ReplaceSingle(a: string, x: char, v: string)
    requires |a| == 1 && a[0] != x
    ensures ReplaceAll(a, [x], v) == a
  {
    assert !IsPrefix([x], a) by {
      assert a[..1] == a;
    }
    assert [a[0]] == a;
  }

  // ---------------------------------------------------------------------------------------
  // `check_clause_violation`

  /** What `check_clause_violation` returns: the parsed reply or the fallback record. */
  datatype Verdict<V> =
    | Parsed(value: V)
    | Fallback(clause: string, legalRule: string, violates: string, reason: string)

  const LlmFailed := "LLM inference failed"
  const ParseFailurePrefix := "Could not parse LLM response: "
  const Unknown := "UNKNOWN"
  /** How much of an unparseable reply the fallback reason quotes. */
  const MaxEcho: nat := 200

  /** `"Could not parse LLM response: " + reply[:200] + ("..." if len(reply) > 200 else "")` */
  function ParseFailureReason(reply: string): (r: string)
    ensures IsPrefix(ParseFailurePrefix, r)
    ensures |r| <= |ParseFailurePrefix| + MaxEcho + 3
    ensures |reply| <= MaxEcho ==> r == ParseFailurePrefix + reply
    ensures |reply| > MaxEcho ==>
      IsPrefix(ParseFailurePrefix + reply[..MaxEcho], r) && IsSuffix("...", r) && |r| == |ParseFailurePrefix| + MaxEcho + 3
  {
    if |reply| > MaxEcho then ParseFailurePrefix + reply[..MaxEcho] + "..." else ParseFailurePrefix + reply
  }

  /** The reply the language model gives for a clause and its matched rule text. */
  function Reply<E, V>(clause: string, m: RuleMatch, o: Oracles<E, V>): LlmReply {
    o.llm(clause, m.matched.LawText())
  }

  /**
   * `check_clause_violation`; `None` where `find_most_relevant_rule` or `call_llm` raises,
   * neither of which is caught. An absent or empty reply gives the inference-failure record,
   * an unparseable or falsy parse the parse-failure record; both carry the clause and the
   * rule text through.
   */
  function CheckClauseViolation<E, V>(clause: string, rules: seq<LegalRule>, o: Oracles<E, V>): (r: Option<Verdict<V>>)
    ensures FindMostRelevantRule(clause, rules, o).None? ==> r.None?
    ensures FindMostRelevantRule(clause, rules, o).Some? ==>
      (r.None? <==> Reply(clause, FindMostRelevantRule(clause, rules, o).value, o).Throws())
    ensures r.Some? && r.value.Fallback? ==>
      && r.value.clause == clause && r.value.violates == Unknown
      && r.value.legalRule == FindMostRelevantRule(clause, rules, o).value.matched.LawText()
    ensures r.Some? ==>
      var reply := Reply(clause, FindMostRelevantRule(clause, rules, o).value, o);
      && (reply.NoContent? || reply == Content("") ==> r.value.Fallback? && r.value.reason == LlmFailed)
      && (reply.Content? && reply.text != "" ==>
            match ExtractJson(reply.text, o.parseJson, o.literalEval)
            case Some(v) =>
              if o.truthy(v) then r.value == Parsed(v)
              else r.value.Fallback? && r.value.reason == ParseFailureReason(reply.text)
            case None => r.value.Fallback? && r.value.reason == ParseFailureReason(reply.text))
  {
    match FindMostRelevantRule(clause, rules, o)
    case None => None
    case Some(m) =>
      var lawText := m.matched.LawText();
      match Reply(clause, m, o)
      case Undecodable(_) => None
      case Raised(_) => None
      case NoContent => Some(Fallback(clause, lawText, Unknown, LlmFailed))
      case Content(reply) =>
        if reply == "" then Some(Fallback(clause, lawText, Unknown, LlmFailed))
        else
          match ExtractJson(reply, o.parseJson, o.literalEval)
          case Some(v) =>
            if o.truthy(v) then Some(Parsed(v))
            else Some(Fallback(clause, lawText, Unknown, ParseFailureReason(reply)))
          case None => Some(Fallback(clause, lawText, Unknown, ParseFailureReason(reply)))
  }

  // ---------------------------------------------------------------------------------------
  // The result map of `upload_contract` and `check_violation`

  /**
   * The loop `for clause in clauses: results[clause] = check(clause)`, for any per-clause
   * check; `None` when one of the calls raises, which ends the request.
   */
  method FillResults<V>(clauses: seq<string>, check: string -> Option<Verdict<V>>)
    returns (results: Option<map<string, Verdict<V>>>)
    ensures results.Some? <==> forall i :: 0 <= i < |clauses| ==> check(clauses[i]).Some?
    ensures results.Some? ==> results.value.Keys == set i | 0 <= i < |clauses| :: clauses[i]
    ensures results.Some? ==> forall c :: c in results.value ==> Some(results.value[c]) == check(c)
  {
    var acc: map<string, Verdict<V>> := map[];
    for i := 0 to |clauses|
      invariant acc.Keys == set j | 0 <= j < i :: clauses[j]
      invariant forall j :: 0 <= j < i ==> check(clauses[j]).Some?
      invariant forall c :: c in acc ==> Some(acc[c]) == check(c)
    {
      match check(clauses[i])
      case None =>
        return None;
      case Some(v) =>
        acc := acc[clauses[i] := v];
    }
    results := Some(acc);
  }

  /** `results[clause] = check_clause_violation(clause)` for each clause in turn. */
  method CheckAll<E, V>(clauses: seq<string>, rules: seq<LegalRule>, o: Oracles<E, V>)
    returns (results: Option<map<string, Verdict<V>>>)
    ensures results.Some? <==> forall i :: 0 <= i < |clauses| ==> CheckClauseViolation(clauses[i], rules, o).Some?
    ensures results.Some? ==> results.value.Keys == set i | 0 <= i < |clauses| :: clauses[i]
    ensures results.Some? ==>
      forall c :: c in results.value ==> Some(results.value[c]) == CheckClauseViolation(c, rules, o)
  {
    results := FillResults(clauses, c => CheckClauseViolation(c, rules, o));
  }

  /** The uploaded part of the request. */
  datatype Upload =
    | NoFile
    | File(filename: string, read: Result<seq<Option<string>>, string>)

  datatype ComplianceResponse<V> =
    | ErrorResponse(status: nat, error: string)
    | Verdicts(results: map<string, Verdict<V>>)
    /** An exception no handler in the module catches; Flask answers 500. */
    | Crash

  /**
   * `upload_contract`. An extraction error whose message is empty is falsy, so `if error:`
   * lets it through and `analyze_contract(None)` raises on `None.split`.
   */
  method UploadContract<E, V>(upload: Upload, rules: seq<LegalRule>, o: Oracles<E, V>)
    returns (response: ComplianceResponse<V>)
    ensures upload.NoFile? ==> response == ErrorResponse(400, "No file uploaded")
    ensures upload.File? && upload.filename == "" ==> response == ErrorResponse(400, "No selected file")
    ensures upload.File? && upload.filename != "" && ExtractText(upload.read).Err? ==>
      response == if ExtractText(upload.read).error != "" then ErrorResponse(400, ExtractText(upload.read).error) else Crash
    ensures response.ErrorResponse? ==> response.status == 400 && response.error != ""
    ensures upload.File? && upload.filename != "" && ExtractText(upload.read).Ok? ==>
      var clauses := Clauses(ExtractText(upload.read).value);
      && (response.Crash? <==> exists i :: 0 <= i < |clauses| && CheckClauseViolation(clauses[i], rules, o).None?)
      && (response.Verdicts? ==> response.results.Keys == set i | 0 <= i < |clauses| :: clauses[i])
      && (response.Verdicts? ==>
            forall c :: c in response.results ==> Some(response.results[c]) == CheckClauseViolation(c, rules, o))
  {
    match upload
    case NoFile =>
      return ErrorResponse(400, "No file uploaded");
    case File(filename, read) =>
      if filename == "" {
        return ErrorResponse(400, "No selected file");
      }
      match ExtractText(read)
      case Err(e) =>
        if e != "" {
          return ErrorResponse(400, e);
        }
        return Crash;
      case Ok(text) =>
        // `analyze_contract` never reports an error, so the source's 500 branch is dead.
        var clauses := AnalyzeContract(text).value;
        var results := CheckAll(clauses, rules, o);
        match results
        case None =>
          return Crash;
        case Some(m) =>
          return Verdicts(m);
  }

  /**
   * `check_violation`: `request.json.get("clauses", [])`, checked in turn; a body that is
   * not an object, or a `clauses` value that cannot be iterated, raises.
   */
  method CheckViolation<E, V>(body: JsonBody, rules: seq<LegalRule>, o: Oracles<E, V>)
    returns (response: ComplianceResponse<V>)
    ensures !response.ErrorResponse?
    ensures ClausesOf(body).None? ==> response == Crash
    ensures body == Object(Absent) ==> response == Verdicts(map[])
    ensures ClausesOf(body).Some? ==>
      var cs := ClausesOf(body).value;
      && (response.Crash? <==> exists i :: 0 <= i < |cs| && CheckClauseViolation(cs[i], rules, o).None?)
      && (response.Verdicts? ==> response.results.Keys == set i | 0 <= i < |cs| :: cs[i])
      && (response.Verdicts? ==>
            forall c :: c in response.results ==> Some(response.results[c]) == CheckClauseViolation(c, rules, o))
  {
    match ClausesOf(body)
    case None =>
      return Crash;
    case Some(cs) =>
      var results := CheckAll(cs, rules, o);
      match results
      case None =>
        return Crash;
      case Some(m) =>
        return Verdicts(m);
  }
}
