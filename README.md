# vakeel.ai in Dafny

This project models the deterministic core of vakeel.ai, a legal-contract assistant. The system has three parts.

- **A Python back end with four services.**
  - The compliance checker splits a contract into sentence clauses. It matches each clause with the most similar legal rule above a threshold and asks a language model whether the clause violates that rule.
  - The risk analyser sorts each clause into good clauses, risky clauses and recommendations, and merges the per-clause answers.
  - Two contract generators each fill a text template from a clause library and a language model's clause, then write and upload a PDF.
- **A Next.js web front end.** It has the compliance-analyzer, risk-detection, contract-generation, contact and pricing pages.
- **A React negotiation client.** It has the negotiation, history and verdict pages.

Each core source file is one Dafny module:

| Module | Source file |
|---|---|
| `ContractAgi` | contractagi.py |
| `Compliance` | compliancechcker.py |
| `Risk` | riskanalyser.py |
| `ContractPdf` | contractpdf.py |
| `VerdictPage` | negotiate/src/pages/VerdictPage.tsx |
| `NegotiationPage` | negotiate/src/pages/NegotiationPage.tsx |
| `HistoryPage` | negotiate/src/pages/HistoryPage.tsx |
| `ContractAnalyzer` | frontend/src/app/contract-analyzer/page.tsx |
| `RiskPage` | frontend/src/app/riskdetection/page.tsx |
| `ContractGeneration` | frontend/src/app/contract-generation/page.tsx |
| `Contact` | frontend/src/app/contact/page.tsx |
| `Pricing` | frontend/src/app/pricing/page.tsx |

Five modules are shared:

- `Wrappers` holds `Option` and `Result`.
- `Text` models the string built-ins the sources use: Python's `strip`, `split` and `replace`, JavaScript's `trim` and UTF-16 `.length`, and decimal rendering. Its `upper`, `lower`, `capitalize` and digit test cover ASCII letters and digits only (see "## Left out").
- `Selection` holds the first-maximum choice of `numpy.argmax` and `torch.argmax`.
- `Extraction` holds `extract_text`, which compliancechcker.py and riskanalyser.py write identically.
- `Backend` holds what else those two files share: the four outcomes of `call_llm` (a reply, no reply, a 200 body that is not JSON, or another exception it does not catch) and the `clauses` list a handler reads from a parsed JSON value.

**How state is modelled.**

- Code that reassigns state step by step is imperative Dafny: the sanitiser, the PDF line loop, the result loops, the retry loop and the page handlers.
- The React components' state becomes a `class` whose methods are the handlers. Each handler states its whole new state.
- Pure code is functions with lemmas.

**What is treated as foreign.** The language model, the embeddings, `fetch`, `response.json()`, local storage and the PDF libraries are parameters, or they are given as their outcomes. Nothing is assumed about them beyond their type.

## Model

| member | source | states |
|---|---|---|
| Selection.FirstArgMax | compliancechcker.py:107-108 | the index has a maximal score and every earlier score is strictly smaller (argmax picks the first maximum) |
| Selection.FirstArgMaxUnique | riskanalyser.py:173-175 | those two properties determine the index uniquely |
| Extraction.PageTexts | riskanalyser.py:143 | only the first ten pages are read, a page without text counts as "" |
| Extraction.ExtractText | riskanalyser.py:138-149 | the pages' texts joined by "\n"; the "empty" error exactly when that join is all whitespace; a read failure passes its message through (compliancechcker.py:84-96 is the same code) |
| Extraction.ExtractIgnoresLaterPages | riskanalyser.py:143 | pages after the tenth never change the result |
| Extraction.ExtractEmptyIff | compliancechcker.py:90-93 | the text is refused iff each of the first ten pages gave no text or only whitespace |
| Compliance.KeepClauses | compliancechcker.py:99 | every kept clause is longer than 20 characters and stripped at both ends; no more clauses than pieces |
| Compliance.KeepClausesAvoid | compliancechcker.py:99 | a character absent from every piece is absent from every clause |
| Compliance.KeepClausesConcat | compliancechcker.py:99 | clauses keep the order of their pieces |
| Compliance.KeepClausesKeepsClauses | compliancechcker.py:99 | pieces that are already long stripped clauses are all kept, unchanged |
| Compliance.AnalyzeContract | compliancechcker.py:98-100 | never an error, and no clause contains "." |
| Compliance.ClausesOfJoined | compliancechcker.py:98-100 | clauses joined with "." split back into the same clauses (round trip) |
| Compliance.RulesAligned | compliancechcker.py:80-82 | the embedding list and the filtered rule list have equal length, are index-aligned, and hold only rules of the table |
| Compliance.Scores | compliancechcker.py:107 | one similarity per kept rule, in order |
| Compliance.ClauseScores | compliancechcker.py:106-107 | a clause with a valid embedding gets one score per kept rule |
| Compliance.FindMostRelevantRule | compliancechcker.py:102-111 | an invalid embedding gives the "No valid embedding generated." placeholder with score 0.0; otherwise the first maximum, replaced by the "No sufficiently relevant" placeholder below 0.6; an error (sklearn's ValueError for the empty rule list) iff there is a valid embedding and no kept rule |
| Compliance.RemoveFencesKeepsPlain | compliancechcker.py:131 | text before the first backtick is kept unchanged by the fence removal |
| Compliance.RemoveFencesDropsFence | compliancechcker.py:131 | a ``` fence, with its json tag when present, is removed together with the tag |
| Compliance.FirstOf | compliancechcker.py:132 | the first position of a character, absent iff the character does not occur |
| Compliance.LastOf | compliancechcker.py:132 | the last position of a character, absent iff the character does not occur |
| Compliance.JsonSpan | compliancechcker.py:132 | a span exists iff some "{" precedes some "}"; it runs from the first "{" to the last "}" |
| Compliance.FlattenLines | compliancechcker.py:134 | no "\n" and no "\r" is left |
| Compliance.FlattenKeepsEnds | compliancechcker.py:134 | flattening keeps the braces at both ends of the span |
| Compliance.FlattenAround | compliancechcker.py:134 | flattening a braced text flattens only its inside |
| Compliance.JsonCandidate | compliancechcker.py:131-134 | a candidate exists iff there is a span; it is that span, flattened |
| Compliance.ExtractJson | compliancechcker.py:129-139 | the JSON parser gets the candidate when there is one, and the literal parser gets the unfenced text otherwise |
| Compliance.ParseFailureReason | compliancechcker.py:171-176 | the prefix, then the reply itself up to 200 characters; a longer reply is cut to 200 characters plus "..." |
| Compliance.CheckClauseViolation | compliancechcker.py:113-176 | an error (an uncaught exception) exactly when rule selection or `call_llm` raises, an undecodable 200 body included; a missing or empty reply gives the UNKNOWN "LLM inference failed" record and an unparseable or falsy parse the parse-failure record, both carrying the clause and the rule text |
| Compliance.FillResults | compliancechcker.py:194-196 | the loop's map has exactly the clauses as keys, each holding its check's verdict; there is no map exactly when some check fails |
| Compliance.CheckAll | compliancechcker.py:194-196 | the result map's keys are exactly the set of clauses; each key holds that clause's verdict, so a repeated clause gives one entry |
| Compliance.UploadContract | compliancechcker.py:178-198 | 400 "No file uploaded", 400 "No selected file", 400 with a non-empty extraction error and a crash for an empty one (it is falsy); otherwise a crash iff some clause's check raises, else the verdict map of the contract's clauses |
| Compliance.CheckViolation | compliancechcker.py:200-206 | a crash when the body is not an object or its `clauses` cannot be iterated, the empty map when `clauses` is absent; otherwise a crash iff some check raises, else exactly the clauses sent as keys, each holding its verdict |
| Backend.ClausesOf | compliancechcker.py:202-204 | `.get("clauses", [])` then iteration: the listed clauses, [] when the key is absent, and an exception for a non-object or a non-iterable value |
| Risk.GatherLength | riskanalyser.py:219 | a combined list is as long as the per-clause lists of its key put together |
| Risk.GatherConcat | riskanalyser.py:216-219 | gathering over two runs of clauses gathers over each in turn |
| Risk.GatherMissing | riskanalyser.py:219 | results without the key contribute nothing |
| Risk.Merge | riskanalyser.py:218-219 | the inner loop keeps the three keys and extends each list with that clause's list for the key |
| Risk.Combine | riskanalyser.py:215-219 | exactly the keys good_clauses, risk_clauses and recommendations; each list is the concatenation, in clause order, of that key's per-clause lists |
| Risk.GatherStep | riskanalyser.py:216-219 | one more clause extends the gathered list by that clause's list |
| Risk.KeysDistinct | riskanalyser.py:215 | the three keys are different |
| Risk.RuleScores | riskanalyser.py:173 | one similarity per rule text, in order, over all rules (unfiltered, riskanalyser.py:114) |
| Risk.ChosenRule | riskanalyser.py:173-175 | the law text at the first maximum of similarity; no threshold |
| Risk.CheckClauseViolation | riskanalyser.py:168-197 | a missing embedding gives one risk entry "Embedding failed."; otherwise the model is asked about the chosen rule: a raising `call_llm`, an undecodable 200 body included, is an error, a parsed reply is returned whatever JSON value it is, and an unparseable or missing reply gives one risk entry quoting it ("None" when missing) after "Could not parse AI response: " |
| Risk.FallbackCounts | riskanalyser.py:170-171 | a fallback result holds exactly one risky entry and no good clause and no recommendation |
| Risk.PerClause | riskanalyser.py:216-217 | one answer per clause, in order |
| Risk.MergeableResults | riskanalyser.py:216-219 | the objects the merge reads, in clause order, exactly when no check raised and every answer is an object (otherwise `result.get` or the check raises) |
| Risk.AnalyzeContract | riskanalyser.py:151-166 | a raised exception gives its message, a missing reply the `TypeError` message of `json.loads(None)`, an undecodable 200 body (a `json.JSONDecodeError`) and an unparseable reply "Failed to parse AI response."; otherwise the parsed value, whatever JSON value it is |
| Risk.AnalysisErrorFalsy | riskanalyser.py:151-166 | the analysis error is empty, and so skips the 500 branch, exactly when the call raised an exception with an empty message |
| Risk.UploadContract | riskanalyser.py:199-221 | 400 for no file, for an empty filename and for a non-empty extraction error; an empty one goes on with the text "None"; 500 with a non-empty analysis error and a crash for an empty one; a crash when the parsed value is not an object or its `clauses` cannot be iterated; otherwise a crash iff some check raises or answers with a non-object, else the combined lists of the clauses |
| Risk.AnalyzedText | riskanalyser.py:207-211 | the extracted text, or "None" when an extraction error reached `analyze_contract` |
| Risk.MergeClauses | riskanalyser.py:215-221 | a crash iff some clause's answer is not mergeable; otherwise the three keys, each the clause-ordered concatenation of the per-clause lists |
| Risk.CheckViolation | riskanalyser.py:223-231 | a crash when the body is not an object or its `clauses` cannot be iterated; otherwise a crash iff some check raises or answers with a non-object, else the three combined lists of the clauses sent ([] when absent) |
| ContractAgi.RemoveThinkNoClose | contractagi.py:73 | without a "</think>" nothing is removed |
| ContractAgi.RemoveThinkLeadingBlock | contractagi.py:73 | a leading block goes up to and including its first "</think>", across newlines |
| ContractAgi.RemoveThinkPrefix | contractagi.py:73 | text without "<think>" that runs up to a "<think>" is copied unchanged before whatever the scan does from there |
| ContractAgi.RemoveThinkBlock | contractagi.py:73 | a block after text without "<think>" is removed, that text is kept, and the scan carries on after the block |
| ContractAgi.NewlineRun | contractagi.py:75 | the exact length of the leading run of newlines |
| ContractAgi.CollapseLeavesNoTriple | contractagi.py:75 | right after the collapse step no run of three newlines remains |
| ContractAgi.CollapseKeepsShortRuns | contractagi.py:75 | text without a run of three newlines is unchanged |
| ContractAgi.CollapseIdempotent | contractagi.py:75 | collapsing twice is collapsing once |
| ContractAgi.LookupFrom | contractagi.py:78-89 | a mapped character becomes one of the table's replacements; any other character is kept |
| ContractAgi.ReplacementsNonInteracting | contractagi.py:78-89 | no replacement produces a character that a later entry replaces |
| ContractAgi.ChainIsMap | contractagi.py:91-92 | for such a table the loop of replace calls equals replacing each character once |
| ContractAgi.MapCharsRemovesKeys | contractagi.py:78-92 | no mapped character is left after the replacements |
| ContractAgi.MapCharsKeepsOthers | contractagi.py:91-92 | text without mapped characters is unchanged |
| ContractAgi.Latin1 | contractagi.py:95 | every character left has code point at most 255 |
| ContractAgi.Latin1Keeps | contractagi.py:95 | Latin-1 text passes unchanged |
| ContractAgi.Latin1Concat | contractagi.py:95 | the filter works character by character |
| ContractAgi.Latin1KeepsCount | contractagi.py:95 | each Latin-1 character is kept as often as it occurs, and the others are dropped, not replaced |
| ContractAgi.CleanSpec | contractagi.py:71-97 | the result is Latin-1 with no leading or trailing whitespace |
| ContractAgi.CleanContractOutput | contractagi.py:71-97 | the step-by-step sanitiser, with its replacement loop, computes the reference result |
| ContractAgi.CleanCanRebuildTripleNewline | contractagi.py:75-95 | the Latin-1 filter can rebuild a triple newline the collapse had removed ("a\n\n☃\nb") |
| ContractAgi.TemplateStrip | contractagi.py:117-130 | the final strip removes exactly the two framing newlines |
| ContractAgi.TemplateLines | contractagi.py:115-130 | the lines are: the upper-cased type plus " AGREEMENT", the introduction naming both parties, Duration, Jurisdiction and Legal Clause in order, the sanitised clause's own lines, "Signed:", and the parties joined by " \| "; case mapping and digits are ASCII only |
| ContractAgi.TemplateLinesPlain | contractagi.py:117-129 | every template line except the clause is a single line |
| ContractAgi.LayoutAt | contractagi.py:155-177 | the layout of the lines from any position on is the step of that line followed by the layout of the rest |
| ContractAgi.RenderContent | contractagi.py:145-177 | the loop writes the bold title cell, then the cells of each line in turn, starting in the regular font; case mapping and digits are ASCII only |
| ContractAgi.LayoutIgnoresSkipped | contractagi.py:156-157 | blank lines and the title line write nothing and keep the font |
| ContractAgi.LineTestsExclusive | contractagi.py:158-175 | the introduction, "Signed:", numbered and heading tests never hold together, so testing "Signed:" before the numbered test decides nothing |
| ContractAgi.StarsRemoved | contractagi.py:171-175 | a heading is written with no "**" left |
| ContractAgi.SignatureFontCarriesOver | contractagi.py:163-177 | after a "Signed:" line the bold font stays on for a following plain line |
| ContractAgi.PdfFileName | contractagi.py:256 | absent iff a party name has no word; otherwise it starts with the lower-cased type and "_agreement_" and ends in ".pdf"; case mapping and digits are ASCII only |
| ContractAgi.GenerateContract | contractagi.py:216-278 | 400 "Missing required fields" iff one of the five fields is absent; 500 iff the clause call or the upload fails or a party has no word, carrying the clause call's message, "list index out of range" or the upload's message, in that order of evaluation; 200 carries the sanitised template and the upload link; case mapping and digits are ASCII only |
| ContractPdf.LibraryShape | contractpdf.py:29-75 | nine distinct types with three clauses each |
| ContractPdf.RetrieveClause | contractpdf.py:84-93 | a type without clauses gets the governing-law default; otherwise the first most similar clause of that type |
| ContractPdf.DefaultNotInLibrary | contractpdf.py:29-87 | no library clause is the default clause |
| ContractPdf.RetrieveDefaultWhenAbsent | contractpdf.py:85-87 | over a proper library the default comes back exactly for the types it lacks |
| ContractPdf.ClauseLibraryProper | contractpdf.py:29-75 | the real library is proper: every type has clauses and none is the default |
| ContractPdf.RetrieveDefaultIff | contractpdf.py:84-93 | with the real library the default comes back iff the type is outside it |
| ContractPdf.RefineClause | contractpdf.py:131-136 | an exception, a non-200 reply or a reply without content gives the clause unchanged; otherwise the reply, stripped |
| ContractPdf.Templates | contractpdf.py:149-158 | one template for each of the nine types |
| ContractPdf.GetLegalTemplate | contractpdf.py:139-160 | a KeyError message for the first missing required key; "Invalid contract type." for an unknown type |
| ContractPdf.ClosingShape | contractpdf.py:150-158 | the closing part names the legal clause and the jurisdiction and ends with the signatures |
| ContractPdf.ValidTemplateShape | contractpdf.py:149-160 | every template of a library type contains "Legal Clause: <clause>" and "Jurisdiction: <J>" and ends with "Signed: <A>, <B>" |
| ContractPdf.DefaultsFilled | contractpdf.py:141-148 | leaving out an optional field is the same as sending its default (New Delhi, or "") |
| ContractPdf.WithDefaultsKeeps | contractpdf.py:141-148 | filling in the defaults leaves every other field as it was |
| ContractPdf.CityIgnoresJurisdiction | contractpdf.py:184 | the form's "jurisdiction" never reaches the refinement, whose city is New Delhi unless "jusridiction" is sent |
| ContractPdf.GenerateContract | contractpdf.py:178-210 | every failure is a 400 with its message: a missing template field, a raised upload, a non-200 upload, a status other than "ok" and a missing download page each give their own; success carries the filled template and the download link |
| ContractPdf.UnknownTypeUploaded | contractpdf.py:160 | an unknown type is not an error: its contract is "Invalid contract type." |
| VerdictPage.TextIndex | negotiate/src/pages/VerdictPage.tsx:106-107 | the text index is min(⌊n/2⌋, 5) |
| VerdictPage.Tick | negotiate/src/pages/VerdictPage.tsx:89-120 | while polling, the count goes up by exactly 1, the text follows the new count, and polling stops at 12; when not polling nothing changes; validity is preserved |
| VerdictPage.OnSuccess | negotiate/src/pages/VerdictPage.tsx:62-72 | polling stops iff the negotiation is completed with a verdict, or the count has reached 12, or polling had already stopped; validity is preserved |
| VerdictPage.Reset | negotiate/src/pages/VerdictPage.tsx:199-200 | the count goes back to 0 and polling back on; validity is preserved |
| VerdictPage.InitialValid | negotiate/src/pages/VerdictPage.tsx:11-14 | the initial state is count 0, polling, "Initializing analysis...", and valid |
| VerdictPage.TicksFromStart | negotiate/src/pages/VerdictPage.tsx:100-113 | from a fresh start k ticks leave the count at min(k, 12), polling iff k < 12 |
| VerdictPage.StoppedStaysStopped | negotiate/src/pages/VerdictPage.tsx:89-90 | once polling has stopped, ticks change nothing |
| VerdictPage.VerdictPoll.constructor | negotiate/src/pages/VerdictPage.tsx:11-14 | the page starts in the initial state |
| VerdictPage.VerdictPoll.TimerFires | negotiate/src/pages/VerdictPage.tsx:100-116 | the new state is one tick of the old |
| VerdictPage.VerdictPoll.FetchSucceeded | negotiate/src/pages/VerdictPage.tsx:65-71 | the new state is the success rule applied to the old |
| VerdictPage.VerdictPoll.Retry | negotiate/src/pages/VerdictPage.tsx:274-275 | the new state is the reset of the old |
| VerdictPage.Percent | negotiate/src/pages/VerdictPage.tsx:146 | min(round(100 n / 12), 100), in integers |
| VerdictPage.BarWidth | negotiate/src/pages/VerdictPage.tsx:160 | min(100 n / 12, 100); it is 100 iff n ≥ 12 |
| VerdictPage.PercentNearWidth | negotiate/src/pages/VerdictPage.tsx:146-160 | the number shown is the bar's width rounded to the nearest integer |
| VerdictPage.TryAgainOnlyWhenStopped | negotiate/src/pages/VerdictPage.tsx:191 | in every valid state "Try Again" appears only once polling has stopped at count 12 |
| VerdictPage.SelectView | negotiate/src/pages/VerdictPage.tsx:134-328 | the five views in priority order: loading, error, completed without a verdict, not completed, the verdict |
| VerdictPage.VerdictNeedsCompletion | negotiate/src/pages/VerdictPage.tsx:295 | a verdict on a negotiation that is not completed is never shown |
| VerdictPage.CompletedFetchShowsVerdict | negotiate/src/pages/VerdictPage.tsx:65-71 | a successful fetch of a completed negotiation with its verdict ends in the verdict view |
| NegotiationPage.NextSpeaker | negotiate/src/pages/NegotiationPage.tsx:23-28 | user2 iff the last message is user1's; user1 otherwise, and with no messages |
| NegotiationPage.SpeakersAlternate | negotiate/src/pages/NegotiationPage.tsx:23-28 | a message sent as the next speaker hands the turn to the other party |
| NegotiationPage.KeysDistinct | negotiate/src/pages/NegotiationPage.tsx:23-28 | the two speaker names differ |
| NegotiationPage.NegotiationView.constructor | negotiate/src/pages/NegotiationPage.tsx:9 | empty input, no navigation yet |
| NegotiationPage.NegotiationView.Type | negotiate/src/pages/NegotiationPage.tsx:136 | the input holds the typed text |
| NegotiationPage.NegotiationView.HandleSend | negotiate/src/pages/NegotiationPage.tsx:49-53 | nothing is posted iff the input is blank after trimming; otherwise the untrimmed text is posted as the next speaker |
| NegotiationPage.NegotiationView.SendSucceeded | negotiate/src/pages/NegotiationPage.tsx:39-44 | the input is cleared, and a completed reply navigates to /verdict/<id> |
| NegotiationPage.NegotiationView.NegotiationFetched | negotiate/src/pages/NegotiationPage.tsx:61-65 | a completed negotiation navigates to /verdict/<id> |
| NegotiationPage.StatusLabel | negotiate/src/pages/NegotiationPage.tsx:105 | "In Progress" iff the status is active, "Completed" otherwise |
| NegotiationPage.LabelAndInputDisagree | negotiate/src/pages/NegotiationPage.tsx:105-139 | a status other than active and completed reads "Completed" yet leaves the input enabled |
| NegotiationPage.DisabledInputDisablesSend | negotiate/src/pages/NegotiationPage.tsx:139-144 | whenever the input is disabled, so is the send button |
| NegotiationPage.SpeakerLabel | negotiate/src/pages/NegotiationPage.tsx:121 | "You" iff the speaker is user1, "Opponent" otherwise |
| HistoryPage.InitialTopic | negotiate/src/pages/HistoryPage.tsx:57-67 | "No messages" without messages; a first text over 50 characters cut to 50 plus "...", a shorter one unchanged, so at most 53 characters; an error when the first message has no text |
| HistoryPage.Survivors | negotiate/src/pages/HistoryPage.tsx:39 | only records that were fetched survive, no more than were requested |
| HistoryPage.SurvivorsConcat | negotiate/src/pages/HistoryPage.tsx:39 | the filter keeps the order of the saved ids |
| HistoryPage.SurvivorsAllSome | negotiate/src/pages/HistoryPage.tsx:39 | when every fetch succeeds every record is listed, in order |
| HistoryPage.SurvivorsSkipFailure | negotiate/src/pages/HistoryPage.tsx:27-39 | a failed fetch drops exactly its own record |
| HistoryPage.History.constructor | negotiate/src/pages/HistoryPage.tsx:6-8 | no negotiations, loading, no error |
| HistoryPage.History.FetchNegotiations | negotiate/src/pages/HistoryPage.tsx:14-46 | an unreadable entry sets the error; an empty list makes no request and lists nothing; otherwise one request per saved id and the survivors are listed; loading ends false |
| HistoryPage.RowTarget | negotiate/src/pages/HistoryPage.tsx:115-119 | /verdict/<id> for a completed negotiation, /negotiation/<id> otherwise |
| HistoryPage.Badge | negotiate/src/pages/HistoryPage.tsx:135 | "Completed" iff the status is completed, "In Progress" otherwise |
| HistoryPage.BadgeMatchesTarget | negotiate/src/pages/HistoryPage.tsx:115-135 | the badge and the link make the same test |
| ContractAnalyzer.RetryFetch | frontend/src/app/contract-analyzer/page.tsx:77-91 | at most three requests, stopping at the first OK one; the third attempt's exception is rethrown; otherwise the last response seen is kept |
| ContractAnalyzer.EarlyExceptionsRetried | frontend/src/app/contract-analyzer/page.tsx:88-89 | exceptions on the first two attempts are swallowed and the third decides |
| ContractAnalyzer.AllRefusedKeepsLast | frontend/src/app/contract-analyzer/page.tsx:77-91 | when all three attempts are refused the last response is reported |
| ContractAnalyzer.AfterLoop | frontend/src/app/contract-analyzer/page.tsx:96-101 | a rethrown error passes; no OK response gives "HTTP error! status: <last status or unknown>"; the data only after an OK response |
| ContractAnalyzer.ErrorMessage | frontend/src/app/contract-analyzer/page.tsx:102-110 | an abort gives the timeout message, an Error its message, anything else "An unexpected error occurred" |
| ContractAnalyzer.Badge | frontend/src/app/contract-analyzer/page.tsx:250-257 | "Compliant" iff Violates is exactly "NO" |
| ContractAnalyzer.UnknownIsNonCompliant | frontend/src/app/contract-analyzer/page.tsx:250-257 | the UNKNOWN fallback record shows "Non-Compliant" |
| ContractAnalyzer.Analyzer.constructor | frontend/src/app/contract-analyzer/page.tsx:20-26 | no file, no data, not loading, no error, not dragging |
| ContractAnalyzer.Analyzer.FileChange | frontend/src/app/contract-analyzer/page.tsx:28-34 | a picked file is taken and the error cleared; picking none changes nothing |
| ContractAnalyzer.Analyzer.DragOver | frontend/src/app/contract-analyzer/page.tsx:36-39 | only the dragging flag is set |
| ContractAnalyzer.Analyzer.DragLeave | frontend/src/app/contract-analyzer/page.tsx:41-44 | only the dragging flag is cleared |
| ContractAnalyzer.Analyzer.Drop | frontend/src/app/contract-analyzer/page.tsx:46-57 | a PDF is taken and the error cleared; anything else sets "Please select a PDF file" and keeps the file; dragging ends |
| ContractAnalyzer.Analyzer.Submit | frontend/src/app/contract-analyzer/page.tsx:59-114 | no file sets the error without loading; otherwise loading ends false, and the data is set on success, or cleared with the mapped error |
| RiskPage.CatchMessage | frontend/src/app/riskdetection/page.tsx:80-81 | an Error's message, "Something went wrong" otherwise |
| RiskPage.SubmitResult | frontend/src/app/riskdetection/page.tsx:62-84 | the analysis iff an OK answer parsed; "Failed to analyze the contract" for a refused one; the caught message otherwise |
| RiskPage.RefusedShowsBanner | frontend/src/app/riskdetection/page.tsx:74-76 | a refused answer always shows a non-empty error |
| RiskPage.RiskView.constructor | frontend/src/app/riskdetection/page.tsx:23-27 | no file, no name, not loading, no analysis, no error |
| RiskPage.RiskView.FileChange | frontend/src/app/riskdetection/page.tsx:29-36 | any picked file is taken and the error cleared; picking none changes nothing |
| RiskPage.RiskView.Drop | frontend/src/app/riskdetection/page.tsx:42-52 | a PDF sets the file and its name and clears the error; anything else sets "Please upload a PDF file" and keeps both |
| RiskPage.RiskView.Submit | frontend/src/app/riskdetection/page.tsx:54-85 | no file sets "Please select a file" without loading; otherwise loading ends false, an answer replaces the analysis, and a failure keeps it and sets the error |
| RiskPage.RiskView.ClickSubmit | frontend/src/app/riskdetection/page.tsx:165-167 | a click on the disabled button changes nothing; a click on the enabled one always passes the no-file guard, applies the request's outcome and ends with loading off |
| ContractGeneration.FormTypesMatchLibrary | frontend/src/app/contract-generation/page.tsx:11-14 | the form offers exactly the nine types of the clause library (contractpdf.py:29-75) |
| ContractGeneration.OptionLabel | frontend/src/app/contract-generation/page.tsx:92 | the first character upper-cased, the rest kept |
| ContractGeneration.LabelsDistinct | frontend/src/app/contract-generation/page.tsx:92 | the nine labels are different, and the first is "Nda" |
| ContractGeneration.ExtraField | frontend/src/app/contract-generation/page.tsx:147-193 | lease shows the address, employment the position, sales the goods and noncompete the scope; no other type shows one |
| ContractGeneration.Payload | frontend/src/app/contract-generation/page.tsx:40-47 | exactly the six keys with the form's values; none of the extra fields |
| ContractGeneration.PayloadDropsExtras | frontend/src/app/contract-generation/page.tsx:40-47 | the back end's template never fails on this payload, but its extra fields are always the empty defaults |
| ContractGeneration.ContractTextOf | frontend/src/app/contract-generation/page.tsx:62 | data.contract if truthy, else data.text if truthy, else the serialised answer |
| ContractGeneration.PdfUrlOf | frontend/src/app/contract-generation/page.tsx:63 | data.pdf_url if truthy, else "" |
| ContractGeneration.CatchMessage | frontend/src/app/contract-generation/page.tsx:65-66 | an Error's message, "Failed to generate contract" otherwise |
| ContractGeneration.SubmitResult | frontend/src/app/contract-generation/page.tsx:49-66 | the answer iff an OK answer parsed; a refused one gives its error field when truthy, else "Failed to generate contract" |
| ContractGeneration.RefusedHasMessage | frontend/src/app/contract-generation/page.tsx:57-60 | a refused answer always yields a non-empty message |
| ContractGeneration.Generator.constructor | frontend/src/app/contract-generation/page.tsx:17-31 | the type starts as "nda" and the jurisdiction as "New Delhi" |
| ContractGeneration.Generator.SelectType | frontend/src/app/contract-generation/page.tsx:87 | only the form's type changes |
| ContractGeneration.Generator.Submit | frontend/src/app/contract-generation/page.tsx:33-70 | the payload of the form is posted; on success the text, the link and success are set with no error; on failure the link is "" and success false with the message; loading ends false |
| Contact.Validate | frontend/src/app/contact/page.tsx:31-41 | no errors iff the form is valid; each field's message appears iff its rule fails |
| Contact.MessagesDistinct | frontend/src/app/contact/page.tsx:32-40 | the four messages are different |
| Contact.DefaultsRejected | frontend/src/app/contact/page.tsx:52-57 | the default form fails on name, subject (the "" default is not exempt) and message |
| Contact.ContactPage.constructor | frontend/src/app/contact/page.tsx:44-57 | the default values, not submitted, no details |
| Contact.ContactPage.Edit | frontend/src/app/contact/page.tsx:200-288 | only the values change |
| Contact.ContactPage.Submit | frontend/src/app/contact/page.tsx:60-93 | the errors are the schema's; a valid form that was sent sets the details to the sender's name and e-mail, sets the flag and resets the form; otherwise nothing changes |
| Contact.ContactPage.SendAnother | frontend/src/app/contact/page.tsx:110-113 | both the flag and the details are reset |
| Contact.AstralNameCountsDouble | frontend/src/app/contact/page.tsx:32 | a one-character name outside the Basic Multilingual Plane passes the two-character minimum, since its length counts UTF-16 code units |
| Pricing.NonEmpty | frontend/src/app/pricing/page.tsx:4 | the non-empty arguments in their order; empty iff every argument is empty |
| Pricing.NonEmptyConcat | frontend/src/app/pricing/page.tsx:4 | filtering keeps the arguments' order |
| Pricing.ClassNames | frontend/src/app/pricing/page.tsx:3-5 | all-empty arguments give "" |
| Pricing.ClassNamesTokens | frontend/src/app/pricing/page.tsx:3-5 | the result's space-separated tokens are the non-empty arguments' tokens, argument after argument |
| Pricing.ClassNamesRoundTrip | frontend/src/app/pricing/page.tsx:3-5 | arguments without spaces split back out of the result, with the empty ones dropped |
| Pricing.ClassNamesSkipsEmpty | frontend/src/app/pricing/page.tsx:4 | an empty piece between two others leaves a single space |
| Pricing.TiersShape | frontend/src/app/pricing/page.tsx:8-42 | two tiers; a tier is featured iff it is Enterprise; distinct ids |
| Pricing.CornerClasses | frontend/src/app/pricing/page.tsx:68-72 | none for a featured tier, the rounded-t-3xl variant for index 0, and the sm:rounded-t-none variant otherwise |
| Pricing.CardClassesShape | frontend/src/app/pricing/page.tsx:64-73 | a featured card gets the dark classes and no corner variant; a plain one the light classes and its corner variant, in order |
| Pricing.TierCards | frontend/src/app/pricing/page.tsx:64-73 | Basic is the first plain card and Enterprise the featured one |
| Text.JoinSplit | contractagi.py:154 | joining the pieces of a split with the separator gives back the text |
| Text.DecimalRoundTrip | frontend/src/app/contract-analyzer/page.tsx:97 | the status's decimal rendering reads back as the status |

## Left out

- **Embeddings.** InLegalBERT and cosine similarity are float numerics. Scores are abstract reals, and an embedding is an optional value of an arbitrary type.
- **The language model and the agent.** `call_llm`, the model call in `refine_clause_with_llm`, the LangChain agent and `generate_clause` are network calls. Each one's outcome is an input. For `call_llm` that is a reply, no reply, a 200 body `response.json()` cannot decode, or another exception it lets through.
- **Parsers.** `json.loads`, `ast.literal_eval` and `response.json()` are library code. Their results are inputs, like the truthiness of a parsed value. A parsed per-clause object is modelled with lists of entries under its keys. A value of another kind there (which `extend` would take apart or refuse) is not modelled. Nor is a `clauses` value that is a string, an object or a list holding non-strings; `null`, numbers and booleans are modelled, as the `TypeError` of the loop.
- **Determinism of the foreign calls.** Each oracle is a function of its input, so calling it twice gives the same answer. A live model need not behave that way.
- **PDF I/O and upload.** pdfplumber reading, FPDF drawing (page breaks, fonts, cursor positions), temporary files, the `save_as_pdf` loop (contractpdf.py:173-174) and the GoFile upload are I/O. Only the per-line decisions of `pdf_generation` and each upload's outcome are modelled.
- **Request parsing.** A request that Flask refuses before the handler runs is not modelled. In the two `check_violation` handlers a body that is not a JSON object, `request.json` being None included, is the handler's crash on `.get`.
- **ContractPdf.GenerateContract: the request body is a map from field names to strings.** A body that is not a JSON object, and field values that are not strings, are not modelled. In contractpdf.py:179-181 a null body fails on `data.get` inside the `try`, a 400 with the `AttributeError` message; a null field prints as "None" in the template.
- **ContractAgi.GenerateContract: the request body is a map from field names to strings.** A body that is not a JSON object, and field values that are not strings, are not modelled. In contractagi.py:217-218 a null body makes the `in` test raise outside the `try`, a 500. A list or string body gives 400 "Missing required fields" unless it holds all five names; then it fails on `data['contract_type']` inside the `try`, a 500. A null party makes `.split()` fail, a 500.
- **Compliance.UploadContract: the 500 branch for a failed clause analysis (compliancechcker.py:190-192) is not modelled.** `analyze_contract` never fails, so that branch cannot be reached.
- **Risk.CheckClauseViolation: the "Embedding failed." branch (riskanalyser.py:170-171) is modelled, but it is dead in the application.** `get_embedding` (riskanalyser.py:30-34) never returns None; `embed` may.
- **Blueprint wiring.** app.py mounts `compliance_bp` under /risk and never registers `risk_bp` (app.py:15). It imports and mounts only contractpdf.py's `contract_bp` (app.py:2,13), so contractagi.py's `/generate` is not served either. The routes of riskanalyser.py and contractagi.py are modelled as written, although the application does not serve them.
- **The misspelt key.** contractpdf.py reads "jusridiction". It is modelled as written; see ContractPdf.CityIgnoresJurisdiction.
- **ContractPdf.GenerateContract: the clause library is a parameter.** `ContractPdf.ClauseLibrary` is the table the application passes.
- **Timers and query machinery.** Real timers, react-query's `retry`, `retryDelay` and refetching, `setTimeout`/AbortController and `Promise.all` concurrency are runtime behaviour. Timer ticks, fetch results and button clicks are discrete events.
- **The abort path.** In the compliance analyzer the abort signal is never passed to `fetch` (frontend/src/app/contract-analyzer/page.tsx:74-86). The AbortError message is modelled, but in the application no request can end that way.
- **HistoryPage.InitialTopic: cuts after 50 characters of a Dafny string (code points), not 50 UTF-16 code units.** The results differ only for text outside the Basic Multilingual Plane. A text of exactly 53 characters that already ends in "..." is shown unchanged. It cannot be told apart from a truncated one.
- **ContractAgi.TemplateLines: the title's `upper()` and the introduction's `capitalize()` (contractagi.py:117,119) map ASCII letters only.** Python maps every cased Unicode letter, and may change the length ("ß" becomes "SS"). The layout is proved for that ASCII mapping.
- **ContractAgi.RenderContent: the title test's `upper()` and the numbered-line test's `isdigit()` (contractagi.py:155,166) cover ASCII letters and digits only.** Python's `isdigit()` is also true for other digits, such as "²", and such a line is classified as plain here.
- **ContractAgi.PdfFileName: the type's `lower()` (contractagi.py:256) maps ASCII letters only.** A type with other cased letters keeps them in the file name.
- **ContractAgi.GenerateContract: the 200 body and the file name inherit the ASCII-only case mapping above.**
- **Contact: zod's e-mail pattern is a parameter.** The exact regular expression belongs to the library.
- **Per-input setters.** Of the form pages' many `onChange` setters, only the type select (ContractGeneration.Generator.SelectType) and the whole-form edit (Contact.ContactPage.Edit) are modelled. The others each assign one field.
- **Proxy routes.** frontend/src/app/api/proxy/analyze/route.ts and frontend/src/app/api/proxy/generate/route.ts are fetch relays.
- **Presentational files.** These are the home, privacy and layout pages, metadata.ts, the Navbars, the Footer, App.tsx, MessageList, MessageInput and HomePage. They only render markup or route. The rendering of the analysis lists and `Date` formatting are also left out.
- **Literal texts.** The legal rule table, the prompts and the marketing copy are data. Rules enter the model only as law texts, and the prompts are folded into the oracles.
