/**
 * `extract_text`, written identically in compliancechcker.py and riskanalyser.py: the texts
 * of the first ten pages of the uploaded PDF joined by newlines, refused when it holds
 * nothing but whitespace. Reading the PDF is I/O: `read` is its outcome, either the per-page
 * text pdfplumber returned (`None` where a page gave none) or the message of the exception
 * raised while saving or opening the file.
 */
module Extraction {
  import opened Wrappers
  import opened Text

  /** `pdf.pages[:10]` */
  const MaxPages: nat := 10

  const EmptyTextError := "Extracted text is empty. Ensure the PDF is not scanned."

  predicate AllPySpace(s: string) {
    forall k | 0 <= k < |s| :: IsPySpace(s[k])
  }

  /** `[page.extract_text() or "" for page in pdf.pages[:10]]` */
  function PageTexts(pages: seq<Option<string>>): (r: seq<string>)
    ensures |r| == if |pages| < MaxPages then |pages| else MaxPages
    ensures forall i :: 0 <= i < |r| ==> r[i] == pages[i].GetOr("")
  {
    var n := if |pages| < MaxPages then |pages| else MaxPages;
    seq(n, i requires 0 <= i < n => pages[i].GetOr(""))
  }

  function ExtractText(read: Result<seq<Option<string>>, string>): (r: Result<string, string>)
    ensures read.Err? ==> r == Err(read.error)
    ensures read.Ok? && r.Ok? ==> r.value == Join(PageTexts(read.value), "\n") && !AllPySpace(r.value)
    ensures read.Ok? && r.Err? ==> r.error == EmptyTextError && AllPySpace(Join(PageTexts(read.value), "\n"))
  {
    match read
    case Err(e) => Err(e)
    case Ok(pages) =>
      var text := Join(PageTexts(pages), "\n");
      if PyStrip(text) == [] then Err(EmptyTextError) else Ok(text)
  }

  /** Pages after the tenth are never read. */
  lemma ExtractIgnoresLaterPages(pages: seq<Option<string>>, more: seq<Option<string>>)
    requires |pages| >= MaxPages
    ensures ExtractText(Ok(pages + more)) == ExtractText(Ok(pages))
  {
    assert PageTexts(pages + more) == PageTexts(pages);
  }

  /**
   * The text is refused exactly when every one of the first ten pages gave no text or only
   * whitespace.
   */
  lemma ExtractEmptyIff(pages: seq<Option<string>>)
    ensures ExtractText(Ok(pages)).Err? <==>
      forall i :: 0 <= i < |pages| && i < MaxPages ==> AllPySpace(pages[i].GetOr(""))
  {
    var parts := PageTexts(pages);
    if forall i :: 0 <= i < |pages| && i < MaxPages ==> AllPySpace(pages[i].GetOr("")) {
      JoinCharacters(parts, "\n", IsPySpace);
    } else {
      var i :| 0 <= i < |pages| && i < MaxPages && !AllPySpace(pages[i].GetOr(""));
      var k :| 0 <= k < |parts[i]| && !IsPySpace(parts[i][k]);
      JoinKeepsPart(parts, "\n", i, k);
    }
  }
}
