/**
  The paper scraper (scout/scraper.py): turning search results into paper descriptors,
  classifying each page of a downloaded PDF, joining the pages into one text, and mapping
  the download outcome of one paper to exactly one `{id, title, text}` record.

  The arXiv client, the HTTP download and PyPDF2 are not modelled; what they return is an
  input here: a `Transport` outcome per paper and, for a saved file, a `PdfReader` whose
  pages each yield text, no text, or an exception.
 */
module Scraper {
  import opened Wrappers
  import opened Text

  /** One arXiv search hit, reduced to the two attributes the scraper reads. */
  datatype SearchResult = SearchResult(title: string, pdfUrl: string)

  /** The descriptor `get_metadata` builds: `{"id", "title", "pdf_url", "result"}`. */
  datatype Paper = Paper(id: string, title: string, pdfUrl: string, result: SearchResult)

  /** The record `download_and_parse` returns: `{"id", "title", "text"}`. */
  datatype Document = Document(id: string, title: string, text: string)

  /** What `page.extract_text()` does for one page: return text, return nothing, or raise. */
  datatype PageRead = PageText(text: string) | NoText | PageRaises(error: string)

  /** What `PdfReader(path)` gives: a document with its pages, or an exception. */
  datatype PdfReader = Readable(pages: seq<PageRead>) | Unreadable(error: string)

  /**
    The body of a 200 response: written to the scratch file (which then opens as `pdf`), or the
    scratch file could not be created, or it was created and reading or writing the body raised.
   */
  datatype Body = Saved(pdf: PdfReader) | CannotCreate(error: string) | ReadRaises(error: string)

  /** What the HTTP request for one paper does: a response with a status, or an exception. */
  datatype Transport = Responded(status: int, body: Body) | RequestRaises(error: string)

  const ErrorTag := "[Error"
  const PageSeparator := "\n\n"
  // Every marker below starts with ErrorTag, so each reads as the literal in the source.
  const NoPagesMarker := ErrorTag + "]: PDF has no pages"
  const NoTextMarker := ErrorTag + "]: Could not extract any text from the PDF"
  const EmptyMarker := ErrorTag + "]: PDF appears to be empty or contains no text"
  const PagePrefix := ErrorTag + " on page "
  const CacheDir := "./paper_cache"

  function PageErrorMarker(page: nat, error: string): string {
    PagePrefix + NatToString(page) + "]: " + error
  }

  function ParseErrorMarker(error: string): string {
    ErrorTag + (" parsing PDF]: " + error)
  }

  function DownloadErrorMarker(error: string): string {
    ErrorTag + (" downloading PDF]: " + error)
  }

  /** Whatever follows the tag, the string is tagged and, starting with '[', not blank. */
  lemma {:induction false} Tagged(rest: string)
    ensures StartsWith(ErrorTag + rest, ErrorTag)
    ensures !IsBlank(ErrorTag + rest)
  {
    assert (ErrorTag + rest)[..|ErrorTag|] == ErrorTag;
    assert (ErrorTag + rest)[0] == '[';
  }

  function HttpErrorMarker(status: int): string {
    DownloadErrorMarker("HTTP " + IntToString(status))
  }

  /** `os.path.join(cache_dir, f"{id}.pdf")`: the scratch file of one paper. */
  function ScratchPath(id: string): string {
    CacheDir + "/" + id + ".pdf"
  }

  /** Distinct paper ids never share a scratch file. */
  lemma {:induction false} ScratchPathInjective(a: string, b: string)
    requires ScratchPath(a) == ScratchPath(b)
    ensures a == b
  {
    var n := |CacheDir + "/"|;
    assert a == ScratchPath(a)[n..|ScratchPath(a)| - 4];
    assert b == ScratchPath(b)[n..|ScratchPath(b)| - 4];
  }

  /** The paper descriptors for `results`, the i-th with the i-th id drawn from `uuid`. */
  function Metadata(results: seq<SearchResult>, uuid: nat -> string): seq<Paper> {
    seq(|results|, i requires 0 <= i < |results| =>
      Paper(uuid(i), results[i].title, results[i].pdfUrl, results[i]))
  }

  /**
    `get_metadata`: one descriptor per search result, in result order, the title and URL copied
    from the result and the id the i-th `uuid4()` draw.
   */
  method GetMetadata(results: seq<SearchResult>, uuid: nat -> string) returns (papers: seq<Paper>)
    ensures |papers| == |results|
    ensures forall i | 0 <= i < |results| ::
      papers[i].id == uuid(i) && papers[i].title == results[i].title &&
      papers[i].pdfUrl == results[i].pdfUrl && papers[i].result == results[i]
    ensures papers == Metadata(results, uuid)
  {
    papers := [];
    var k := 0;
    while k < |results|
      invariant 0 <= k <= |results|
      invariant |papers| == k
      invariant forall i | 0 <= i < k ::
        papers[i] == Paper(uuid(i), results[i].title, results[i].pdfUrl, results[i])
    {
      var paperId := uuid(k);
      papers := papers + [Paper(paperId, results[k].title, results[k].pdfUrl, results[k])];
      k := k + 1;
    }
  }

  /** When the ids drawn are distinct, so are the papers' ids and their scratch files. */
  lemma {:induction false} MetadataScratchDistinct(results: seq<SearchResult>, uuid: nat -> string, i: nat, j: nat)
    requires i < |results| && j < |results| && i != j
    requires uuid(i) != uuid(j)
    ensures Metadata(results, uuid)[i].id != Metadata(results, uuid)[j].id
    ensures ScratchPath(Metadata(results, uuid)[i].id) != ScratchPath(Metadata(results, uuid)[j].id)
  {
    if ScratchPath(uuid(i)) == ScratchPath(uuid(j)) {
      ScratchPathInjective(uuid(i), uuid(j));
    }
  }

  /**
    `extract_page_text(path, page_number)`: an index past the last page gives "", a page gives its
    text ("" when it has none), and any exception gives a marker naming the page 1-based.
   */
  function ExtractPageText(pdf: PdfReader, pageNumber: nat): (r: string)
    ensures pdf.Unreadable? ==> r == PageErrorMarker(pageNumber + 1, pdf.error)
    ensures pdf.Readable? && pageNumber >= |pdf.pages| ==> r == ""
    ensures pdf.Readable? && pageNumber < |pdf.pages| ==>
      r == match pdf.pages[pageNumber]
           case PageText(t) => t
           case NoText => ""
           case PageRaises(e) => PageErrorMarker(pageNumber + 1, e)
  {
    match pdf
    case Unreadable(e) => PageErrorMarker(pageNumber + 1, e)
    case Readable(pages) =>
      if pageNumber >= |pages| then ""
      else match pages[pageNumber]
        case PageText(t) => t
        case NoText => ""
        case PageRaises(e) => PageErrorMarker(pageNumber + 1, e)
  }

  /** Whether extracting page `pageNumber` raised. */
  predicate PageFails(pdf: PdfReader, pageNumber: nat) {
    pdf.Unreadable? || (pageNumber < |pdf.pages| && pdf.pages[pageNumber].PageRaises?)
  }

  /** A page's result carries the error tag exactly when the page failed or its own text starts with it. */
  lemma {:induction false} ExtractPageTextTagged(pdf: PdfReader, pageNumber: nat)
    ensures StartsWith(ExtractPageText(pdf, pageNumber), ErrorTag) <==>
      PageFails(pdf, pageNumber) ||
      (pdf.Readable? && pageNumber < |pdf.pages| && pdf.pages[pageNumber].PageText? &&
       StartsWith(pdf.pages[pageNumber].text, ErrorTag))
  {
    var r := ExtractPageText(pdf, pageNumber);
    if PageFails(pdf, pageNumber) {
      var e := if pdf.Unreadable? then pdf.error else pdf.pages[pageNumber].error;
      var rest := " on page " + NatToString(pageNumber + 1) + "]: " + e;
      assert r == ErrorTag + rest;
      Tagged(rest);
    } else if pageNumber >= |pdf.pages| || pdf.pages[pageNumber].NoText? {
      assert r == "";
    }
  }

  /** The number of decimal digits at the start of `s`. */
  function LeadingDigits(s: string): (n: nat)
    ensures n <= |s| && forall i | 0 <= i < n :: IsDigit(s[i])
    ensures n < |s| ==> !IsDigit(s[n])
  {
    if s != "" && IsDigit(s[0]) then 1 + LeadingDigits(s[1..]) else 0
  }

  lemma {:induction false} LeadingDigitsOf(d: string, rest: string)
    requires forall i | 0 <= i < |d| :: IsDigit(d[i])
    requires rest != "" && !IsDigit(rest[0])
    ensures LeadingDigits(d + rest) == |d|
  {
    if d != "" {
      assert (d + rest)[1..] == d[1..] + rest;
      LeadingDigitsOf(d[1..], rest);
    }
  }

  /** Reads the page number out of a page error marker, as a consumer of the text would. */
  function MarkedPage(s: string): Option<nat> {
    if !StartsWith(s, PagePrefix) then None
    else
      var rest := s[|PagePrefix|..];
      var n := LeadingDigits(rest);
      if n == 0 || n == |rest| || rest[n] != ']' then None
      else Some(DigitsValue(rest[..n]))
  }

  /** A page error marker names the page it was made for. */
  lemma {:induction false} PageErrorMarkerNamesPage(page: nat, error: string)
    ensures StartsWith(PageErrorMarker(page, error), ErrorTag)
    ensures MarkedPage(PageErrorMarker(page, error)) == Some(page)
  {
    var m := PageErrorMarker(page, error);
    var d := NatToString(page);
    Tagged(" on page " + d + "]: " + error);
    assert m == ErrorTag + (" on page " + d + "]: " + error);
    assert m[..|PagePrefix|] == PagePrefix;
    var rest := m[|PagePrefix|..];
    assert rest == d + ("]: " + error);
    LeadingDigitsOf(d, "]: " + error);
    assert rest[..|d|] == d;
    DecimalRoundTrip(page);
  }

  /** A failed page's result is a marker naming the page 1-based (`page_number + 1`). */
  lemma {:induction false} ExtractPageTextNamesFailedPage(pdf: PdfReader, pageNumber: nat)
    requires PageFails(pdf, pageNumber)
    ensures MarkedPage(ExtractPageText(pdf, pageNumber)) == Some(pageNumber + 1)
  {
    var e := if pdf.Unreadable? then pdf.error else pdf.pages[pageNumber].error;
    PageErrorMarkerNamesPage(pageNumber + 1, e);
  }

  /** The results of extracting every page of a readable document, gathered in page order. */
  function PageResults(pages: seq<PageRead>): (r: seq<string>)
    ensures |r| == |pages|
    ensures forall i | 0 <= i < |pages| :: r[i] == ExtractPageText(Readable(pages), i)
  {
    seq(|pages|, i requires 0 <= i < |pages| => ExtractPageText(Readable(pages), i))
  }

  /**
    `[text for text in results if not text.startswith("[Error")]`: exactly the untagged results,
    none dropped, none added.
   */
  function ValidTexts(results: seq<string>): (r: seq<string>)
    ensures |r| <= |results|
    ensures forall t | t in r :: t in results && !StartsWith(t, ErrorTag)
    ensures forall t | t in results && !StartsWith(t, ErrorTag) :: t in r
    ensures r == [] <==> forall k | 0 <= k < |results| :: StartsWith(results[k], ErrorTag)
  {
    if results == [] then []
    else if StartsWith(results[0], ErrorTag) then ValidTexts(results[1..])
    else [results[0]] + ValidTexts(results[1..])
  }

  /** The filter works piecewise, so it keeps the untagged results in their original order. */
  lemma {:induction false} ValidTextsConcat(a: seq<string>, b: seq<string>)
    ensures ValidTexts(a + b) == ValidTexts(a) + ValidTexts(b)
  {
    if a == [] {
      assert a + b == b;
    } else {
      assert (a + b)[0] == a[0];
      assert (a + b)[1..] == a[1..] + b;
      ValidTextsConcat(a[1..], b);
      if StartsWith(a[0], ErrorTag) {
        calc {
          ValidTexts(a + b);
          ValidTexts(a[1..] + b);
          ValidTexts(a[1..]) + ValidTexts(b);
          ValidTexts(a) + ValidTexts(b);
        }
      } else {
        calc {
          ValidTexts(a + b);
          [a[0]] + ValidTexts(a[1..] + b);
          [a[0]] + (ValidTexts(a[1..]) + ValidTexts(b));
          ([a[0]] + ValidTexts(a[1..])) + ValidTexts(b);
          ValidTexts(a) + ValidTexts(b);
        }
      }
    }
  }

  /** Joining untagged texts never yields a tagged one: the tag holds no line break. */
  lemma {:induction false} JoinUntagged(texts: seq<string>)
    requires texts != []
    requires forall k | 0 <= k < |texts| :: !StartsWith(texts[k], ErrorTag)
    ensures !StartsWith(Join(PageSeparator, texts), ErrorTag)
  {
    if |texts| > 1 {
      var t := texts[0];
      var j := t + (PageSeparator + Join(PageSeparator, texts[1..]));
      assert Join(PageSeparator, texts) == j;
      assert !StartsWith(t, ErrorTag);
      if |t| < |ErrorTag| {
        assert j[|t|] == '\n';
        assert forall i | 0 <= i < |ErrorTag| :: ErrorTag[i] != '\n';
      } else {
        assert j[..|ErrorTag|] == t[..|ErrorTag|];
      }
    }
  }

  /**
    The aggregation after the gather in `_parse_pdf`: the `"\n\n"`-join of the untagged page
    results, or the document-level marker when none is untagged. The result is tagged exactly
    when every page result is.
   */
  function Aggregate(results: seq<string>): (r: string)
    ensures ValidTexts(results) == [] ==> r == NoTextMarker
    ensures ValidTexts(results) != [] ==> r == Join(PageSeparator, ValidTexts(results))
    ensures StartsWith(r, ErrorTag) <==> forall k | 0 <= k < |results| :: StartsWith(results[k], ErrorTag)
  {
    var valid := ValidTexts(results);
    if valid == [] then
      Tagged("]: Could not extract any text from the PDF");
      NoTextMarker
    else
      JoinUntagged(valid);
      Join(PageSeparator, valid)
  }

  /**
    `_parse_pdf`: an unreadable file gives the parse marker, a document without pages the
    no-pages marker, and otherwise the aggregation of its page results in page order.
   */
  function ParsePdf(pdf: PdfReader): (r: string)
    ensures pdf.Unreadable? ==> r == ParseErrorMarker(pdf.error)
    ensures pdf.Readable? && |pdf.pages| == 0 ==> r == NoPagesMarker
    ensures pdf.Readable? && |pdf.pages| > 0 ==> r == Aggregate(PageResults(pdf.pages))
    ensures StartsWith(r, ErrorTag) <==>
      pdf.Unreadable? || forall k | 0 <= k < |pdf.pages| :: StartsWith(PageResults(pdf.pages)[k], ErrorTag)
  {
    match pdf
    case Unreadable(e) =>
      Tagged(" parsing PDF]: " + e);
      ParseErrorMarker(e)
    case Readable(pages) =>
      if |pages| == 0 then
        Tagged("]: PDF has no pages");
        NoPagesMarker
      else Aggregate(PageResults(pages))
  }

  /** A document whose every page raises degrades to "could not extract any text". */
  lemma {:induction false} ParsePdfAllPagesFail(pages: seq<PageRead>)
    requires pages != []
    requires forall k | 0 <= k < |pages| :: pages[k].PageRaises?
    ensures ParsePdf(Readable(pages)) == NoTextMarker
  {
    var results := PageResults(pages);
    forall k | 0 <= k < |results| ensures StartsWith(results[k], ErrorTag) {
      ExtractPageTextTagged(Readable(pages), k);
    }
  }

  /** Two result lists that differ only in which tagged result sits at a position keep the same texts. */
  lemma {:induction false} ValidTextsAgree(x: seq<string>, y: seq<string>)
    requires |x| == |y|
    requires forall k | 0 <= k < |x| :: x[k] == y[k] || (StartsWith(x[k], ErrorTag) && StartsWith(y[k], ErrorTag))
    ensures ValidTexts(x) == ValidTexts(y)
  {
    if x != [] {
      ValidTextsAgree(x[1..], y[1..]);
    }
  }

  /** Page `k` of a document yields what page `k - offset` of a document with the same page there yields, up to the tag. */
  lemma {:induction false} PageResultShifted(pages: seq<PageRead>, k: nat, part: seq<PageRead>, offset: nat)
    requires offset <= k < |pages| && k - offset < |part| && pages[k] == part[k - offset]
    ensures var x, y := ExtractPageText(Readable(pages), k), ExtractPageText(Readable(part), k - offset);
      x == y || (StartsWith(x, ErrorTag) && StartsWith(y, ErrorTag))
  {
    ExtractPageTextTagged(Readable(pages), k);
    ExtractPageTextTagged(Readable(part), k - offset);
  }

  /**
    Page `k` of `before`, a raising page and `after` yields, up to the tag, what the matching page
    of `before` or `after` yields on its own, or the raising page's marker.
   */
  lemma {:induction false} PageAroundFailedPage(before: seq<PageRead>, error: string, after: seq<PageRead>, k: nat)
    requires k < |before| + 1 + |after|
    ensures var x := ExtractPageText(Readable(before + [PageRaises(error)] + after), k);
      var y := (PageResults(before) + [PageErrorMarker(|before| + 1, error)] + PageResults(after))[k];
      x == y || (StartsWith(x, ErrorTag) && StartsWith(y, ErrorTag))
  {
    var pages := before + [PageRaises(error)] + after;
    var joined := PageResults(before) + [PageErrorMarker(|before| + 1, error)] + PageResults(after);
    if k < |before| {
      PageResultShifted(pages, k, before, 0);
      assert joined[k] == PageResults(before)[k];
    } else if k == |before| {
      PageErrorMarkerNamesPage(|before| + 1, error);
      assert joined[k] == PageErrorMarker(|before| + 1, error);
    } else {
      PageResultShifted(pages, k, after, |before| + 1);
      assert joined[k] == PageResults(after)[k - |before| - 1];
    }
  }

  /**
    A page that raises drops out of the document text and changes nothing else: the text is
    built from the pages before it and the pages after it, in that order.
   */
  lemma {:induction false} ParsePdfSkipsFailedPage(before: seq<PageRead>, error: string, after: seq<PageRead>)
    ensures ValidTexts(PageResults(before + [PageRaises(error)] + after)) ==
      ValidTexts(PageResults(before)) + ValidTexts(PageResults(after))
  {
    FailedPageBecomesMarker(before, error, after);
    PageErrorMarkerNamesPage(|before| + 1, error);
    ValidTextsAroundTagged(PageResults(before), PageErrorMarker(|before| + 1, error), PageResults(after));
  }

  /** A tagged result between two lists drops out of the filter. */
  lemma ValidTextsAroundTagged(left: seq<string>, tagged: string, right: seq<string>)
    requires StartsWith(tagged, ErrorTag)
    ensures ValidTexts(left + [tagged] + right) == ValidTexts(left) + ValidTexts(right)
  {
    ValidTextsConcat(left + [tagged], right);
    ValidTextsConcat(left, [tagged]);
    assert [tagged][1..] == [];
    assert ValidTexts(left + [tagged]) == ValidTexts(left);
  }

  /** Up to the tag, the results of a document with a raising page are those of its two sides around that page's marker. */
  lemma FailedPageBecomesMarker(before: seq<PageRead>, error: string, after: seq<PageRead>)
    ensures ValidTexts(PageResults(before + [PageRaises(error)] + after)) ==
      ValidTexts(PageResults(before) + [PageErrorMarker(|before| + 1, error)] + PageResults(after))
  {
    var pages := before + [PageRaises(error)] + after;
    var joined := PageResults(before) + [PageErrorMarker(|before| + 1, error)] + PageResults(after);
    var results := PageResults(pages);
    forall k | 0 <= k < |pages|
      ensures results[k] == joined[k] || (StartsWith(results[k], ErrorTag) && StartsWith(joined[k], ErrorTag))
    {
      PageAroundFailedPage(before, error, after, k);
    }
    ValidTextsAgree(results, joined);
  }

  /**
    `download_and_parse`: exactly one record per paper, carrying the paper's id and title on
    every path, whose text is never blank. A request that raises, or a 200 whose body cannot
    be saved, gives the download marker; any other status gives the HTTP marker; a saved body
    gives the parse text, or the empty marker when `text.strip()` is empty.
   */
  function DownloadAndParse(paper: Paper, t: Transport): (r: Document)
    ensures r.id == paper.id && r.title == paper.title
    ensures !IsBlank(r.text)
    ensures t.RequestRaises? ==> r.text == DownloadErrorMarker(t.error)
    ensures t.Responded? && t.status != 200 ==> r.text == HttpErrorMarker(t.status)
    ensures t.Responded? && t.status == 200 && !t.body.Saved? ==> r.text == DownloadErrorMarker(t.body.error)
    ensures t.Responded? && t.status == 200 && t.body.Saved? ==>
      (IsBlank(ParsePdf(t.body.pdf)) ==> r.text == EmptyMarker) &&
      (!IsBlank(ParsePdf(t.body.pdf)) ==> r.text == ParsePdf(t.body.pdf))
  {
    match t
    case RequestRaises(e) =>
      Tagged(" downloading PDF]: " + e);
      Document(paper.id, paper.title, DownloadErrorMarker(e))
    case Responded(status, body) =>
      if status != 200 then
        Tagged(" downloading PDF]: " + ("HTTP " + IntToString(status)));
        Document(paper.id, paper.title, HttpErrorMarker(status))
      else match body
        case CannotCreate(e) =>
          Tagged(" downloading PDF]: " + e);
          Document(paper.id, paper.title, DownloadErrorMarker(e))
        case ReadRaises(e) =>
          Tagged(" downloading PDF]: " + e);
          Document(paper.id, paper.title, DownloadErrorMarker(e))
        case Saved(pdf) =>
          var text := ParsePdf(pdf);
          if Strip(text) == "" then
            Tagged("]: PDF appears to be empty or contains no text");
            Document(paper.id, paper.title, EmptyMarker)
          else Document(paper.id, paper.title, text)
  }

  /**
    The converse: a record whose text is not tagged came from a 200 response whose file opened
    with at least one page, and its text is the join of that file's untagged page results.
   */
  lemma {:induction false} UntaggedTextIsPageText(paper: Paper, t: Transport)
    requires !StartsWith(DownloadAndParse(paper, t).text, ErrorTag)
    ensures t.Responded? && t.status == 200 && t.body.Saved? && t.body.pdf.Readable?
    ensures |t.body.pdf.pages| > 0 && ValidTexts(PageResults(t.body.pdf.pages)) != []
    ensures DownloadAndParse(paper, t).text == Join(PageSeparator, ValidTexts(PageResults(t.body.pdf.pages)))
  {
    if !(t.Responded? && t.status == 200 && t.body.Saved? && !IsBlank(ParsePdf(t.body.pdf))) {
      EmptyMarkerTagged();
    }
  }

  lemma EmptyMarkerTagged()
    ensures StartsWith(EmptyMarker, ErrorTag)
  {
    Tagged("]: PDF appears to be empty or contains no text");
  }

  /** A document whose pages all come out empty is reported as empty, not as an empty success. */
  lemma {:induction false} AllEmptyPagesGiveEmptyMarker(paper: Paper, pages: seq<PageRead>)
    requires forall k | 0 <= k < |pages| :: pages[k].NoText? || pages[k] == PageText("")
    requires pages != []
    ensures DownloadAndParse(paper, Responded(200, Saved(Readable(pages)))).text == EmptyMarker
  {
    var results := PageResults(pages);
    assert forall k | 0 <= k < |results| :: results[k] == "";
    assert results[0] in ValidTexts(results);
    var valid := ValidTexts(results);
    forall k | 0 <= k < |valid| ensures IsBlank(valid[k]) {
      assert valid[k] in results;
    }
    assert IsBlank(PageSeparator);
    JoinBlank(PageSeparator, valid);
  }

  /** Files in the scratch directory after `download_and_parse`, as written (scraper.py:33-79). */
  function ScratchAfterAsWritten(files: set<string>, paper: Paper, t: Transport): set<string> {
    var path := ScratchPath(paper.id);
    match t
    case RequestRaises(_) => files
    case Responded(status, body) =>
      if status != 200 then files
      else match body
        case CannotCreate(_) => files
        case ReadRaises(_) => files + {path}
        case Saved(_) => files - {path}
  }

  /**
    The file is created by `open(pdf_path, 'wb')` before `await response.read()` runs, but only the
    parse step is covered by the `finally` that removes it: a body that fails to arrive leaves the
    file behind although the paper is reported as a download failure.
   */
  lemma {:induction false} ScratchLeakOnFailedRead(files: set<string>, paper: Paper, error: string)
    requires ScratchPath(paper.id) !in files
    ensures ScratchPath(paper.id) in ScratchAfterAsWritten(files, paper, Responded(200, ReadRaises(error)))
    ensures !(ScratchAfterAsWritten(files, paper, Responded(200, ReadRaises(error))) <= files)
    ensures DownloadAndParse(paper, Responded(200, ReadRaises(error))).text == DownloadErrorMarker(error)
  {
  }

  /**
    Files in the scratch directory after `download_and_parse` with the removal guarding every exit
    after a 200 response (write and parse alike), as the cleanup-on-every-path design intends.
   */
  function ScratchAfter(files: set<string>, paper: Paper, t: Transport): (r: set<string>)
    ensures r <= files
    ensures files - {ScratchPath(paper.id)} <= r
    ensures ScratchPath(paper.id) in r ==> t.RequestRaises? || t.status != 200
  {
    if t.Responded? && t.status == 200 then files - {ScratchPath(paper.id)} else files
  }
}
