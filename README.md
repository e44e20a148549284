# Scientific Paper Scout — a verified model of its request pipeline

Scientific Paper Scout answers a chat message. A language model routes the message to a
paper-search tool or answers it directly. A routed request then goes through three stages:

- search arXiv;
- download and parse each paper's PDF;
- ask the language model for one summary per paper.

Progress goes to the client as a stream of newline-terminated JSON events. This project models
the decision logic of that pipeline in Dafny and proves what it promises. Every outside
collaborator is an input to the model:

- the routing model;
- the arXiv search;
- the HTTP download;
- PyPDF2's page extraction;
- the summarising model;
- `uuid4`;
- the clock.

The modules follow the program:

- `Scraper` (`scout/scraper.py`) covers:
  - building paper descriptors from search results (`get_metadata`, a loop, modelled as a method);
  - classifying one page (`extract_page_text`);
  - aggregating page results into a document text (`_parse_pdf`);
  - mapping a download outcome to exactly one `{id, title, text}` record (`download_and_parse`);
  - what the scratch directory holds afterwards.
- `Summariser` (`scout/summariser.py`) covers:
  - the per-paper model call with its fixed system prompt (`summarise_one`);
  - the order-preserving, all-or-nothing pairing of replies with papers (`summarise`).
- `App` (`scout/app.py`) covers:
  - `generate_responses` as a method that appends events stage by stage;
  - the declarative `Responses` it is proved equal to;
  - lemmas on event order, the one terminal event and each failure path;
  - the JSON rendering of every event;
  - the client's `split("\n").filter(Boolean)` recovering one object per event.
- `Text` holds the Python string operations the code uses: `str.strip()` with Python's whitespace set, `startswith`, `sep.join` and `str(int)`.
- `Json` holds the part of `json.dumps` the events use: `ensure_ascii` escaping, including surrogate pairs, and its default separators.
- `Wrappers` holds `Option` and `Result`. A `Result` is a call that returns or raises with a message.

Both gathers are modelled as sequential maps: the per-page `asyncio.gather` in `_parse_pdf` and the per-paper one in `summarise`. Results keep argument order.

## Model

| member | source | states |
|---|---|---|
| `Text.Strip` | scout/scraper.py:50 | `str.strip()`: the result is a slice of the input surrounded only by whitespace, neither end of it is whitespace, and it is empty exactly when the input is all whitespace |
| `Text.IntRoundTrip` | scout/scraper.py:41 | the decimal rendering of a status code (minus sign included) reads back as that code, so the HTTP marker names the status exactly |
| `Scraper.GetMetadata` | scout/scraper.py:17-28 | the loop builds one descriptor per search result, in result order, title, PDF URL and result copied, the id being the i-th `uuid4()` draw |
| `Scraper.ScratchPathInjective` | scout/scraper.py:31 | the scratch path is keyed by the paper id: two ids with the same path are the same id |
| `Scraper.MetadataScratchDistinct` | scout/scraper.py:17-31 | with distinct drawn ids, distinct papers get distinct ids and distinct scratch files |
| `Scraper.ExtractPageText` | scout/scraper.py:81-89 | an index at or past the page count gives `""`, not a marker; a page gives its text, `""` when it has none; an unreadable file or a raising page gives `[Error on page k]: e` with k = page_number + 1 |
| `Scraper.ExtractPageTextTagged` | scout/scraper.py:81-89 | a page result starts with `[Error` exactly when the page failed or its own text starts with `[Error` |
| `Scraper.PageErrorMarkerNamesPage` | scout/scraper.py:89 | a page marker starts with `[Error` and the page number read back out of it is the one it was made with |
| `Scraper.ExtractPageTextNamesFailedPage` | scout/scraper.py:88-89 | a failed page's marker names the page 1-based |
| `Scraper.PageResults` | scout/scraper.py:99-105 | the gather over all pages: one result per page, the i-th being the i-th page's classification |
| `Scraper.ValidTexts` | scout/scraper.py:108 | the filter keeps exactly the results not starting with `[Error` (empty strings included), adds none, and is empty exactly when every result is tagged |
| `Scraper.ValidTextsConcat` | scout/scraper.py:108 | the filter works piecewise, so kept results stay in page order |
| `Scraper.JoinUntagged` | scout/scraper.py:108-112 | the `"\n\n"`-join of untagged texts is itself untagged |
| `Scraper.Aggregate` | scout/scraper.py:107-112 | no valid result gives `[Error]: Could not extract any text from the PDF`, otherwise the `"\n\n"`-join of the valid ones; the text is tagged exactly when every page result is |
| `Scraper.ParsePdf` | scout/scraper.py:91-115 | an unreadable file gives `[Error parsing PDF]: e`, zero pages give `[Error]: PDF has no pages`, otherwise the aggregation of the page results in page order; tagged exactly when the file is unreadable or every page result is tagged |
| `Scraper.ParsePdfAllPagesFail` | scout/scraper.py:101-110 | a document whose every page raises yields the no-text marker |
| `Scraper.ValidTextsAroundTagged` | scout/scraper.py:108 | a tagged result between two lists drops out of the filter, leaving the kept texts of both sides in order |
| `Scraper.ParsePdfSkipsFailedPage` | scout/scraper.py:101-112 | a page that raises drops out and changes nothing else: the kept texts are those of the pages before it followed by those of the pages after it |
| `Scraper.DownloadAndParse` | scout/scraper.py:30-79 | one record per paper with its id and title on every path and a never-blank text. A raising request or a body that cannot be saved gives `[Error downloading PDF]: e`; a status S other than 200 gives `[Error downloading PDF]: HTTP S`; a parse result blank after `strip()` gives the empty-PDF marker; otherwise the parse result |
| `Scraper.UntaggedTextIsPageText` | scout/scraper.py:30-79 | conversely, an untagged record came from a 200 response whose file opened with pages, and its text is the join of the untagged page results |
| `Scraper.AllEmptyPagesGiveEmptyMarker` | scout/scraper.py:48-55 | a document whose pages all come out empty is reported with the empty-PDF marker, not as an empty success |
| `Scraper.ScratchLeakOnFailedRead` | scout/scraper.py:44-79 | as written, a 200 response whose body fails to arrive leaves the scratch file behind while the paper is reported as a download failure |
| `Scraper.ScratchAfter` | scout/scraper.py:67-72 | with removal on every exit after a 200 response, the directory never grows, loses at most the paper's own file, and keeps that file only when no 200 response came |
| `Summariser.SameSystemPromptForEveryPaper` | scout/summariser.py:8-15 | each model call is exactly the fixed system prompt followed by the paper's text, unaltered; two calls differ exactly when their texts do |
| `Summariser.Summarise` | scout/summariser.py:19-21 | succeeds exactly when every model call replies; then the list has the input's length and the i-th entry is the reply to the i-th text (marker texts included) with the i-th id and title; otherwise it raises the error of the first failing call and returns no list |
| `App.TitlesFollowSearchResults` | scout/app.py:90-93 | the titles payload holds one `{title, url}` per search result, in search order, with the result's title and PDF URL, and it is the same whatever ids were drawn |
| `App.FetchAll` | scout/app.py:105-106 | the parsed list has the papers' length and order, each record carrying its paper's id and title |
| `App.FetchAllAt` | scout/app.py:105-106 | the i-th parsed record is exactly the `download_and_parse` outcome of the i-th paper's own download |
| `App.FetchScratchAsWritten` | scout/app.py:105-106 | as `download_and_parse` is written, the fetch stage adds to the scratch directory only the files of papers whose 200 response failed while the body was read; with distinct ids it adds exactly those not already there |
| `App.FetchLeavesNoScratchFiles` | scout/app.py:105-106 | with removal on every exit after a 200 response (the corrected cleanup), the fetch stage leaves the scratch directory no fuller than before and removes nothing but the papers' own files |
| `App.Events` | scout/app.py:54-172 | for each stage a request can reach, the stream ends with exactly one terminal event; it reports an error exactly when some stage raised and summaries exactly when every stage succeeded |
| `App.Responses` | scout/app.py:54-172 | every run ends with exactly one terminal event (summaries, message or error), which is last, and never carries both an error and summaries |
| `App.GenerateResponses` | scout/app.py:54-172 | the stage-by-stage emitter yields exactly the events of `Responses`, so it ends once and never reports both an error and summaries |
| `App.SummariesExactlyWhenRunSucceeds` | scout/app.py:69-136 | the stream carries summaries exactly when routing chose a tool, the search returned, the fetch raised nothing and every summary call replied |
| `App.SuccessfulRun` | scout/app.py:71-136 | a successful run emits exactly eight events in the order search status, search time, titles, download status, download time, summary status, summary time, summaries; the titles list the search results in order, with title and PDF URL; the summaries hold one entry per search result, in order, with the drawn id, the result's title and the model's reply to that paper's text |
| `App.MessageExactlyWhenNoTool` | scout/app.py:160-165 | a routing reply without a tool yields exactly one message event carrying the reply, and no other run ends with a message |
| `App.RoutingFailureIsOnlyEvent` | scout/app.py:167-172 | routing that raises yields exactly one error event prefixed `An unexpected error occurred: `, nothing before it |
| `App.SearchFailureStopsAfterFirstStatus` | scout/app.py:154-159 | a search that raises yields the `Searching arXiv...` status and one `Error searching arXiv: ` event, with no titles and no summaries |
| `App.MissingQueryFailsSearch` | scout/app.py:78-80 | a tool call without a `query` argument fails the search stage with the `KeyError` text `'query'` |
| `App.SummaryFailureEndsAfterGenerating` | scout/app.py:142-147 | a failing summary call ends the stream after the `Generating summaries...` status with one `Error generating summaries: ` event carrying the first failing paper's error, and no summaries |
| `App.SummariesFollowSearchResults` | scout/app.py:80-124 | across search, fetch and summary the i-th summary carries the i-th drawn id and the i-th search result's title |
| `App.EventJson` | scout/app.py:71-74 | every event is one JSON object of printable ASCII, hence without a line break |
| `App.StreamSplitsIntoEvents` | scout-ui/src/components/PaperScout.tsx:91 | splitting the body at line breaks and dropping empty lines gives back exactly one JSON object per event, in order |
| `Json.EscapeRoundTrip` | scout/app.py:162-165 | `json.dumps` string escaping loses nothing: reading the escaped text back gives the original string, whatever characters the model's reply holds |

## Left out

- The arXiv client and `_search_papers` (scout/scraper.py:117-123) are a foreign library. The search is an input giving a list of results or an exception.
- aiohttp, file creation and removal, and PyPDF2 are I/O. A download is an input `Transport`: a response with a status and a body outcome, or an exception. A saved file is a `PdfReader` whose pages return text, return nothing or raise. The scratch directory is modelled as a set of paths.
- `ProcessPoolExecutor` and `asyncio.gather` concurrency are not modelled. Both gathers are sequential maps in argument order.
- Scraper.ParsePdf assumes every worker's `PdfReader` sees the same file the parent opened.
- Summariser.Summarise reports the first failing paper in list order. The source's gather raises whichever failure comes first in time, which the model does not know.
- The inner `except` of `download_and_parse` (scout/scraper.py:61-66) is not modelled, because it cannot be reached: `_parse_pdf` catches every `Exception` itself (scout/scraper.py:114-115).
- The only exception a `PdfReader` raises in the model is the one at opening. A failure of `len(reader.pages)` or of the process pool inside `_parse_pdf` would take the same parse-marker path.
- `uuid4()` is an input function from draw number to id. Ids are not assumed distinct except where a lemma says so.
- Clock readings and the `:.2f` formatting of elapsed seconds are opaque strings, one per stage.
- Routing is a given outcome: a reply with an optional tool call, or an exception. The routing call in scout/model.py, its credentials and MCP wiring are not part of this model. A tool call always has an `args` map, so a missing `args` key is not modelled.
- App.Responses models an exception escaping the fetch stage's gather as an input fault. `download_and_parse` itself returns a record on every ordinary path.
- Logging, the FastAPI app, CORS, the `/stream` endpoint and uvicorn (scout/app.py:16-45, 174-189) are web plumbing.
- The `messages` history list is not modelled. The routing call in scout/model.py:39 inserts its own system message into that list in place, and nothing reads the list after the no-tool branch appends the reply. The routing outcome is an input given the user's message.
- `print('done')` in `summarise_one` is output only.
- The `__main__` demo of scout/summariser.py is not modelled: it passes plain strings and would fail on `paper["text"]`.
- scout/main.py, scout/test_client.py, scout/mcp_servers/scout_server.py and the React UI are not part of this model. The only exception is the client's line split in PaperScout.tsx.
- App.StreamSplitsIntoEvents treats the response body as one text. It does not model how the transport cuts the body into chunks.

## Findings

| source | as written | input that shows it | evidently intended | confidence | as-written member | corrected member |
|---|---|---|---|---|---|---|
| scout/scraper.py:44-45 | `open(pdf_path, 'wb')` creates the scratch file before `await response.read()`. Only the parse step is inside the `try` whose `finally` removes it. | A 200 response whose body read raises leaves `./paper_cache/<id>.pdf` behind, while the outer `except` returns `[Error downloading PDF]: e`. | Every exit after the file is created removes it. | not executed | `Scraper.ScratchLeakOnFailedRead` | `Scraper.ScratchAfter` |
| scout/app.py:105-106 | The fetch stage gathers `download_and_parse` for every paper, and each call leaks its scratch file as in the row above. | Two papers with distinct ids whose downloads both answer 200 and then fail reading the body: after the fetch stage the directory holds both `./paper_cache/<id>.pdf` files. | The fetch stage leaves the scratch directory no fuller than it found it. | not executed | `App.FetchScratchAsWritten` | `App.FetchLeavesNoScratchFiles` |
