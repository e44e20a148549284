/**
  The request pipeline of the web service (scout/app.py, `generate_responses`): route the
  user's message through the language model, then search, fetch and summarise in stages,
  emitting one typed event per step, each serialised as one JSON object and a line break.

  Every collaborator is an input, gathered in `Collaborators`.
 */
module App {
  import opened Wrappers
  import opened Text
  import opened Json
  import opened Scraper
  import opened Summariser

  /** One entry of the titles event: `{"title", "url"}`. */
  datatype TitleEntry = TitleEntry(title: string, url: string)

  /** The five kinds of event the stream carries, named by their `type` field. */
  datatype Event =
    | Status(status: string)
    | Titles(papers: seq<TitleEntry>)
    | Summaries(summaries: seq<Summary>)
    | Message(message: string)
    | Error(message: string)

  /** The tool call chosen by the routing model: `{"name", "args"}`. */
  datatype ToolCall = ToolCall(name: string, args: map<string, string>)

  /** What the routing call returns: the reply's content and the tool it chose, if any. */
  datatype Routing = Routing(response: string, tool: Option<ToolCall>)

  /** The three timed stages. */
  datatype Stage = SearchStage | FetchStage | SummaryStage

  /**
    What the collaborators of one request do: `route` is the tool-routing model call, `search`
    the arXiv search behind `get_metadata`, `uuid` the i-th `uuid4()` draw, `download` what the
    HTTP request for a URL does, `fetchFault` an exception escaping the gather of the fetch
    stage, `llm` the summarising model and `elapsed` the formatted duration of a stage.
   */
  datatype Collaborators = Collaborators(
    route: seq<ChatMessage> -> Result<Routing>,
    search: (string, int) -> Result<seq<SearchResult>>,
    uuid: nat -> string,
    download: string -> Transport,
    fetchFault: Option<string>,
    llm: seq<ChatMessage> -> Result<string>,
    elapsed: Stage -> string)

  const Searching := "Searching arXiv..."
  const Downloading := "Downloading and parsing PDFs..."
  const Generating := "Generating summaries..."
  const UnexpectedError := "An unexpected error occurred: "
  const SearchError := "Error searching arXiv: "
  const FetchError := "Error processing PDFs: "
  const SummaryError := "Error generating summaries: "
  /** `str(KeyError('query'))`, raised when the tool call has no `query` argument. */
  const MissingQuery := "'query'"

  /** A status annotated with the elapsed seconds, as `f"{caption} [{seconds:.2f}s]"` renders it. */
  function Timed(caption: string, seconds: string): string {
    caption + " [" + seconds + "s]"
  }

  /** Events after which the stream ends. */
  predicate IsTerminal(e: Event) {
    e.Summaries? || e.Message? || e.Error?
  }

  /** The stream holds exactly one terminal event, and it is the last one. */
  predicate EndsOnce(events: seq<Event>) {
    |events| > 0 && IsTerminal(events[|events| - 1]) &&
    forall i | 0 <= i < |events| - 1 :: !IsTerminal(events[i])
  }

  predicate HasError(events: seq<Event>) {
    exists i | 0 <= i < |events| :: events[i].Error?
  }

  predicate HasSummaries(events: seq<Event>) {
    exists i | 0 <= i < |events| :: events[i].Summaries?
  }

  /**
    The search stage: `tool["args"]["query"]` (a `KeyError` when missing) and then the search
    for that query, either of which may raise.
   */
  function SearchOutcome(tool: ToolCall, search: (string, int) -> Result<seq<SearchResult>>, maxResults: int)
    : Result<seq<SearchResult>>
  {
    if "query" in tool.args then search(tool.args["query"], maxResults) else Failure(MissingQuery)
  }

  /** The titles payload: one entry per paper, in the papers' order, the URL being the PDF URL. */
  function TitlesOf(papers: seq<Paper>): (r: seq<TitleEntry>)
    ensures |r| == |papers|
    ensures forall i | 0 <= i < |papers| :: r[i].title == papers[i].title && r[i].url == papers[i].pdfUrl
  {
    seq(|papers|, i requires 0 <= i < |papers| => TitleEntry(papers[i].title, papers[i].pdfUrl))
  }

  /**
    The titles payload lists the search results themselves, in search order, each with its title
    and PDF URL, whatever ids were drawn for the papers.
   */
  lemma TitlesFollowSearchResults(results: seq<SearchResult>, uuid: nat -> string)
    ensures |TitlesOf(Metadata(results, uuid))| == |results|
    ensures forall i | 0 <= i < |results| ::
      TitlesOf(Metadata(results, uuid))[i] == TitleEntry(results[i].title, results[i].pdfUrl)
    ensures forall other: nat -> string :: TitlesOf(Metadata(results, other)) == TitlesOf(Metadata(results, uuid))
  {
    forall other: nat -> string
      ensures TitlesOf(Metadata(results, other)) == TitlesOf(Metadata(results, uuid))
    {
      var a, b := TitlesOf(Metadata(results, other)), TitlesOf(Metadata(results, uuid));
      assert |a| == |b|;
      forall i | 0 <= i < |a| ensures a[i] == b[i] {
        assert a[i] == TitleEntry(results[i].title, results[i].pdfUrl);
      }
    }
  }

  /**
    The fetch stage, `gather(*[download_and_parse(p) for p in papers])`: one record per paper,
    in the papers' order, each with its paper's id and title.
   */
  function FetchAll(papers: seq<Paper>, download: string -> Transport): (r: seq<Document>)
    ensures |r| == |papers|
    ensures forall i | 0 <= i < |papers| :: r[i].id == papers[i].id && r[i].title == papers[i].title
  {
    if papers == [] then []
    else [DownloadAndParse(papers[0], download(papers[0].pdfUrl))] + FetchAll(papers[1..], download)
  }

  /** The i-th parsed record is the outcome of downloading and parsing the i-th paper. */
  lemma {:induction false} FetchAllAt(papers: seq<Paper>, download: string -> Transport, i: nat)
    requires i < |papers|
    ensures FetchAll(papers, download)[i] == DownloadAndParse(papers[i], download(papers[i].pdfUrl))
  {
    if i > 0 {
      FetchAllAt(papers[1..], download, i - 1);
    }
  }

  /**
    The scratch directory after the fetch stage as `download_and_parse` is written: a 200 response
    whose body fails to arrive leaves its paper's file behind (see `Scraper.ScratchAfterAsWritten`).
   */
  function ScratchAfterFetchAsWritten(files: set<string>, papers: seq<Paper>, download: string -> Transport): set<string>
    decreases papers
  {
    if papers == [] then files
    else ScratchAfterFetchAsWritten(ScratchAfterAsWritten(files, papers[0], download(papers[0].pdfUrl)), papers[1..], download)
  }

  /** A download that answers 200 and then fails while its body is read. */
  predicate LeavesScratchFile(t: Transport) {
    t.Responded? && t.status == 200 && t.body.ReadRaises?
  }

  /** The scratch files of the papers whose download answers 200 and fails reading the body. */
  function LeakedPaths(papers: seq<Paper>, download: string -> Transport): set<string> {
    set i | 0 <= i < |papers| && LeavesScratchFile(download(papers[i].pdfUrl)) :: ScratchPath(papers[i].id)
  }

  /** No two papers share an id. */
  predicate DistinctIds(papers: seq<Paper>) {
    forall i, j | 0 <= i < j < |papers| :: papers[i].id != papers[j].id
  }

  /**
    As written, the fetch stage can only add the scratch files of papers whose body read failed,
    and when the ids are distinct it adds every one of them that was not already there.
   */
  lemma {:induction false} FetchScratchAsWritten(files: set<string>, papers: seq<Paper>, download: string -> Transport)
    ensures ScratchAfterFetchAsWritten(files, papers, download) - files <= LeakedPaths(papers, download)
    ensures DistinctIds(papers) ==>
      ScratchAfterFetchAsWritten(files, papers, download) - files == LeakedPaths(papers, download) - files
    decreases papers
  {
    if papers != [] {
      var rest := papers[1..];
      var path := ScratchPath(papers[0].id);
      var t := download(papers[0].pdfUrl);
      var next := ScratchAfterAsWritten(files, papers[0], t);
      var after := ScratchAfterFetchAsWritten(files, papers, download);
      assert after == ScratchAfterFetchAsWritten(next, rest, download);
      FetchScratchAsWritten(next, rest, download);
      LeakedPathsStep(papers, download);
      if DistinctIds(papers) {
        assert DistinctIds(rest) by {
          forall i, j | 0 <= i < j < |rest| ensures rest[i].id != rest[j].id {
            assert rest[i] == papers[i + 1] && rest[j] == papers[j + 1];
          }
        }
        forall f | f in LeakedPaths(papers, download) - files ensures f in after {
          if f in LeakedPaths(rest, download) {
            var k :| 0 <= k < |rest| && LeavesScratchFile(download(rest[k].pdfUrl)) && f == ScratchPath(rest[k].id);
            assert rest[k] == papers[k + 1];
            if f == path {
              ScratchPathInjective(papers[0].id, rest[k].id);
            }
            assert f in LeakedPaths(rest, download) - next;
            assert f in ScratchAfterFetchAsWritten(next, rest, download) - next;
          } else {
            assert f == path && LeavesScratchFile(t);
            assert f in next;
            forall i | 0 <= i < |rest| ensures f != ScratchPath(rest[i].id) {
              assert rest[i] == papers[i + 1];
              if f == ScratchPath(rest[i].id) {
                ScratchPathInjective(papers[0].id, rest[i].id);
              }
            }
            AsWrittenKeepsOtherFiles(next, rest, download, f);
          }
        }
      }
    }
  }

  /** The papers' scratch files that leak: those of the first paper's download and of the rest. */
  lemma LeakedPathsStep(papers: seq<Paper>, download: string -> Transport)
    requires papers != []
    ensures LeakedPaths(papers, download) ==
      (if LeavesScratchFile(download(papers[0].pdfUrl)) then {ScratchPath(papers[0].id)} else {}) +
      LeakedPaths(papers[1..], download)
  {
    var rest := papers[1..];
    forall f | f in LeakedPaths(papers, download)
      ensures f in LeakedPaths(rest, download) || (LeavesScratchFile(download(papers[0].pdfUrl)) && f == ScratchPath(papers[0].id))
    {
      var i :| 0 <= i < |papers| && LeavesScratchFile(download(papers[i].pdfUrl)) && f == ScratchPath(papers[i].id);
      if i > 0 {
        assert papers[i] == rest[i - 1];
      }
    }
    forall f | f in LeakedPaths(rest, download) ensures f in LeakedPaths(papers, download) {
      var i :| 0 <= i < |rest| && LeavesScratchFile(download(rest[i].pdfUrl)) && f == ScratchPath(rest[i].id);
      assert rest[i] == papers[i + 1];
    }
  }

  /** As written, the fetch stage keeps every file that is no paper's scratch file. */
  lemma {:induction false} AsWrittenKeepsOtherFiles(files: set<string>, papers: seq<Paper>, download: string -> Transport, f: string)
    requires f in files
    requires forall i | 0 <= i < |papers| :: f != ScratchPath(papers[i].id)
    ensures f in ScratchAfterFetchAsWritten(files, papers, download)
    decreases papers
  {
    if papers != [] {
      assert f != ScratchPath(papers[0].id);
      var next := ScratchAfterAsWritten(files, papers[0], download(papers[0].pdfUrl));
      forall i | 0 <= i < |papers[1..]| ensures f != ScratchPath(papers[1..][i].id) {
        assert papers[1..][i] == papers[i + 1];
      }
      AsWrittenKeepsOtherFiles(next, papers[1..], download, f);
    }
  }

  /**
    The scratch directory after the fetch stage with the removal guarding every exit after a 200
    response, as the cleanup-on-every-path design intends (see `Scraper.ScratchAfter`).
   */
  function ScratchAfterFetch(files: set<string>, papers: seq<Paper>, download: string -> Transport): set<string> {
    if papers == [] then files
    else ScratchAfterFetch(ScratchAfter(files, papers[0], download(papers[0].pdfUrl)), papers[1..], download)
  }

  /**
    With removal on every exit, the fetch stage leaves the scratch directory no fuller than it
    found it, and removes nothing but the papers' own scratch files.
   */
  lemma {:induction false} FetchLeavesNoScratchFiles(files: set<string>, papers: seq<Paper>, download: string -> Transport)
    ensures ScratchAfterFetch(files, papers, download) <= files
    ensures forall f | f in files && (forall i | 0 <= i < |papers| :: f != ScratchPath(papers[i].id)) ::
      f in ScratchAfterFetch(files, papers, download)
  {
    if papers != [] {
      var next := ScratchAfter(files, papers[0], download(papers[0].pdfUrl));
      FetchLeavesNoScratchFiles(next, papers[1..], download);
      forall f | f in files && (forall i | 0 <= i < |papers| :: f != ScratchPath(papers[i].id))
        ensures f in ScratchAfterFetch(files, papers, download)
      {
        assert f != ScratchPath(papers[0].id);
        assert forall i | 0 <= i < |papers[1..]| :: f != ScratchPath(papers[1..][i].id) by {
          forall i | 0 <= i < |papers[1..]| ensures f != ScratchPath(papers[1..][i].id) {
            assert papers[1..][i] == papers[i + 1];
          }
        }
      }
    }
  }

  /** Progress events followed by one terminal event form a stream that ends once. */
  lemma ClosedBy(progress: seq<Event>, last: Event)
    requires forall i | 0 <= i < |progress| :: progress[i].Status? || progress[i].Titles?
    requires IsTerminal(last)
    ensures EndsOnce(progress + [last])
    ensures HasError(progress + [last]) <==> last.Error?
    ensures HasSummaries(progress + [last]) <==> last.Summaries?
  {
    var events := progress + [last];
    if HasError(events) {
      var i :| 0 <= i < |events| && events[i].Error?;
      assert i == |progress|;
    }
    if HasSummaries(events) {
      var i :| 0 <= i < |events| && events[i].Summaries?;
      assert i == |progress|;
    }
    assert events[|progress|] == last;
  }

  /** The stream of `progress` events closed by the terminal event `last`. */
  function Closed(progress: seq<Event>, last: Event): (r: seq<Event>)
    requires forall i | 0 <= i < |progress| :: progress[i].Status? || progress[i].Titles?
    requires IsTerminal(last)
    ensures r == progress + [last]
    ensures EndsOnce(r)
    ensures HasError(r) <==> last.Error?
    ensures HasSummaries(r) <==> last.Summaries?
  {
    ClosedBy(progress, last);
    progress + [last]
  }

  /** How far one request got: the stage that raised, or the outcome it ended with. */
  datatype Reached =
    | RoutingRaised(error: string)
    | Answered(response: string)
    | SearchRaised(error: string)
    | FetchRaised(papers: seq<Paper>, error: string)
    | SummaryRaised(papers: seq<Paper>, error: string)
    | Summarised(papers: seq<Paper>, summaries: seq<Summary>)

  /**
    The stage ladder of one request: routing, then (when a tool was chosen) the search, the
    fetch of the papers found and their summaries, stopping at the first stage that raises.
   */
  function Reach(message: string, maxResults: int, env: Collaborators): Reached {
    var routed := env.route([HumanMessage(message)]);
    if routed.Failure? then RoutingRaised(routed.error)
    else if routed.value.tool.None? then Answered(routed.value.response)
    else
      var found := SearchOutcome(routed.value.tool.value, env.search, maxResults);
      if found.Failure? then SearchRaised(found.error)
      else
        var papers := Metadata(found.value, env.uuid);
        if env.fetchFault.Some? then FetchRaised(papers, env.fetchFault.value)
        else
          var summarised := Summarise(env.llm, FetchAll(papers, env.download));
          if summarised.Failure? then SummaryRaised(papers, summarised.error)
          else Summarised(papers, summarised.value)
  }

  /** The events of a completed search: its status with the elapsed time, the titles, the fetch status. */
  function Searched(papers: seq<Paper>, elapsed: Stage -> string): (r: seq<Event>)
    ensures forall i | 0 <= i < |r| :: r[i].Status? || r[i].Titles?
  {
    [Status(Searching), Status(Timed(Searching, elapsed(SearchStage))), Titles(TitlesOf(papers)), Status(Downloading)]
  }

  /** The events of a completed fetch: the fetch time and the summary status. */
  function Fetched(papers: seq<Paper>, elapsed: Stage -> string): (r: seq<Event>)
    ensures forall i | 0 <= i < |r| :: r[i].Status? || r[i].Titles?
  {
    Searched(papers, elapsed) + [Status(Timed(Downloading, elapsed(FetchStage))), Status(Generating)]
  }

  /**
    The events a request emits for how far it got. Routing that raises gives one error event and
    routing without a tool one message event. Otherwise the search status comes first, and each
    stage either fails with one error event or emits its events and hands over to the next, the
    summaries event closing a successful run. The stream ends with exactly one terminal event;
    it reports an error exactly when a stage raised and summaries exactly when all succeeded.
   */
  function Events(reached: Reached, elapsed: Stage -> string): (r: seq<Event>)
    ensures EndsOnce(r)
    ensures HasError(r) <==> !reached.Answered? && !reached.Summarised?
    ensures HasSummaries(r) <==> reached.Summarised?
  {
    match reached
    case RoutingRaised(e) => Closed([], Error(UnexpectedError + e))
    case Answered(m) => Closed([], Message(m))
    case SearchRaised(e) => Closed([Status(Searching)], Error(SearchError + e))
    case FetchRaised(papers, e) => Closed(Searched(papers, elapsed), Error(FetchError + e))
    case SummaryRaised(papers, e) => Closed(Fetched(papers, elapsed), Error(SummaryError + e))
    case Summarised(papers, s) =>
      Closed(Fetched(papers, elapsed) + [Status(Timed(Generating, elapsed(SummaryStage)))], Summaries(s))
  }

  /**
    The events of one request. Whatever happens, exactly one terminal event closes the stream,
    and a stream never reports both an error and summaries.
   */
  function Responses(message: string, maxResults: int, env: Collaborators): (r: seq<Event>)
    ensures EndsOnce(r)
    ensures !(HasError(r) && HasSummaries(r))
  {
    Events(Reach(message, maxResults, env), env.elapsed)
  }

  /**
    `generate_responses`: yields the events of `Responses` one at a time, each stage inside its
    own `try`, so the stream ends with exactly one terminal event.
   */
  method GenerateResponses(message: string, maxResults: int, env: Collaborators) returns (events: seq<Event>)
    ensures events == Responses(message, maxResults, env)
    ensures EndsOnce(events) && !(HasError(events) && HasSummaries(events))
  {
    events := [];
    var routed := env.route([HumanMessage(message)]);
    if routed.Failure? {
      events := events + [Error(UnexpectedError + routed.error)];
      assert Reach(message, maxResults, env) == RoutingRaised(routed.error);
      return;
    }
    var response, tool := routed.value.response, routed.value.tool;
    if tool.None? {
      events := events + [Message(response)];
      assert Reach(message, maxResults, env) == Answered(response);
      return;
    }
    events := events + [Status(Searching)];

    // Search stage.
    var found := SearchOutcome(tool.value, env.search, maxResults);
    if found.Failure? {
      events := events + [Error(SearchError + found.error)];
      assert Reach(message, maxResults, env) == SearchRaised(found.error);
      return;
    }
    var papers := GetMetadata(found.value, env.uuid);
    assert papers == Metadata(found.value, env.uuid);
    events := events + [Status(Timed(Searching, env.elapsed(SearchStage)))];
    events := events + [Titles(TitlesOf(papers))];
    events := events + [Status(Downloading)];
    assert events == Searched(papers, env.elapsed);

    // Fetch stage.
    if env.fetchFault.Some? {
      events := events + [Error(FetchError + env.fetchFault.value)];
      assert Reach(message, maxResults, env) == FetchRaised(papers, env.fetchFault.value);
      return;
    }
    var parsed := FetchAll(papers, env.download);
    events := events + [Status(Timed(Downloading, env.elapsed(FetchStage)))];
    events := events + [Status(Generating)];
    assert events == Fetched(papers, env.elapsed);

    // Summary stage.
    var summarised := Summarise(env.llm, parsed);
    if summarised.Failure? {
      events := events + [Error(SummaryError + summarised.error)];
      assert Reach(message, maxResults, env) == SummaryRaised(papers, summarised.error);
      return;
    }
    events := events + [Status(Timed(Generating, env.elapsed(SummaryStage)))];
    events := events + [Summaries(summarised.value)];
    assert events == Fetched(papers, env.elapsed) + [Status(Timed(Generating, env.elapsed(SummaryStage)))] + [Summaries(summarised.value)];
    assert Reach(message, maxResults, env) == Summarised(papers, summarised.value);
  }

  /**
    Every stage of a request succeeds: routing chose a tool, the search returned, the fetch
    raised nothing and each paper's summary call replied.
   */
  predicate RunSucceeds(message: string, maxResults: int, env: Collaborators) {
    var routed := env.route([HumanMessage(message)]);
    routed.Success? && routed.value.tool.Some? &&
    var found := SearchOutcome(routed.value.tool.value, env.search, maxResults);
    found.Success? && env.fetchFault.None? &&
    var docs := FetchAll(Metadata(found.value, env.uuid), env.download);
    forall i | 0 <= i < |docs| :: env.llm(SummaryRequest(docs[i].text)).Success?
  }

  /** A request's stream carries summaries exactly when every stage succeeds. */
  lemma SummariesExactlyWhenRunSucceeds(message: string, maxResults: int, env: Collaborators)
    ensures HasSummaries(Responses(message, maxResults, env)) <==> RunSucceeds(message, maxResults, env)
  {
    ReachSummarisedExactlyWhenRunSucceeds(message, maxResults, env);
  }

  /** The stage ladder ends in summaries exactly when every stage succeeds. */
  lemma ReachSummarisedExactlyWhenRunSucceeds(message: string, maxResults: int, env: Collaborators)
    ensures Reach(message, maxResults, env).Summarised? <==> RunSucceeds(message, maxResults, env)
  {
  }

  /**
    A routing reply without a tool call is answered with its content as the one message event,
    and that is the only way a stream ends with a message.
   */
  lemma MessageExactlyWhenNoTool(message: string, maxResults: int, env: Collaborators)
    ensures var r := Responses(message, maxResults, env);
      var routed := env.route([HumanMessage(message)]);
      r[|r| - 1].Message? <==> routed.Success? && routed.value.tool.None?
    ensures var routed := env.route([HumanMessage(message)]);
      routed.Success? && routed.value.tool.None? ==>
        Responses(message, maxResults, env) == [Message(routed.value.response)]
  {
  }

  /**
    A successful run emits eight events: the search status and its timing, the titles of the
    papers found, the two fetch statuses, the summary status and its timing, and the summaries,
    one per search result, in the results' order, each under its drawn id and its result's title
    and holding the model's reply to that paper's text.
   */
  lemma SuccessfulRun(message: string, maxResults: int, env: Collaborators)
    requires RunSucceeds(message, maxResults, env)
    ensures var r := Responses(message, maxResults, env);
      var results := SearchOutcome(env.route([HumanMessage(message)]).value.tool.value, env.search, maxResults).value;
      var docs := FetchAll(Metadata(results, env.uuid), env.download);
      |r| == 8 && r[0] == Status(Searching) && r[1] == Status(Timed(Searching, env.elapsed(SearchStage))) &&
      r[2].Titles? && |r[2].papers| == |results| &&
      (forall i | 0 <= i < |results| :: r[2].papers[i] == TitleEntry(results[i].title, results[i].pdfUrl)) &&
      r[3] == Status(Downloading) && r[4] == Status(Timed(Downloading, env.elapsed(FetchStage))) &&
      r[5] == Status(Generating) && r[6] == Status(Timed(Generating, env.elapsed(SummaryStage))) &&
      r[7].Summaries? && |r[7].summaries| == |results| &&
      forall i | 0 <= i < |results| ::
        r[7].summaries[i] == Summary(env.llm(SummaryRequest(docs[i].text)).value, env.uuid(i), results[i].title)
  {
    var results := SearchOutcome(env.route([HumanMessage(message)]).value.tool.value, env.search, maxResults).value;
    var papers := Metadata(results, env.uuid);
    var summarised := Summarise(env.llm, FetchAll(papers, env.download));
    assert Reach(message, maxResults, env) == Summarised(papers, summarised.value);
    SummarisedEvents(papers, summarised.value, env.elapsed);
    TitlesFollowSearchResults(results, env.uuid);
  }

  /** The events of a run that summarised `papers` as `s`. */
  lemma SummarisedEvents(papers: seq<Paper>, s: seq<Summary>, elapsed: Stage -> string)
    ensures var r := Events(Summarised(papers, s), elapsed);
      |r| == 8 && r[0] == Status(Searching) && r[1] == Status(Timed(Searching, elapsed(SearchStage))) &&
      r[2] == Titles(TitlesOf(papers)) && r[3] == Status(Downloading) &&
      r[4] == Status(Timed(Downloading, elapsed(FetchStage))) && r[5] == Status(Generating) &&
      r[6] == Status(Timed(Generating, elapsed(SummaryStage))) && r[7] == Summaries(s)
  {
  }

  /** Routing that raises is reported as the one event of the stream, before anything else is sent. */
  lemma RoutingFailureIsOnlyEvent(message: string, maxResults: int, env: Collaborators)
    requires env.route([HumanMessage(message)]).Failure?
    ensures Responses(message, maxResults, env) == [Error(UnexpectedError + env.route([HumanMessage(message)]).error)]
  {
  }

  /**
    A search that raises follows the first status with one error event: no titles, no fetch and
    no summaries.
   */
  lemma SearchFailureStopsAfterFirstStatus(message: string, maxResults: int, env: Collaborators)
    requires env.route([HumanMessage(message)]).Success?
    requires env.route([HumanMessage(message)]).value.tool.Some?
    requires SearchOutcome(env.route([HumanMessage(message)]).value.tool.value, env.search, maxResults).Failure?
    ensures var found := SearchOutcome(env.route([HumanMessage(message)]).value.tool.value, env.search, maxResults);
      Responses(message, maxResults, env) == [Status(Searching), Error(SearchError + found.error)]
  {
  }

  /**
    The stream of a run whose summary stage raised: seven events, the sixth the "Generating
    summaries..." status, the last an error carrying the first failing call's exception, and no
    summaries.
   */
  predicate EndsWithSummaryError(r: seq<Event>, llm: seq<ChatMessage> -> Result<string>, docs: seq<Document>) {
    |r| == 7 && r[5] == Status(Generating) && !HasSummaries(r) &&
    exists i | 0 <= i < |docs| :: FirstFailingCall(llm, docs, i) && r[6] == Error(SummaryError + llm(SummaryRequest(docs[i].text)).error)
  }

  /**
    When a paper's summary call raises, the stream ends after the "Generating summaries..."
    status with one error event carrying the exception of the first failing paper, and holds no
    summaries.
   */
  lemma SummaryFailureEndsAfterGenerating(message: string, maxResults: int, env: Collaborators, results: seq<SearchResult>)
    requires env.route([HumanMessage(message)]).Success?
    requires env.route([HumanMessage(message)]).value.tool.Some?
    requires SearchOutcome(env.route([HumanMessage(message)]).value.tool.value, env.search, maxResults) == Success(results)
    requires env.fetchFault.None?
    requires !RunSucceeds(message, maxResults, env)
    ensures EndsWithSummaryError(Responses(message, maxResults, env), env.llm, FetchAll(Metadata(results, env.uuid), env.download))
  {
    var papers := Metadata(results, env.uuid);
    var docs := FetchAll(papers, env.download);
    var summarised := Summarise(env.llm, docs);
    assert Reach(message, maxResults, env) == SummaryRaised(papers, summarised.error);
    var i :| FirstFailingCall(env.llm, docs, i) && summarised.error == env.llm(SummaryRequest(docs[i].text)).error;
    SummaryRaisedEvents(papers, summarised.error, env.elapsed);
  }

  /** The events of a run whose summary stage raised `e`. */
  lemma SummaryRaisedEvents(papers: seq<Paper>, e: string, elapsed: Stage -> string)
    ensures var r := Events(SummaryRaised(papers, e), elapsed);
      |r| == 7 && r[5] == Status(Generating) && r[6] == Error(SummaryError + e) && !HasSummaries(r)
  {
  }

  /** A tool call without a `query` argument fails the search stage with the `KeyError`'s text. */
  lemma MissingQueryFailsSearch(message: string, maxResults: int, env: Collaborators)
    requires env.route([HumanMessage(message)]).Success?
    requires env.route([HumanMessage(message)]).value.tool.Some?
    requires "query" !in env.route([HumanMessage(message)]).value.tool.value.args
    ensures Responses(message, maxResults, env) == [Status(Searching), Error(SearchError + MissingQuery)]
  {
  }

  /**
    Across the three stages the ids stay with their papers: the i-th summary of a successful run
    carries the i-th id drawn and the title of the i-th search result.
   */
  lemma SummariesFollowSearchResults(results: seq<SearchResult>, uuid: nat -> string,
                                     download: string -> Transport, llm: seq<ChatMessage> -> Result<string>)
    requires Summarise(llm, FetchAll(Metadata(results, uuid), download)).Success?
    ensures var s := Summarise(llm, FetchAll(Metadata(results, uuid), download)).value;
      |s| == |results| && forall i | 0 <= i < |results| :: s[i].id == uuid(i) && s[i].title == results[i].title
  {
  }

  /** One entry of the titles payload as JSON. */
  function TitleJson(t: TitleEntry): (r: string)
    ensures Printable(r)
  {
    Object([Pair("title", Quote(t.title)), Pair("url", Quote(t.url))])
  }

  /** One summary as JSON, keys in the source's order. */
  function SummaryJson(s: Summary): (r: string)
    ensures Printable(r)
  {
    Object([Pair("summary", Quote(s.summary)), Pair("id", Quote(s.id)), Pair("title", Quote(s.title))])
  }

  /** The `type` field of an event. */
  function TypeName(e: Event): string {
    match e
    case Status(_) => "status"
    case Titles(_) => "titles"
    case Summaries(_) => "summaries"
    case Message(_) => "message"
    case Error(_) => "error"
  }

  /** The key of an event's payload, the second member of its object. */
  function PayloadKey(e: Event): string {
    match e
    case Status(_) => "status"
    case Titles(_) => "papers"
    case Summaries(_) => "summaries"
    case Message(_) => "message"
    case Error(_) => "message"
  }

  function TitlesJson(ps: seq<TitleEntry>): (r: string)
    ensures Printable(r)
  {
    Array(seq(|ps|, i requires 0 <= i < |ps| => TitleJson(ps[i])))
  }

  function SummariesJson(ss: seq<Summary>): (r: string)
    ensures Printable(r)
  {
    Array(seq(|ss|, i requires 0 <= i < |ss| => SummaryJson(ss[i])))
  }

  /** The JSON value of an event's payload. */
  function PayloadJson(e: Event): (r: string)
    ensures Printable(r)
  {
    match e
    case Status(s) => Quote(s)
    case Titles(ps) => TitlesJson(ps)
    case Summaries(ss) => SummariesJson(ss)
    case Message(m) => Quote(m)
    case Error(m) => Quote(m)
  }

  /** `json.dumps` of one event: `{"type": ..., <payload key>: ...}`, on a single line. */
  function EventJson(e: Event): (r: string)
    ensures Printable(r) && |r| >= 2 && r[0] == '{' && r[|r| - 1] == '}'
  {
    Object([Pair("type", Quote(TypeName(e))), Pair(PayloadKey(e), PayloadJson(e))])
  }

  /** The bytes of the response body: each event's JSON followed by "\n". */
  function Stream(events: seq<Event>): string {
    if events == [] then "" else EventJson(events[0]) + "\n" + Stream(events[1..])
  }

  /** The position of the first line break in `s`, or `|s|` when there is none. */
  function FirstLineBreak(s: string): (k: nat)
    ensures k <= |s| && (k < |s| ==> s[k] == '\n')
    ensures forall j | 0 <= j < k :: s[j] != '\n'
  {
    if s == [] || s[0] == '\n' then 0 else 1 + FirstLineBreak(s[1..])
  }

  /** The consumer's `text.split("\n")`. */
  function SplitLines(s: string): seq<string>
    decreases |s|
  {
    var k := FirstLineBreak(s);
    if k == |s| then [s] else [s[..k]] + SplitLines(s[k + 1..])
  }

  /** The consumer's `.filter(Boolean)`: blank lines dropped. */
  function NonEmpty(lines: seq<string>): seq<string> {
    if lines == [] then []
    else if lines[0] == "" then NonEmpty(lines[1..])
    else [lines[0]] + NonEmpty(lines[1..])
  }

  lemma {:induction false} SplitAfterLine(line: string, rest: string)
    requires forall j | 0 <= j < |line| :: line[j] != '\n'
    ensures SplitLines(line + "\n" + rest) == [line] + SplitLines(rest)
  {
    var s := line + "\n" + rest;
    FirstLineBreakAt(line, rest);
    assert s[..|line|] == line;
    assert s[|line| + 1..] == rest;
  }

  lemma {:induction false} FirstLineBreakAt(line: string, rest: string)
    requires forall j | 0 <= j < |line| :: line[j] != '\n'
    ensures FirstLineBreak(line + "\n" + rest) == |line|
  {
    if line != [] {
      assert (line + "\n" + rest)[1..] == line[1..] + "\n" + rest;
      FirstLineBreakAt(line[1..], rest);
    }
  }

  /**
    Splitting the body at line breaks and dropping blank lines, as the consumer does, gives back
    exactly one JSON object per event, in order: no event's JSON holds a line break.
   */
  lemma {:induction false} StreamSplitsIntoEvents(events: seq<Event>)
    ensures var lines := NonEmpty(SplitLines(Stream(events)));
      |lines| == |events| && forall i | 0 <= i < |events| :: lines[i] == EventJson(events[i])
  {
    if events == [] {
      assert SplitLines("") == [""];
    } else {
      var line := EventJson(events[0]);
      var rest := Stream(events[1..]);
      SingleLine(events[0]);
      SplitAfterLine(line, rest);
      var lines := SplitLines(rest);
      assert ([line] + lines)[1..] == lines;
      StreamSplitsIntoEvents(events[1..]);
      assert NonEmpty(SplitLines(Stream(events))) == [line] + NonEmpty(lines);
    }
  }

  /** An event's JSON is one non-empty line. */
  lemma SingleLine(e: Event)
    ensures EventJson(e) != "" && forall j | 0 <= j < |EventJson(e)| :: EventJson(e)[j] != '\n'
  {
  }
}
