/**
  The summariser (scout/summariser.py): one language-model call per paper, each with the same
  fixed system prompt followed by the paper's text, gathered back in input order.

  The model is a parameter `llm` from the message list of one call to what that call does:
  return the reply's content or raise. `asyncio.gather` without `return_exceptions` is modelled
  as a sequential map that yields either every reply or one exception.
 */
module Summariser {
  import opened Wrappers
  import opened Scraper

  /** The LangChain message kinds the pipeline sends. */
  datatype ChatMessage = SystemMessage(content: string) | HumanMessage(content: string) | AIMessage(content: string)

  /** One element of `summarise`'s result: `{"summary", "id", "title"}`. */
  datatype Summary = Summary(summary: string, id: string, title: string)

  /** `self.system_prompt`: the source's triple-quoted literal, its line break followed by 32 spaces. */
  const SystemPrompt: string :=
    "You are a helpful assistant that summarises papers. Emphasise the key points and the main contributions of the paper.\n" +
    "                                Make sure to cover all the sections of the paper. Generate the summary in markdown format. Paper:"

  /** The messages of the model call for one paper's text. */
  function SummaryRequest(text: string): seq<ChatMessage> {
    [SystemMessage(SystemPrompt), HumanMessage(text)]
  }

  /**
    Every paper's call carries the same system prompt first and the paper's text, unaltered,
    second; two calls differ exactly when the texts do.
   */
  lemma SameSystemPromptForEveryPaper(a: string, b: string)
    ensures |SummaryRequest(a)| == 2 && SummaryRequest(a)[0] == SystemMessage(SystemPrompt)
    ensures SummaryRequest(a)[1] == HumanMessage(a)
    ensures SummaryRequest(a)[0] == SummaryRequest(b)[0]
    ensures SummaryRequest(a) == SummaryRequest(b) <==> a == b
  {
    if SummaryRequest(a) == SummaryRequest(b) {
      assert SummaryRequest(a)[1] == SummaryRequest(b)[1];
    }
  }

  /** `summarise_one(text)`: the content of the model's reply to the system prompt and `text`. */
  function SummariseOne(llm: seq<ChatMessage> -> Result<string>, text: string): Result<string> {
    llm(SummaryRequest(text))
  }

  /** The model call for paper `i` raises and every call before it replied. */
  predicate FirstFailingCall(llm: seq<ChatMessage> -> Result<string>, docs: seq<Document>, i: int) {
    0 <= i < |docs| && llm(SummaryRequest(docs[i].text)).Failure? &&
    forall j | 0 <= j < i :: llm(SummaryRequest(docs[j].text)).Success?
  }

  /**
    `summarise(papers)`: succeeds exactly when every model call does, and then pairs the i-th
    reply with the i-th paper's id and title; otherwise it raises the exception of the first
    failing call and returns no list at all.
   */
  function Summarise(llm: seq<ChatMessage> -> Result<string>, papers: seq<Document>): (r: Result<seq<Summary>>)
    ensures r.Success? <==> forall i | 0 <= i < |papers| :: llm(SummaryRequest(papers[i].text)).Success?
    ensures r.Success? ==> |r.value| == |papers|
    ensures r.Success? ==> forall i | 0 <= i < |papers| ::
      r.value[i] == Summary(llm(SummaryRequest(papers[i].text)).value, papers[i].id, papers[i].title)
    ensures r.Failure? ==> exists i | 0 <= i < |papers| ::
      FirstFailingCall(llm, papers, i) && llm(SummaryRequest(papers[i].text)).error == r.error
  {
    if papers == [] then Success([])
    else
      var paper := papers[0];
      match SummariseOne(llm, paper.text)
      case Failure(e) =>
        assert FirstFailingCall(llm, papers, 0);
        Failure(e)
      case Success(reply) =>
        match Summarise(llm, papers[1..])
        case Failure(e) =>
          ghost var i :| 0 <= i < |papers| - 1 && FirstFailingCall(llm, papers[1..], i) &&
            llm(SummaryRequest(papers[1..][i].text)).error == e;
          FirstFailingCallShifted(llm, papers, i);
          Failure(e)
        case Success(rest) => Success([Summary(reply, paper.id, paper.title)] + rest)
  }

  /** A first failure in the tail, after a first call that replied, is the first failure of the whole list. */
  lemma FirstFailingCallShifted(llm: seq<ChatMessage> -> Result<string>, docs: seq<Document>, i: int)
    requires docs != [] && llm(SummaryRequest(docs[0].text)).Success?
    requires FirstFailingCall(llm, docs[1..], i)
    ensures FirstFailingCall(llm, docs, i + 1)
  {
    forall j | 0 <= j < i + 1
      ensures llm(SummaryRequest(docs[j].text)).Success?
    {
      if j > 0 {
        assert docs[j] == docs[1..][j - 1];
      }
    }
  }
}
