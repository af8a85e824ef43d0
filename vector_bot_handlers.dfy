/**
 * The Slack handlers of the `slack_vector_bot` package, over its store: the
 * live `message` event indexer, `/ask` and `/reindex`. Slack, OpenAI and
 * FAISS calls are parameters; the chat completions are `None` when no API
 * key is configured.
 */
module VectorBotHandlers {
  import opened Wrappers
  import opened PyText
  import opened StoreModel
  import opened Ranking
  import opened Llms
  import opened Indexing
  import opened Asking
  import VectorBotDb

  /** The reply to an `/ask` with no question. */
  const AskForQuestion: string := "質問を入力してください。例: `/ask 新プロダクトの発表はどのスレッド？`"

  /** The summary used when nothing was found. */
  const NotFound: string := "該当が見つかりませんでした。"

  /**
   * The summary `/ask` posts: the summarised hits, or the not-found text
   * when there are none. `AnswerNotEmpty` states what that guarantees.
   */
  function Answer(question: string, hits: seq<Item>, summaryReply: Option<string>): (r: string)
    ensures hits == [] ==> r == NotFound
    ensures hits != [] ==> r == SummarizeResults(question, hits, summaryReply)
  {
    if hits != [] then SummarizeResults(question, hits, summaryReply) else NotFound
  }

  /** The answer is never empty when the fallback formatter is used or nothing was found. */
  lemma AnswerNotEmpty(question: string, hits: seq<Item>)
    ensures Answer(question, hits, None) != []
  {
    if hits != [] {
      SummarizeResultsEmpty(question, hits, None);
    }
  }

  /**
   * `handle_message_events`: filtered events are dropped without touching
   * the store; any other event is upserted once, and the upsert's outcome
   * (an id, or the error the handler logs) is returned.
   */
  method HandleMessageEvent(store: VectorBotDb.MessageStore, ev: Event, embed: Embedder, link: (string, string) -> string)
    returns (outcome: Option<Result<int, UpsertError>>)
    requires store.Valid()
    modifies store
    ensures store.Valid()
    ensures EventRequest(ev).None? ==> outcome.None? && store.Contents() == old(store.Contents())
    ensures EventRequest(ev).Some? ==>
      var u := Apply(VectorBotDb.Upsert, old(store.Contents()), EventRequest(ev).value, embed, link);
      store.Contents() == u.after && outcome == Some(u.result)
  {
    if ev.subtype.Some? && ev.subtype.value in IgnoredSubtypes {
      return None;
    }
    var channel := ev.channel;
    var user := ev.user.GetOr("");
    var text := Strip(ev.text.GetOr(""));
    var ts := ev.ts;
    if text == [] || !Truthy(ts) || !Truthy(channel) {
      return None;
    }
    var permalink := link(channel.value, ts.value);
    var emb := embed(text);
    var r := store.UpsertMessage(channel.value, ts.value, user, text, permalink, emb);
    return Some(r);
  }

  /**
   * `ask_command`: a blank question gets the usage reply; otherwise every
   * generated query is searched, the results merged, the top `MAX_RETURN`
   * slots fetched (only when there is a candidate), and the hits summarised.
   * The store is only read. Both completions come from the one `client`,
   * so either both replies are the model's or both are the fallbacks.
   */
  method Ask(store: VectorBotDb.MessageStore, command: Option<string>, nQuery: int, topK: int, maxReturn: int,
             client: Option<Completions>, embed: Embedder, faiss: Searcher)
    returns (hits: seq<Item>, reply: string)
    requires store.Valid()
    ensures Strip(command.GetOr("")) == [] ==> hits == [] && reply == AskForQuestion
    ensures Strip(command.GetOr("")) != [] ==>
      var question := Strip(command.GetOr(""));
      var queries := GenSearchQueries(question, nQuery, QueryReply(client));
      && hits == AskHits(store.Contents(), queries, embed, faiss, topK, maxReturn)
      && reply == Answer(question, hits, SummaryReply(client))
  {
    var question := Strip(command.GetOr(""));
    if question == [] {
      return [], AskForQuestion;
    }
    var queries := GenSearchQueries(question, nQuery, QueryReply(client));
    var cand := NoCandidates;
    for i := 0 to |queries|
      invariant cand == MergedCandidates(store.index, queries[..i], embed, faiss, topK)
    {
      var qv := embed(queries[i]);
      var found := store.Search(qv, topK, faiss(qv, topK));
      MergedCandidatesNext(store.index, queries, i, embed, faiss, topK, found);
      cand := MergeHits(cand, found);
    }
    assert queries[..|queries|] == queries;
    hits := [];
    AskHitsAreRanked(store.Contents(), queries, embed, faiss, topK, maxReturn);
    if cand.order != [] {
      var slots := Rank(cand, maxReturn);
      hits := store.FetchMetaByFaissIndices(slots);
    }
    reply := if hits != [] then SummarizeResults(question, hits, SummaryReply(client)) else NotFound;
  }

  /**
   * The loop over one page of `reindex_command`: skip messages with a
   * subtype, blank text or no `ts`, upsert the others and count them; an
   * upsert that raises ends the page with its error.
   */
  method IndexPage(store: VectorBotDb.MessageStore, ch: string, messages: seq<HistoryMessage>, embed: Embedder,
                   link: (string, string) -> string, total0: nat)
    returns (total: nat, failure: Option<ReindexError>)
    requires store.Valid()
    modifies store
    ensures store.Valid()
    ensures Run(store.Contents(), if failure.None? then Completed(total) else Aborted(failure.value))
      == Exec(VectorBotDb.Upsert, old(store.Contents()), PageSteps(ch, messages), embed, link, total0)
  {
    ghost var goal := Exec(VectorBotDb.Upsert, store.Contents(), PageSteps(ch, messages), embed, link, total0);
    total := total0;
    assert messages[0..] == messages;
    for j := 0 to |messages|
      invariant store.Valid()
      invariant goal == Exec(VectorBotDb.Upsert, store.Contents(), PageSteps(ch, messages[j..]), embed, link, total)
    {
      var m := messages[j];
      ghost var req := HistoryRequest(ch, m);
      ghost var rest := PageSteps(ch, messages[j + 1..]);
      assert PageSteps(ch, messages[j..]) == (if req.Some? then [Index(req.value)] else []) + rest by {
        assert messages[j..][0] == m;
        assert messages[j..][1..] == messages[j + 1..];
      }
      if m.subtype.Some? && m.subtype.value != "" {
        assert req.None? && [] + rest == rest;
        continue;
      }
      var text := Strip(m.text.GetOr(""));
      var ts := m.ts;
      var user := m.user.GetOr("");
      if text == [] || !Truthy(ts) {
        assert req.None? && [] + rest == rest;
        continue;
      }
      assert req == Some(IndexRequest(ch, ts.value, user, text));
      ExecIndexHead(VectorBotDb.Upsert, store.Contents(), req.value, rest, embed, link, total);
      var permalink := link(ch, ts.value);
      var emb := embed(text);
      ghost var u := VectorBotDb.Upsert(store.Contents(), Key(ch, ts.value), user, text, permalink, emb);
      assert Apply(VectorBotDb.Upsert, store.Contents(), req.value, embed, link) == u;
      var r := store.UpsertMessage(ch, ts.value, user, text, permalink, emb);
      assert store.Contents() == u.after && r == u.result;
      if r.Err? {
        return total, Some(Rejected(r.error));
      }
      total := total + 1;
    }
    assert messages[|messages|..] == [];
    return total, None;
  }

  /**
   * The paging loop of `reindex_command` for one channel: at most 10 pages,
   * each from the `ts` of the previous page's last message, stopping at an
   * empty page; a last message with no `ts` is an error.
   */
  method IndexChannel(store: VectorBotDb.MessageStore, ch: string, history: History, embed: Embedder,
                      link: (string, string) -> string, total0: nat)
    returns (total: nat, failure: Option<ReindexError>)
    requires store.Valid()
    modifies store
    ensures store.Valid()
    ensures Run(store.Contents(), if failure.None? then Completed(total) else Aborted(failure.value))
      == Exec(VectorBotDb.Upsert, old(store.Contents()), ChannelSteps(history, ch, None, PagesPerChannel), embed, link, total0)
  {
    ghost var goal := Exec(VectorBotDb.Upsert, store.Contents(), ChannelSteps(history, ch, None, PagesPerChannel), embed, link, total0);
    total := total0;
    var latest: Option<string> := None;
    var page := 0;
    while page < PagesPerChannel
      invariant 0 <= page <= PagesPerChannel
      invariant store.Valid()
      invariant goal == Exec(VectorBotDb.Upsert, store.Contents(), ChannelSteps(history, ch, latest, PagesPerChannel - page),
                             embed, link, total)
    {
      var messages := history(ch, latest);
      ChannelStepsPage(history, ch, latest, PagesPerChannel - page);
      if messages == [] {
        ExecFetchHead(VectorBotDb.Upsert, store.Contents(), ch, latest, [], embed, link, total);
        return total, None;
      }
      var cursor := messages[|messages| - 1].ts;
      ghost var next: seq<Step> :=
        if cursor.Some? then ChannelSteps(history, ch, cursor, PagesPerChannel - page - 1) else [CursorMissing];
      ExecFetchHead(VectorBotDb.Upsert, store.Contents(), ch, latest, PageSteps(ch, messages) + next, embed, link, total);
      ExecAppend(VectorBotDb.Upsert, store.Contents(), PageSteps(ch, messages), next, embed, link, total);
      var failure';
      total, failure' := IndexPage(store, ch, messages, embed, link, total);
      if failure'.Some? {
        return total, failure';
      }
      if cursor.None? {
        return total, Some(NoCursor);
      }
      latest := cursor;
      page := page + 1;
    }
    return total, None;
  }

  /**
   * `reindex_command`: with no configured channel, the not-configured
   * reply; otherwise each channel is backfilled in turn, and the first
   * error ends the whole run.
   */
  method Reindex(store: VectorBotDb.MessageStore, channels: seq<string>, history: History, embed: Embedder,
                 link: (string, string) -> string)
    returns (reply: ReindexReply)
    requires store.Valid()
    modifies store
    ensures store.Valid()
    ensures Run(store.Contents(), reply) == Backfill(VectorBotDb.Upsert, old(store.Contents()), channels, history, embed, link)
  {
    if channels == [] {
      return NotConfigured;
    }
    ghost var goal := Exec(VectorBotDb.Upsert, store.Contents(), Plan(history, channels), embed, link, 0);
    var total: nat := 0;
    for c := 0 to |channels|
      invariant store.Valid()
      invariant goal == Exec(VectorBotDb.Upsert, store.Contents(), Plan(history, channels[c..]), embed, link, total)
    {
      var ch := channels[c];
      assert Plan(history, channels[c..]) == ChannelSteps(history, ch, None, PagesPerChannel) + Plan(history, channels[c + 1..]) by {
        assert channels[c..][1..] == channels[c + 1..];
      }
      ExecAppend(VectorBotDb.Upsert, store.Contents(), ChannelSteps(history, ch, None, PagesPerChannel),
                 Plan(history, channels[c + 1..]), embed, link, total);
      var failure;
      total, failure := IndexChannel(store, ch, history, embed, link, total);
      if failure.Some? {
        return Aborted(failure.value);
      }
    }
    assert channels[|channels|..] == [];
    return Completed(total);
  }
}
