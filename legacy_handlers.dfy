/**
 * The Slack handlers of the original `src` package, over its own store:
 * the live `message` event indexer, `/ask` and `/reindex`. They follow the
 * same steps as the `slack_vector_bot` handlers; `/ask` differs in its
 * not-found text and in when it summarises, and the store differs in the
 * order of its upsert checks.
 */
module LegacyHandlers {
  import opened Wrappers
  import opened PyText
  import opened StoreModel
  import opened Ranking
  import opened Llms
  import opened Indexing
  import opened Asking
  import LegacyDb

  /** The reply to an `/ask` with no question. */
  const AskForQuestion: string := "質問を入力してください。例: `/ask 新プロダクトの発表はどのスレッド？`"

  /** The reply when no candidate was found. */
  const NotFound: string := "該当が見つかりませんでした。インデックスの蓄積をお待ちください。"

  /**
   * The reply as written: the summary whenever there is a candidate, even
   * when none of the candidates resolves to a message, and the not-found
   * text only without candidates.
   */
  function AnswerAsWritten(question: string, cand: Candidates, hits: seq<Item>, summaryReply: Option<string>): string {
    if cand.order != [] then SummarizeResults(question, hits, summaryReply) else NotFound
  }

  /**
   * The reply as intended: the summary of the hits, or the not-found text
   * when there are none. `AnswerNotEmpty` and `AnswerAsWrittenDiffers`
   * state what that guarantees.
   */
  function Answer(question: string, hits: seq<Item>, summaryReply: Option<string>): (r: string)
    ensures hits == [] ==> r == NotFound
    ensures hits != [] ==> r == SummarizeResults(question, hits, summaryReply)
  {
    if hits != [] then SummarizeResults(question, hits, summaryReply) else NotFound
  }

  /** With the fallback formatter, the intended reply is never empty. */
  lemma AnswerNotEmpty(question: string, hits: seq<Item>)
    ensures Answer(question, hits, None) != []
  {
    if hits != [] {
      SummarizeResultsEmpty(question, hits, None);
    }
  }

  /**
   * When hits only come from candidates, the two replies differ exactly
   * when there were candidates but no hit, and then the reply as written
   * is the summary of no hits: the empty string.
   */
  lemma AnswerAsWrittenDiffers(question: string, cand: Candidates, hits: seq<Item>, summaryReply: Option<string>)
    requires cand.order == [] ==> hits == []
    ensures AnswerAsWritten(question, cand, hits, summaryReply) != Answer(question, hits, summaryReply) <==>
      cand.order != [] && hits == []
    ensures cand.order != [] && hits == [] ==> AnswerAsWritten(question, cand, hits, summaryReply) == []
  {
    if cand.order != [] && hits == [] {
      assert NotFound != [];
    }
  }

  /** The reply when the search fails, followed by the error's own message. */
  const SearchFailed: string := "検索中にエラーが発生しました: "

  /**
   * `/ask` once the candidates are merged, as written: no candidate gives
   * the not-found text; otherwise the top `MAX_RETURN` slots are looked up
   * with the query as written, and a failed lookup is answered with
   * `SearchFailed` and the database's message (`errorText`, which the model
   * does not derive), a successful one with the summary of its items.
   */
  function AskReplyAsWritten(question: string, cand: Candidates, maxReturn: int,
                             summaryReply: Option<string>, errorText: string): string
    requires Scored(cand.order, cand.score)
  {
    if cand.order == [] then NotFound
    else match LegacyDb.FetchAsWritten(Rank(cand, maxReturn))
      case Err(_) => SearchFailed + errorText
      case Ok(hits) => AnswerAsWritten(question, cand, hits, summaryReply)
  }

  /**
   * As written, a non-empty candidate set ends in one of two replies: the
   * error text when at least one slot is ranked, and the empty string when
   * `MAX_RETURN` leaves none (zero, or negative by at least the number of
   * candidates, as a Python slice counts from the end).
   */
  lemma AskReplyAsWrittenCases(question: string, cand: Candidates, maxReturn: int,
                               summaryReply: Option<string>, errorText: string)
    requires WellFormed(cand)
    requires cand.order != []
    ensures Scored(cand.order, cand.score)
    ensures var none := maxReturn == 0 || (maxReturn < 0 && |cand.order| <= -maxReturn);
      && (none <==> Rank(cand, maxReturn) == [])
      && (!none ==> AskReplyAsWritten(question, cand, maxReturn, summaryReply, errorText) == SearchFailed + errorText)
      && (none ==> AskReplyAsWritten(question, cand, maxReturn, summaryReply, errorText) == [])
  {
    RankIsTop(cand, maxReturn);
    assert |Rank(cand, maxReturn)| == |SliceTo(SortByScore(cand.order, cand.score), maxReturn)|;
    if Rank(cand, maxReturn) == [] {
      assert SummarizeResults(question, [], summaryReply) == [];
    }
  }

  /**
   * With `MAX_RETURN` zero, any question that yields a candidate gets the
   * empty reply as written, where the intended reply is the not-found text.
   */
  lemma ZeroMaxReturnGivesEmptyReply(s: StoreState, question: string, queries: seq<string>, embed: Embedder,
                                     faiss: Searcher, topK: int, summaryReply: Option<string>, errorText: string)
    requires MergedCandidates(s.index, queries, embed, faiss, topK).order != []
    ensures var cand := MergedCandidates(s.index, queries, embed, faiss, topK);
      && Scored(cand.order, cand.score)
      && AskReplyAsWritten(question, cand, 0, summaryReply, errorText) == []
      && AskHits(s, queries, embed, faiss, topK, 0) == []
      && Answer(question, AskHits(s, queries, embed, faiss, topK, 0), summaryReply) == NotFound
  {
    AskHitsAreRanked(s, queries, embed, faiss, topK, 0);
    var cand := MergedCandidates(s.index, queries, embed, faiss, topK);
    AskReplyAsWrittenCases(question, cand, 0, summaryReply, errorText);
  }

  /** The one-vector store with no message, the query embedding and the FAISS answer of the example below. */
  function OrphanStore(): StoreState {
    StoreState(map[], 1, map[], Some(FlatIndex(1, [[1.0]])))
  }

  function OrphanEmbed(): Embedder {
    (q: string) => [1.0]
  }

  function OrphanSearch(): Searcher {
    (v: Vector, k: int) => [Hit(0.9, 0)]
  }

  /** In the example, the one query yields one candidate: the orphan slot 0. */
  lemma OrphanCandidate()
    ensures MergedCandidates(OrphanStore().index, ["q"], OrphanEmbed(), OrphanSearch(), 5) == Candidates([0], map[0 := 0.9])
  {
    var rs := SearchResults(OrphanStore().index, ["q"], OrphanEmbed(), OrphanSearch(), 5);
    assert rs == [[Hit(0.9, 0)]];
    assert Flatten(rs) == [Hit(0.9, 0)] by {
      assert Flatten(rs[1..]) == [];
    }
    assert Merge([Hit(0.9, 0)]) == Candidates([0], map[0 := 0.9]) by {
      assert Add(NoCandidates, Hit(0.9, 0)) == Candidates([0], map[0 := 0.9]);
      assert [Hit(0.9, 0)][1..] == [];
    }
  }

  /** In the example, the one candidate is also the one ranked slot. */
  lemma OrphanRanked()
    ensures Scored([0], map[0 := 0.9])
    ensures Rank(Candidates([0], map[0 := 0.9]), 5) == [0]
  {
    assert SortByScore([0], map[0 := 0.9]) == [0];
  }

  /** In the example, nothing resolves: the one ranked slot is linked to no message. */
  lemma OrphanHits()
    ensures AskHits(OrphanStore(), ["q"], OrphanEmbed(), OrphanSearch(), 5, 5) == []
  {
    var s := OrphanStore();
    OrphanCandidate();
    AskHitsAreRanked(s, ["q"], OrphanEmbed(), OrphanSearch(), 5, 5);
    OrphanRanked();
    assert Resolve(s, [0]) == [] by {
      assert ResolveSlot(s, 0).None?;
      assert [0][..0] == [];
    }
  }

  /**
   * A consistent store whose index holds one vector that no message links
   * (an orphan slot). As written, the lookup of that slot fails on the
   * query itself, so the reply is the error text. Once the lookup runs the
   * corrected query (`LegacyDb.MessageStore.FetchMetaByFaissIndices`), it
   * resolves nothing, and the handler's candidate test then replies with
   * the empty summary instead of the not-found text.
   */
  lemma OrphanGivesEmptyReplyOnceQueryFixed(errorText: string)
    ensures var cand := MergedCandidates(OrphanStore().index, ["q"], OrphanEmbed(), OrphanSearch(), 5);
      var hits := AskHits(OrphanStore(), ["q"], OrphanEmbed(), OrphanSearch(), 5, 5);
      && Consistent(OrphanStore())
      && cand == Candidates([0], map[0 := 0.9])
      && AskReplyAsWritten("q", cand, 5, None, errorText) == SearchFailed + errorText
      && hits == []
      && AnswerAsWritten("q", cand, hits, None) == []
      && Answer("q", hits, None) == NotFound
  {
    assert Consistent(OrphanStore());
    OrphanCandidate();
    OrphanHits();
    OrphanRanked();
    var cand := Candidates([0], map[0 := 0.9]);
    assert LegacyDb.FetchAsWritten([0]).Err?;
    assert AnswerAsWritten("q", cand, [], None) == [] by {
      assert cand.order != [];
      assert SummarizeResults("q", [], None) == [];
    }
    assert Answer("q", [], None) == NotFound;
  }

  /**
   * `handle_message_events`: filtered events are dropped without touching
   * the store; any other event is upserted once, and the upsert's outcome
   * (an id, or the error the handler logs) is returned.
   */
  method HandleMessageEvent(store: LegacyDb.MessageStore, ev: Event, embed: Embedder, link: (string, string) -> string)
    returns (outcome: Option<Result<int, UpsertError>>)
    requires store.Valid()
    modifies store
    ensures store.Valid()
    ensures EventRequest(ev).None? ==> outcome.None? && store.Contents() == old(store.Contents())
    ensures EventRequest(ev).Some? ==>
      var u := Apply(LegacyDb.Upsert, old(store.Contents()), EventRequest(ev).value, embed, link);
      store.Contents() == u.after && outcome == Some(u.result)
  {
    if ev.subtype.Some? && ev.subtype.value in IgnoredSubtypes {
      return None;
    }
    var channel := ev.channel;
    var user := ev.user.GetOr("");
    var text := Strip(ev.text.GetOr(""));
    var ts := ev.ts;
    if text == [] || !Truthy(ts) || !Truthy(channel) {
      return None;
    }
    var permalink := link(channel.value, ts.value);
    var emb := embed(text);
    var r := store.UpsertMessage(channel.value, ts.value, user, text, permalink, emb);
    return Some(r);
  }

  /**
   * `ask_command`: a blank question gets the usage reply; otherwise every
   * generated query is searched, the results merged and, when there is a
   * candidate, the top `MAX_RETURN` slots looked up; the reply is the
   * intended one. The store is only read. Both completions come from the
   * one `client`, so either both replies are the model's or both are the
   * fallbacks.
   */
  method Ask(store: LegacyDb.MessageStore, command: Option<string>, nQuery: int, topK: int, maxReturn: int,
             client: Option<Completions>, embed: Embedder, faiss: Searcher)
    returns (hits: seq<Item>, reply: string)
    requires store.Valid()
    ensures Strip(command.GetOr("")) == [] ==> hits == [] && reply == AskForQuestion
    ensures Strip(command.GetOr("")) != [] ==>
      var question := Strip(command.GetOr(""));
      var queries := GenSearchQueries(question, nQuery, QueryReply(client));
      && hits == AskHits(store.Contents(), queries, embed, faiss, topK, maxReturn)
      && reply == Answer(question, hits, SummaryReply(client))
  {
    var question := Strip(command.GetOr(""));
    if question == [] {
      return [], AskForQuestion;
    }
    var queries := GenSearchQueries(question, nQuery, QueryReply(client));
    var cand := NoCandidates;
    for i := 0 to |queries|
      invariant cand == MergedCandidates(store.index, queries[..i], embed, faiss, topK)
    {
      var qv := embed(queries[i]);
      var found := store.Search(qv, topK, faiss(qv, topK));
      MergedCandidatesNext(store.index, queries, i, embed, faiss, topK, found);
      cand := MergeHits(cand, found);
    }
    assert queries[..|queries|] == queries;
    hits := [];
    AskHitsAreRanked(store.Contents(), queries, embed, faiss, topK, maxReturn);
    if cand.order != [] {
      var slots := Rank(cand, maxReturn);
      hits := store.FetchMetaByFaissIndices(slots);
    }
    reply := Answer(question, hits, SummaryReply(client));
  }

  /** The loop over one page of `reindex_command`, as in the other bot, over this store. */
  method IndexPage(store: LegacyDb.MessageStore, ch: string, messages: seq<HistoryMessage>, embed: Embedder,
                   link: (string, string) -> string, total0: nat)
    returns (total: nat, failure: Option<ReindexError>)
    requires store.Valid()
    modifies store
    ensures store.Valid()
    ensures Run(store.Contents(), if failure.None? then Completed(total) else Aborted(failure.value))
      == Exec(LegacyDb.Upsert, old(store.Contents()), PageSteps(ch, messages), embed, link, total0)
  {
    ghost var goal := Exec(LegacyDb.Upsert, store.Contents(), PageSteps(ch, messages), embed, link, total0);
    total := total0;
    assert messages[0..] == messages;
    for j := 0 to |messages|
      invariant store.Valid()
      invariant goal == Exec(LegacyDb.Upsert, store.Contents(), PageSteps(ch, messages[j..]), embed, link, total)
    {
      var m := messages[j];
      ghost var req := HistoryRequest(ch, m);
      ghost var rest := PageSteps(ch, messages[j + 1..]);
      assert PageSteps(ch, messages[j..]) == (if req.Some? then [Index(req.value)] else []) + rest by {
        assert messages[j..][0] == m;
        assert messages[j..][1..] == messages[j + 1..];
      }
      if m.subtype.Some? && m.subtype.value != "" {
        assert req.None? && [] + rest == rest;
        continue;
      }
      var text := Strip(m.text.GetOr(""));
      var ts := m.ts;
      var user := m.user.GetOr("");
      if text == [] || !Truthy(ts) {
        assert req.None? && [] + rest == rest;
        continue;
      }
      assert req == Some(IndexRequest(ch, ts.value, user, text));
      ExecIndexHead(LegacyDb.Upsert, store.Contents(), req.value, rest, embed, link, total);
      var permalink := link(ch, ts.value);
      var emb := embed(text);
      ghost var u := LegacyDb.Upsert(store.Contents(), Key(ch, ts.value), user, text, permalink, emb);
      assert Apply(LegacyDb.Upsert, store.Contents(), req.value, embed, link) == u;
      var r := store.UpsertMessage(ch, ts.value, user, text, permalink, emb);
      assert store.Contents() == u.after && r == u.result;
      if r.Err? {
        return total, Some(Rejected(r.error));
      }
      total := total + 1;
    }
    assert messages[|messages|..] == [];
    return total, None;
  }

  /** The paging loop of `reindex_command` for one channel, as in the other bot, over this store. */
  method IndexChannel(store: LegacyDb.MessageStore, ch: string, history: History, embed: Embedder,
                      link: (string, string) -> string, total0: nat)
    returns (total: nat, failure: Option<ReindexError>)
    requires store.Valid()
    modifies store
    ensures store.Valid()
    ensures Run(store.Contents(), if failure.None? then Completed(total) else Aborted(failure.value))
      == Exec(LegacyDb.Upsert, old(store.Contents()), ChannelSteps(history, ch, None, PagesPerChannel), embed, link, total0)
  {
    ghost var goal := Exec(LegacyDb.Upsert, store.Contents(), ChannelSteps(history, ch, None, PagesPerChannel), embed, link, total0);
    total := total0;
    var latest: Option<string> := None;
    var page := 0;
    while page < PagesPerChannel
      invariant 0 <= page <= PagesPerChannel
      invariant store.Valid()
      invariant goal == Exec(LegacyDb.Upsert, store.Contents(), ChannelSteps(history, ch, latest, PagesPerChannel - page),
                             embed, link, total)
    {
      var messages := history(ch, latest);
      ChannelStepsPage(history, ch, latest, PagesPerChannel - page);
      if messages == [] {
        ExecFetchHead(LegacyDb.Upsert, store.Contents(), ch, latest, [], embed, link, total);
        return total, None;
      }
      var cursor := messages[|messages| - 1].ts;
      ghost var next: seq<Step> :=
        if cursor.Some? then ChannelSteps(history, ch, cursor, PagesPerChannel - page - 1) else [CursorMissing];
      ExecFetchHead(LegacyDb.Upsert, store.Contents(), ch, latest, PageSteps(ch, messages) + next, embed, link, total);
      ExecAppend(LegacyDb.Upsert, store.Contents(), PageSteps(ch, messages), next, embed, link, total);
      var failure';
      total, failure' := IndexPage(store, ch, messages, embed, link, total);
      if failure'.Some? {
        return total, failure';
      }
      if cursor.None? {
        return total, Some(NoCursor);
      }
      latest := cursor;
      page := page + 1;
    }
    return total, None;
  }

  /**
   * `reindex_command`: with no configured channel, the not-configured
   * reply; otherwise each channel is backfilled in turn, and the first
   * error (a dimension mismatch, or a page whose last message has no `ts`)
   * ends the whole run.
   */
  method Reindex(store: LegacyDb.MessageStore, channels: seq<string>, history: History, embed: Embedder,
                 link: (string, string) -> string)
    returns (reply: ReindexReply)
    requires store.Valid()
    modifies store
    ensures store.Valid()
    ensures Run(store.Contents(), reply) == Backfill(LegacyDb.Upsert, old(store.Contents()), channels, history, embed, link)
  {
    if channels == [] {
      return NotConfigured;
    }
    ghost var goal := Exec(LegacyDb.Upsert, store.Contents(), Plan(history, channels), embed, link, 0);
    var total: nat := 0;
    for c := 0 to |channels|
      invariant store.Valid()
      invariant goal == Exec(LegacyDb.Upsert, store.Contents(), Plan(history, channels[c..]), embed, link, total)
    {
      var ch := channels[c];
      assert Plan(history, channels[c..]) == ChannelSteps(history, ch, None, PagesPerChannel) + Plan(history, channels[c + 1..]) by {
        assert channels[c..][1..] == channels[c + 1..];
      }
      ExecAppend(LegacyDb.Upsert, store.Contents(), ChannelSteps(history, ch, None, PagesPerChannel),
                 Plan(history, channels[c + 1..]), embed, link, total);
      var failure;
      total, failure := IndexChannel(store, ch, history, embed, link, total);
      if failure.Some? {
        return Aborted(failure.value);
      }
    }
    assert channels[|channels|..] == [];
    return Completed(total);
  }
}
