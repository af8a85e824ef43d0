/**
 * The retrieval part of `/ask`, shared by both handlers: every generated
 * query is embedded and searched, the results are merged into candidates,
 * and the best `MAX_RETURN` candidate slots are resolved to messages. The
 * embedding call and the FAISS search are function parameters.
 */
module Asking {
  import opened Wrappers
  import opened StoreModel
  import opened Ranking

  /** `embed_texts([q])[0]`. */
  type Embedder = string -> Vector

  /** The `(score, idx)` pairs FAISS returns for a query vector and `k`. */
  type Searcher = (Vector, int) -> seq<Hit>

  /**
   * What `store.search` returns for each query: nothing on an empty index,
   * else the FAISS neighbours. The contract is the case split itself;
   * `EmptyIndexFindsNothing` states its consequence for the candidates.
   */
  function SearchResults(index: Option<FlatIndex>, queries: seq<string>, embed: Embedder, faiss: Searcher, topK: int): (rs: seq<seq<Hit>>)
    ensures |rs| == |queries|
    ensures forall i :: 0 <= i < |queries| ==>
      rs[i] == if NTotal(index) == 0 then [] else faiss(embed(queries[i]), topK)
  {
    if queries == [] then []
    else
      var init := queries[..|queries| - 1];
      var q := queries[|queries| - 1];
      assert forall i :: 0 <= i < |init| ==> init[i] == queries[i];
      SearchResults(index, init, embed, faiss, topK)
        + [if NTotal(index) == 0 then [] else faiss(embed(q), topK)]
  }

  /** `cand` after the loop over all queries. */
  function MergedCandidates(index: Option<FlatIndex>, queries: seq<string>, embed: Embedder, faiss: Searcher, topK: int): Candidates {
    Merge(Flatten(SearchResults(index, queries, embed, faiss, topK)))
  }

  /**
   * The hits `/ask` works with: none without candidates, otherwise the
   * messages of the top `MAX_RETURN` slots, in rank order.
   */
  ghost function AskHits(s: StoreState, queries: seq<string>, embed: Embedder, faiss: Searcher, topK: int, maxReturn: int): seq<Item> {
    var cand := MergedCandidates(s.index, queries, embed, faiss, topK);
    MergeIsBest(Flatten(SearchResults(s.index, queries, embed, faiss, topK)));
    WellFormedScored(cand);
    if cand.order == [] then [] else Resolve(s, Rank(cand, maxReturn))
  }

  /** One more query merges its search results into the candidates of the queries before it. */
  lemma MergedCandidatesNext(index: Option<FlatIndex>, queries: seq<string>, i: nat, embed: Embedder, faiss: Searcher,
                             topK: int, found: seq<Hit>)
    requires i < |queries|
    requires found == if NTotal(index) == 0 then [] else faiss(embed(queries[i]), topK)
    ensures MergedCandidates(index, queries[..i + 1], embed, faiss, topK) ==
      MergeFrom(MergedCandidates(index, queries[..i], embed, faiss, topK), found)
  {
    var before := SearchResults(index, queries[..i], embed, faiss, topK);
    assert SearchResults(index, queries[..i + 1], embed, faiss, topK) == before + [found] by {
      assert queries[..i + 1][..i] == queries[..i];
    }
    FlattenAppend(before, [found]);
    assert Flatten([found]) == found;
    MergeFromAppend(NoCandidates, Flatten(before), found);
  }

  /** On an unset or empty index nothing is found, whatever the queries. */
  lemma {:induction false} EmptyIndexFindsNothing(s: StoreState, queries: seq<string>, embed: Embedder, faiss: Searcher,
                                                  topK: int, maxReturn: int)
    requires NTotal(s.index) == 0
    ensures MergedCandidates(s.index, queries, embed, faiss, topK) == NoCandidates
    ensures AskHits(s, queries, embed, faiss, topK, maxReturn) == []
  {
    var rs := SearchResults(s.index, queries, embed, faiss, topK);
    FlattenOfEmpties(rs);
  }

  lemma {:induction false} FlattenOfEmpties(rs: seq<seq<Hit>>)
    requires forall i :: 0 <= i < |rs| ==> rs[i] == []
    ensures Flatten(rs) == []
  {
    if rs != [] {
      FlattenOfEmpties(rs[1..]);
    }
  }

  /**
   * At most `MAX_RETURN` hits, each the message of a ranked candidate slot
   * that resolves; in a consistent store whose ranked slots are all linked,
   * exactly one hit per ranked slot, in rank order.
   */
  lemma AskHitsAreRanked(s: StoreState, queries: seq<string>, embed: Embedder, faiss: Searcher, topK: int, maxReturn: int)
    ensures var cand := MergedCandidates(s.index, queries, embed, faiss, topK);
      && WellFormed(cand)
      && Scored(cand.order, cand.score)
      && var hits := AskHits(s, queries, embed, faiss, topK, maxReturn);
      && (0 <= maxReturn ==> |hits| <= maxReturn)
      && (cand.order != [] ==> hits == Resolve(s, Rank(cand, maxReturn)))
      && (Consistent(s) && cand.order != [] &&
          (forall i :: 0 <= i < |Rank(cand, maxReturn)| ==> Rank(cand, maxReturn)[i] in s.vmap.Values) ==>
          |hits| == |Rank(cand, maxReturn)| &&
          forall i :: 0 <= i < |hits| ==> ResolveSlot(s, Rank(cand, maxReturn)[i]) == Some(hits[i]))
  {
    var cand := MergedCandidates(s.index, queries, embed, faiss, topK);
    MergeIsBest(Flatten(SearchResults(s.index, queries, embed, faiss, topK)));
    WellFormedScored(cand);
    if cand.order != [] {
      RankIsTop(cand, maxReturn);
      var slots := Rank(cand, maxReturn);
      if Consistent(s) && forall i :: 0 <= i < |slots| ==> slots[i] in s.vmap.Values {
        ResolveAllLinked(s, slots);
      }
    }
  }
}
