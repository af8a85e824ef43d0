/**
 * The two chat-model helpers shared by both bots: turning a question into
 * search queries and turning hits into a reply. The chat completion itself
 * is a parameter: `None` stands for "no API key configured" (`_client is
 * None`), `Some(content)` for the message content the model returned.
 */
module Llms {
  import opened Wrappers
  import opened PyText
  import opened StoreModel

  /**
   * One `/ask` seen from the module's `_client`: `None` when no client was
   * created, otherwise the content it returned for the query prompt and the
   * content it returned for the summary prompt.
   */
  datatype Completions = Completions(queries: string, summary: string)

  /** The content `gen_search_queries` receives from the client, if there is one. */
  function QueryReply(client: Option<Completions>): Option<string> {
    if client.Some? then Some(client.value.queries) else None
  }

  /** The content `summarize_results` receives from the same client, if there is one. */
  function SummaryReply(client: Option<Completions>): Option<string> {
    if client.Some? then Some(client.value.summary) else None
  }

  // ------------------------------------------------- gen_search_queries

  /** The characters `line.strip("- •\t ")` removes from each reply line. */
  const QueryTrim: set<char> := {'-', ' ', '•', '\t'}

  /** Starts and ends with no character of `QueryTrim` (or is empty). */
  predicate TrimmedQuery(q: string) {
    q == [] || (q[0] !in QueryTrim && q[|q| - 1] !in QueryTrim)
  }

  /** What one reply line contributes to the queries: nothing when blank, else the line trimmed. */
  function LineQuery(line: string): seq<string> {
    if IsBlank(line) then [] else [StripChars(line, QueryTrim)]
  }

  /** `[line.strip("- •\t ") for line in lines if line.strip()]`. */
  function KeepQueries(lines: seq<string>): seq<string> {
    FlatMap(LineQuery, lines)
  }

  /** The queries read off a reply: stripped, split into lines, blank lines dropped, each line trimmed. */
  function ParseQueries(content: string): seq<string> {
    KeepQueries(SplitLines(Strip(content)))
  }

  /**
   * `gen_search_queries(question, n)`: the question alone without a client
   * or when the reply holds no non-blank line, otherwise the first `n`
   * parsed queries (`queries[:n]`, so a negative `n` drops from the end).
   */
  function GenSearchQueries(question: string, n: int, reply: Option<string>): (qs: seq<string>)
    ensures reply.None? ==> qs == [question]
    ensures reply.Some? && ParseQueries(reply.value) == [] ==> qs == [question]
    ensures reply.Some? && ParseQueries(reply.value) != [] ==>
      && |qs| <= |ParseQueries(reply.value)|
      && qs == ParseQueries(reply.value)[..|qs|]
      && (0 <= n <= |ParseQueries(reply.value)| ==> |qs| == n)
      && (n > |ParseQueries(reply.value)| ==> qs == ParseQueries(reply.value))
  {
    match reply
    case None => [question]
    case Some(content) =>
      var queries := ParseQueries(content);
      if queries != [] then SliceTo(queries, n) else [question]
  }

  /** Every kept query has nothing trimmable left at either end. */
  lemma {:induction false} KeepQueriesTrimmed(lines: seq<string>)
    ensures forall i :: 0 <= i < |KeepQueries(lines)| ==> TrimmedQuery(KeepQueries(lines)[i])
  {
    if lines != [] {
      KeepQueriesTrimmed(lines[1..]);
      var head := LineQuery(lines[0]);
      var rest := KeepQueries(lines[1..]);
      assert KeepQueries(lines) == head + rest;
      forall i | 0 <= i < |head + rest| ensures TrimmedQuery((head + rest)[i]) {
        if i < |head| {
          assert (head + rest)[i] == StripChars(lines[0], QueryTrim);
        } else {
          assert (head + rest)[i] == rest[i - |head|];
        }
      }
    }
  }

  /** Lines are read independently and in order: the queries of a concatenation are the concatenated queries. */
  lemma {:induction false} KeepQueriesAppend(a: seq<string>, b: seq<string>)
    ensures KeepQueries(a + b) == KeepQueries(a) + KeepQueries(b)
  {
    FlatMapAppend(LineQuery, a, b);
  }

  /** The queries of lines are the first line's query, if any, then the queries of the rest. */
  lemma KeepQueriesCons(lines: seq<string>)
    requires lines != []
    ensures KeepQueries(lines) == LineQuery(lines[0]) + KeepQueries(lines[1..])
  {
  }

  /** No query is kept exactly when every line is blank. */
  lemma {:induction false} KeepQueriesEmpty(lines: seq<string>)
    ensures KeepQueries(lines) == [] <==> forall j :: 0 <= j < |lines| ==> IsBlank(lines[j])
  {
    if lines != [] {
      KeepQueriesCons(lines);
      KeepQueriesEmpty(lines[1..]);
      assert LineQuery(lines[0]) == [] <==> IsBlank(lines[0]);
      assert forall j :: 1 <= j < |lines| ==> lines[j] == lines[1..][j - 1];
    }
  }

  /**
   * A line made only of dashes and bullets is not blank but trims to the
   * empty string, so a reply `"-"` yields one empty query rather than the
   * question.
   */
  lemma DashReplyGivesEmptyQuery(question: string, n: int)
    requires n >= 1
    ensures ParseQueries("-") == [""]
    ensures GenSearchQueries(question, n, Some("-")) == [""]
  {
    StripCharsOfClean("-", Whitespace);
    assert FirstIn("-", LineBreaks) == 1;
    assert SplitLines("-") == ["-"];
    assert !IsBlank("-");
  }

  /** A query the model could write on a line of its own: non-empty, one line, nothing trimmable at either end. */
  predicate IsQuery(q: string) {
    && q != []
    && NoBreak(q)
    && q[0] !in Whitespace && q[0] !in QueryTrim
    && q[|q| - 1] !in Whitespace && q[|q| - 1] !in QueryTrim
  }

  /**
   * The queries each written as a `- query` line: a reply shape the code
   * is built to accept (its strip set removes such markers), used below as
   * a second sample reply.
   */
  function BulletLines(qs: seq<string>): (lines: seq<string>)
    ensures |lines| == |qs|
    ensures forall i :: 0 <= i < |qs| ==> lines[i] == "- " + qs[i]
  {
    if qs == [] then [] else ["- " + qs[0]] + BulletLines(qs[1..])
  }

  /** A reply listing the queries one per line, each behind a `- ` marker. */
  function BulletReply(qs: seq<string>): string {
    JoinWith(BulletLines(qs), '\n')
  }

  /** Splitting newline-joined lines, none empty, gives the lines back. */
  lemma {:induction false} SplitLinesJoin(lines: seq<string>)
    requires forall j :: 0 <= j < |lines| ==> NoBreak(lines[j]) && lines[j] != []
    ensures SplitLines(JoinWith(lines, '\n')) == lines
  {
    if lines != [] {
      var p, s := lines[0], JoinWith(lines, '\n');
      if |lines| == 1 {
        assert forall k :: 0 <= k < |s| ==> s[k] == p[k] && s[k] !in LineBreaks;
        assert FirstIn(s, LineBreaks) == |s|;
      } else {
        var rest := JoinWith(lines[1..], '\n');
        assert s == p + ['\n'] + rest;
        assert forall k :: 0 <= k < |p| ==> s[k] == p[k] && s[k] !in LineBreaks;
        assert s[|p|] == '\n';
        assert FirstIn(s, LineBreaks) == |p|;
        assert s[..|p|] == p;
        assert s[|p| + 1..] == rest;
        SplitLinesJoin(lines[1..]);
      }
    }
  }

  /** A join of non-empty lines starts with the first line's first character and ends with the last line's last. */
  lemma {:induction false} JoinWithEnds(lines: seq<string>, sep: char)
    requires |lines| >= 1
    requires forall j :: 0 <= j < |lines| ==> lines[j] != []
    ensures JoinWith(lines, sep) != []
    ensures JoinWith(lines, sep)[0] == lines[0][0]
    ensures JoinWith(lines, sep)[|JoinWith(lines, sep)| - 1] == lines[|lines| - 1][|lines[|lines| - 1]| - 1]
  {
    if |lines| > 1 {
      JoinWithEnds(lines[1..], sep);
    }
  }

  /** One `- query` line is kept and trimmed back to the query. */
  lemma BulletLineQuery(q: string)
    requires IsQuery(q)
    ensures NoBreak("- " + q) && "- " + q != []
    ensures !IsBlank("- " + q)
    ensures StripChars("- " + q, QueryTrim) == q
  {
    var s := "- " + q;
    assert s[0] == '-' && s[1] == ' ' && s[2] == q[0];
    assert LeadingCount(s, QueryTrim) == 2;
    var r := StripChars(s, QueryTrim);
    assert s[|s| - 1] == q[|q| - 1];
    assert 2 + |r| == |s|;
    assert r == s[2..];
  }

  /** The queries of `- query` lines are the queries. */
  lemma {:induction false} KeepQueriesBullets(qs: seq<string>)
    requires forall i :: 0 <= i < |qs| ==> IsQuery(qs[i])
    ensures KeepQueries(BulletLines(qs)) == qs
  {
    if qs != [] {
      var lines := BulletLines(qs);
      assert LineQuery(lines[0]) == [qs[0]] by {
        BulletLineQuery(qs[0]);
      }
      assert lines[1..] == BulletLines(qs[1..]);
      KeepQueriesCons(lines);
      KeepQueriesBullets(qs[1..]);
      assert qs == [qs[0]] + qs[1..];
    }
  }

  /** Reading back a reply that lists queries behind `- ` markers gives exactly those queries. */
  lemma ParseQueriesBulletReply(qs: seq<string>)
    requires forall i :: 0 <= i < |qs| ==> IsQuery(qs[i])
    ensures ParseQueries(BulletReply(qs)) == qs
  {
    var lines := BulletLines(qs);
    forall j | 0 <= j < |lines| ensures NoBreak(lines[j]) && lines[j] != [] {
      BulletLineQuery(qs[j]);
    }
    if qs != [] {
      JoinWithEnds(lines, '\n');
      var last := qs[|qs| - 1];
      assert lines[|lines| - 1][|lines[|lines| - 1]| - 1] == last[|last| - 1];
      StripCharsOfClean(BulletReply(qs), Whitespace);
    } else {
      assert BulletReply(qs) == [];
      assert Strip([]) == [];
    }
    SplitLinesJoin(lines);
    KeepQueriesBullets(qs);
  }

  /** Given a reply of marked lines, `gen_search_queries` returns its first `n` queries. */
  lemma GenSearchQueriesBulletReply(question: string, n: nat, qs: seq<string>)
    requires qs != []
    requires forall i :: 0 <= i < |qs| ==> IsQuery(qs[i])
    ensures GenSearchQueries(question, n, Some(BulletReply(qs))) == qs[..if n <= |qs| then n else |qs|]
  {
    ParseQueriesBulletReply(qs);
  }

  /** Bare queries, one per line, are kept as they are. */
  lemma {:induction false} KeepQueriesOfQueries(qs: seq<string>)
    requires forall i :: 0 <= i < |qs| ==> IsQuery(qs[i])
    ensures KeepQueries(qs) == qs
  {
    if qs != [] {
      assert LineQuery(qs[0]) == [qs[0]] by {
        StripCharsOfClean(qs[0], Whitespace);
        StripCharsOfClean(qs[0], QueryTrim);
      }
      KeepQueriesCons(qs);
      KeepQueriesOfQueries(qs[1..]);
      assert qs == [qs[0]] + qs[1..];
    }
  }

  /** The reply the prompt asks for: the queries one per line, with nothing else. */
  function LineReply(qs: seq<string>): string {
    JoinWith(qs, '\n')
  }

  /** Reading back such a reply gives exactly its queries. */
  lemma ParseQueriesLineReply(qs: seq<string>)
    requires forall i :: 0 <= i < |qs| ==> IsQuery(qs[i])
    ensures ParseQueries(LineReply(qs)) == qs
  {
    QueriesAreLines(qs);
    if qs != [] {
      assert IsQuery(qs[0]) && IsQuery(qs[|qs| - 1]);
    }
    LineReplyStripped(qs);
    SplitLinesJoin(qs);
    KeepQueriesOfQueries(qs);
  }

  /** A reply whose first and last lines are queries has no whitespace to strip at either end. */
  lemma LineReplyStripped(qs: seq<string>)
    requires forall j :: 0 <= j < |qs| ==> qs[j] != []
    requires qs != [] ==> IsQuery(qs[0]) && IsQuery(qs[|qs| - 1])
    ensures Strip(LineReply(qs)) == LineReply(qs)
  {
    if qs != [] {
      JoinWithEnds(qs, '\n');
      var reply := LineReply(qs);
      assert reply[0] !in Whitespace;
      assert reply[|reply| - 1] !in Whitespace;
    }
    StripCharsOfClean(LineReply(qs), Whitespace);
  }

  /** A query is a non-empty line. */
  lemma QueriesAreLines(qs: seq<string>)
    requires forall i :: 0 <= i < |qs| ==> IsQuery(qs[i])
    ensures forall j :: 0 <= j < |qs| ==> NoBreak(qs[j]) && qs[j] != []
  {
    forall j | 0 <= j < |qs| ensures NoBreak(qs[j]) && qs[j] != [] {
      assert IsQuery(qs[j]);
    }
  }

  /** Given such a reply, `gen_search_queries` returns its first `n` queries. */
  lemma GenSearchQueriesLineReply(question: string, n: nat, qs: seq<string>)
    requires qs != []
    requires forall i :: 0 <= i < |qs| ==> IsQuery(qs[i])
    ensures GenSearchQueries(question, n, Some(LineReply(qs))) == qs[..if n <= |qs| then n else |qs|]
  {
    ParseQueriesLineReply(qs);
  }

  // -------------------------------------------------- summarize_results

  /** `text[:120]`. */
  function Snippet(text: string): (r: string)
    ensures |r| <= 120 && |r| <= |text| && r == text[..|r|]
    ensures |text| <= 120 ==> r == text
    ensures |text| > 120 ==> |r| == 120
  {
    SliceTo(text, 120)
  }

  /** `f"• <{permalink}|リンク>: {text[:120]}…"`: one Slack link with the start of the text. */
  function Bullet(h: Item): string {
    "• <" + h.permalink + "|リンク>: " + Snippet(h.text) + "…"
  }

  /** The fallback reply: the bullets of the hits, in order, joined with nothing between them. */
  function FallbackSummary(hits: seq<Item>): string {
    if hits == [] then [] else Bullet(hits[0]) + FallbackSummary(hits[1..])
  }

  /**
   * `summarize_results(question, hits)`: the empty string for no hits, the
   * fallback without a client, otherwise the model's reply stripped.
   */
  function SummarizeResults(question: string, hits: seq<Item>, reply: Option<string>): (r: string)
    ensures hits == [] ==> r == []
    ensures hits != [] && reply.None? ==> r == FallbackSummary(hits)
    ensures hits != [] && reply.Some? ==> r == Strip(reply.value)
  {
    if reply.None? || hits == [] then FallbackSummary(hits) else Strip(reply.value)
  }

  /** A bullet opens with `• <`, then the permalink, and closes with `…` after at most 120 characters of text. */
  lemma BulletShape(h: Item)
    ensures var b := Bullet(h);
      && |b| == 3 + |h.permalink| + 7 + |Snippet(h.text)| + 1
      && b[..3] == "• <"
      && b[3..3 + |h.permalink|] == h.permalink
      && b[3 + |h.permalink|..3 + |h.permalink| + 7] == "|リンク>: "
      && b[3 + |h.permalink| + 7..|b| - 1] == Snippet(h.text)
      && b[|b| - 1] == '…'
  {
  }

  /** The fallback of a concatenation is the concatenated fallbacks: one bullet per hit, in hit order. */
  lemma {:induction false} FallbackSummaryAppend(a: seq<Item>, b: seq<Item>)
    ensures FallbackSummary(a + b) == FallbackSummary(a) + FallbackSummary(b)
  {
    if a == [] {
      assert a + b == b;
    } else {
      assert (a + b)[0] == a[0];
      assert (a + b)[1..] == a[1..] + b;
      FallbackSummaryAppend(a[1..], b);
    }
  }

  /**
   * The reply is empty exactly when there are no hits or the model's reply
   * is blank; the fallback of any hit is not.
   */
  lemma SummarizeResultsEmpty(question: string, hits: seq<Item>, reply: Option<string>)
    ensures SummarizeResults(question, hits, reply) == [] <==>
      hits == [] || (reply.Some? && IsBlank(reply.value))
  {
    if hits != [] && reply.None? {
      assert Bullet(hits[0])[0] == '•';
      assert FallbackSummary(hits)[0] == '•';
    }
  }
}
