/**
 * What the two Slack handlers feed into the store: the filter that decides
 * whether a live `message` event is indexed, and the `/reindex` backfill,
 * which pages through each configured channel's history and upserts every
 * plain message. Both handler modules share these definitions; Slack's
 * `conversations_history`, `chat_getPermalink` and the embedding call are
 * function parameters.
 */
module Indexing {
  import opened Wrappers
  import opened PyText
  import opened StoreModel

  // ------------------------------------------------------- live events

  /** The fields of a `message` event the handler reads; `None` is a missing key. */
  datatype Event = Event(subtype: Option<string>, channel: Option<string>, user: Option<string>,
                         text: Option<string>, ts: Option<string>)

  /** One `upsert_message` call the handlers make: channel, `ts`, user and stripped text. */
  datatype IndexRequest = IndexRequest(channel: string, ts: string, user: string, text: string)

  /** Event subtypes that are never indexed. */
  const IgnoredSubtypes: set<string> :=
    {"message_changed", "message_deleted", "bot_message", "channel_join", "channel_leave"}

  /** A truthy string field: present and not empty. */
  predicate Truthy(f: Option<string>) {
    f.Some? && f.value != ""
  }

  /**
   * `handle_message_events`' filter: the upsert it makes for an event, if
   * any. The subtype must not be one of the ignored ones, and the stripped
   * text, `ts` and channel must all be non-empty; a missing user becomes "".
   */
  function EventRequest(ev: Event): (r: Option<IndexRequest>)
    ensures r.Some? <==>
      && (ev.subtype.None? || ev.subtype.value !in IgnoredSubtypes)
      && !IsBlank(ev.text.GetOr(""))
      && Truthy(ev.ts) && Truthy(ev.channel)
    ensures r.Some? ==>
      && r.value.channel == ev.channel.value && r.value.ts == ev.ts.value
      && r.value.user == ev.user.GetOr("")
      && r.value.text == Strip(ev.text.GetOr(""))
      && r.value.text != [] && r.value.text[0] !in Whitespace && r.value.text[|r.value.text| - 1] !in Whitespace
  {
    if ev.subtype.Some? && ev.subtype.value in IgnoredSubtypes then None
    else
      var text := Strip(ev.text.GetOr(""));
      if text == [] || !Truthy(ev.ts) || !Truthy(ev.channel) then None
      else Some(IndexRequest(ev.channel.value, ev.ts.value, ev.user.GetOr(""), text))
  }

  // ------------------------------------------------------------ backfill

  /** The fields of a `conversations_history` message the backfill reads. */
  datatype HistoryMessage = HistoryMessage(subtype: Option<string>, user: Option<string>,
                                           text: Option<string>, ts: Option<string>)

  /**
   * The backfill's filter: a message with any subtype, or with blank text
   * or no `ts`, is skipped.
   */
  function HistoryRequest(ch: string, m: HistoryMessage): (r: Option<IndexRequest>)
    ensures r.Some? <==> !Truthy(m.subtype) && !IsBlank(m.text.GetOr("")) && Truthy(m.ts)
    ensures r.Some? ==> r.value == IndexRequest(ch, m.ts.value, m.user.GetOr(""), Strip(m.text.GetOr("")))
  {
    if Truthy(m.subtype) then None
    else
      var text := Strip(m.text.GetOr(""));
      if text == [] || !Truthy(m.ts) then None
      else Some(IndexRequest(ch, m.ts.value, m.user.GetOr(""), text))
  }

  /**
   * The two filters differ on subtypes: a message with a subtype outside
   * the ignored list (a file share, say) is indexed when it arrives, but
   * the backfill skips it.
   */
  lemma LiveAndBackfillFiltersDiffer(ch: string, user: Option<string>, text: string, ts: string, st: string)
    requires st != "" && st !in IgnoredSubtypes
    requires !IsBlank(text) && ts != "" && ch != ""
    ensures EventRequest(Event(Some(st), Some(ch), user, Some(text), Some(ts))).Some?
    ensures HistoryRequest(ch, HistoryMessage(Some(st), user, Some(text), Some(ts))).None?
    ensures HistoryRequest(ch, HistoryMessage(None, user, Some(text), Some(ts))) ==
      EventRequest(Event(Some(st), Some(ch), user, Some(text), Some(ts)))
  {
  }

  /** `for _ in range(10)`: the most pages read per channel. */
  const PagesPerChannel: nat := 10

  /** Slack's `conversations_history(channel, limit=100, latest)`: a page of messages, newest first. */
  type History = (string, Option<string>) -> seq<HistoryMessage>

  /**
   * One thing the backfill does: read a page of history, upsert a message,
   * or fail on a page whose last message has no `ts` (`messages[-1]["ts"]`
   * raises).
   */
  datatype Step = Fetch(channel: string, latest: Option<string>) | Index(req: IndexRequest) | CursorMissing

  /** The upserts for one page, in page order. */
  function PageSteps(ch: string, msgs: seq<HistoryMessage>): (steps: seq<Step>)
    ensures |steps| <= |msgs|
    ensures forall i :: 0 <= i < |steps| ==>
      steps[i].Index? && steps[i].req.channel == ch && steps[i].req.text != [] && steps[i].req.ts != ""
  {
    if msgs == [] then []
    else
      var head := HistoryRequest(ch, msgs[0]);
      (if head.Some? then [Index(head.value)] else []) + PageSteps(ch, msgs[1..])
  }

  /** `messages[-1]["ts"]`: the cursor for the next page, or `None` when the key is missing. */
  function NextCursor(msgs: seq<HistoryMessage>): Option<string>
    requires msgs != []
  {
    msgs[|msgs| - 1].ts
  }

  /**
   * The steps for one channel from cursor `latest` with `budget` pages
   * left: read a page; stop on an empty one; otherwise upsert its messages
   * and continue from the `ts` of its last (oldest) message.
   */
  function ChannelSteps(history: History, ch: string, latest: Option<string>, budget: nat): seq<Step>
    decreases budget
  {
    if budget == 0 then []
    else
      var msgs := history(ch, latest);
      var rest :=
        if msgs == [] then []
        else if NextCursor(msgs).Some? then PageSteps(ch, msgs) + ChannelSteps(history, ch, NextCursor(msgs), budget - 1)
        else PageSteps(ch, msgs) + [CursorMissing];
      [Fetch(ch, latest)] + rest
  }

  /** One page of a channel's steps: the read, then (for a non-empty page) its upserts and what follows them. */
  lemma ChannelStepsPage(history: History, ch: string, latest: Option<string>, budget: nat)
    requires budget > 0
    ensures var msgs := history(ch, latest);
      var next := if msgs == [] || NextCursor(msgs).None? then [CursorMissing]
                  else ChannelSteps(history, ch, NextCursor(msgs), budget - 1);
      ChannelSteps(history, ch, latest, budget) == [Fetch(ch, latest)] + (if msgs == [] then [] else PageSteps(ch, msgs) + next)
  {
  }

  /** The steps for all channels, one channel after the other, each from the newest message. */
  function Plan(history: History, channels: seq<string>): seq<Step> {
    if channels == [] then []
    else ChannelSteps(history, channels[0], None, PagesPerChannel) + Plan(history, channels[1..])
  }

  /** How many pages a run of steps reads. */
  function CountFetches(steps: seq<Step>): nat {
    if steps == [] then 0 else (if steps[0].Fetch? then 1 else 0) + CountFetches(steps[1..])
  }

  /** How many upserts a run of steps makes. */
  function CountIndex(steps: seq<Step>): nat {
    if steps == [] then 0 else (if steps[0].Index? then 1 else 0) + CountIndex(steps[1..])
  }

  lemma {:induction false} CountsAppend(a: seq<Step>, b: seq<Step>)
    ensures CountFetches(a + b) == CountFetches(a) + CountFetches(b)
    ensures CountIndex(a + b) == CountIndex(a) + CountIndex(b)
  {
    if a == [] {
      assert a + b == b;
    } else {
      assert (a + b)[0] == a[0];
      assert (a + b)[1..] == a[1..] + b;
      CountsAppend(a[1..], b);
    }
  }

  /** Upserts read no pages. */
  lemma {:induction false} UpsertsFetchNothing(steps: seq<Step>)
    requires forall i :: 0 <= i < |steps| ==> steps[i].Index?
    ensures CountFetches(steps) == 0
  {
    if steps != [] {
      UpsertsFetchNothing(steps[1..]);
    }
  }

  /** A channel reads at most `budget` pages (10 from the start), the first from the given cursor. */
  lemma {:induction false} ChannelPagesBounded(history: History, ch: string, latest: Option<string>, budget: nat)
    ensures CountFetches(ChannelSteps(history, ch, latest, budget)) <= budget
    ensures budget > 0 ==> ChannelSteps(history, ch, latest, budget)[0] == Fetch(ch, latest)
    decreases budget
  {
    if budget > 0 {
      var msgs := history(ch, latest);
      if msgs != [] {
        var tail := if NextCursor(msgs).Some? then ChannelSteps(history, ch, NextCursor(msgs), budget - 1)
                    else [CursorMissing];
        if NextCursor(msgs).Some? {
          ChannelPagesBounded(history, ch, NextCursor(msgs), budget - 1);
        }
        assert CountFetches([CursorMissing]) == 0;
        UpsertsFetchNothing(PageSteps(ch, msgs));
        CountsAppend(PageSteps(ch, msgs), tail);
        CountsAppend([Fetch(ch, latest)], PageSteps(ch, msgs) + tail);
        assert ChannelSteps(history, ch, latest, budget) == [Fetch(ch, latest)] + (PageSteps(ch, msgs) + tail);
      } else {
        assert ChannelSteps(history, ch, latest, budget) == [Fetch(ch, latest)];
      }
    }
  }

  /** Every page the steps read is a page of channel `ch`. */
  predicate ReadsOnly(steps: seq<Step>, ch: string) {
    forall i :: 0 <= i < |steps| && steps[i].Fetch? ==> steps[i].channel == ch
  }

  lemma ReadsOnlyAppend(a: seq<Step>, b: seq<Step>, ch: string)
    requires ReadsOnly(a, ch) && ReadsOnly(b, ch)
    ensures ReadsOnly(a + b, ch)
  {
    forall i | 0 <= i < |a + b| && (a + b)[i].Fetch? ensures (a + b)[i].channel == ch {
      if i < |a| {
        assert (a + b)[i] == a[i];
      } else {
        assert (a + b)[i] == b[i - |a|];
      }
    }
  }

  /** Every page a channel's steps read is a page of that channel. */
  lemma {:induction false} ChannelReadsOwnPages(history: History, ch: string, latest: Option<string>, budget: nat)
    ensures ReadsOnly(ChannelSteps(history, ch, latest, budget), ch)
    decreases budget
  {
    if budget > 0 {
      var msgs := history(ch, latest);
      ChannelStepsPage(history, ch, latest, budget);
      var next := if msgs == [] || NextCursor(msgs).None? then [CursorMissing]
                  else ChannelSteps(history, ch, NextCursor(msgs), budget - 1);
      if msgs != [] && NextCursor(msgs).Some? {
        ChannelReadsOwnPages(history, ch, NextCursor(msgs), budget - 1);
      }
      assert ReadsOnly(next, ch);
      assert ReadsOnly([Fetch(ch, latest)], ch);
      if msgs != [] {
        var page := PageSteps(ch, msgs);
        assert ReadsOnly(page, ch);
        ReadsOnlyAppend(page, next, ch);
        ReadsOnlyAppend([Fetch(ch, latest)], page + next, ch);
      }
    }
  }

  /** An empty page ends the channel: nothing follows its read. */
  lemma EmptyPageStops(history: History, ch: string, latest: Option<string>, budget: nat)
    requires budget > 0 && history(ch, latest) == []
    ensures ChannelSteps(history, ch, latest, budget) == [Fetch(ch, latest)]
  {
  }

  /** The whole backfill reads at most 10 pages per configured channel. */
  lemma {:induction false} PlanPagesBounded(history: History, channels: seq<string>)
    ensures CountFetches(Plan(history, channels)) <= PagesPerChannel * |channels|
  {
    if channels != [] {
      ChannelPagesBounded(history, channels[0], None, PagesPerChannel);
      PlanPagesBounded(history, channels[1..]);
      CountsAppend(ChannelSteps(history, channels[0], None, PagesPerChannel), Plan(history, channels[1..]));
    }
  }

  // -------------------------------------------------------- execution

  /** Why a backfill stops early: an upsert raised, or a page had no cursor. */
  datatype ReindexError = Rejected(error: UpsertError) | NoCursor

  /** What `/reindex` responds: not configured, done with a count, or the error. */
  datatype ReindexReply = NotConfigured | Completed(total: nat) | Aborted(reason: ReindexError)

  /** The store after a backfill and its reply. */
  datatype Run = Run(after: StoreState, reply: ReindexReply)

  /** An `upsert_message` of one of the two stores. */
  type Upserter = (StoreState, Key, string, string, string, Vector) -> Upserted

  /** The upsert a request makes, with the permalink and embedding the services return for it. */
  function Apply(up: Upserter, s: StoreState, req: IndexRequest, embed: string -> Vector,
                 link: (string, string) -> string): Upserted {
    up(s, Key(req.channel, req.ts), req.user, req.text, link(req.channel, req.ts), embed(req.text))
  }

  /**
   * Carrying out the steps in order from `total` upserts so far: an upsert
   * that raises, or a missing cursor, ends the run with the error; a
   * completed run reports how many upserts it made.
   */
  function Exec(up: Upserter, s: StoreState, steps: seq<Step>, embed: string -> Vector,
                link: (string, string) -> string, total: nat): Run
    decreases |steps|
  {
    if steps == [] then Run(s, Completed(total))
    else
      match steps[0]
      case Fetch(_, _) => Exec(up, s, steps[1..], embed, link, total)
      case CursorMissing => Run(s, Aborted(NoCursor))
      case Index(req) =>
        var u := Apply(up, s, req, embed, link);
        if u.result.Err? then Run(u.after, Aborted(Rejected(u.result.error)))
        else Exec(up, u.after, steps[1..], embed, link, total + 1)
  }

  /** Reading a page changes nothing by itself. */
  lemma ExecFetchHead(up: Upserter, s: StoreState, ch: string, latest: Option<string>, rest: seq<Step>,
                      embed: string -> Vector, link: (string, string) -> string, total: nat)
    ensures Exec(up, s, [Fetch(ch, latest)] + rest, embed, link, total) == Exec(up, s, rest, embed, link, total)
  {
    assert ([Fetch(ch, latest)] + rest)[0] == Fetch(ch, latest);
    assert ([Fetch(ch, latest)] + rest)[1..] == rest;
  }

  /** A run that starts with an upsert: it ends there if the upsert raises, otherwise it goes on with one more upsert counted. */
  lemma ExecIndexHead(up: Upserter, s: StoreState, req: IndexRequest, rest: seq<Step>, embed: string -> Vector,
                      link: (string, string) -> string, total: nat)
    ensures var u := Apply(up, s, req, embed, link);
      Exec(up, s, [Index(req)] + rest, embed, link, total) ==
        if u.result.Err? then Run(u.after, Aborted(Rejected(u.result.error)))
        else Exec(up, u.after, rest, embed, link, total + 1)
  {
    assert ([Index(req)] + rest)[0] == Index(req);
    assert ([Index(req)] + rest)[1..] == rest;
  }

  /** A run over a concatenation carries out the first part, then, if that completed, the second from its count. */
  lemma {:induction false} ExecAppend(up: Upserter, s: StoreState, a: seq<Step>, b: seq<Step>, embed: string -> Vector,
                                      link: (string, string) -> string, total: nat)
    ensures var r := Exec(up, s, a, embed, link, total);
      Exec(up, s, a + b, embed, link, total) ==
        if r.reply.Completed? then Exec(up, r.after, b, embed, link, r.reply.total) else r
    decreases |a|
  {
    if a == [] {
      assert a + b == b;
    } else {
      assert (a + b)[0] == a[0];
      assert (a + b)[1..] == a[1..] + b;
      match a[0]
      case Fetch(_, _) =>
        ExecAppend(up, s, a[1..], b, embed, link, total);
      case CursorMissing =>
      case Index(req) =>
        var u := Apply(up, s, req, embed, link);
        if u.result.Ok? {
          ExecAppend(up, u.after, a[1..], b, embed, link, total + 1);
        }
    }
  }

  /** `/reindex`: nothing without configured channels, otherwise the plan carried out from a count of 0. */
  function Backfill(up: Upserter, s: StoreState, channels: seq<string>, history: History,
                    embed: string -> Vector, link: (string, string) -> string): Run {
    if channels == [] then Run(s, NotConfigured) else Exec(up, s, Plan(history, channels), embed, link, 0)
  }

  /**
   * The count a completed run reports is the number of upserts it made,
   * messages already in the index included: every eligible message of every
   * page read.
   */
  lemma {:induction false} ExecCountsUpserts(up: Upserter, s: StoreState, steps: seq<Step>, embed: string -> Vector,
                                             link: (string, string) -> string, total: nat)
    ensures Exec(up, s, steps, embed, link, total).reply.Completed? ==>
      Exec(up, s, steps, embed, link, total).reply.total == total + CountIndex(steps)
    ensures Exec(up, s, steps, embed, link, total).reply != NotConfigured
    decreases |steps|
  {
    if steps != [] {
      match steps[0]
      case Fetch(_, _) =>
        ExecCountsUpserts(up, s, steps[1..], embed, link, total);
      case CursorMissing =>
      case Index(req) =>
        var u := Apply(up, s, req, embed, link);
        if u.result.Ok? {
          ExecCountsUpserts(up, u.after, steps[1..], embed, link, total + 1);
        }
    }
  }

  /** An unset `INDEX_CHANNELS` leaves the store alone and says so. */
  lemma BackfillNotConfigured(up: Upserter, s: StoreState, channels: seq<string>, history: History,
                              embed: string -> Vector, link: (string, string) -> string)
    ensures Backfill(up, s, channels, history, embed, link).reply == NotConfigured <==> channels == []
    ensures channels == [] ==> Backfill(up, s, channels, history, embed, link).after == s
  {
    if channels != [] {
      ExecCountsUpserts(up, s, Plan(history, channels), embed, link, 0);
    }
  }
}
