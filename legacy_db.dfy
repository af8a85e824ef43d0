/**
 * `MessageStore` of the top-level `src` package: the same tables and index
 * as the `slack_vector_bot` store, but its upsert checks the index
 * dimension BEFORE it looks for an existing `vector_map` link, and its
 * metadata query is built from string literals that run together.
 */
module LegacyDb {
  import opened Wrappers
  import opened StoreModel
  import VectorBotDb

  /**
   * `upsert_message` as a function of the state before the call: insert or
   * find the row; initialise an unset index with the row's recorded
   * dimension; reject an embedding of another length; return at once if the
   * message is already linked; else append it and link it to slot `ntotal`.
   */
  function Upsert(s: StoreState, k: Key, user: string, text: string, permalink: string, emb: Vector): (u: Upserted)
    ensures k in u.after.rows
    ensures k in s.rows ==> u.after.rows == s.rows && u.after.nextId == s.nextId
    ensures k !in s.rows ==>
      u.after.rows == s.rows[k := Row(s.nextId, user, text, permalink, |emb|)] && u.after.nextId == s.nextId + 1
    ensures u.result.Ok? ==> u.result.value == u.after.rows[k].id
    ensures u.result.Err? ==> u.after.vmap == s.vmap && NTotal(u.after.index) == NTotal(s.index)
    ensures NTotal(s.index) <= NTotal(u.after.index) <= NTotal(s.index) + 1
    ensures u.after.index.Some?
  {
    var s1 := InsertOrIgnore(s, k, user, text, permalink, |emb|);
    var row := s1.rows[k];
    var idx := if s1.index.Some? then s1.index.value else FlatIndex(RecordedDim(row, emb), []);
    var s2 := s1.(index := Some(idx));
    if idx.dim != |emb| then Upserted(s2, Err(DimMismatch(idx.dim, |emb|)))
    else if row.id in s2.vmap then Upserted(s2, Ok(row.id))
    else Upserted(AppendAndLink(s2, idx, row.id, emb), Ok(row.id))
  }

  /** Every upsert, successful or not, leaves a consistent store consistent. */
  lemma UpsertConsistent(s: StoreState, k: Key, user: string, text: string, permalink: string, emb: Vector)
    requires Consistent(s)
    ensures Consistent(Upsert(s, k, user, text, permalink, emb).after)
  {
    var s1 := InsertOrIgnore(s, k, user, text, permalink, |emb|);
    InsertOrIgnoreConsistent(s, k, user, text, permalink, |emb|);
    var row := s1.rows[k];
    var idx := if s1.index.Some? then s1.index.value else FlatIndex(RecordedDim(row, emb), []);
    assert Consistent(s1.(index := Some(idx)));
    if idx.dim == |emb| && row.id !in s1.vmap {
      assert row.id in Ids(s1.rows);
      AppendAndLinkConsistent(s1, idx, row.id, emb);
    }
  }

  /**
   * A linked message re-upserted with an embedding of the index's length
   * returns its id and changes nothing; with any other length the call
   * raises, although nothing would have been added.
   */
  lemma UpsertLinked(s: StoreState, k: Key, user: string, text: string, permalink: string, emb: Vector)
    requires Consistent(s)
    requires VectorBotDb.Linked(s, k)
    ensures s.index.Some?
    ensures var u := Upsert(s, k, user, text, permalink, emb);
      && u.after == s
      && (s.index.value.dim == |emb| ==> u.result == Ok(s.rows[k].id))
      && (s.index.value.dim != |emb| ==> u.result == Err(DimMismatch(s.index.value.dim, |emb|)))
  {
    assert s.vmap[s.rows[k].id] < NTotal(s.index);
  }

  /**
   * The two upserts agree on every consistent store and every call except
   * one: a message that is already linked, re-upserted with an embedding
   * whose length differs from the index's. There the `slack_vector_bot`
   * store returns the id and this one raises.
   */
  lemma UpsertVariantsAgree(s: StoreState, k: Key, user: string, text: string, permalink: string, emb: Vector)
    requires Consistent(s)
    ensures var legacy := Upsert(s, k, user, text, permalink, emb);
      var bot := VectorBotDb.Upsert(s, k, user, text, permalink, emb);
      && (legacy != bot <==> VectorBotDb.Linked(s, k) && s.index.value.dim != |emb|)
      && (legacy != bot ==> legacy.result.Err? && bot.result.Ok? && legacy.after == bot.after)
  {
    if VectorBotDb.Linked(s, k) {
      UpsertLinked(s, k, user, text, permalink, emb);
    } else {
      InsertOrIgnoreConsistent(s, k, user, text, permalink, |emb|);
    }
  }

  /**
   * Upserting the same pair twice: one row, the same id from both calls
   * when both succeed, at most one vector added in all, and after a
   * successful first call a second call with an embedding of the same
   * length changes nothing.
   */
  lemma UpsertTwice(s: StoreState, k: Key, user: string, text: string, permalink: string, emb1: Vector, emb2: Vector,
                    user2: string, text2: string, permalink2: string)
    requires Consistent(s)
    ensures var u1 := Upsert(s, k, user, text, permalink, emb1);
      var u2 := Upsert(u1.after, k, user2, text2, permalink2, emb2);
      && u2.after.rows == u1.after.rows
      && (u1.result.Ok? && u2.result.Ok? ==> u1.result.value == u2.result.value)
      && (u1.result.Ok? ==> u2.after == u1.after)
      && (u1.result.Ok? && |emb2| == |emb1| ==> u2 == Upserted(u1.after, u1.result))
      && NTotal(u2.after.index) <= NTotal(s.index) + 1
  {
    var u1 := Upsert(s, k, user, text, permalink, emb1);
    InsertOrIgnoreConsistent(s, k, user, text, permalink, |emb1|);
    UpsertConsistent(s, k, user, text, permalink, emb1);
    if u1.result.Ok? {
      var s1 := InsertOrIgnore(s, k, user, text, permalink, |emb1|);
      var row := s1.rows[k];
      var idx := if s1.index.Some? then s1.index.value else FlatIndex(RecordedDim(row, emb1), []);
      if row.id !in s1.vmap {
        assert row.id in Ids(s1.rows);
        assert Consistent(s1.(index := Some(idx)));
        AppendAndLinkConsistent(s1.(index := Some(idx)), idx, row.id, emb1);
      }
      assert VectorBotDb.Linked(u1.after, k);
      UpsertLinked(u1.after, k, user2, text2, permalink2, emb2);
    } else {
      assert u1.after.index.value.dim != |emb1|;
    }
  }

  // ------------------------------------------------ the metadata query

  /**
   * The three literals of the query in `fetch_meta_by_faiss_indices`, each
   * written as pieces split where its first or last word begins or ends.
   */
  const SelectLiteral: string := "SELECT m.id, m.channel_id, m.ts, m.user, m.text, " + "m.permalink"
  const FromLiteral: string := "FROM" + " vector_map vm JOIN messages m ON vm.message_id = " + "m.id"
  const WhereLiteral: string := "WHERE" + " vm.faiss_id = ?"

  /** The query as written: adjacent literals, joined with nothing between them. */
  const FetchQueryAsWritten: string := SelectLiteral + FromLiteral + WhereLiteral

  /** The same query with the clauses separated, as the `slack_vector_bot` store writes it. */
  const FetchQueryIntended: string := SelectLiteral + " " + FromLiteral + " " + WhereLiteral

  /** SQLite's rejection of a statement it cannot parse (`sqlite3.OperationalError`). */
  datatype QueryError = SyntaxError(query: string)

  /**
   * `fetch_meta_by_faiss_indices` as written: an empty list returns at
   * once; otherwise the first `execute` of the malformed query raises.
   */
  function FetchAsWritten(slots: seq<int>): (r: Result<seq<Item>, QueryError>)
    ensures slots == [] <==> r == Ok([])
    ensures slots != [] ==> r == Err(SyntaxError(FetchQueryAsWritten))
  {
    if slots == [] then Ok([]) else Err(SyntaxError(FetchQueryAsWritten))
  }

  /**
   * The literals glue `m.permalink` to `FROM` and `m.id` to `WHERE`, so the
   * statement names a column `permalinkFROM` where the intended one has a
   * clause boundary; a single linked slot, which the intended query
   * resolves to one item, makes the function as written fail.
   */
  lemma FetchQueryGluesClauses(s: StoreState, slot: int)
    requires Consistent(s) && slot in s.vmap.Values
    ensures FetchQueryAsWritten[51..64] == "permalinkFROM"
    ensures FetchQueryAsWritten[114..123] == "m.idWHERE"
    ensures FetchQueryIntended[60..65] == " FROM"
    ensures FetchQueryIntended[119..125] == " WHERE"
    ensures FetchAsWritten([slot]).Err?
    ensures |Resolve(s, [slot])| == 1
  {
    FetchQueryGlued();
    FetchQuerySpaced();
    ResolveAllLinked(s, [slot]);
  }

  /** In the query as written the clause keywords run into the column names. */
  lemma FetchQueryGlued()
    ensures FetchQueryAsWritten[51..64] == "permalinkFROM"
    ensures FetchQueryAsWritten[114..123] == "m.idWHERE"
  {
    LiteralEdges();
    assert FetchQueryAsWritten[51..64] == SelectLiteral[51..60] + FromLiteral[..4];
    assert FetchQueryAsWritten[114..123] == FromLiteral[54..58] + WhereLiteral[..5];
  }

  /** In the intended query a space precedes each clause keyword. */
  lemma FetchQuerySpaced()
    ensures FetchQueryIntended[60..65] == " FROM"
    ensures FetchQueryIntended[119..125] == " WHERE"
  {
    LiteralEdges();
    assert FetchQueryIntended[60..65] == " " + FromLiteral[..4];
    assert FetchQueryIntended[119..125] == " " + WhereLiteral[..5];
  }

  /** The first and last words of each literal. */
  lemma LiteralEdges()
    ensures |SelectLiteral| == 60 && |FromLiteral| == 58
    ensures SelectLiteral[51..60] == "permalink"
    ensures FromLiteral[..4] == "FROM" && FromLiteral[54..58] == "m.id"
    ensures WhereLiteral[..5] == "WHERE"
  {
    assert SelectLiteral[51..60] == "m.permalink"[2..];
    assert FromLiteral[54..58] == "m.id";
  }

  /** `MessageStore`: the two tables and the index, updated in place. */
  class MessageStore {
    var rows: map<Key, Row>
    var nextId: int
    var vmap: map<int, int>
    var index: Option<FlatIndex>

    function Contents(): StoreState
      reads this
    {
      StoreState(rows, nextId, vmap, index)
    }

    ghost predicate Valid()
      reads this
    {
      Consistent(Contents())
    }

    /** `__init__`: the tables as the database file holds them and the index as its snapshot holds it (`None` without one). */
    constructor (persisted: StoreState)
      requires Consistent(persisted)
      ensures Valid() && Contents() == persisted
    {
      rows, nextId, vmap, index := persisted.rows, persisted.nextId, persisted.vmap, persisted.index;
    }

    /** `upsert_message`: returns the message id, or the dimension-mismatch error. */
    method UpsertMessage(channel: string, ts: string, user: string, text: string, permalink: string, emb: Vector)
      returns (r: Result<int, UpsertError>)
      requires Valid()
      modifies this
      ensures Valid()
      ensures Contents() == Upsert(old(Contents()), Key(channel, ts), user, text, permalink, emb).after
      ensures r == Upsert(old(Contents()), Key(channel, ts), user, text, permalink, emb).result
    {
      ghost var before := Contents();
      ghost var u := Upsert(before, Key(channel, ts), user, text, permalink, emb);
      UpsertConsistent(before, Key(channel, ts), user, text, permalink, emb);
      var key := Key(channel, ts);
      if key !in rows {
        rows := rows[key := Row(nextId, user, text, permalink, |emb|)];
        nextId := nextId + 1;
      }
      assert Contents() == InsertOrIgnore(before, key, user, text, permalink, |emb|);
      var row := rows[key];
      var msgId := row.id;
      var dim := if row.dim != 0 then row.dim else |emb|;
      if index.None? {
        index := Some(FlatIndex(dim, []));
      }
      var idx := index.value;
      if idx.dim != |emb| {
        assert u == Upserted(Contents(), Err(DimMismatch(idx.dim, |emb|)));
        return Err(DimMismatch(idx.dim, |emb|));
      }
      if msgId in vmap {
        assert u == Upserted(Contents(), Ok(msgId));
        return Ok(msgId);
      }
      var current := |idx.vectors|;
      index := Some(idx.(vectors := idx.vectors + [emb]));
      if msgId !in vmap && current !in vmap.Values {
        vmap := vmap[msgId := current];
      }
      assert u == Upserted(Contents(), Ok(msgId));
      return Ok(msgId);
    }

    /**
     * `search`: nothing on an unset or empty index, otherwise what the FAISS
     * search returned (`found`). The contract is the case split itself;
     * `Asking.EmptyIndexFindsNothing` states what it means for `/ask`.
     */
    method Search(query: Vector, k: int, found: seq<Hit>) returns (hits: seq<Hit>)
      ensures NTotal(index) == 0 ==> hits == []
      ensures NTotal(index) > 0 ==> hits == found
    {
      if index.None? || index.value.vectors == [] {
        return [];
      }
      hits := found;
    }

    /**
     * `fetch_meta_by_faiss_indices` with the query it evidently intends:
     * the joined rows of the slots, in slot order, unresolvable slots
     * skipped.
     */
    method FetchMetaByFaissIndices(slots: seq<int>) returns (items: seq<Item>)
      requires Valid()
      ensures items == Resolve(Contents(), slots)
    {
      if slots == [] {
        return [];
      }
      items := [];
      for i := 0 to |slots|
        invariant items == Resolve(Contents(), slots[..i])
      {
        assert slots[..i + 1][..i] == slots[..i];
        var fid := slots[i];
        if exists m :: m in vmap && vmap[m] == fid {
          var m :| m in vmap && vmap[m] == fid;
          assert SlotOwner(vmap, fid) == Some(m);
          if exists k :: k in rows && rows[k].id == m {
            var k :| k in rows && rows[k].id == m;
            assert KeyWithId(rows, m) == Some(k);
            var row := rows[k];
            items := items + [Item(row.id, k.channel, k.ts, row.user, row.text, row.permalink)];
          }
        }
      }
      assert slots[..|slots|] == slots;
    }
  }
}
