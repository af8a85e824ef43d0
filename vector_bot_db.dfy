/**
 * `MessageStore` of the `slack_vector_bot` package: the messages table, the
 * `vector_map` table and the flat index, and the upsert that keeps them in
 * step. Its upsert checks for an existing `vector_map` link BEFORE it looks
 * at the index dimension.
 */
module VectorBotDb {
  import opened Wrappers
  import opened StoreModel

  /**
   * `upsert_message` as a function of the state before the call: insert or
   * find the row; return at once if the message is already linked; else
   * initialise an unset index with the row's recorded dimension, reject an
   * embedding of another length, append it and link the message to the slot
   * the index had free.
   */
  function Upsert(s: StoreState, k: Key, user: string, text: string, permalink: string, emb: Vector): (u: Upserted)
    ensures k in u.after.rows
    ensures k in s.rows ==> u.after.rows == s.rows && u.after.nextId == s.nextId
    ensures k !in s.rows ==>
      u.after.rows == s.rows[k := Row(s.nextId, user, text, permalink, |emb|)] && u.after.nextId == s.nextId + 1
    ensures u.result.Ok? ==> u.result.value == u.after.rows[k].id
    ensures u.result.Err? ==> u.after.vmap == s.vmap && NTotal(u.after.index) == NTotal(s.index)
    ensures NTotal(s.index) <= NTotal(u.after.index) <= NTotal(s.index) + 1
  {
    var s1 := InsertOrIgnore(s, k, user, text, permalink, |emb|);
    var row := s1.rows[k];
    if row.id in s1.vmap then Upserted(s1, Ok(row.id))
    else
      var idx := if s1.index.Some? then s1.index.value else FlatIndex(RecordedDim(row, emb), []);
      if idx.dim != |emb| then Upserted(s1.(index := Some(idx)), Err(DimMismatch(idx.dim, |emb|)))
      else Upserted(AppendAndLink(s1, idx, row.id, emb), Ok(row.id))
  }

  /** The pair is stored and its message already has a `vector_map` link. */
  ghost predicate Linked(s: StoreState, k: Key) {
    k in s.rows && s.rows[k].id in s.vmap
  }

  /** Every upsert, successful or not, leaves a consistent store consistent. */
  lemma UpsertConsistent(s: StoreState, k: Key, user: string, text: string, permalink: string, emb: Vector)
    requires Consistent(s)
    ensures Consistent(Upsert(s, k, user, text, permalink, emb).after)
  {
    var s1 := InsertOrIgnore(s, k, user, text, permalink, |emb|);
    InsertOrIgnoreConsistent(s, k, user, text, permalink, |emb|);
    var row := s1.rows[k];
    if row.id !in s1.vmap {
      var idx := if s1.index.Some? then s1.index.value else FlatIndex(RecordedDim(row, emb), []);
      assert Consistent(s1.(index := Some(idx)));
      if idx.dim == |emb| {
        assert row.id in Ids(s1.rows);
        AppendAndLinkConsistent(s1, idx, row.id, emb);
      }
    }
  }

  /** Re-upserting a linked message returns its id and changes nothing, whatever the embedding. */
  lemma UpsertLinkedIsNoOp(s: StoreState, k: Key, user: string, text: string, permalink: string, emb: Vector)
    requires Linked(s, k)
    ensures Upsert(s, k, user, text, permalink, emb) == Upserted(s, Ok(s.rows[k].id))
  {
  }

  /**
   * A message that is not yet linked and whose embedding fits gets exactly
   * one new vector, in slot `ntotal`, linked to its id.
   */
  lemma UpsertAppendsOnce(s: StoreState, k: Key, user: string, text: string, permalink: string, emb: Vector)
    requires Consistent(s)
    requires !Linked(s, k)
    requires Upsert(s, k, user, text, permalink, emb).result.Ok?
    ensures var u := Upsert(s, k, user, text, permalink, emb);
      && u.after.index.Some?
      && u.after.index.value.vectors == (if s.index.Some? then s.index.value.vectors else []) + [emb]
      && u.after.vmap == s.vmap[u.result.value := NTotal(s.index)]
      && (forall m :: m in s.vmap ==> s.vmap[m] < NTotal(s.index))
  {
    var s1 := InsertOrIgnore(s, k, user, text, permalink, |emb|);
    InsertOrIgnoreConsistent(s, k, user, text, permalink, |emb|);
    var row := s1.rows[k];
    var idx := if s1.index.Some? then s1.index.value else FlatIndex(RecordedDim(row, emb), []);
    assert Consistent(s1.(index := Some(idx)));
    assert row.id in Ids(s1.rows);
    AppendAndLinkConsistent(s1, idx, row.id, emb);
  }

  /**
   * An unset index is created with the dimension recorded in the message's
   * row (the embedding length when the row is new), unless the message is
   * already linked.
   */
  lemma UpsertInitialisesIndex(s: StoreState, k: Key, user: string, text: string, permalink: string, emb: Vector)
    requires Consistent(s)
    requires s.index.None?
    ensures var u := Upsert(s, k, user, text, permalink, emb);
      && !Linked(s, k)
      && u.after.index.Some?
      && u.after.index.value.dim == RecordedDim(u.after.rows[k], emb)
      && (k !in s.rows ==> u.after.index.value.dim == |emb| && u.result.Ok?)
  {
    InsertOrIgnoreConsistent(s, k, user, text, permalink, |emb|);
  }

  /**
   * The upsert fails exactly when the message is not linked and the index,
   * once initialised, has another dimension; the row stays, and neither the
   * vectors nor `vector_map` change.
   */
  lemma UpsertRejectsMismatch(s: StoreState, k: Key, user: string, text: string, permalink: string, emb: Vector)
    requires Consistent(s)
    ensures var u := Upsert(s, k, user, text, permalink, emb);
      && (u.result.Err? <==>
            !Linked(s, k) && u.after.index.Some? && u.after.index.value.dim != |emb|)
      && (u.result.Err? ==>
            && u.result.error == DimMismatch(u.after.index.value.dim, |emb|)
            && k in u.after.rows
            && u.after.vmap == s.vmap
            && u.after.index.value.vectors == (if s.index.Some? then s.index.value.vectors else []))
  {
    InsertOrIgnoreConsistent(s, k, user, text, permalink, |emb|);
    var u := Upsert(s, k, user, text, permalink, emb);
    if u.result.Ok? && !Linked(s, k) {
      UpsertAppendsOnce(s, k, user, text, permalink, emb);
    }
  }

  /**
   * Upserting the same pair twice, with any embeddings: one row, the same
   * id from both calls when both succeed, at most one vector added in all,
   * and after a successful first call the second changes nothing.
   */
  lemma UpsertTwice(s: StoreState, k: Key, user: string, text: string, permalink: string, emb1: Vector, emb2: Vector,
                    user2: string, text2: string, permalink2: string)
    requires Consistent(s)
    ensures var u1 := Upsert(s, k, user, text, permalink, emb1);
      var u2 := Upsert(u1.after, k, user2, text2, permalink2, emb2);
      && u2.after.rows == u1.after.rows
      && u2.after.rows.Keys == s.rows.Keys + {k}
      && (u1.result.Ok? && u2.result.Ok? ==> u1.result.value == u2.result.value)
      && (u1.result.Ok? ==> u2 == Upserted(u1.after, u1.result))
      && NTotal(u2.after.index) <= NTotal(s.index) + 1
  {
    var u1 := Upsert(s, k, user, text, permalink, emb1);
    InsertOrIgnoreConsistent(s, k, user, text, permalink, |emb1|);
    UpsertConsistent(s, k, user, text, permalink, emb1);
    if u1.result.Ok? {
      if !Linked(s, k) {
        UpsertAppendsOnce(s, k, user, text, permalink, emb1);
      }
      assert Linked(u1.after, k);
      UpsertLinkedIsNoOp(u1.after, k, user2, text2, permalink2, emb2);
    } else {
      UpsertRejectsMismatch(s, k, user, text, permalink, emb1);
    }
  }

  /** `MessageStore`: the two tables and the index, updated in place. */
  class MessageStore {
    var rows: map<Key, Row>
    var nextId: int
    var vmap: map<int, int>
    var index: Option<FlatIndex>

    function Contents(): StoreState
      reads this
    {
      StoreState(rows, nextId, vmap, index)
    }

    ghost predicate Valid()
      reads this
    {
      Consistent(Contents())
    }

    /** `__init__`: the tables as the database file holds them and the index as its snapshot holds it (`None` without one). */
    constructor (persisted: StoreState)
      requires Consistent(persisted)
      ensures Valid() && Contents() == persisted
    {
      rows, nextId, vmap, index := persisted.rows, persisted.nextId, persisted.vmap, persisted.index;
    }

    /** `upsert_message`: returns the message id, or the dimension-mismatch error. */
    method UpsertMessage(channel: string, ts: string, user: string, text: string, permalink: string, emb: Vector)
      returns (r: Result<int, UpsertError>)
      requires Valid()
      modifies this
      ensures Valid()
      ensures Contents() == Upsert(old(Contents()), Key(channel, ts), user, text, permalink, emb).after
      ensures r == Upsert(old(Contents()), Key(channel, ts), user, text, permalink, emb).result
    {
      ghost var before := Contents();
      ghost var u := Upsert(before, Key(channel, ts), user, text, permalink, emb);
      UpsertConsistent(before, Key(channel, ts), user, text, permalink, emb);
      var key := Key(channel, ts);
      if key !in rows {
        rows := rows[key := Row(nextId, user, text, permalink, |emb|)];
        nextId := nextId + 1;
      }
      assert Contents() == InsertOrIgnore(before, key, user, text, permalink, |emb|);
      var row := rows[key];
      var msgId := row.id;
      var dim := if row.dim != 0 then row.dim else |emb|;
      if msgId in vmap {
        assert u == Upserted(Contents(), Ok(msgId));
        return Ok(msgId);
      }
      if index.None? {
        index := Some(FlatIndex(dim, []));
      }
      var idx := index.value;
      if idx.dim != |emb| {
        assert u == Upserted(Contents(), Err(DimMismatch(idx.dim, |emb|)));
        return Err(DimMismatch(idx.dim, |emb|));
      }
      var current := |idx.vectors|;
      index := Some(idx.(vectors := idx.vectors + [emb]));
      if msgId !in vmap && current !in vmap.Values {
        vmap := vmap[msgId := current];
      }
      assert u == Upserted(Contents(), Ok(msgId));
      return Ok(msgId);
    }

    /**
     * `search`: nothing on an unset or empty index, otherwise what the FAISS
     * search returned (`found`). The contract is the case split itself;
     * `Asking.EmptyIndexFindsNothing` states what it means for `/ask`.
     */
    method Search(query: Vector, k: int, found: seq<Hit>) returns (hits: seq<Hit>)
      ensures NTotal(index) == 0 ==> hits == []
      ensures NTotal(index) > 0 ==> hits == found
    {
      if index.None? || |index.value.vectors| == 0 {
        return [];
      }
      hits := found;
    }

    /** `fetch_meta_by_faiss_indices`: the joined rows of the slots, in slot order, unresolvable slots skipped. */
    method FetchMetaByFaissIndices(slots: seq<int>) returns (items: seq<Item>)
      requires Valid()
      ensures items == Resolve(Contents(), slots)
    {
      if slots == [] {
        return [];
      }
      items := [];
      for i := 0 to |slots|
        invariant items == Resolve(Contents(), slots[..i])
      {
        assert slots[..i + 1][..i] == slots[..i];
        var fid := slots[i];
        if exists m :: m in vmap && vmap[m] == fid {
          var m :| m in vmap && vmap[m] == fid;
          assert SlotOwner(vmap, fid) == Some(m);
          if exists k :: k in rows && rows[k].id == m {
            var k :| k in rows && rows[k].id == m;
            assert KeyWithId(rows, m) == Some(k);
            var row := rows[k];
            items := items + [Item(row.id, k.channel, k.ts, row.user, row.text, row.permalink)];
          }
        }
      }
      assert slots[..|slots|] == slots;
    }
  }
}
