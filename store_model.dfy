/**
 * The state `MessageStore` keeps across its two SQLite tables and its flat
 * FAISS index, as values, with the consistency the schema and the upsert
 * protocol maintain between them, and the read-side lookups that resolve
 * index slots back to message rows. Both store variants share all of this.
 */
module StoreModel {
  import opened Wrappers

  /** An embedding; its entries are opaque here, only its length matters. */
  type Vector = seq<real>

  /** `(channel_id, ts)`, declared `UNIQUE` in the `messages` table. */
  datatype Key = Key(channel: string, ts: string)

  /** The other columns of a `messages` row; `id` is the `AUTOINCREMENT` key. */
  datatype Row = Row(id: int, user: string, text: string, permalink: string, dim: int)

  /** A flat inner-product index: its dimension and its vectors in slot order (`ntotal == |vectors|`). */
  datatype FlatIndex = FlatIndex(dim: int, vectors: seq<Vector>)

  /** One result of `fetch_meta_by_faiss_indices`. */
  datatype Item = Item(id: int, channel: string, ts: string, user: string, text: string, permalink: string)

  /** One `(score, idx)` pair of a FAISS search; `idx == -1` pads a short result. */
  datatype Hit = Hit(score: real, slot: int)

  /**
   * Everything the store holds: the `messages` table keyed by its unique
   * pair, the next `AUTOINCREMENT` id, the `vector_map` table as a map
   * from `message_id` to `faiss_id`, and the index (`None` while unset).
   */
  datatype StoreState = StoreState(rows: map<Key, Row>, nextId: int, vmap: map<int, int>, index: Option<FlatIndex>)

  /** The `ValueError` raised on an embedding of the wrong length. */
  datatype UpsertError = DimMismatch(indexDim: int, vecDim: int)

  /** The state after an `upsert_message` call, and its return value or error. */
  datatype Upserted = Upserted(after: StoreState, result: Result<int, UpsertError>)

  /** `index.ntotal`, with an unset index holding nothing. */
  function NTotal(index: Option<FlatIndex>): nat {
    if index.Some? then |index.value.vectors| else 0
  }

  ghost function Ids(rows: map<Key, Row>): set<int> {
    set k | k in rows :: rows[k].id
  }

  /** Distinct message ids map to distinct slots: `faiss_id` is `UNIQUE`. */
  ghost predicate Injective(vmap: map<int, int>) {
    forall a, b :: a in vmap && b in vmap && a != b ==> vmap[a] != vmap[b]
  }

  /**
   * What the schema and the upsert protocol keep true: ids are positive,
   * distinct and below the next id; `vector_map` is one-to-one, links only
   * existing messages and only slots the index holds; all vectors share the
   * index dimension. Slots that no message links (orphans) are allowed.
   */
  ghost predicate Consistent(s: StoreState) {
    && s.nextId >= 1
    && (forall k :: k in s.rows ==> 1 <= s.rows[k].id < s.nextId)
    && (forall k1, k2 :: k1 in s.rows && k2 in s.rows && s.rows[k1].id == s.rows[k2].id ==> k1 == k2)
    && s.vmap.Keys <= Ids(s.rows)
    && Injective(s.vmap)
    && (forall m :: m in s.vmap ==> 0 <= s.vmap[m] < NTotal(s.index))
    && (s.index.Some? ==>
          forall i :: 0 <= i < |s.index.value.vectors| ==> |s.index.value.vectors[i]| == s.index.value.dim)
  }

  /** A new database with no index snapshot. */
  function Empty(): (s: StoreState)
    ensures Consistent(s) && s.rows == map[] && s.vmap == map[] && NTotal(s.index) == 0
  {
    StoreState(map[], 1, map[], None)
  }

  // ----------------------------------------------------------- writes

  /** `INSERT OR IGNORE INTO messages(...)`: a new row only when the pair is new. */
  function InsertOrIgnore(s: StoreState, k: Key, user: string, text: string, permalink: string, dim: int): StoreState {
    if k in s.rows then s
    else s.(rows := s.rows[k := Row(s.nextId, user, text, permalink, dim)], nextId := s.nextId + 1)
  }

  /** `int(row[1]) if row[1] else embedding.shape[0]`: the recorded dimension, or the embedding's when it is 0. */
  function RecordedDim(row: Row, emb: Vector): int {
    if row.dim != 0 then row.dim else |emb|
  }

  /** `INSERT OR IGNORE INTO vector_map(message_id, faiss_id)`: ignored when either column is taken. */
  function LinkOrIgnore(vmap: map<int, int>, msgId: int, slot: int): map<int, int> {
    if msgId in vmap || slot in vmap.Values then vmap else vmap[msgId := slot]
  }

  /** `current = index.ntotal; index.add(vec)` followed by the `vector_map` insert. */
  function AppendAndLink(s: StoreState, idx: FlatIndex, msgId: int, emb: Vector): StoreState {
    s.(index := Some(idx.(vectors := idx.vectors + [emb])), vmap := LinkOrIgnore(s.vmap, msgId, |idx.vectors|))
  }

  /**
   * Inserting a message keeps the state consistent; a new pair gets the
   * next id, which no row had, and an existing pair keeps its row and id.
   */
  lemma InsertOrIgnoreConsistent(s: StoreState, k: Key, user: string, text: string, permalink: string, dim: int)
    requires Consistent(s)
    ensures var t := InsertOrIgnore(s, k, user, text, permalink, dim);
      && Consistent(t)
      && k in t.rows
      && t.rows.Keys == s.rows.Keys + {k}
      && (forall k' :: k' in s.rows ==> t.rows[k'] == s.rows[k'])
      && t.vmap == s.vmap && t.index == s.index
      && (k !in s.rows ==> t.rows[k] == Row(s.nextId, user, text, permalink, dim))
      && (k !in s.rows ==> t.rows[k].id !in Ids(s.rows) && t.rows[k].id !in s.vmap)
  {
    if k !in s.rows {
      InsertNewConsistent(s, k, Row(s.nextId, user, text, permalink, dim));
    }
  }

  /** A row under a new key with the next id keeps the state consistent, and its id was nobody's. */
  lemma InsertNewConsistent(s: StoreState, k: Key, row: Row)
    requires Consistent(s) && k !in s.rows && row.id == s.nextId
    ensures var t := s.(rows := s.rows[k := row], nextId := s.nextId + 1);
      && Consistent(t)
      && row.id !in Ids(s.rows) && row.id !in s.vmap
      && Ids(s.rows) <= Ids(t.rows)
  {
    var t := s.(rows := s.rows[k := row], nextId := s.nextId + 1);
    assert row.id !in Ids(s.rows);
    assert forall k' :: k' in t.rows ==> 1 <= t.rows[k'].id < t.nextId;
    forall k1, k2 | k1 in t.rows && k2 in t.rows && t.rows[k1].id == t.rows[k2].id ensures k1 == k2 {
      if k1 != k && k2 != k {
        assert s.rows[k1].id == s.rows[k2].id;
      }
    }
    forall x | x in Ids(s.rows) ensures x in Ids(t.rows) {
      var k' :| k' in s.rows && s.rows[k'].id == x;
      assert t.rows[k'].id == x;
    }
  }

  /**
   * Appending a vector of the index's dimension for an unlinked message
   * links it to slot `ntotal` (a slot above every linked one) and keeps the
   * state consistent.
   */
  lemma AppendAndLinkConsistent(s: StoreState, idx: FlatIndex, msgId: int, emb: Vector)
    requires Consistent(s.(index := Some(idx)))
    requires NTotal(s.index) <= |idx.vectors|
    requires msgId in Ids(s.rows) && msgId !in s.vmap
    requires |emb| == idx.dim
    ensures var t := AppendAndLink(s, idx, msgId, emb);
      && Consistent(t)
      && t.vmap == s.vmap[msgId := |idx.vectors|]
      && NTotal(t.index) == |idx.vectors| + 1
      && (forall m :: m in s.vmap ==> s.vmap[m] < |idx.vectors|)
  {
    var slot := |idx.vectors|;
    assert forall m :: m in s.vmap ==> s.vmap[m] < slot;
    assert slot !in s.vmap.Values;
    var t := AppendAndLink(s, idx, msgId, emb);
    assert t.vmap == s.vmap[msgId := slot];
    assert t.rows == s.rows && t.nextId == s.nextId;
    assert Injective(t.vmap) by {
      forall a, b | a in t.vmap && b in t.vmap && a != b ensures t.vmap[a] != t.vmap[b] {
        if a != msgId && b != msgId {
          assert t.vmap[a] == s.vmap[a] && t.vmap[b] == s.vmap[b];
        }
      }
    }
    assert forall m :: m in t.vmap ==> 0 <= t.vmap[m] < NTotal(t.index);
    var vs := t.index.value.vectors;
    assert forall i :: 0 <= i < |vs| ==> |vs[i]| == idx.dim by {
      forall i | 0 <= i < |vs| ensures |vs[i]| == idx.dim {
        if i < slot { assert vs[i] == idx.vectors[i]; }
      }
    }
  }

  // ------------------------------------------------------------ reads

  /** `SELECT message_id FROM vector_map WHERE faiss_id = ?`. */
  ghost function SlotOwner(vmap: map<int, int>, slot: int): Option<int> {
    if exists m :: m in vmap && vmap[m] == slot then
      Some(var m :| m in vmap && vmap[m] == slot; m)
    else None
  }

  /** The key of the `messages` row whose `id` is `id`, if any. */
  ghost function KeyWithId(rows: map<Key, Row>, id: int): Option<Key> {
    if exists k :: k in rows && rows[k].id == id then
      Some(var k :| k in rows && rows[k].id == id; k)
    else None
  }

  /** The joined row for one slot: `vector_map vm JOIN messages m ON vm.message_id = m.id WHERE vm.faiss_id = ?`. */
  ghost function ResolveSlot(s: StoreState, slot: int): Option<Item> {
    match SlotOwner(s.vmap, slot)
    case None => None
    case Some(m) =>
      match KeyWithId(s.rows, m)
      case None => None
      case Some(k) =>
        var row := s.rows[k];
        Some(Item(row.id, k.channel, k.ts, row.user, row.text, row.permalink))
  }

  /** The items for `slots`, in their order, unresolvable slots left out. */
  ghost function Resolve(s: StoreState, slots: seq<int>): (items: seq<Item>)
    ensures |items| <= |slots|
  {
    if slots == [] then []
    else
      var last := slots[|slots| - 1];
      Resolve(s, slots[..|slots| - 1]) + (if ResolveSlot(s, last).Some? then [ResolveSlot(s, last).value] else [])
  }

  /**
   * In a consistent store a slot resolves exactly when a message is linked
   * to it, and then to that message's row.
   */
  lemma ResolveSlotLinked(s: StoreState, slot: int)
    requires Consistent(s)
    ensures ResolveSlot(s, slot).Some? <==> slot in s.vmap.Values
    ensures forall m :: m in s.vmap && s.vmap[m] == slot ==>
      exists k :: k in s.rows && s.rows[k].id == m &&
        ResolveSlot(s, slot) == Some(Item(m, k.channel, k.ts, s.rows[k].user, s.rows[k].text, s.rows[k].permalink))
  {
    if slot in s.vmap.Values {
      var m :| m in s.vmap && s.vmap[m] == slot;
      assert SlotOwner(s.vmap, slot) == Some(m);
      assert m in Ids(s.rows);
      var k :| k in s.rows && s.rows[k].id == m;
      assert KeyWithId(s.rows, m) == Some(k);
    }
  }

  /** Resolution works slot by slot: the items of a concatenation are the concatenated items. */
  lemma {:induction false} ResolveAppend(s: StoreState, a: seq<int>, b: seq<int>)
    ensures Resolve(s, a + b) == Resolve(s, a) + Resolve(s, b)
    decreases |b|
  {
    if b != [] {
      var b' := b[..|b| - 1];
      assert (a + b)[..|a + b| - 1] == a + b';
      ResolveAppend(s, a, b');
    } else {
      assert a + b == a;
    }
  }

  /** A slot that resolves to nothing (an orphan) is dropped without affecting the rest. */
  lemma ResolveSkipsOrphan(s: StoreState, a: seq<int>, orphan: int, b: seq<int>)
    requires ResolveSlot(s, orphan).None?
    ensures Resolve(s, a + [orphan] + b) == Resolve(s, a + b)
  {
    ResolveAppend(s, a + [orphan], b);
    ResolveAppend(s, a, [orphan]);
    ResolveAppend(s, a, b);
    assert Resolve(s, [orphan]) == [] by {
      assert [orphan][..0] == [];
    }
  }

  /** When every slot is linked, there is one item per slot, in slot order. */
  lemma {:induction false} ResolveAllLinked(s: StoreState, slots: seq<int>)
    requires Consistent(s)
    requires forall i :: 0 <= i < |slots| ==> slots[i] in s.vmap.Values
    ensures |Resolve(s, slots)| == |slots|
    ensures forall i :: 0 <= i < |slots| ==> ResolveSlot(s, slots[i]) == Some(Resolve(s, slots)[i])
  {
    if slots != [] {
      var init, last := slots[..|slots| - 1], slots[|slots| - 1];
      assert forall i :: 0 <= i < |init| ==> init[i] == slots[i];
      ResolveAllLinked(s, init);
      assert ResolveSlot(s, last).Some? by {
        ResolveSlotLinked(s, last);
      }
      var items := Resolve(s, slots);
      assert items == Resolve(s, init) + [ResolveSlot(s, last).value];
      assert forall i :: 0 <= i < |init| ==> items[i] == Resolve(s, init)[i];
    }
  }
}
