/**
 * The candidate ranking of the `/ask` handlers: the per-query FAISS results
 * are folded into the `cand` dict keeping the best score per slot, the
 * slots are sorted by that score, highest first, with Python's stable sort,
 * and the first `MAX_RETURN` are kept.
 */
module Ranking {
  import opened PyText
  import opened StoreModel

  /** `-1e9`, the score `cand.get(idx, -1e9)` starts a new slot from. */
  const Floor: real := -1000000000.0

  /** The slot FAISS reports for a missing neighbour. */
  const NoMatch: int := -1

  /** The `cand` dict: its keys in insertion order, and the score of each key. */
  datatype Candidates = Candidates(order: seq<int>, score: map<int, real>)

  /** An empty dict. */
  const NoCandidates: Candidates := Candidates([], map[])

  /** The order lists each key once, and exactly the keys of the dict. */
  ghost predicate WellFormed(c: Candidates) {
    && (forall i, j :: 0 <= i < j < |c.order| ==> c.order[i] != c.order[j])
    && (forall k :: k in c.score <==> k in c.order)
  }

  /** `max(a, b)` on two floats: `a` unless `b` is larger. */
  function Max(a: real, b: real): (m: real)
    ensures m >= a && m >= b && (m == a || m == b)
  {
    if b > a then b else a
  }

  /** `cand.get(k, default)`. */
  function Get(c: Candidates, k: int, default: real): real {
    if k in c.score then c.score[k] else default
  }

  /** `cand[k] = v`: an existing key keeps its place, a new key goes last. */
  function Put(c: Candidates, k: int, v: real): (d: Candidates)
    ensures d.score == c.score[k := v]
    ensures k in c.score ==> d.order == c.order
    ensures k !in c.score ==> d.order == c.order + [k]
  {
    if k in c.score then c.(score := c.score[k := v]) else Candidates(c.order + [k], c.score[k := v])
  }

  /** One turn of the inner loop: skip `-1`, else keep the larger of the stored and the new score. */
  function Add(c: Candidates, h: Hit): Candidates {
    if h.slot == NoMatch then c else Put(c, h.slot, Max(Get(c, h.slot, Floor), h.score))
  }

  /** The dict after folding `hs`, in order, into `c`. */
  function MergeFrom(c: Candidates, hs: seq<Hit>): Candidates
    decreases |hs|
  {
    if hs == [] then c else MergeFrom(Add(c, hs[0]), hs[1..])
  }

  /** The dict after folding `hs` into an empty one. */
  function Merge(hs: seq<Hit>): Candidates {
    MergeFrom(NoCandidates, hs)
  }

  /** The results of all queries, one after the other: every pair any query returned is among them. */
  function Flatten(results: seq<seq<Hit>>): (hs: seq<Hit>)
    ensures forall i, j :: 0 <= i < |results| && 0 <= j < |results[i]| ==> results[i][j] in hs
  {
    if results == [] then [] else results[0] + Flatten(results[1..])
  }

  /**
   * The inner loop of the handlers, over the `(score, idx)` pairs of one
   * query's search.
   */
  method MergeHits(cand: Candidates, hs: seq<Hit>) returns (next: Candidates)
    ensures next == MergeFrom(cand, hs)
  {
    next := cand;
    for j := 0 to |hs|
      invariant MergeFrom(cand, hs) == MergeFrom(next, hs[j..])
    {
      assert hs[j..][1..] == hs[j + 1..];
      var h := hs[j];
      if h.slot == NoMatch {
        continue;
      }
      next := Put(next, h.slot, Max(Get(next, h.slot, Floor), h.score));
    }
  }

  // ------------------------------------------------- merge properties

  /** Folding a concatenation folds its parts in turn. */
  lemma {:induction false} MergeFromAppend(c: Candidates, a: seq<Hit>, b: seq<Hit>)
    ensures MergeFrom(c, a + b) == MergeFrom(MergeFrom(c, a), b)
    decreases |a|
  {
    if a == [] {
      assert a + b == b;
    } else {
      assert (a + b)[0] == a[0];
      assert (a + b)[1..] == a[1..] + b;
      MergeFromAppend(Add(c, a[0]), a[1..], b);
    }
  }

  /** Results of successive queries are merged one after the other. */
  lemma {:induction false} FlattenAppend(a: seq<seq<Hit>>, b: seq<seq<Hit>>)
    ensures Flatten(a + b) == Flatten(a) + Flatten(b)
  {
    if a == [] {
      assert a + b == b;
    } else {
      assert (a + b)[0] == a[0];
      assert (a + b)[1..] == a[1..] + b;
      FlattenAppend(a[1..], b);
    }
  }

  lemma MergeSnoc(hs: seq<Hit>, h: Hit)
    ensures Merge(hs + [h]) == Add(Merge(hs), h)
  {
    MergeFromAppend(NoCandidates, hs, [h]);
    assert [h][1..] == [];
  }

  /** Slot `k` is reported somewhere in `hs`. */
  ghost predicate Occurs(hs: seq<Hit>, k: int) {
    exists i :: 0 <= i < |hs| && hs[i].slot == k
  }

  /**
   * `v` is the merged score of slot `k` over `hs`: no reported score for
   * `k` exceeds it, nor does the floor, and it is the floor or one of the
   * reported scores.
   */
  ghost predicate IsBest(hs: seq<Hit>, k: int, v: real) {
    && Floor <= v
    && (forall i :: 0 <= i < |hs| && hs[i].slot == k ==> hs[i].score <= v)
    && (v == Floor || exists i :: 0 <= i < |hs| && hs[i].slot == k && hs[i].score == v)
  }

  /**
   * After the loop, the keys of `cand` are exactly the slots other than
   * `-1` that some query reported, each with its best score, and the dict
   * is well formed.
   */
  lemma {:induction false} MergeIsBest(hs: seq<Hit>)
    ensures WellFormed(Merge(hs))
    ensures forall k :: k in Merge(hs).score <==> k != NoMatch && Occurs(hs, k)
    ensures forall k :: k in Merge(hs).score ==> IsBest(hs, k, Merge(hs).score[k])
  {
    MergeWellFormed(hs);
    MergeKeys(hs);
    MergeBest(hs);
  }

  /** A slot occurs in `init + [h]` exactly when it occurs in `init` or is `h`'s. */
  lemma OccursSnoc(init: seq<Hit>, h: Hit, k: int)
    ensures Occurs(init + [h], k) <==> Occurs(init, k) || h.slot == k
  {
    var hs := init + [h];
    if Occurs(hs, k) {
      var i :| 0 <= i < |hs| && hs[i].slot == k;
      if i < |init| { assert init[i] == hs[i]; }
    }
    if Occurs(init, k) {
      var i :| 0 <= i < |init| && init[i].slot == k;
      assert hs[i] == init[i];
    }
    assert hs[|init|] == h;
  }

  lemma {:induction false} MergeWellFormed(hs: seq<Hit>)
    ensures WellFormed(Merge(hs))
    decreases |hs|
  {
    if hs != [] {
      var init, h := hs[..|hs| - 1], hs[|hs| - 1];
      assert hs == init + [h];
      MergeWellFormed(init);
      MergeSnoc(init, h);
    }
  }

  lemma {:induction false} MergeKeys(hs: seq<Hit>)
    ensures forall k :: k in Merge(hs).score <==> k != NoMatch && Occurs(hs, k)
    decreases |hs|
  {
    if hs != [] {
      var init, h := hs[..|hs| - 1], hs[|hs| - 1];
      assert hs == init + [h];
      MergeKeys(init);
      MergeSnoc(init, h);
      forall k ensures Occurs(hs, k) <==> Occurs(init, k) || h.slot == k {
        OccursSnoc(init, h, k);
      }
    }
  }

  lemma {:induction false} MergeBest(hs: seq<Hit>)
    ensures forall k :: k in Merge(hs).score ==> IsBest(hs, k, Merge(hs).score[k])
    decreases |hs|
  {
    if hs != [] {
      var init, h := hs[..|hs| - 1], hs[|hs| - 1];
      assert hs == init + [h];
      MergeBest(init);
      MergeKeys(init);
      MergeSnoc(init, h);
      var c, d := Merge(init), Merge(hs);
      forall k | k in d.score ensures IsBest(hs, k, d.score[k]) {
        MergeBestStep(init, h, c, d, k);
      }
    }
  }

  /** One step of the fold keeps the best score of a slot. */
  lemma MergeBestStep(init: seq<Hit>, h: Hit, c: Candidates, d: Candidates, k: int)
    requires forall k :: k in c.score ==> IsBest(init, k, c.score[k])
    requires forall k :: k in c.score <==> k != NoMatch && Occurs(init, k)
    requires d == Add(c, h) && k in d.score
    ensures IsBest(init + [h], k, d.score[k])
  {
    var hs := init + [h];
    assert forall i :: 0 <= i < |init| ==> init[i] == hs[i];
    assert hs[|init|] == h;
    if k != h.slot || h.slot == NoMatch {
      assert d.score[k] == c.score[k];
    } else {
      assert IsBest(init, k, Get(c, k, Floor)) by {
        if k !in c.score {
          assert !Occurs(init, k);
        }
      }
      forall i | 0 <= i < |hs| && hs[i].slot == k ensures hs[i].score <= d.score[k] {
        if i < |init| { assert hs[i] == init[i]; }
      }
      if d.score[k] != Floor && d.score[k] != h.score {
        var i :| 0 <= i < |init| && init[i].slot == k && init[i].score == d.score[k];
        assert hs[i] == init[i];
      }
    }
  }

  /** Two merged scores for the same slot over the same reported pairs coincide. */
  lemma BestUnique(hs: seq<Hit>, ks: seq<Hit>, k: int, v: real, w: real)
    requires multiset(hs) == multiset(ks)
    requires IsBest(hs, k, v) && IsBest(ks, k, w)
    ensures v == w
  {
    forall i | 0 <= i < |ks| && ks[i].slot == k ensures ks[i].score <= v {
      assert ks[i] in multiset(hs);
    }
    forall i | 0 <= i < |hs| && hs[i].slot == k ensures hs[i].score <= w {
      assert hs[i] in multiset(ks);
    }
  }

  /**
   * The merged scores depend only on which `(score, idx)` pairs were
   * reported, not on their order: in particular not on the order of the
   * queries.
   */
  lemma MergeScoresOrderFree(hs: seq<Hit>, ks: seq<Hit>)
    requires multiset(hs) == multiset(ks)
    ensures Merge(hs).score == Merge(ks).score
  {
    MergeIsBest(hs);
    MergeIsBest(ks);
    forall k ensures Occurs(hs, k) <==> Occurs(ks, k) {
      if Occurs(hs, k) {
        var i :| 0 <= i < |hs| && hs[i].slot == k;
        assert hs[i] in multiset(ks);
        var j :| 0 <= j < |ks| && ks[j] == hs[i];
      }
      if Occurs(ks, k) {
        var i :| 0 <= i < |ks| && ks[i].slot == k;
        assert ks[i] in multiset(hs);
        var j :| 0 <= j < |hs| && hs[j] == ks[i];
      }
    }
    forall k | k in Merge(hs).score ensures Merge(hs).score[k] == Merge(ks).score[k] {
      BestUnique(hs, ks, k, Merge(hs).score[k], Merge(ks).score[k]);
    }
  }

  /** Running two groups of queries in either order gives the same merged scores. */
  lemma QueryOrderFree(a: seq<seq<Hit>>, b: seq<seq<Hit>>)
    ensures Merge(Flatten(a + b)).score == Merge(Flatten(b + a)).score
  {
    FlattenAppend(a, b);
    FlattenAppend(b, a);
    MergeScoresOrderFree(Flatten(a + b), Flatten(b + a));
  }

  /** The position of the first pair reporting slot `k`, or `|hs|` if none does. */
  function FirstAt(hs: seq<Hit>, k: int): (p: nat)
    ensures p <= |hs|
    ensures p < |hs| ==> hs[p].slot == k
    ensures forall i :: 0 <= i < p ==> hs[i].slot != k
  {
    if hs == [] then 0 else if hs[0].slot == k then 0 else 1 + FirstAt(hs[1..], k)
  }

  /** The keys of `cand` come in the order their slots were first reported. */
  lemma {:induction false} MergeOrderFirstSeen(hs: seq<Hit>)
    ensures forall p :: 0 <= p < |Merge(hs).order| ==> FirstAt(hs, Merge(hs).order[p]) < |hs|
    ensures forall p, q :: 0 <= p < q < |Merge(hs).order| ==>
      FirstAt(hs, Merge(hs).order[p]) < FirstAt(hs, Merge(hs).order[q])
    decreases |hs|
  {
    if hs != [] {
      var init, h := hs[..|hs| - 1], hs[|hs| - 1];
      assert hs == init + [h];
      MergeOrderFirstSeen(init);
      MergeIsBest(init);
      MergeSnoc(init, h);
      var c, d := Merge(init), Merge(hs);
      assert forall i :: 0 <= i < |init| ==> hs[i] == init[i];
      forall k | FirstAt(init, k) < |init| ensures FirstAt(hs, k) == FirstAt(init, k) {
        var p := FirstAt(init, k);
        assert hs[p].slot == k;
      }
      if d.order != c.order {
        assert d.order == c.order + [h.slot];
        assert h.slot !in c.score;
        assert !Occurs(init, h.slot);
        forall i | 0 <= i < |init| ensures hs[i].slot != h.slot {
          assert init[i].slot != h.slot;
        }
        assert FirstAt(hs, h.slot) == |init|;
      }
    }
  }

  // ----------------------------------------------------------- sorting

  /** Every key has a score. */
  predicate Scored(keys: seq<int>, score: map<int, real>) {
    forall i :: 0 <= i < |keys| ==> keys[i] in score
  }

  /** Highest score first: no key scores above the one before it. */
  predicate Descending(s: seq<int>, score: map<int, real>)
    requires Scored(s, score)
  {
    forall i :: 0 < i < |s| ==> score[s[i - 1]] >= score[s[i]]
  }

  /** In a descending sequence every key scores at least as much as any key after it. */
  lemma {:induction false} DescendingOrdered(s: seq<int>, score: map<int, real>, i: int, j: int)
    requires Scored(s, score) && Descending(s, score)
    requires 0 <= i <= j < |s|
    ensures score[s[i]] >= score[s[j]]
    decreases j - i
  {
    if i < j {
      DescendingOrdered(s, score, i + 1, j);
    }
  }

  /** Puts `x` in front of the first key scoring no more than it. */
  function InsertByScore(x: int, s: seq<int>, score: map<int, real>): (r: seq<int>)
    requires x in score && Scored(s, score)
    ensures Scored(r, score)
    ensures multiset(r) == multiset(s) + multiset{x}
    ensures r != [] && (r[0] == x || (s != [] && r[0] == s[0]))
  {
    if s == [] || score[s[0]] <= score[x] then [x] + s
    else
      assert s == [s[0]] + s[1..];
      [s[0]] + InsertByScore(x, s[1..], score)
  }

  /** Inserting into a descending sequence keeps it descending. */
  lemma {:induction false} InsertByScoreDescending(x: int, s: seq<int>, score: map<int, real>)
    requires x in score && Scored(s, score) && Descending(s, score)
    ensures Descending(InsertByScore(x, s, score), score)
  {
    var r := InsertByScore(x, s, score);
    if s == [] || score[s[0]] <= score[x] {
      assert forall i :: 0 < i < |r| ==> r[i] == s[i - 1];
    } else {
      assert forall i :: 0 <= i < |s[1..]| ==> s[1..][i] == s[i + 1];
      InsertByScoreDescending(x, s[1..], score);
      var rest := InsertByScore(x, s[1..], score);
      assert r == [s[0]] + rest;
      assert score[rest[0]] <= score[s[0]];
      assert forall i :: 0 < i < |r| ==> r[i] == rest[i - 1];
    }
  }

  /**
   * `sorted(keys, key=lambda k: score[k], reverse=True)`: a permutation of
   * the keys, highest score first.
   */
  function SortByScore(keys: seq<int>, score: map<int, real>): (r: seq<int>)
    requires Scored(keys, score)
    ensures Scored(r, score) && Descending(r, score)
    ensures multiset(r) == multiset(keys)
    ensures |r| == |keys|
  {
    if keys == [] then []
    else
      assert keys == [keys[0]] + keys[1..];
      var rest := SortByScore(keys[1..], score);
      InsertByScoreDescending(keys[0], rest, score);
      InsertByScore(keys[0], rest, score)
  }

  /** The keys scoring exactly `v`, in their order. */
  function WithScore(s: seq<int>, score: map<int, real>, v: real): seq<int>
    requires Scored(s, score)
  {
    if s == [] then [] else (if score[s[0]] == v then [s[0]] else []) + WithScore(s[1..], score, v)
  }

  lemma {:induction false} InsertWithScore(x: int, s: seq<int>, score: map<int, real>, v: real)
    requires x in score && Scored(s, score)
    ensures WithScore(InsertByScore(x, s, score), score, v) ==
      (if score[x] == v then [x] else []) + WithScore(s, score, v)
  {
    if s != [] && score[s[0]] > score[x] {
      var rest := InsertByScore(x, s[1..], score);
      assert InsertByScore(x, s, score) == [s[0]] + rest;
      InsertWithScore(x, s[1..], score, v);
      WithScoreCons(s[0], rest, score, v);
      WithScoreCons(s[0], s[1..], score, v);
      assert [s[0]] + s[1..] == s;
    } else {
      assert InsertByScore(x, s, score) == [x] + s;
      WithScoreCons(x, s, score, v);
    }
  }

  lemma WithScoreCons(x: int, s: seq<int>, score: map<int, real>, v: real)
    requires x in score && Scored(s, score)
    ensures Scored([x] + s, score)
    ensures WithScore([x] + s, score, v) == (if score[x] == v then [x] else []) + WithScore(s, score, v)
  {
    assert ([x] + s)[0] == x;
    assert ([x] + s)[1..] == s;
  }

  /** The sort is stable: keys of equal score keep their relative order. */
  lemma {:induction false} SortStable(keys: seq<int>, score: map<int, real>, v: real)
    requires Scored(keys, score)
    ensures WithScore(SortByScore(keys, score), score, v) == WithScore(keys, score, v)
  {
    if keys != [] {
      SortStable(keys[1..], score, v);
      InsertWithScore(keys[0], SortByScore(keys[1..], score), score, v);
    }
  }

  // ----------------------------------------------------------- ranking

  lemma WellFormedScored(c: Candidates)
    requires WellFormed(c)
    ensures Scored(c.order, c.score)
  {
  }

  /** `sorted(cand.keys(), ...)[:MAX_RETURN]`: the slots handed to the fetch. */
  function Rank(c: Candidates, maxReturn: int): seq<int>
    requires Scored(c.order, c.score)
  {
    SliceTo(SortByScore(c.order, c.score), maxReturn)
  }

  /**
   * The ranked slots are candidates, highest score first, at most
   * `MAX_RETURN` of them (all of them when there are fewer), and no
   * candidate left out scores above one that was kept.
   */
  lemma RankIsTop(c: Candidates, maxReturn: int)
    requires WellFormed(c)
    ensures Scored(c.order, c.score)
    ensures var r := Rank(c, maxReturn);
      && Scored(r, c.score) && Descending(r, c.score)
      && (forall i, j :: 0 <= i < j < |r| ==> c.score[r[i]] >= c.score[r[j]])
      && (forall i :: 0 <= i < |r| ==> r[i] in c.score)
      && (0 <= maxReturn ==> |r| == if maxReturn <= |c.order| then maxReturn else |c.order|)
      && (forall k, i :: k in c.score && k !in r && 0 <= i < |r| ==> c.score[k] <= c.score[r[i]])
  {
    var sorted := SortByScore(c.order, c.score);
    var r := Rank(c, maxReturn);
    assert r == sorted[..|r|];
    forall i, j | 0 <= i < j < |r| ensures c.score[r[i]] >= c.score[r[j]] {
      DescendingOrdered(sorted, c.score, i, j);
    }
    forall k, i | k in c.score && k !in r && 0 <= i < |r| ensures c.score[k] <= c.score[r[i]] {
      assert k in multiset(c.order);
      assert k in multiset(sorted);
      PrefixDominates(sorted, c.score, |r|, k, i);
    }
  }

  /** In a descending sequence, a key not among the first `n` scores no more than any of them. */
  lemma PrefixDominates(sorted: seq<int>, score: map<int, real>, n: nat, k: int, i: int)
    requires Scored(sorted, score) && Descending(sorted, score)
    requires n <= |sorted| && k in sorted && k !in sorted[..n] && 0 <= i < n
    ensures score[k] <= score[sorted[i]]
  {
    var j :| 0 <= j < |sorted| && sorted[j] == k;
    assert forall jj :: 0 <= jj < n ==> sorted[..n][jj] == sorted[jj];
    assert j >= n;
    DescendingOrdered(sorted, score, i, j);
  }

  /** No candidates, nothing ranked. */
  lemma RankEmpty(c: Candidates, maxReturn: int)
    requires WellFormed(c) && c.order == []
    ensures Scored(c.order, c.score)
    ensures Rank(c, maxReturn) == []
  {
  }
}
