/**
 The semantic answer cache: a paged scan for the most similar cached question, and invalidation by
 referenced document.  Embeddings, their similarity and their hash are parameters.
 */
module SemanticCache {
  import opened Checkpoints
  import opened RedisLayer

  type Vec = seq<real>
  type Hash = nat
  type Doc = nat

  /** What is stored under an answer key. */
  datatype Answer = Answer(text: string, docs: seq<Doc>, stale: bool)

  /** The two namespaces; the server may drop any key of either at any time. */
  datatype Cache = Cache(emb: map<Hash, Vec>, ans: map<Hash, Answer>)

  // ---------------------------------------------------------------- the best match

  function Score(emb: map<Hash, Vec>, sim: (Vec, Vec) -> real, q: Vec, h: Hash): Option<real> {
    if h in emb then Some(sim(q, emb[h])) else None
  }

  datatype Match = Match(score: real, key: Option<Hash>)

  /** The scan over keys in the order they come in. */
  function Best(emb: map<Hash, Vec>, sim: (Vec, Vec) -> real, q: Vec, keys: seq<Hash>): Match {
    if |keys| == 0 then Match(0.0, None)
    else
      var best := Best(emb, sim, q, keys[..|keys| - 1]);
      var h := keys[|keys| - 1];
      var score := Score(emb, sim, q, h);
      if score.Some? && score.value > best.score then Match(score.value, Some(h)) else best
  }

  /** The score is the maximum of the positive scores of the scanned embeddings, 0 if there is none. */
  ghost predicate IsMaximum(emb: map<Hash, Vec>, sim: (Vec, Vec) -> real, q: Vec, keys: seq<Hash>, m: Match) {
    && (forall h :: h in keys && h in emb ==> sim(q, emb[h]) <= m.score)
    && (if m.key.None? then m.score == 0.0
        else m.key.value in keys && m.key.value in emb && m.score == sim(q, emb[m.key.value]) > 0.0)
  }

  lemma {:induction false} BestIsMaximum(emb: map<Hash, Vec>, sim: (Vec, Vec) -> real, q: Vec, keys: seq<Hash>)
    ensures IsMaximum(emb, sim, q, keys, Best(emb, sim, q, keys))
  {
    if |keys| > 0 {
      BestIsMaximum(emb, sim, q, keys[..|keys| - 1]);
      assert keys == keys[..|keys| - 1] + [keys[|keys| - 1]];
    }
  }

  lemma BestStep(emb: map<Hash, Vec>, sim: (Vec, Vec) -> real, q: Vec, keys: seq<Hash>, h: Hash)
    ensures var best := Best(emb, sim, q, keys);
            Best(emb, sim, q, keys + [h]) == if h in emb && sim(q, emb[h]) > best.score then Match(sim(q, emb[h]), Some(h)) else best
  {
    assert (keys + [h])[..|keys|] == keys;
  }

  lemma NothingScanned(emb: map<Hash, Vec>, sim: (Vec, Vec) -> real, q: Vec, pages: seq<seq<Hash>>)
    ensures Best(emb, sim, q, Flatten(pages[..0])) == Match(0.0, None)
  {
  }

  /** However the keys are split into pages, ordered or repeated, the best score is the same. */
  lemma PagingDoesNotMatter(
    emb: map<Hash, Vec>, sim: (Vec, Vec) -> real, q: Vec, a: seq<seq<Hash>>, b: seq<seq<Hash>>)
    requires forall h :: h in Flatten(a) <==> h in Flatten(b)
    ensures Best(emb, sim, q, Flatten(a)).score == Best(emb, sim, q, Flatten(b)).score
    ensures Best(emb, sim, q, Flatten(a)).key.None? <==> Best(emb, sim, q, Flatten(b)).key.None?
  {
    BestIsMaximum(emb, sim, q, Flatten(a));
    BestIsMaximum(emb, sim, q, Flatten(b));
    hide Best, Flatten;
  }

  lemma {:induction false} FlattenStep<T>(pages: seq<seq<T>>, i: nat)
    requires i < |pages|
    ensures Flatten(pages[..i + 1]) == Flatten(pages[..i]) + pages[i]
  {
    assert pages[..i + 1][..i] == pages[..i];
  }

  // ---------------------------------------------------------------- get, put and mark_stale

  /** What `get` answers for the keys its scan brings. */
  function Served(c: Cache, sim: (Vec, Vec) -> real, threshold: real, q: Vec, keys: seq<Hash>): Option<Answer> {
    var best := Best(c.emb, sim, q, keys);
    if best.key.None? || best.score < threshold then None
    else if best.key.value !in c.ans || c.ans[best.key.value].stale then None
    else Some(c.ans[best.key.value])
  }

  function Put(c: Cache, h: Hash, v: Vec, text: string, docs: seq<Doc>): Cache {
    if docs == [] then c else Cache(c.emb[h := v], c.ans[h := Answer(text, docs, false)])
  }

  /** The scanned answers that reference the document become stale. */
  function Marked(ans: map<Hash, Answer>, doc: Doc, keys: seq<Hash>): (r: map<Hash, Answer>)
    ensures r.Keys == ans.Keys
    ensures forall h :: h in ans ==> r[h] == if h in keys && doc in ans[h].docs then ans[h].(stale := true) else ans[h]
  {
    map h | h in ans :: if h in keys && doc in ans[h].docs then ans[h].(stale := true) else ans[h]
  }

  /** How often the scan comes across an answer that references the document. */
  function Hits(ans: map<Hash, Answer>, doc: Doc, keys: seq<Hash>): nat {
    if |keys| == 0 then 0
    else
      var h := keys[|keys| - 1];
      Hits(ans, doc, keys[..|keys| - 1]) + if h in ans && doc in ans[h].docs then 1 else 0
  }

  lemma {:induction false} HitsConcat(ans: map<Hash, Answer>, doc: Doc, a: seq<Hash>, b: seq<Hash>)
    ensures Hits(ans, doc, a + b) == Hits(ans, doc, a) + Hits(ans, doc, b)
  {
    if |b| == 0 {
      assert a + b == a;
    } else {
      HitsConcat(ans, doc, a, b[..|b| - 1]);
      assert (a + b)[..|a + b| - 1] == a + b[..|b| - 1];
    }
  }

  lemma {:induction false} HitsAfterMarking(ans: map<Hash, Answer>, doc: Doc, keys: seq<Hash>, marked: seq<Hash>)
    ensures Hits(Marked(ans, doc, marked), doc, keys) == Hits(ans, doc, keys)
  {
    if |keys| > 0 {
      HitsAfterMarking(ans, doc, keys[..|keys| - 1], marked);
    }
  }

  /** The answers that reference the document, among the scanned keys. */
  function Affected(ans: map<Hash, Answer>, doc: Doc, keys: seq<Hash>): set<Hash> {
    set h | h in keys && h in ans && doc in ans[h].docs
  }

  /** The returned count is the number of affected answers exactly when the scan repeats none of them. */
  lemma {:induction false} CountIsExactIff(ans: map<Hash, Answer>, doc: Doc, keys: seq<Hash>)
    ensures Hits(ans, doc, keys) >= |Affected(ans, doc, keys)|
    ensures Hits(ans, doc, keys) == |Affected(ans, doc, keys)| <==>
            forall i, j :: 0 <= i < j < |keys| && keys[i] == keys[j] ==> keys[i] !in Affected(ans, doc, keys)
  {
    if |keys| > 0 {
      var n := |keys| - 1;
      var rest, h := keys[..n], keys[n];
      CountIsExactIff(ans, doc, rest);
      assert keys == rest + [h];
      var before, after := Affected(ans, doc, rest), Affected(ans, doc, keys);
      if h in ans && doc in ans[h].docs {
        assert after == before + {h};
        if h in rest {
          var i :| 0 <= i < n && rest[i] == h;
          assert keys[i] == keys[n] && keys[i] in after;
          assert after == before;
        }
      } else {
        assert after == before;
      }
      assert forall i, j :: 0 <= i < j < n ==> keys[i] == rest[i] && keys[j] == rest[j];
    }
  }

  lemma MarkStep(ans: map<Hash, Answer>, doc: Doc, keys: seq<Hash>, h: Hash)
    ensures var marked := Marked(ans, doc, keys);
            Marked(ans, doc, keys + [h]) ==
            if h in ans && doc in ans[h].docs then marked[h := ans[h].(stale := true)] else marked
  {
    assert forall k :: k in keys + [h] <==> k in keys || k == h;
  }

  class SemanticAnswerCache {
    var emb: map<Hash, Vec>
    var ans: map<Hash, Answer>
    const threshold: real
    const sim: (Vec, Vec) -> real
    const hash: Vec -> Hash

    constructor (threshold: real, sim: (Vec, Vec) -> real, hash: Vec -> Hash)
      ensures emb == map[] && ans == map[]
      ensures this.threshold == threshold && this.sim == sim && this.hash == hash
    {
      this.threshold, this.sim, this.hash := threshold, sim, hash;
      emb, ans := map[], map[];
    }

    /** The scan of `get`: page after page, some of them empty. */
    method FindBest(q: Vec, pages: seq<seq<Hash>>) returns (bestScore: real, bestKey: Option<Hash>)
      ensures Match(bestScore, bestKey) == Best(emb, sim, q, Flatten(pages))
      ensures IsMaximum(emb, sim, q, Flatten(pages), Match(bestScore, bestKey))
    {
      hide Best, Flatten, IsMaximum;
      bestScore, bestKey := 0.0, None;
      NothingScanned(emb, sim, q, pages);
      for i := 0 to |pages|
        invariant Match(bestScore, bestKey) == Best(emb, sim, q, Flatten(pages[..i]))
      {
        FlattenStep(pages, i);
        var keys := pages[i];
        ghost var done := Flatten(pages[..i]);
        assert done + keys[..0] == done;
        for j := 0 to |keys|
          invariant Match(bestScore, bestKey) == Best(emb, sim, q, done + keys[..j])
        {
          assert done + keys[..j + 1] == done + keys[..j] + [keys[j]];
          BestStep(emb, sim, q, done + keys[..j], keys[j]);
          if keys[j] in emb {
            var score := sim(q, emb[keys[j]]);
            if score > bestScore {
              bestScore, bestKey := score, Some(keys[j]);
            }
          }
        }
        assert keys[..|keys|] == keys;
      }
      assert pages[..|pages|] == pages;
      BestIsMaximum(emb, sim, q, Flatten(pages));
    }

    method Get(q: Vec, pages: seq<seq<Hash>>) returns (r: Option<Answer>)
      ensures r == Served(Cache(emb, ans), sim, threshold, q, Flatten(pages))
      ensures r.Some? ==> !r.value.stale && exists h :: h in emb && h in ans && ans[h] == r.value && sim(q, emb[h]) >= threshold
    {
      var bestScore, bestKey := FindBest(q, pages);
      if bestKey.None? || bestScore < threshold {
        return None;
      }
      if bestKey.value !in ans {
        return None;
      }
      var data := ans[bestKey.value];
      if data.stale {
        return None;
      }
      r := Some(data);
    }

    method PutAnswer(q: Vec, text: string, docs: seq<Doc>)
      modifies this`emb, this`ans
      ensures Cache(emb, ans) == Put(Cache(old(emb), old(ans)), hash(q), q, text, docs)
    {
      if docs == [] {
        return;
      }
      emb := emb[hash(q) := q];
      ans := ans[hash(q) := Answer(text, docs, false)];
    }

    /** `mark_stale`: the values of a page are read together and written together. */
    method MarkStale(doc: Doc, pages: seq<seq<Hash>>) returns (count: nat)
      modifies this`ans
      ensures ans == Marked(old(ans), doc, Flatten(pages))
      ensures count == Hits(old(ans), doc, Flatten(pages)) >= |Affected(old(ans), doc, Flatten(pages))|
    {
      count := 0;
      for i := 0 to |pages|
        invariant ans == Marked(old(ans), doc, Flatten(pages[..i]))
        invariant count == Hits(old(ans), doc, Flatten(pages[..i]))
      {
        FlattenStep(pages, i);
        HitsConcat(old(ans), doc, Flatten(pages[..i]), pages[i]);
        HitsAfterMarking(old(ans), doc, pages[i], Flatten(pages[..i]));
        ghost var before := ans;
        var n := MarkPage(doc, pages[i]);
        assert forall h :: h in Flatten(pages[..i + 1]) <==> h in Flatten(pages[..i]) || h in pages[i];
        assert ans == Marked(old(ans), doc, Flatten(pages[..i + 1]));
        count := count + n;
      }
      assert pages[..|pages|] == pages;
      CountIsExactIff(old(ans), doc, Flatten(pages));
    }

    method MarkPage(doc: Doc, keys: seq<Hash>) returns (n: nat)
      modifies this`ans
      ensures ans == Marked(old(ans), doc, keys) && n == Hits(old(ans), doc, keys)
    {
      hide Marked;
      n := 0;
      var values, writes := ans, ans;
      assert Marked(values, doc, []) == values;
      for j := 0 to |keys|
        invariant ans == values && n == Hits(values, doc, keys[..j]) && writes == Marked(values, doc, keys[..j])
      {
        assert keys[..j + 1][..j] == keys[..j];
        var h := keys[j];
        MarkStep(values, doc, keys[..j], h);
        assert keys[..j + 1] == keys[..j] + [h];
        if h in values && doc in values[h].docs {
          writes := writes[h := values[h].(stale := true)];
          n := n + 1;
        }
      }
      assert keys[..|keys|] == keys;
      ans := writes;
    }
  }

  // ---------------------------------------------------------------- runs

  datatype Op =
    | PutOp(vec: Vec, text: string, docs: seq<Doc>)
    | MarkOp(doc: Doc, keys: seq<Hash>)              // keys: what its scan brings
    | EvictOp(emb: set<Hash>, ans: set<Hash>)

  /** A scan brings at least every key that is there throughout. */
  predicate OpEnabled(c: Cache, op: Op) {
    op.MarkOp? ==> forall h :: h in c.ans ==> h in op.keys
  }

  function OpNext(hash: Vec -> Hash, c: Cache, op: Op): Cache {
    match op
    case PutOp(v, text, docs) => Put(c, hash(v), v, text, docs)
    case MarkOp(doc, keys) => c.(ans := Marked(c.ans, doc, keys))
    case EvictOp(e, a) => Cache(c.emb - e, c.ans - a)
  }

  ghost predicate IsRun(hash: Vec -> Hash, run: seq<Cache>, ops: seq<Op>) {
    && |run| == |ops| + 1 && run[0] == Cache(map[], map[])
    && forall i :: 0 <= i < |ops| ==> OpEnabled(run[i], ops[i]) && run[i + 1] == OpNext(hash, run[i], ops[i])
  }

  /** Operation `i` is a put that stores under `h`. */
  predicate Stores(hash: Vec -> Hash, ops: seq<Op>, i: int, h: Hash) {
    0 <= i < |ops| && ops[i].PutOp? && ops[i].docs != [] && hash(ops[i].vec) == h
  }

  /** It is the last one before state `n`. */
  ghost predicate LastStore(hash: Vec -> Hash, ops: seq<Op>, i: int, h: Hash, n: int) {
    i < n && Stores(hash, ops, i, h) && forall j :: i < j < n ==> !Stores(hash, ops, j, h)
  }

  /** Since operation `i` some of the documents has been marked. */
  ghost predicate MarkedSince(ops: seq<Op>, i: int, n: int, docs: seq<Doc>)
    requires n <= |ops|
  {
    exists j :: i < j < n && 0 <= j && ops[j].MarkOp? && ops[j].doc in docs
  }

  /** Every stored answer is that of the last put under its key, stale exactly if a document of it was marked since. */
  lemma {:induction false} StaleIffMarkedSince(hash: Vec -> Hash, run: seq<Cache>, ops: seq<Op>, n: nat, h: Hash) returns (i: nat)
    requires IsRun(hash, run, ops) && n < |run| && h in run[n].ans
    ensures LastStore(hash, ops, i, h, n)
    ensures run[n].ans[h] == Answer(ops[i].text, ops[i].docs, MarkedSince(ops, i, n, ops[i].docs))
    decreases n
  {
    assert n > 0;
    var op := ops[n - 1];
    assert run[n - 1 + 1] == OpNext(hash, run[n - 1], op);
    if Stores(hash, ops, n - 1, h) {
      i := n - 1;
    } else {
      i := StaleIffMarkedSince(hash, run, ops, n - 1, h);
      MarkedStep(ops, i, n, ops[i].docs);
    }
  }

  lemma MarkedStep(ops: seq<Op>, i: nat, n: nat, docs: seq<Doc>)
    requires i < n - 1 && n <= |ops|
    ensures MarkedSince(ops, i, n, docs) <==>
            MarkedSince(ops, i, n - 1, docs) || (ops[n - 1].MarkOp? && ops[n - 1].doc in docs)
  {
  }

  /** An answer is served only if no document it references was marked stale since the last put of its entry. */
  lemma ServedIsFresh(
    hash: Vec -> Hash, sim: (Vec, Vec) -> real, threshold: real, run: seq<Cache>, ops: seq<Op>, n: nat, q: Vec, keys: seq<Hash>)
    returns (h: Hash, i: nat)
    requires IsRun(hash, run, ops) && n < |run| && Served(run[n], sim, threshold, q, keys).Some?
    ensures LastStore(hash, ops, i, h, n) && !MarkedSince(ops, i, n, ops[i].docs)
    ensures Served(run[n], sim, threshold, q, keys) == Some(Answer(ops[i].text, ops[i].docs, false))
  {
    h := Best(run[n].emb, sim, q, keys).key.value;
    i := StaleIffMarkedSince(hash, run, ops, n, h);
  }

  /** Of the keys scanned whose embedding is there, `keys[k]` is the first of those that match best. */
  ghost predicate FirstMaximal(emb: map<Hash, Vec>, sim: (Vec, Vec) -> real, q: Vec, keys: seq<Hash>, k: int) {
    && 0 <= k < |keys| && keys[k] in emb
    && (forall j :: 0 <= j < |keys| && keys[j] in emb ==> sim(q, emb[keys[j]]) <= sim(q, emb[keys[k]]))
    && (forall j :: 0 <= j < k && keys[j] in emb ==> sim(q, emb[keys[j]]) < sim(q, emb[keys[k]]))
  }

  lemma {:induction false} BestIsFirstMaximal(emb: map<Hash, Vec>, sim: (Vec, Vec) -> real, q: Vec, keys: seq<Hash>)
    returns (k: nat)
    requires Best(emb, sim, q, keys).key.Some?
    ensures FirstMaximal(emb, sim, q, keys, k)
    ensures Best(emb, sim, q, keys) == Match(sim(q, emb[keys[k]]), Some(keys[k]))
  {
    var rest, n := keys[..|keys| - 1], |keys| - 1;
    assert keys == rest + [keys[n]];
    BestIsMaximum(emb, sim, q, rest);
    assert forall j :: 0 <= j < n ==> keys[j] in rest && keys[j] == rest[j];
    k := n;
    if Best(emb, sim, q, rest) == Best(emb, sim, q, keys) {
      k := BestIsFirstMaximal(emb, sim, q, rest);
    }
  }

  /**
   Whatever the scan brings, and however well several questions match: a hit if and only if the first best
   match scanned scores above 0 and reaches the threshold (equality is enough), and its answer is there and fresh.
   */
  lemma HitIff(c: Cache, sim: (Vec, Vec) -> real, threshold: real, q: Vec, keys: seq<Hash>)
    ensures Served(c, sim, threshold, q, keys).Some? <==>
            exists k :: && FirstMaximal(c.emb, sim, q, keys, k)
                        && sim(q, c.emb[keys[k]]) > 0.0 && sim(q, c.emb[keys[k]]) >= threshold
                        && keys[k] in c.ans && !c.ans[keys[k]].stale
  {
    hide Best;
    BestIsMaximum(c.emb, sim, q, keys);
    if Best(c.emb, sim, q, keys).key.Some? {
      var best := BestIsFirstMaximal(c.emb, sim, q, keys);
      forall k | FirstMaximal(c.emb, sim, q, keys, k) ensures k == best {
      }
    }
  }

  /**
   What a put stores the next get of the same question serves, if the scan comes across it, it matches itself at
   least as well as the threshold and better than 0, and no other question scanned matches as well.
   */
  lemma PutIsServed(
    c: Cache, sim: (Vec, Vec) -> real, threshold: real, h: Hash, q: Vec, text: string, docs: seq<Doc>, keys: seq<Hash>)
    requires docs != [] && h in keys && sim(q, q) > 0.0 && sim(q, q) >= threshold
    requires forall k :: k in keys && k in c.emb && k != h ==> sim(q, c.emb[k]) < sim(q, q)
    ensures Served(Put(c, h, q, text, docs), sim, threshold, q, keys) == Some(Answer(text, docs, false))
  {
    var n := Put(c, h, q, text, docs);
    BestIsMaximum(n.emb, sim, q, keys);
    hide Best;
    assert sim(q, n.emb[h]) == sim(q, q);
    assert Best(n.emb, sim, q, keys).key == Some(h);
  }

  /** A stale best match hides a fresh one that would do. */
  lemma StaleBestHidesFresh(best: Vec, other: Vec, sim: (Vec, Vec) -> real)
    requires sim(best, best) == 1.0 && sim(best, other) == 0.95
    ensures var c := Cache(map[1 := best, 2 := other],
                           map[1 := Answer("old", [7], true), 2 := Answer("fresh", [8], false)]);
            && Served(c, sim, 0.92, best, [1, 2]) == None
            && Served(c.(emb := map[2 := other]), sim, 0.92, best, [2]) == Some(Answer("fresh", [8], false))
  {
    var both, one := map[1 := best, 2 := other], map[2 := other];
    assert [1, 2][..1] == [1] && [1][..0] == [] && [2][..0] == [];
    assert Best(both, sim, best, []) == Best(one, sim, best, []) == Match(0.0, None);
    assert Best(both, sim, best, [1]) == Match(1.0, Some(1));
    assert Best(both, sim, best, [1, 2]) == Match(1.0, Some(1));
    assert Best(one, sim, best, [2]) == Match(0.95, Some(2));
  }
}
