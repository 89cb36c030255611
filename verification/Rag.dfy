/**
 The inverted index over the documents, and its search. Loops over Go maps take their
 keys in any order. Scores are exact rationals.
 */
module Rag {
  import opened GoMaps
  import opened StableSort
  import opened Text

  datatype Document = Document(id: string, title: string, content: string, tags: seq<string>)
  datatype ScoredDoc = ScoredDoc(doc: Document, score: real)
  datatype Hit = Hit(idx: int, score: real)

  function TopK(topK: int): int { if topK <= 0 then 3 else topK }

  // ---- The reference: a scan over all documents ----

  function Join(parts: seq<string>): string {
    if parts == [] then "" else if |parts| == 1 then parts[0] else parts[0] + " " + Join(parts[1..])
  }

  /** The tokens of a document, or of any text: no token repeats. */
  type Bag = seq<string>

  function Tokens(d: Document,
      lower: char -> char): Bag { TextTokens(d.content + " " + d.title + " " + Join(d.tags), lower) }

  /** The tokens of each document. */
  function BagsOf(docs: seq<Document>, lower: char -> char): (bags: seq<Bag>)
    ensures |bags| == |docs| && forall i :: 0 <= i < |docs| ==> bags[i] == Tokens(docs[i], lower)
  {
    seq(|docs|, i requires 0 <= i < |docs| => Tokens(docs[i], lower))
  }

  predicate Holds(bags: seq<Bag>, i: int, t: string) { 0 <= i < |bags| && t in bags[i] }

  /** The documents that hold a token; their number is its document frequency. */
  function Holders(bags: seq<Bag>, t: string): (ids: set<int>)
    ensures forall i :: i in ids <==> Holds(bags, i, t)
  {
    set i | 0 <= i < |bags| && Holds(bags, i, t)
  }

  /** What a query token adds to a document's score: one over its document frequency if the document holds it. */
  function Gain(bags: seq<Bag>, t: string, i: int): real {
    if Holds(bags, i, t) then
      assert i in Holders(bags, t);
      1.0 / |Holders(bags, t)| as real
    else 0.0
  }

  function RawScore(bags: seq<Bag>, query: seq<string>, i: int): real {
    if query == [] then 0.0
    else RawScore(bags, query[..|query| - 1], i) + Gain(bags, query[|query| - 1], i)
  }

  predicate Shares(bags: seq<Bag>, query: seq<string>, i: int) { exists t :: t in query && Holds(bags, i, t) }

  /** The score of a document: the gains of the query's tokens over its number of distinct tokens. */
  function Score(bags: seq<Bag>, query: seq<string>, i: int): real
    requires 0 <= i < |bags|
  {
    if |bags[i]| == 0 then RawScore(bags, query, i) else RawScore(bags, query, i) / |bags[i]| as real
  }

  /**
   Each query token shares out one point equally among its holders, and a document's points are
   divided by its number of tokens.
   */
  lemma PointsAreShared(bags: seq<Bag>, query: seq<string>, t: string, i: int)
    ensures Holds(bags, i, t) ==> Gain(bags, t, i) * |Holders(bags, t)| as real == 1.0
    ensures !Holds(bags, i, t) ==> Gain(bags, t, i) == 0.0
    ensures RawScore(bags, query + [t], i) == RawScore(bags, query, i) + Gain(bags, t, i)
    ensures 0 <= i < |bags| && bags[i] != [] ==> Score(bags, query, i) * |bags[i]| as real == RawScore(bags, query, i)
  {
    hide Holds, Holders, RawScore;
    if Holds(bags, i, t) {
      assert i in Holders(bags, t);
      DividedBack(1.0, |Holders(bags, t)|);
    }
    OneMorePoint(bags, query, t, i);
    if 0 <= i < |bags| && bags[i] != [] { DividedBack(RawScore(bags, query, i), |bags[i]|); }
  }

  lemma DividedBack(x: real, n: nat)
    requires n > 0
    ensures x / n as real * n as real == x
  {
  }

  lemma OneMorePoint(bags: seq<Bag>, query: seq<string>, t: string, i: int)
    ensures RawScore(bags, query + [t], i) == RawScore(bags, query, i) + Gain(bags, t, i)
  {
    assert (query + [t])[..|query|] == query;
  }

  // ---- Postings ----

  function Ones(ids: set<int>): map<int, int> { map i | i in ids :: 1 }

  function Posts(tokens: map<string, map<int, int>>,
      t: string): map<int, int> { if t in tokens then tokens[t] else map[] }

  function Get(scores: map<int, real>, i: int): real { if i in scores then scores[i] else 0.0 }

  /** Each token is posted, once, at exactly the documents of the set. */
  ghost predicate Posted(tokens: map<string, map<int, int>>, where: string -> set<int>) {
    && (forall t :: Posts(tokens, t) == Ones(where(t)))
    && (forall t :: t in tokens <==> where(t) != {})
  }

  ghost function HoldersIn(bags: seq<Bag>): string -> set<int> { (t: string) => Holders(bags, t) }

  /** Halfway through document `i`: the documents before it, and itself for the tokens already seen. */
  ghost function HoldersSoFar(bags: seq<Bag>, i: nat, seen: seq<string>): string -> set<int>
    requires i <= |bags|
  {
    (t: string) => Holders(bags[..i], t) + (if t in seen then {i} else {})
  }

  lemma PostOne(tokens: map<string, map<int, int>>, bags: seq<Bag>, i: nat, seen: seq<string>, t: string)
    requires i <= |bags| && t !in seen && Posted(tokens, HoldersSoFar(bags, i, seen))
    ensures i !in Posts(tokens, t)
    ensures Posted(tokens[t := Posts(tokens, t)[i := 1]], HoldersSoFar(bags, i, seen + [t]))
  {
    hide Holds, Posts;
    var before, after := HoldersSoFar(bags, i, seen), HoldersSoFar(bags, i, seen + [t]);
    var tokens' := tokens[t := Posts(tokens, t)[i := 1]];
    NotYetHolder(bags, i, t);
    assert Posts(tokens, t) == Ones(before(t));
    forall u ensures Posts(tokens', u) == Ones(after(u)) && (u in tokens' <==> after(u) != {}) {
      PostsUpdate(tokens, t, Posts(tokens, t)[i := 1], u);
      if u == t {
        assert after(t) == before(t) + {i};
        assert Ones(after(t)) == Ones(before(t))[i := 1];
        assert i in after(t);
      } else {
        assert after(u) == before(u);
        assert Posts(tokens, u) == Ones(before(u));
      }
    }
  }

  lemma PostsUpdate(tokens: map<string, map<int, int>>, t: string, posts: map<int, int>, u: string)
    ensures Posts(tokens[t := posts], u) == if u == t then posts else Posts(tokens, u)
  {
  }

  lemma NotYetHolder(bags: seq<Bag>, i: nat, t: string)
    requires i <= |bags|
    ensures i !in Holders(bags[..i], t)
  {
  }

  lemma DocumentDone(bags: seq<Bag>, i: nat, tokens: map<string, map<int, int>>)
    requires i < |bags| && Posted(tokens, HoldersSoFar(bags, i, bags[i]))
    ensures Posted(tokens, HoldersSoFar(bags, i + 1, []))
  {
    hide Posts, Ones;
    var before, after := HoldersSoFar(bags, i, bags[i]), HoldersSoFar(bags, i + 1, []);
    forall t ensures before(t) == after(t) {
      assert bags[..i + 1] == bags[..i] + [bags[i]];
      forall j ensures j in before(t) <==> j in after(t) { }
    }
    forall t ensures Posts(tokens, t) == Ones(after(t)) && (t in tokens <==> after(t) != {}) {
      assert Posts(tokens, t) == Ones(before(t));
    }
  }

  class Index {
    var docs: seq<Document>
    var tokens: map<string, map<int, int>>
    const lower: char -> char

    function Bags(): seq<Bag> reads this { BagsOf(docs, lower) }

    /** Every token's postings are exactly the documents that hold it, each counted once. */
    ghost predicate Valid() reads this { Posted(tokens, HoldersIn(Bags())) }

    /** `New`. */
    constructor (documents: seq<Document>, lowerCase: char -> char)
      ensures docs == documents && lower == lowerCase && Valid()
    {
      docs := documents;
      tokens := map[];
      lower := lowerCase;
      new;
      hide Posted, Tokens, TextTokens;
      ghost var bags := Bags();
      NothingPosted(bags);
      for i := 0 to |documents|
        invariant docs == documents && bags == Bags()
        invariant Posted(tokens, HoldersSoFar(bags, i, []))
      {
        var d := documents[i];
        var parts := Tokenize(d.content + " " + d.title + " " + Join(d.tags), lower);
        assert parts == bags[i] by { TokensOf(d, lower); }
        BagsDistinct(documents, lower, i);
        for j := 0 to |parts|
          invariant docs == documents && bags == Bags()
          invariant Posted(tokens, HoldersSoFar(bags, i, parts[..j]))
        {
          var t := parts[j];
          assert parts[..j + 1] == parts[..j] + [t] && t !in parts[..j];
          PostOne(tokens, bags, i, parts[..j], t);
          PostOneEmpty(tokens, t, i);
          if t !in tokens { tokens := tokens[t := map[]]; }
          tokens := tokens[t := tokens[t][i := Count(tokens[t], i) + 1]];
        }
        assert parts[..|parts|] == parts;
        DocumentDone(bags, i, tokens);
      }
      AllPosted(bags, tokens);
    }

    /** `docTokenTotal`: the number of tokens posted at a document. */
    method TokenTotal(i: int) returns (n: nat)
      requires Valid() && 0 <= i < |docs|
      ensures n == |Tokens(docs[i], lower)|
    {
      hide Tokens, Posted, HeldAmong, Holds;
      ghost var bags := Bags();
      n := 0;
      var todo, done: set<string> := tokens.Keys, {};
      NoTokenYet(bags, i);
      while todo != {}
        invariant done + todo == tokens.Keys && done !! todo
        invariant n == HeldAmong(bags, i, done)
        decreases todo
      {
        var t := Any(todo);
        OneMoreToken(bags, i, done, t);
        PostedAt(bags, tokens, t, i);
        if i in tokens[t] { n := n + 1; }
        todo, done := todo - {t}, done + {t};
      }
      BagsDistinct(docs, lower, i);
      AllTokensPosted(bags, tokens, i, done);
    }

    /**
     `Search`: at most `topK` documents that share a token with the query, in descending
     order of score, and no document left out scores more than one returned.
     */
    method Search(query: string, topK: int) returns (out: seq<ScoredDoc>)
      requires Valid()
      ensures var top := if topK <= 0 then 3 else topK;
              exists order :: Best(docs, Bags(), TextTokens(query, lower), top, out, order)
    {
      hide Valid, Best, TextTokens, Gather, Holds, Order, Tokens;
      var top := TopK(topK);
      var q := Tokenize(query, lower);
      ghost var bags := Bags();
      if |q| == 0 { NothingBest(docs, bags, q, top); return []; }
      var scores := Accumulate(q);
      if |scores| == 0 { NothingShared(bags, q, scores); NothingBest(docs, bags, q, top); return []; }
      var arr := Normalize(q, scores);
      var sorted := Sorted(arr, HigherScore());
      SortedHits(bags, q, arr);
      var cut := if |sorted| > top then sorted[..top] else sorted;
      CutIsBest(docs, bags, q, sorted, top, cut);
      out := Gather(docs, cut);
      assert Best(docs, bags, q, top, out, Order(cut));
    }

    /** The score loop of `Search`. */
    method Accumulate(q: seq<string>) returns (scores: map<int, real>)
      requires Valid()
      ensures forall i :: i in scores <==> Shares(Bags(), q, i)
      ensures forall i :: Get(scores, i) == RawScore(Bags(), q, i)
    {
      hide Valid, Holds, Gain, Shares;
      scores := map[];
      ghost var bags := Bags();
      forall i { NoneShares(bags, i); }
      for k := 0 to |q|
        invariant forall i :: i in scores <==> Shares(bags, q[..k], i)
        invariant forall i :: Get(scores, i) == RawScore(bags, q[..k], i)
      {
        forall i { OneMoreShares(bags, q, k, i); }
        PostsAre(q[k]);
        scores := AddPostings(bags, q[k], scores, Posts(tokens, q[k]));
      }
      assert q[..|q|] == q;
    }

    lemma PostsAre(t: string)
      requires Valid()
      ensures Posts(tokens, t) == Ones(Holders(Bags(), t))
    {
      hide Ones, Holders, Posts;
    }

    /** The normalisation loop of `Search`, over the scored documents in any order. */
    method Normalize(q: seq<string>, scores: map<int, real>) returns (arr: seq<Hit>)
      requires Valid()
      requires forall i :: i in scores <==> Shares(Bags(), q, i)
      requires forall i :: Get(scores, i) == RawScore(Bags(), q, i)
      ensures AllHits(Bags(), q, arr)
    {
      hide Valid, Shares, Tokens, RawScore;
      ghost var bags := Bags();
      arr := [];
      var todo, done: set<int> := scores.Keys, {};
      while todo != {}
        invariant done + todo == scores.Keys && done !! todo
        invariant HitsOf(bags, q, arr, done)
        decreases todo
      {
        var i := Any(todo);
        SharesInRange(bags, q, i);
        var s := scores[i];
        assert s == Get(scores, i);
        var total := TokenTotal(i);
        if total > 0 { s := s / total as real; }
        OneMoreHit(bags, q, arr, done, Hit(i, s));
        arr := arr + [Hit(i, s)];
        todo, done := todo - {i}, done + {i};
      }
      assert done == scores.Keys;
    }
  }

  lemma TokensOf(d: Document, lower: char -> char)
    ensures Tokens(d, lower) == TextTokens(d.content + " " + d.title + " " + Join(d.tags), lower)
  {
  }

  // ---- Counting a document's tokens ----

  function HeldAmong(bags: seq<Bag>, i: int, ts: set<string>): nat { |set t | t in ts && Holds(bags, i, t)| }

  lemma NoTokenYet(bags: seq<Bag>, i: int)
    ensures HeldAmong(bags, i, {}) == 0
  {
    assert (set t | t in {} && Holds(bags, i, t)) == {};
  }

  lemma OneMoreToken(bags: seq<Bag>, i: int, done: set<string>, t: string)
    requires t !in done
    ensures HeldAmong(bags, i, done + {t}) == HeldAmong(bags, i, done) + (if Holds(bags, i, t) then 1 else 0)
  {
    hide Holds;
    var s := set u | u in done && Holds(bags, i, u);
    if Holds(bags, i, t) {
      assert (set u | u in done + {t} && Holds(bags, i, u)) == s + {t};
    } else {
      assert (set u | u in done + {t} && Holds(bags, i, u)) == s;
    }
  }

  lemma PostedAt(bags: seq<Bag>, tokens: map<string, map<int, int>>, t: string, i: int)
    requires Posted(tokens, HoldersIn(bags)) && t in tokens
    ensures i in tokens[t] <==> Holds(bags, i, t)
  {
    hide Holds;
    assert Posts(tokens, t) == Ones(Holders(bags, t));
  }

  lemma AllTokensPosted(bags: seq<Bag>, tokens: map<string, map<int, int>>, i: int, done: set<string>)
    requires Posted(tokens, HoldersIn(bags)) && done == tokens.Keys && 0 <= i < |bags| && Distinct(bags[i])
    ensures HeldAmong(bags, i, done) == |bags[i]|
  {
    hide Ones, Posts;
    var ts := bags[i];
    assert (set t | t in done && Holds(bags, i, t)) == (set t | t in ts) by {
      forall t | t in ts ensures t in done {
        assert i in Holders(bags, t);
        assert HoldersIn(bags)(t) != {};
      }
    }
    DistinctCount(ts);
  }

  // ---- Adding up scores ----

  lemma NoneShares(bags: seq<Bag>, i: int)
    ensures !Shares(bags, [], i) && RawScore(bags, [], i) == 0.0
  {
  }

  lemma OneMoreShares(bags: seq<Bag>, q: seq<string>, k: nat, i: int)
    requires k < |q|
    ensures q[..k + 1][..k] == q[..k]
    ensures Shares(bags, q[..k + 1], i) <==> Shares(bags, q[..k], i) || Holds(bags, i, q[k])
    ensures RawScore(bags, q[..k + 1], i) == RawScore(bags, q[..k], i) + Gain(bags, q[k], i)
  {
    hide Holds, Gain;
    assert q[..k + 1] == q[..k] + [q[k]];
  }

  /** The scores after the gains of the documents in `done`. */
  ghost predicate Added(bags: seq<Bag>, t: string, scores: map<int, real>, done: set<int>, r: map<int, real>) {
    && (forall i :: i in r <==> i in scores || i in done)
    && (forall i :: Get(r, i) == Get(scores, i) + (if i in done then Gain(bags, t, i) else 0.0))
  }

  lemma AddOne(bags: seq<Bag>, t: string, scores: map<int, real>, done: set<int>, r: map<int, real>, i: int)
    requires Added(bags, t, scores, done, r) && i !in done
    ensures Added(bags, t, scores, done + {i}, r[i := Get(r, i) + Gain(bags, t, i)])
  {
    hide Gain;
  }

  lemma GainOfPosting(bags: seq<Bag>, t: string, posts: map<int, int>, i: int)
    requires posts == Ones(Holders(bags, t)) && i in posts
    ensures |posts| > 0 && posts[i] as real / |posts| as real == Gain(bags, t, i)
  {
    hide Holds;
    assert posts.Keys == Holders(bags, t) && |posts| == |posts.Keys|;
  }

  lemma AddNothing(bags: seq<Bag>, t: string, scores: map<int, real>)
    ensures Added(bags, t, scores, {}, scores)
  {
    hide Gain;
  }

  lemma AddedAll(bags: seq<Bag>, t: string, scores: map<int, real>, r: map<int, real>)
    requires Added(bags, t, scores, Holders(bags, t), r)
    ensures forall i :: i in r <==> i in scores || Holds(bags, i, t)
    ensures forall i :: Get(r, i) == Get(scores, i) + Gain(bags, t, i)
  {
    hide Holds;
  }

  /** One token's postings, in any order. */
  method AddPostings(ghost bags: seq<Bag>, ghost t: string, scores: map<int, real>, posts: map<int, int>)
    returns (r: map<int, real>)
    requires posts == Ones(Holders(bags, t))
    ensures forall i :: i in r <==> i in scores || Holds(bags, i, t)
    ensures forall i :: Get(r, i) == Get(scores, i) + Gain(bags, t, i)
  {
    hide Holds, Added, Gain, Get;
    r := scores;
    var todo, done: set<int> := posts.Keys, {};
    assert posts.Keys == Holders(bags, t);
    AddNothing(bags, t, scores);
    while todo != {}
      invariant done + todo == posts.Keys && done !! todo
      invariant Added(bags, t, scores, done, r)
      decreases todo
    {
      var i := Any(todo);
      GainOfPosting(bags, t, posts, i);
      AddOne(bags, t, scores, done, r, i);
      r := r[i := Get(r, i) + posts[i] as real / |posts| as real];
      todo, done := todo - {i}, done + {i};
    }
    assert done == posts.Keys;
    AddedAll(bags, t, scores, r);
  }

  // ---- From scores to hits ----

  function HigherScore(): (Hit, Hit) -> bool { (a: Hit, b: Hit) => a.score > b.score }

  function IdxOf(): Hit -> int { (h: Hit) => h.idx }

  ghost predicate IsHit(bags: seq<Bag>, q: seq<string>, h: Hit) {
    0 <= h.idx < |bags| && Shares(bags, q, h.idx) && h.score == Score(bags, q, h.idx)
  }

  ghost predicate Has(arr: seq<Hit>, i: int) { exists k :: 0 <= k < |arr| && arr[k].idx == i }

  ghost predicate HitsOf(bags: seq<Bag>, q: seq<string>, arr: seq<Hit>, ids: set<int>) {
    && (forall h :: h in arr ==> IsHit(bags, q, h))
    && DistinctBy(arr, IdxOf())
    && (forall i :: i in ids <==> Has(arr, i))
  }

  /** The hits are exactly the documents that share a token, each once, with its score. */
  ghost predicate AllHits(bags: seq<Bag>, q: seq<string>, arr: seq<Hit>) {
    && (forall h :: h in arr ==> IsHit(bags, q, h))
    && DistinctBy(arr, IdxOf())
    && (forall i :: Shares(bags, q, i) <==> Has(arr, i))
  }

  lemma SharesInRange(bags: seq<Bag>, q: seq<string>, i: int)
    requires Shares(bags, q, i)
    ensures 0 <= i < |bags|
  {
  }

  lemma OneMoreHit(bags: seq<Bag>, q: seq<string>, arr: seq<Hit>, done: set<int>, h: Hit)
    requires HitsOf(bags, q, arr, done) && IsHit(bags, q, h) && h.idx !in done
    ensures HitsOf(bags, q, arr + [h], done + {h.idx})
  {
    hide IsHit;
    var arr' := arr + [h];
    assert arr'[|arr|] == h && forall k :: 0 <= k < |arr| ==> arr'[k] == arr[k];
    assert !Has(arr, h.idx);
    forall i ensures i in done + {h.idx} <==> Has(arr', i) {
      if Has(arr, i) {
        var k :| 0 <= k < |arr| && arr[k].idx == i;
        assert arr'[k].idx == i;
      }
    }
  }

  lemma SortedHits(bags: seq<Bag>, q: seq<string>, arr: seq<Hit>)
    requires AllHits(bags, q, arr)
    ensures AllHits(bags, q, Sorted(arr, HigherScore())) && InOrder(Sorted(arr, HigherScore()), HigherScore())
  {
    hide IsHit, Shares, Sorted, InOrder;
    var sorted := Sorted(arr, HigherScore());
    SortedIsStableSort(arr, HigherScore());
    PermutationKeepsDistinct(arr, sorted, IdxOf());
    SameBagSameIds(arr, sorted);
  }

  lemma SameBagSameIds(a: seq<Hit>, b: seq<Hit>)
    requires multiset(a) == multiset(b)
    ensures forall h :: h in a <==> h in b
    ensures forall i :: Has(a, i) <==> Has(b, i)
  {
    forall h ensures h in a <==> h in b { assert h in multiset(a) <==> h in multiset(b); }
    forall i ensures Has(a, i) <==> Has(b, i) {
      if Has(a, i) { var k :| 0 <= k < |a| && a[k].idx == i; assert a[k] in b; }
      if Has(b, i) { var k :| 0 <= k < |b| && b[k].idx == i; assert b[k] in a; }
    }
  }

  // ---- What a search returns ----

  function Gather(docs: seq<Document>, hits: seq<Hit>): (out: seq<ScoredDoc>)
    requires forall h :: h in hits ==> 0 <= h.idx < |docs|
    ensures |out| == |hits| && forall k :: 0 <= k < |hits| ==> out[k] == ScoredDoc(docs[hits[k].idx], hits[k].score)
  {
    seq(|hits|, k requires 0 <= k < |hits| => assert hits[k] in hits; ScoredDoc(docs[hits[k].idx], hits[k].score))
  }

  /** `out` holds the documents at positions `order`, the best of those that share a token. */
  ghost predicate Best(docs: seq<Document>, bags: seq<Bag>, q: seq<string>,
    top: int, out: seq<ScoredDoc>, order: seq<int>) {
    && |out| == |order| <= top
    && (forall k :: 0 <= k < |order| ==> Returned(docs, bags, q, out[k], order[k]))
    && (forall j, k :: 0 <= j < k < |order| ==> order[j] != order[k] && out[j].score >= out[k].score)
    && (forall i :: Shares(bags, q, i) && i !in order ==> |out| == top && Beaten(bags, q, out, i))
  }

  ghost predicate Returned(docs: seq<Document>, bags: seq<Bag>, q: seq<string>, r: ScoredDoc, i: int) {
    0 <= i < |docs| == |bags| && Shares(bags, q, i) && r == ScoredDoc(docs[i], Score(bags, q, i))
  }

  ghost predicate Beaten(bags: seq<Bag>, q: seq<string>, out: seq<ScoredDoc>, i: int) {
    0 <= i < |bags| && forall k :: 0 <= k < |out| ==> out[k].score >= Score(bags, q, i)
  }

  lemma NothingBest(docs: seq<Document>, bags: seq<Bag>, q: seq<string>, top: int)
    requires top > 0 && forall i :: !Shares(bags, q, i)
    ensures Best(docs, bags, q, top, [], [])
  {
  }

  lemma NothingShared(bags: seq<Bag>, q: seq<string>, scores: map<int, real>)
    requires |scores| == 0 && forall i :: i in scores <==> Shares(bags, q, i)
    ensures forall i :: !Shares(bags, q, i)
  {
  }

  function Order(hits: seq<Hit>): (order: seq<int>)
    ensures |order| == |hits| && forall k :: 0 <= k < |hits| ==> order[k] == hits[k].idx
  {
    seq(|hits|, k requires 0 <= k < |hits| => hits[k].idx)
  }

  lemma CutInRange(bags: seq<Bag>, q: seq<string>, sorted: seq<Hit>, cut: seq<Hit>)
    requires AllHits(bags, q, sorted) && cut <= sorted
    ensures forall h :: h in cut ==> 0 <= h.idx < |bags| && IsHit(bags, q, h)
  {
    hide Shares, Score, Has, DistinctBy;
    forall h | h in cut
      ensures 0 <= h.idx < |bags| && IsHit(bags, q, h)
    {
      assert h in sorted;
      assert IsHit(bags, q, h);
    }
  }

  lemma CutInOrder(sorted: seq<Hit>, cut: seq<Hit>)
    requires DistinctBy(sorted, IdxOf()) && InOrder(sorted, HigherScore()) && cut <= sorted
    ensures forall j, k :: 0 <= j < k < |cut| ==> Order(cut)[j] != Order(cut)[k] && cut[j].score >= cut[k].score
  {
    forall j, k | 0 <= j < k < |cut| ensures Order(cut)[j] != Order(cut)[k] && cut[j].score >= cut[k].score {
      assert IdxOf()(sorted[j]) != IdxOf()(sorted[k]);
      assert !HigherScore()(sorted[k], sorted[j]);
    }
  }

  lemma CutBeats(bags: seq<Bag>, q: seq<string>, sorted: seq<Hit>, cut: seq<Hit>, i: int)
    requires AllHits(bags, q, sorted) && InOrder(sorted, HigherScore()) && cut <= sorted
    requires Shares(bags, q, i) && i !in Order(cut)
    ensures |cut| < |sorted| && 0 <= i < |bags| && forall k :: 0 <= k < |cut| ==> cut[k].score >= Score(bags, q, i)
  {
    hide Shares, Score, DistinctBy;
    assert Has(sorted, i);
    var p :| 0 <= p < |sorted| && sorted[p].idx == i;
    forall k | 0 <= k < |cut| ensures cut[k].idx in Order(cut) { assert Order(cut)[k] == cut[k].idx; }
    assert p >= |cut|;
    assert sorted[p] in sorted;
    assert IsHit(bags, q, sorted[p]);
    forall k | 0 <= k < |cut| ensures cut[k].score >= Score(bags, q, i) {
      assert !HigherScore()(sorted[p], sorted[k]);
    }
  }

  lemma CutIsBest(docs: seq<Document>, bags: seq<Bag>, q: seq<string>, sorted: seq<Hit>, top: int, cut: seq<Hit>)
    requires |docs| == |bags| && top > 0 && AllHits(bags, q, sorted) && InOrder(sorted, HigherScore())
    requires cut == if |sorted| > top then sorted[..top] else sorted
    ensures forall h :: h in cut ==> 0 <= h.idx < |docs|
    ensures Best(docs, bags, q, top, Gather(docs, cut), Order(cut))
  {
    hide Shares, Score, AllHits, InOrder, Has, DistinctBy;
    CutInRange(bags, q, sorted, cut);
    CutInOrder(sorted, cut) by { SplitHits(bags, q, sorted); }
    var out, order := Gather(docs, cut), Order(cut);
    forall k | 0 <= k < |order| ensures Returned(docs, bags, q, out[k], order[k]) {
      assert cut[k] in cut;
    }
    forall i | Shares(bags, q, i) && i !in order ensures |out| == top && Beaten(bags, q, out, i) {
      CutBeats(bags, q, sorted, cut, i);
    }
  }

  lemma SplitHits(bags: seq<Bag>, q: seq<string>, arr: seq<Hit>)
    requires AllHits(bags, q, arr)
    ensures DistinctBy(arr, IdxOf())
  {
  }

  lemma BagsDistinct(docs: seq<Document>, lower: char -> char, i: int)
    requires 0 <= i < |docs|
    ensures Distinct(BagsOf(docs, lower)[i])
  {
    hide TextTokens, Distinct;
    var d := docs[i];
    TextTokensAre(d.content + " " + d.title + " " + Join(d.tags), lower);
  }

  lemma NothingPosted(bags: seq<Bag>)
    ensures Posted(map[], HoldersSoFar(bags, 0, []))
  {
  }

  lemma PostOneEmpty(tokens: map<string, map<int, int>>, t: string, i: int)
    requires i !in Posts(tokens, t)
    ensures t !in tokens ==> tokens[t := map[]][t := map[i := 1]] == tokens[t := Posts(tokens, t)[i := 1]]
  {
  }

  lemma AllPosted(bags: seq<Bag>, tokens: map<string, map<int, int>>)
    requires Posted(tokens, HoldersSoFar(bags, |bags|, []))
    ensures Posted(tokens, HoldersIn(bags))
  {
    hide Holders, Posts, Ones;
    var before := HoldersSoFar(bags, |bags|, []);
    assert bags[..|bags|] == bags;
    forall t ensures Posts(tokens, t) == Ones(Holders(bags, t)) && (t in tokens <==> Holders(bags, t) != {}) {
      assert before(t) == Holders(bags, t);
    }
  }
}
