/**
 Book recommendations: interest weights, similar readers, shared readers, ranking
 and the fallback to popular books. Loops over Go maps take their elements in any
 order; the results are formulas over sets, so the order does not matter.
 */
module Recommend {
  import opened Sums
  import opened GoMaps
  import opened StableSort
  import opened Text

  datatype Book = Book(id: int, author: string, subjects: string)
  datatype Reading = Reading(patron: int, book: int)
  datatype Rec = Rec(book: int, available: int, score: int, reasons: seq<string>)

  /** The rows a recommendation reads: the patron's books, everybody's reading, and free copies per book. */
  datatype Query = Query(me: int, read: seq<Book>, taste: string, records: seq<Reading>, free: map<int, int>)

  const TASTE_WEIGHT := 3
  const MAX_LIMIT := 20

  // ---- Sums over sets, in whatever order ----

  ghost function SumSet<T(!new)>(s: set<T>, f: T -> int): int {
    if s == {} then 0 else var x :| x in s; f(x) + SumSet(s - {x}, f)
  }

  lemma {:induction false} SumSetRemove<T(!new)>(s: set<T>, x: T, f: T -> int)
    requires x in s
    ensures SumSet(s, f) == f(x) + SumSet(s - {x}, f)
  {
    var y :| y in s && SumSet(s, f) == f(y) + SumSet(s - {y}, f);
    if y != x {
      SumSetRemove(s - {y}, x, f);
      SumSetRemove(s - {x}, y, f);
      assert s - {y} - {x} == s - {x} - {y};
    }
  }

  lemma SumSetAdd<T(!new)>(s: set<T>, x: T, f: T -> int)
    requires x !in s
    ensures SumSet(s + {x}, f) == SumSet(s, f) + f(x)
  {
    SumSetRemove(s + {x}, x, f);
    assert s + {x} - {x} == s;
  }

  // ---- The formulas ----

  function ReadBooks(q: Query): seq<Book> { if q.me > 0 then q.read else [] }

  function Mine(q: Query): set<int> { set b | b in ReadBooks(q) :: b.id }

  function WeightFrom(k: string): Book -> int {
    (b: Book) => (if k in ListTokens(b.subjects) then 1 else 0) + (if b.author != "" && b.author == k then 1 else 0)
  }

  /** Interest in a keyword: books read on it, books read by that author, and three for naming it. */
  function Weight(q: Query, k: string): int {
    Sum(ReadBooks(q), WeightFrom(k)) + (if k in ListTokens(q.taste) then TASTE_WEIGHT else 0)
  }

  function BooksOf(records: seq<Reading>, p: int): set<int> { set r | r in records && r.patron == p :: r.book }

  function Readers(records: seq<Reading>): set<int> { set r | r in records :: r.patron }

  /** Twenty times the Jaccard similarity, dropped below one twentieth and rounded down. */
  function Similarity(mine: set<int>, books: set<int>): int {
    var inter, union := |mine * books|, |mine + books|;
    if inter == 0 || 20 * inter < union then 0 else 20 * inter / union
  }

  function SimFrom(q: Query, b: int): int -> int {
    (p: int) =>
      if p != q.me && b in BooksOf(q.records, p) && b !in Mine(q)
      then Similarity(Mine(q), BooksOf(q.records, p)) else 0
  }

  /** What similar readers say about a book the patron has not read. */
  ghost function SimScore(q: Query, b: int): int { SumSet(Readers(q.records), SimFrom(q, b)) }

  predicate SharesReader(q: Query, b: int, p: int) {
    p != q.me && BooksOf(q.records, p) * Mine(q) != {} && b in BooksOf(q.records, p) && b !in Mine(q)
  }

  function Sharing(q: Query, b: int, readers: set<int>): int { |set p | p in readers && SharesReader(q, b, p)| }

  /** How many other readers share a book with the patron and read `b`. */
  function CoScore(q: Query, b: int): int { Sharing(q, b, Readers(q.records)) }

  function TokenWeights(q: Query, tokens: seq<string>): int {
    if tokens == [] then 0 else TokenWeights(q, tokens[..|tokens| - 1]) + Weight(q, tokens[|tokens| - 1])
  }

  /** The score of a candidate. */
  ghost function BookScore(q: Query, b: Book): int {
    TokenWeights(q, ListTokens(b.subjects)) + (if b.author != "" then 2 * Weight(q, b.author) else 0)
    + 2 * SimScore(q, b.id) + CoScore(q, b.id) + (if Count(q.free, b.id) > 0 then 2 else 0)
  }

  const AUTHOR_REASON: string := "\U{4F5C}\U{8005} "
  const SIMILAR_REASON: string := "\U{76F8}\U{4F3C}\U{8BFB}\U{8005}\U{4E5F}\U{8BFB}\U{8FC7}"
  const SHARED_REASON: string := "\U{4E0E}\U{60A8}\U{501F}\U{8FC7}\U{7684}\U{4E66}\U{76F8}\U{5173}"
  const FREE_REASON: string := "\U{6709}\U{53EF}\U{501F}\U{526F}\U{672C}"

  /** The tokens the patron is interested in, in order. */
  function Wanted(q: Query, tokens: seq<string>): seq<string> {
    if tokens == [] then []
    else
      var last := tokens[|tokens| - 1];
      Wanted(q, tokens[..|tokens| - 1]) + (if Weight(q, last) > 0 then [last] else [])
  }

  function If(c: bool, reason: string): seq<string> { if c then [reason] else [] }

  /** Why a candidate is recommended. */
  ghost function Why(q: Query, b: Book): seq<string> {
    Wanted(q, ListTokens(b.subjects)) + If(b.author != "" && Weight(q, b.author) > 0, AUTHOR_REASON + b.author)
    + If(SimScore(q, b.id) > 0, SIMILAR_REASON) + If(CoScore(q, b.id) > 0, SHARED_REASON)
      + If(Count(q.free, b.id) > 0, FREE_REASON)
  }

  /** The candidates: books not yet read, with a positive score, in catalogue order. */
  ghost function Candidates(q: Query, books: seq<Book>): seq<Rec> {
    if books == [] then []
    else
      var b := books[|books| - 1];
      Candidates(q, books[..|books| - 1])
        + (if b.id !in Mine(q) && BookScore(q, b) > 0
          then [Rec(b.id, Count(q.free, b.id), BookScore(q, b), Dedup(Why(q, b)))] else [])
  }

  // ---- Interest ----

  method AddTokens(interest: map<string, int>, tokens: seq<string>, amount: int) returns (r: map<string, int>)
    requires forall i, j :: 0 <= i < j < |tokens| ==> tokens[i] != tokens[j]
    ensures forall k :: Count(r, k) == Count(interest, k) + (if k in tokens then amount else 0)
  {
    r := interest;
    for i := 0 to |tokens|
      invariant forall k :: Count(r, k) == Count(interest, k) + (if k in tokens[..i] then amount else 0)
    {
      assert tokens[..i + 1] == tokens[..i] + [tokens[i]];
      assert tokens[i] !in tokens[..i];
      r := r[tokens[i] := Count(r, tokens[i]) + amount];
    }
    assert tokens[..|tokens|] == tokens;
  }

  method BuildInterest(q: Query) returns (interest: map<string, int>)
    ensures forall k :: Count(interest, k) == Weight(q, k)
  {
    hide ListTokens;
    var books := ReadBooks(q);
    interest := map[];
    for i := 0 to |books|
      invariant forall k :: Count(interest, k) == Sum(books[..i], WeightFrom(k))
    {
      assert books[..i + 1] == books[..i] + [books[i]];
      forall k ensures Sum(books[..i + 1], WeightFrom(k)) == Sum(books[..i], WeightFrom(k)) + WeightFrom(k)(books[i]) {
        SumAppend(books[..i], books[i], WeightFrom(k));
      }
      TokensDistinct(books[i].subjects);
      interest := AddTokens(interest, ListTokens(books[i].subjects), 1);
      if books[i].author != "" { interest := interest[books[i].author := Count(interest, books[i].author) + 1]; }
    }
    assert books[..|books|] == books;
    TokensDistinct(q.taste);
    interest := AddTokens(interest, ListTokens(q.taste), TASTE_WEIGHT);
  }

  lemma TokensDistinct(s: string)
    ensures forall i, j :: 0 <= i < j < |ListTokens(s)| ==> ListTokens(s)[i] != ListTokens(s)[j]
  {
  }

  // ---- Other readers ----

  method GroupByPatron(records: seq<Reading>) returns (byPatron: map<int, set<int>>)
    ensures byPatron.Keys == Readers(records)
    ensures forall p :: p in byPatron ==> byPatron[p] == BooksOf(records, p)
  {
    byPatron := map[];
    for i := 0 to |records|
      invariant byPatron.Keys == Readers(records[..i])
      invariant forall p :: p in byPatron ==> byPatron[p] == BooksOf(records[..i], p)
    {
      var r := records[i];
      assert records[..i + 1] == records[..i] + [r];
      if r.patron !in byPatron {
        assert BooksOf(records[..i], r.patron) == {};
        byPatron := byPatron[r.patron := {}];
      }
      byPatron := byPatron[r.patron := byPatron[r.patron] + {r.book}];
    }
    assert records[..|records|] == records;
  }

  /** Counts shared books and all books, taking them in any order. */
  method Overlap(mine: set<int>, books: set<int>) returns (inter: int, union: int)
    ensures inter == |mine * books| && union == |mine + books|
  {
    inter, union := 0, |mine|;
    var todo, done: set<int> := books, {};
    while todo != {}
      invariant done + todo == books && done !! todo
      invariant inter == |mine * done| && union == |mine + done|
      decreases todo
    {
      var b := Any(todo);
      OverlapGrows(mine, done, b);
      if b in mine { inter := inter + 1; } else { union := union + 1; }
      todo, done := todo - {b}, done + {b};
    }
    assert done == books;
  }

  lemma OverlapGrows(mine: set<int>, done: set<int>, b: int)
    requires b !in done
    ensures |mine * (done + {b})| == |mine * done| + (if b in mine then 1 else 0)
    ensures |mine + (done + {b})| == |mine + done| + (if b in mine then 0 else 1)
  {
    if b in mine {
      assert mine * (done + {b}) == mine * done + {b};
      assert mine + (done + {b}) == mine + done;
    } else {
      assert mine * (done + {b}) == mine * done;
      assert mine + (done + {b}) == mine + done + {b};
    }
  }

  /** Adds `amount` to every book of the set that is not mine, in any order. */
  method AddToOthers(scores: map<int, int>, books: set<int>, mine: set<int>, amount: int) returns (r: map<int, int>)
    ensures forall b :: Count(r, b) == Count(scores, b) + (if b in books && b !in mine then amount else 0)
  {
    r := scores;
    var todo := books;
    while todo != {}
      invariant todo <= books
      invariant forall b ::
          Count(r, b) == Count(scores, b) + (if b in books && b !in todo && b !in mine then amount else 0)
      decreases todo
    {
      var b := Any(todo);
      if b !in mine { r := r[b := Count(r, b) + amount]; }
      todo := todo - {b};
    }
  }

  method SimilarReaders(q: Query, byPatron: map<int, set<int>>) returns (sim: map<int, int>)
    requires byPatron.Keys == Readers(q.records) && forall p :: p in byPatron ==> byPatron[p] == BooksOf(q.records, p)
    ensures forall b :: Count(sim, b) == SimScore(q, b)
  {
    hide BooksOf, Readers, Mine, Similarity;
    var mine := Mine(q);
    sim := map[];
    var todo, done: set<int> := byPatron.Keys, {};
    if mine == {} {
      forall b { NoSimilar(q, b); }
      return;
    }
    while todo != {}
      invariant done + todo == byPatron.Keys && done !! todo
      invariant forall b :: Count(sim, b) == SumSet(done, SimFrom(q, b))
      decreases todo
    {
      var p := Any(todo);
      forall b ensures SumSet(done + {p}, SimFrom(q, b)) == SumSet(done, SimFrom(q, b)) + SimFrom(q, b)(p) {
        SumSetAdd(done, p, SimFrom(q, b));
      }
      if p != q.me {
        var inter, union := Overlap(mine, byPatron[p]);
        SimilarityIs(mine, byPatron[p]);
        if inter != 0 && 20 * inter >= union {
          sim := AddToOthers(sim, byPatron[p], mine, 20 * inter / union);
        }
      }
      todo, done := todo - {p}, done + {p};
    }
    assert done == byPatron.Keys;
  }

  /** Nobody is similar to a patron who has read nothing. */
  lemma NoSimilar(q: Query, b: int)
    requires Mine(q) == {}
    ensures SimScore(q, b) == 0
  {
    hide BooksOf, Readers, Mine;
    SumSetZero(Readers(q.records), SimFrom(q, b));
  }

  lemma {:induction false} SumSetZero<T(!new)>(s: set<T>, f: T -> int)
    requires forall x :: f(x) == 0
    ensures SumSet(s, f) == 0
  {
    if s != {} {
      var x :| x in s;
      SumSetZero(s - {x}, f);
      SumSetRemove(s, x, f);
    }
  }

  lemma SimilarityIs(mine: set<int>, books: set<int>)
    ensures |mine * books| <= |mine + books|
    ensures Similarity(mine, books) == if |mine * books| == 0 || 20 * |mine * books| < |mine + books| then 0
        else 20 * |mine * books| / |mine + books|
  {
    SubsetSize(mine * books, mine + books);
  }

  lemma SubsetSize(a: set<int>, b: set<int>)
    requires a <= b
    ensures |a| <= |b|
  {
    assert b == a + (b - a);
  }

  method SharesAny(mine: set<int>, books: set<int>) returns (shared: bool)
    ensures shared <==> books * mine != {}
  {
    shared := false;
    var todo := mine;
    while todo != {} && !shared
      invariant todo <= mine && (shared ==> books * mine != {})
      invariant !shared ==> books * mine <= todo
      decreases todo, !shared
    {
      var b := Any(todo);
      if b in books {
        assert b in books * mine;
        shared := true;
      } else {
        todo := todo - {b};
      }
    }
  }

  method SharedReaders(q: Query, byPatron: map<int, set<int>>) returns (co: map<int, int>)
    requires byPatron.Keys == Readers(q.records) && forall p :: p in byPatron ==> byPatron[p] == BooksOf(q.records, p)
    ensures forall b :: Count(co, b) == CoScore(q, b)
  {
    hide BooksOf, Readers, Mine, Sharing;
    var mine := Mine(q);
    co := map[];
    var todo, done: set<int> := byPatron.Keys, {};
    forall b { NobodyShares(q, b); }
    while todo != {}
      invariant done + todo == byPatron.Keys && done !! todo
      invariant forall b :: Count(co, b) == Sharing(q, b, done)
      decreases todo
    {
      var p := Any(todo);
      forall b { OneMore(q, b, done, p); }
      if p != q.me {
        var shared := SharesAny(mine, byPatron[p]);
        if shared { co := AddToOthers(co, byPatron[p], mine, 1); }
      }
      todo, done := todo - {p}, done + {p};
    }
    assert done == byPatron.Keys;
  }

  lemma NobodyShares(q: Query, b: int)
    ensures Sharing(q, b, {}) == 0
  {
    assert (set p | p in {} && SharesReader(q, b, p)) == {};
  }

  lemma OneMore(q: Query, b: int, done: set<int>, p: int)
    requires p !in done
    ensures Sharing(q, b, done + {p}) == Sharing(q, b, done) + (if SharesReader(q, b, p) then 1 else 0)
  {
    hide SharesReader;
    var s := set x | x in done && SharesReader(q, b, x);
    if SharesReader(q, b, p) {
      assert (set x | x in done + {p} && SharesReader(q, b, x)) == s + {p};
    } else {
      assert (set x | x in done + {p} && SharesReader(q, b, x)) == s;
    }
  }

  // ---- Ranking ----

  function HigherScore(): (Rec, Rec) -> bool { (a: Rec, b: Rec) => a.score > b.score }

  function BookOf(): Rec -> int { (r: Rec) => r.book }

  /** Stable sort by descending score. */
  function Ranked(recs: seq<Rec>): seq<Rec> { Sorted(recs, HigherScore()) }

  // ---- The popular books that fill up ----

  predicate Listed(recs: seq<Rec>, book: int) { exists i :: 0 <= i < |recs| && recs[i].book == book }

  /** Popular books, in order, while there is room, skipping those read or already listed. */
  function Filled(ranked: seq<Rec>, hot: seq<Rec>, mine: set<int>, limit: int): seq<Rec>
    decreases |hot|
  {
    if hot == [] || |ranked| >= limit then ranked
    else if hot[0].book in mine || Listed(ranked, hot[0].book) then Filled(ranked, hot[1..], mine, limit)
    else Filled(ranked + [hot[0]], hot[1..], mine, limit)
  }

  function Limit(limit: int): int { if limit <= 0 then 5 else if limit > MAX_LIMIT then MAX_LIMIT else limit }

  function Cut(recs: seq<Rec>, limit: int): seq<Rec>
    requires limit >= 0
  {
    if |recs| > limit then recs[..limit] else recs
  }

  ghost function Recommendation(q: Query, books: seq<Book>, hot: seq<Rec>, limit: int): seq<Rec> {
    Cut(Filled(Ranked(Candidates(q, books)), hot, Mine(q), Limit(limit)), Limit(limit))
  }

  method FillUp(ranked: seq<Rec>, hot: seq<Rec>, mine: set<int>, limit: int) returns (r: seq<Rec>)
    ensures r == Filled(ranked, hot, mine, limit)
  {
    r := ranked;
    var i := 0;
    while i < |hot| && |r| < limit
      invariant 0 <= i <= |hot|
      invariant Filled(ranked, hot, mine, limit) == Filled(r, hot[i..], mine, limit)
    {
      assert hot[i..][0] == hot[i] && hot[i..][1..] == hot[i + 1..];
      if hot[i].book !in mine && !Listed(r, hot[i].book) { r := r + [hot[i]]; }
      i := i + 1;
    }
  }

  method ScoreBook(ghost q: Query, interest: map<string, int>, sim: map<int, int>, co: map<int, int>, b: Book,
      free: int)
    returns (score: int, reasons: seq<string>)
    requires forall k :: Count(interest, k) == Weight(q, k)
    requires forall x :: Count(sim, x) == SimScore(q, x) && Count(co, x) == CoScore(q, x)
    requires free == Count(q.free, b.id)
    ensures score == BookScore(q, b) && reasons == Dedup(Why(q, b))
  {
    hide Weight, SimScore, CoScore, ListTokens, TokenWeights, Wanted, Dedup;
    WeightsNotNegative(q);
    ScoresNotNegative(q, b.id);
    var why;
    score, why := ScoreTokens(q, interest, ListTokens(b.subjects));
    if b.author != "" && Count(interest, b.author) > 0 {
      score := score + Count(interest, b.author) * 2;
      why := why + [AUTHOR_REASON + b.author];
    }
    if Count(sim, b.id) > 0 {
      score := score + Count(sim, b.id) * 2;
      why := why + [SIMILAR_REASON];
    }
    if Count(co, b.id) > 0 {
      score := score + Count(co, b.id);
      why := why + [SHARED_REASON];
    }
    if free > 0 {
      score := score + 2;
      why := why + [FREE_REASON];
    }
    assert why == Why(q, b);
    reasons := DedupStrings(why);
  }

  method ScoreTokens(ghost q: Query, interest: map<string, int>, tokens: seq<string>)
    returns (score: int, why: seq<string>)
    requires forall k :: Count(interest, k) == Weight(q, k)
    ensures score == TokenWeights(q, tokens) && why == Wanted(q, tokens)
  {
    hide Weight;
    WeightsNotNegative(q);
    score, why := 0, [];
    for i := 0 to |tokens|
      invariant score == TokenWeights(q, tokens[..i]) && why == Wanted(q, tokens[..i])
    {
      assert tokens[..i + 1][..i] == tokens[..i];
      var w := Count(interest, tokens[i]);
      if w > 0 {
        score := score + w;
        why := why + [tokens[i]];
      }
    }
    assert tokens[..|tokens|] == tokens;
  }

  lemma {:induction false} WantedWeigh(q: Query, tokens: seq<string>)
    ensures TokenWeights(q, tokens) >= 0 && (TokenWeights(q, tokens) > 0 <==> Wanted(q, tokens) != [])
  {
    hide Weight;
    WeightsNotNegative(q);
    if tokens != [] { WantedWeigh(q, tokens[..|tokens| - 1]); }
  }

  /** A book scores exactly when there is a reason for it. */
  lemma ScoredIffReason(q: Query, b: Book)
    ensures BookScore(q, b) >= 0 && (BookScore(q, b) > 0 <==> Dedup(Why(q, b)) != [])
  {
    hide Weight, SimScore, CoScore, ListTokens, TokenWeights, Wanted, Dedup;
    WantedWeigh(q, ListTokens(b.subjects));
    WeightsNotNegative(q);
    ScoresNotNegative(q, b.id);
    NoReasons(Why(q, b));
  }

  lemma NoReasons(why: seq<string>)
    ensures Dedup(why) == [] <==> why == []
  {
    if why != [] { assert why[0] in why; }
  }

  lemma WeightsNotNegative(q: Query)
    ensures forall k :: Weight(q, k) >= 0
  {
    hide ListTokens;
    forall k ensures Weight(q, k) >= 0 {
      SumNonNegative(ReadBooks(q), WeightFrom(k));
    }
  }

  lemma {:induction false} SumSetNotNegative<T(!new)>(s: set<T>, f: T -> int)
    requires forall x :: f(x) >= 0
    ensures SumSet(s, f) >= 0
  {
    if s != {} {
      var x :| x in s;
      SumSetNotNegative(s - {x}, f);
      SumSetRemove(s, x, f);
    }
  }

  lemma ScoresNotNegative(q: Query, b: int)
    ensures SimScore(q, b) >= 0 && CoScore(q, b) >= 0
  {
    hide BooksOf, Readers, Mine;
    SumSetNotNegative(Readers(q.records), SimFrom(q, b));
  }

  /** `RecommendForPatron`. */
  method RecommendForPatron(q: Query, books: seq<Book>, hot: seq<Rec>, limit: int) returns (r: seq<Rec>)
    ensures r == Recommendation(q, books, hot, limit)
  {
    hide Weight, SimScore, CoScore, BookScore, Why, Mine, Filled, Ranked;
    var top := Limit(limit);
    var mine := Mine(q);
    var interest := BuildInterest(q);
    var byPatron := GroupByPatron(q.records);
    var sim := SimilarReaders(q, byPatron);
    var co := SharedReaders(q, byPatron);
    var ranked: seq<Rec> := [];
    for i := 0 to |books|
      invariant ranked == Candidates(q, books[..i])
    {
      assert books[..i + 1][..i] == books[..i];
      if books[i].id !in mine {
        var free := Count(q.free, books[i].id);
        var score, reasons := ScoreBook(q, interest, sim, co, books[i], free);
        if score > 0 { ranked := ranked + [Rec(books[i].id, free, score, reasons)]; }
      }
    }
    assert books[..|books|] == books;
    ranked := Ranked(ranked);
    r := FillUp(ranked, hot, mine, top);
    if |r| > top { r := r[..top]; }
  }

  // ---- What the reader gets ----

  ghost predicate NoRepeats(recs: seq<Rec>) { DistinctBy(recs, BookOf()) }

  predicate DistinctBooks(books: seq<Book>) {
    forall i, j :: 0 <= i < j < |books| ==> books[i].id != books[j].id
  }

  lemma {:induction false} CandidatesAreNew(q: Query, books: seq<Book>)
    requires DistinctBooks(books)
    ensures NoRepeats(Candidates(q, books))
    ensures forall r :: r in Candidates(q, books) ==> r.book !in Mine(q) && r.score > 0 && r.reasons != []
    ensures forall r :: r in Candidates(q, books) ==> exists i :: 0 <= i < |books| && books[i].id == r.book
  {
    hide BookScore, Why, Mine, Dedup;
    if books != [] {
      var n := |books| - 1;
      CandidatesAreNew(q, books[..n]);
      ScoredIffReason(q, books[n]);
      forall r | r in Candidates(q, books) ensures exists i :: 0 <= i < |books| && books[i].id == r.book {
        if r in Candidates(q, books[..n]) {
          var i :| 0 <= i < n && books[..n][i].id == r.book;
          assert books[i].id == r.book;
        } else {
          assert books[n].id == r.book;
        }
      }
    }
  }

  /** Every unread book with a positive score is a candidate, with its score and reasons, and nothing else is. */
  lemma {:induction false} CandidatesAre(q: Query, books: seq<Book>, r: Rec)
    ensures r in Candidates(q, books)
        <==> exists b :: b in books && b.id !in Mine(q) && BookScore(q, b) > 0
                         && r == Rec(b.id, Count(q.free, b.id), BookScore(q, b), Dedup(Why(q, b)))
  {
    hide BookScore, Why, Mine, Dedup;
    if books != [] {
      var n := |books| - 1;
      assert books == books[..n] + [books[n]];
      CandidatesAre(q, books[..n], r);
    }
  }

  /** Candidates come in catalogue order. */
  lemma {:induction false} CandidatesInOrder(q: Query, books: seq<Book>, i: int, j: int, a: int, b: int)
    requires DistinctBooks(books) && 0 <= i < j < |Candidates(q, books)| && 0 <= a < |books| && 0 <= b < |books|
    requires Candidates(q, books)[i].book == books[a].id && Candidates(q, books)[j].book == books[b].id
    ensures a < b
  {
    hide BookScore, Why, Mine, Dedup;
    var n := |books| - 1;
    var front := Candidates(q, books[..n]);
    CandidatesAreNew(q, books[..n]);
    assert front[i] in front;
    var x :| 0 <= x < n && books[..n][x].id == front[i].book;
    if j < |front| {
      assert front[j] in front;
      var y :| 0 <= y < n && books[..n][y].id == front[j].book;
      CandidatesInOrder(q, books[..n], i, j, a, b);
    }
  }

  ghost predicate AllNew(recs: seq<Rec>, mine: set<int>) {
    forall i :: 0 <= i < |recs| ==> recs[i].book !in mine
  }

  lemma {:induction false} FillingKeeps(ranked: seq<Rec>, hot: seq<Rec>, mine: set<int>, limit: int)
    requires NoRepeats(ranked) && AllNew(ranked, mine)
    ensures var r := Filled(ranked, hot, mine, limit);
            && NoRepeats(r) && AllNew(r, mine) && ranked <= r && (|ranked| >= limit ==> r == ranked)
            && (|r| > |ranked| ==> |r| <= limit)
            && (|r| < limit ==> forall i :: 0 <= i < |hot| ==> hot[i].book in mine || Listed(r, hot[i].book))
    decreases |hot|
  {
    if hot != [] && |ranked| < limit {
      var next := if hot[0].book in mine || Listed(ranked, hot[0].book) then ranked else ranked + [hot[0]];
      FillingKeeps(next, hot[1..], mine, limit);
      var r := Filled(next, hot[1..], mine, limit);
      if |r| < limit {
        assert hot[0].book in mine || Listed(next, hot[0].book) by {
          if next != ranked { assert next[|ranked|] == hot[0]; }
        }
        ListedStays(next, r);
        assert forall i :: 1 <= i < |hot| ==> hot[i] == hot[1..][i - 1];
      }
    }
  }

  /** What filling adds after the ranking comes from the popular books. */
  lemma {:induction false} FillingIsHot(ranked: seq<Rec>, hot: seq<Rec>, mine: set<int>, limit: int)
    ensures ranked <= Filled(ranked, hot, mine, limit)
    ensures forall x :: x in Filled(ranked, hot, mine, limit)[|ranked|..] ==> x in hot
    decreases |hot|
  {
    hide Listed;
    if hot != [] && |ranked| < limit {
      var next := if hot[0].book in mine || Listed(ranked, hot[0].book) then ranked else ranked + [hot[0]];
      FillingIsHot(next, hot[1..], mine, limit);
      var r := Filled(next, hot[1..], mine, limit);
      if next != ranked { assert r[|ranked|..] == [hot[0]] + r[|next|..]; }
    }
  }

  /** One comes before the other in the list. */
  predicate InTurn(hot: seq<Rec>, x: Rec, y: Rec) { exists a, b :: 0 <= a < b < |hot| && hot[a] == x && hot[b] == y }

  /** What filling adds keeps the order of the popular books. */
  lemma {:induction false} FillingInOrder(ranked: seq<Rec>, hot: seq<Rec>, mine: set<int>, limit: int, i: int, j: int)
    requires |ranked| <= i < j < |Filled(ranked, hot, mine, limit)|
    ensures InTurn(hot, Filled(ranked, hot, mine, limit)[i], Filled(ranked, hot, mine, limit)[j])
    decreases |hot|
  {
    hide Listed;
    var next := if hot[0].book in mine || Listed(ranked, hot[0].book) then ranked else ranked + [hot[0]];
    var r := Filled(next, hot[1..], mine, limit);
    FillingIsHot(next, hot[1..], mine, limit);
    if |next| <= i {
      FillingInOrder(next, hot[1..], mine, limit, i, j);
      var a, b :| 0 <= a < b < |hot[1..]| && hot[1..][a] == r[i] && hot[1..][b] == r[j];
      assert hot[a + 1] == r[i] && hot[b + 1] == r[j];
    } else {
      assert r[j] == r[|next|..][j - |next|] && r[j] in hot[1..];
      var b :| 0 <= b < |hot[1..]| && hot[1..][b] == r[j];
      assert hot[0] == r[i] && hot[b + 1] == r[j];
    }
  }

  /** No popular book before `b` was passed over without a reason. */
  predicate InItsTurn(r: seq<Rec>, hot: seq<Rec>, mine: set<int>, b: int) {
    0 <= b < |hot| && forall a :: 0 <= a < b ==> hot[a].book in mine || Listed(r, hot[a].book)
  }

  /** Each popular book that is added comes only after those before it have been added, listed or read. */
  lemma {:induction false} FillingSkipsNone(ranked: seq<Rec>, hot: seq<Rec>, mine: set<int>, limit: int, i: int)
    requires |ranked| <= i < |Filled(ranked, hot, mine, limit)|
    ensures var r := Filled(ranked, hot, mine, limit);
            exists b :: InItsTurn(r, hot, mine, b) && hot[b] == r[i]
    decreases |hot|
  {
    hide Listed;
    var next := if hot[0].book in mine || Listed(ranked, hot[0].book) then ranked else ranked + [hot[0]];
    var r := Filled(next, hot[1..], mine, limit);
    FillingIsHot(next, hot[1..], mine, limit);
    FillingIsHot(ranked, hot, mine, limit);
    ListedStays(ranked, r);
    if |next| <= i {
      FillingSkipsNone(next, hot[1..], mine, limit, i);
      var b :| InItsTurn(r, hot[1..], mine, b) && hot[1..][b] == r[i];
      if next != ranked { ListedAt(r, |ranked|); }
      forall a | 0 <= a < b + 1 ensures hot[a].book in mine || Listed(r, hot[a].book) {
        assert a > 0 ==> hot[a] == hot[1..][a - 1];
      }
      assert InItsTurn(r, hot, mine, b + 1);
    } else {
      assert InItsTurn(r, hot, mine, 0) && hot[0] == r[i];
    }
  }

  lemma ListedAt(r: seq<Rec>, i: int)
    requires 0 <= i < |r|
    ensures Listed(r, r[i].book)
  {
  }

  lemma ListedStays(a: seq<Rec>, b: seq<Rec>)
    requires a <= b
    ensures forall k :: Listed(a, k) ==> Listed(b, k)
  {
    forall k | Listed(a, k) ensures Listed(b, k) {
      var i :| 0 <= i < |a| && a[i].book == k;
      assert b[i].book == k;
    }
  }

  // ---- The order of the scores ----

  /** The recommendations with this score, in order. */
  function WithScore(recs: seq<Rec>, score: int): seq<Rec> {
    if recs == [] then []
    else
      var last := recs[|recs| - 1];
      WithScore(recs[..|recs| - 1], score) + (if last.score == score then [last] else [])
  }

  lemma {:induction false} TiesAreEqualScores(recs: seq<Rec>, k: Rec)
    ensures TiesWith(recs, k, HigherScore()) == WithScore(recs, k.score)
  {
    if recs != [] { TiesAreEqualScores(recs[..|recs| - 1], k); }
  }

  /** The ranking holds every candidate, from the highest score down, equal scores in catalogue order. */
  lemma RankingDescends(cands: seq<Rec>)
    ensures var ranking := Ranked(cands);
            && multiset(ranking) == multiset(cands)
            && (forall i, j :: 0 <= i < j < |ranking| ==> ranking[i].score >= ranking[j].score)
            && (forall score :: WithScore(ranking, score) == WithScore(cands, score))
  {
    hide Sorted, TiesWith, WithScore;
    SortedIsStableSort(cands, HigherScore());
    var ranking := Ranked(cands);
    forall score ensures WithScore(ranking, score) == WithScore(cands, score) {
      var k := Rec(0, 0, score, []);
      TiesAreEqualScores(ranking, k);
      TiesAreEqualScores(cands, k);
    }
    forall i, j | 0 <= i < j < |ranking| ensures ranking[i].score >= ranking[j].score {
      assert !HigherScore()(ranking[j], ranking[i]);
    }
  }

  /** All of these are candidates that score no less than `c`. */
  predicate Beats(r: seq<Rec>, cands: seq<Rec>, c: Rec) { forall x :: x in r ==> x in cands && x.score >= c.score }

  /** What the limit cuts off scores no more than what is left. */
  lemma CutLeavesTheBest(cands: seq<Rec>, r: seq<Rec>, limit: nat)
    requires if |Ranked(cands)| >= limit then r == Ranked(cands)[..limit] else Ranked(cands) <= r
    ensures forall c :: c in cands && c !in r ==> |r| == limit && Beats(r, cands, c)
  {
    hide Ranked, Beats, WithScore;
    var ranking := Ranked(cands);
    RankingDescends(cands);
    forall c | c in cands && c !in r ensures |r| == limit && Beats(r, cands, c) {
      assert c in multiset(ranking);
      var j :| 0 <= j < |ranking| && ranking[j] == c;
      assert r == ranking[..|r|];
      assert j >= |r|;
      forall x | x in r ensures x in cands && x.score >= c.score {
        var i :| 0 <= i < |r| && r[i] == x;
        assert ranking[i] in multiset(ranking);
      }
      AllBeat(r, cands, c);
    }
  }

  lemma AllBeat(r: seq<Rec>, cands: seq<Rec>, c: Rec)
    requires forall x :: x in r ==> x in cands && x.score >= c.score
    ensures Beats(r, cands, c)
  {
  }

  /**
   The recommendation has at most `limit` (and at most 20) books, none repeated, none already
   read. It starts with the top of the ranking of all positively scored unread books; popular
   books follow only when the whole ranking fits, and it falls short of the limit only when
   every popular book is already read or listed.
   */
  lemma RecommendationIsSound(q: Query, books: seq<Book>, hot: seq<Rec>, limit: int)
    requires DistinctBooks(books)
    ensures var r, ranking := Recommendation(q, books, hot, limit), Ranked(Candidates(q, books));
            && multiset(ranking) == multiset(Candidates(q, books))
            && (forall i, j :: 0 <= i < j < |ranking| ==> ranking[i].score >= ranking[j].score)
            && (forall score :: WithScore(ranking, score) == WithScore(Candidates(q, books), score))
            && |r| <= Limit(limit) == (if limit <= 0 then 5 else if limit > 20 then 20 else limit)
            && NoRepeats(r) && AllNew(r, Mine(q))
            && (forall c :: c in Candidates(q, books) && c !in r ==>
                  |r| == Limit(limit) && Beats(r, Candidates(q, books), c))
            && (if |ranking| >= Limit(limit) then r == ranking[..Limit(limit)]
                else ranking <= r && forall x :: x in r[|ranking|..] ==> x in hot)
            && (|r| < Limit(limit) ==> forall i :: 0 <= i < |hot| ==> hot[i].book in Mine(q) || Listed(r, hot[i].book))
  {
    hide Candidates, Mine, Filled, Listed, Ranked, WithScore;
    var cands, mine := Candidates(q, books), Mine(q);
    var ranking := Ranked(cands);
    CandidatesAreNew(q, books);
    RankingDescends(cands);
    PermutationKeepsDistinct(cands, ranking, BookOf());
    forall i | 0 <= i < |ranking| ensures ranking[i].book !in mine {
      assert ranking[i] in multiset(ranking);
      assert ranking[i] in cands;
    }
    FillingKeeps(ranking, hot, mine, Limit(limit));
    FillingIsHot(ranking, hot, mine, Limit(limit));
    CutLeavesTheBest(cands, Recommendation(q, books, hot, limit), Limit(limit));
  }

  // ---- A worked score ----

  /** The patron has read one book, names its subject as taste, and one other reader has read it too. */
  function WorkedQuery(): Query {
    Query(1, [Book(1, "A", "x")], "x", [Reading(1, 1), Reading(2, 1), Reading(2, 2)], map[2 := 1])
  }

  lemma OneWord()
    ensures ListTokens("x") == ["x"]
  {
    var spaced := Spaced("x", LIST_MARKS);
    assert spaced == "x";
    assert WordLength("x") == 1;
    assert "x"[..1] == "x" && "x"[1..] == "";
    assert Words("") == [];
    assert Words("x") == ["x"];
    var tokens := Dedup(["x"]);
    assert forall i :: 0 <= i < |tokens| ==> tokens[i] in tokens;
    assert "x" in tokens;
  }

  lemma WorkedShelves()
    ensures var q := WorkedQuery();
            && Readers(q.records) == {1, 2} && BooksOf(q.records, 2) == {1, 2} && Mine(q) == {1} && q.me == 1
  {
    var q := WorkedQuery();
    var records := q.records;
    assert records[0] in records && records[1] in records && records[2] in records;
    assert q.read[0] in ReadBooks(q);
  }

  lemma WorkedSimilarity(q: Query)
    requires Readers(q.records) == {1, 2} && BooksOf(q.records, 2) == {1, 2} && Mine(q) == {1} && q.me == 1
    ensures SimScore(q, 2) == 10
  {
    hide Readers, BooksOf, Mine;
    assert {1} * {1, 2} == {1} && {1} + {1, 2} == {1, 2};
    SumSetRemove({1, 2}, 2, SimFrom(q, 2));
    assert {1, 2} - {2} == {1};
    SumSetRemove({1}, 1, SimFrom(q, 2));
    assert {1} - {1} == {};
  }

  lemma WorkedSharing(q: Query)
    requires Readers(q.records) == {1, 2} && BooksOf(q.records, 2) == {1, 2} && Mine(q) == {1} && q.me == 1
    ensures CoScore(q, 2) == 1
  {
    hide Readers, BooksOf, Mine, Sharing;
    assert 1 in BooksOf(q.records, 2) * Mine(q);
    NobodyShares(q, 2);
    OneMore(q, 2, {}, 2);
    OneMore(q, 2, {} + {2}, 1);
    assert {} + {2} + {1} == {1, 2};
  }

  /**
   A free book of the same author on the same subject, read by the one similar reader: four for the
   subject, two for the author, twice ten for the reader who shares one of two books, one for
   sharing, two for being free; and a reason for each.
   */
  lemma WorkedScore()
    ensures BookScore(WorkedQuery(), Book(2, "A", "x")) == 4 + 2 + 20 + 1 + 2
    ensures Why(WorkedQuery(), Book(2, "A", "x"))
         == ["x", "\U{4F5C}\U{8005} A", "\U{76F8}\U{4F3C}\U{8BFB}\U{8005}\U{4E5F}\U{8BFB}\U{8FC7}",
             "\U{4E0E}\U{60A8}\U{501F}\U{8FC7}\U{7684}\U{4E66}\U{76F8}\U{5173}",
             "\U{6709}\U{53EF}\U{501F}\U{526F}\U{672C}"]
  {
    hide ListTokens, SimScore, CoScore, Readers, BooksOf, Mine;
    var q := WorkedQuery();
    OneWord();
    WorkedShelves();
    WorkedSimilarity(q);
    WorkedSharing(q);
    assert q.read[..0] == [];
    assert Weight(q, "x") == 4 && Weight(q, "A") == 1;
    assert ["x"][..0] == [];
    assert TokenWeights(q, ["x"]) == 4;
    assert Wanted(q, ["x"]) == ["x"];
    assert AUTHOR_REASON + "A" == "\U{4F5C}\U{8005} A";
  }
}
