/**
 Semantic ranking with an embedding cache (src/semantic.rs). The embedding model, the text hash and
 the similarity score are parameters.
 */
module Semantic {
  import opened Prelude
  import opened Sorting

  const EMBED_BATCH := 128

  const MAX_EMBED_CHARS := 2000

  function EmbedText(wire: string, description: string): string {
    var text := wire + ": " + description;
    if |text| <= MAX_EMBED_CHARS then text else text[..MAX_EMBED_CHARS]
  }

  /**
   The embedded text is the name and the description, cut at 2000 characters: up to there a change of
   either shows.
   */
  lemma EmbedTextShows(wire: string, a: string, b: string)
    requires EmbedText(wire, a) == EmbedText(wire, b)
    ensures |wire| + 2 + |a| < 2000 ==> a == b
    ensures |wire| + 2 <= 2000 ==> forall i :: 0 <= i < |a| && i < |b| && |wire| + 2 + i < 2000 ==> a[i] == b[i]
  {
    var x, y := wire + ": " + a, wire + ": " + b;
    forall i | 0 <= i < |a| && i < |b| && |wire| + 2 + i < 2000 ensures a[i] == b[i] {
      assert x[|wire| + 2 + i] == a[i] && y[|wire| + 2 + i] == b[i];
      assert EmbedText(wire, a)[|wire| + 2 + i] == a[i] && EmbedText(wire, b)[|wire| + 2 + i] == b[i];
    }
    if |wire| + 2 + |a| < 2000 {
      assert EmbedText(wire, a) == x && |EmbedText(wire, b)| == |x|;
      assert EmbedText(wire, b) == y && |a| == |b|;
    }
  }

  lemma EmbedTextBegins(wire: string, description: string)
    ensures EmbedText(wire, description) <= wire + ": " + description && |EmbedText(wire, description)| <= 2000
  {
  }

  /** A tool offered for ranking. */
  datatype Candidate = Candidate(wire: string, description: string) {
    function Text(): string { EmbedText(wire, description) }
  }

  // ── One response of the embeddings endpoint ──

  /** An embedding with the input position it belongs to. */
  datatype Item<V> = Item(index: nat, vector: V)

  predicate IndexLe<V>(a: Item<V>, b: Item<V>) { a.index <= b.index }

  /** Every input answered once, in whatever order. */
  ghost predicate Answers<V>(model: string -> V, chunk: seq<string>, data: seq<Item<V>>) {
    && |data| == |chunk|
    && (forall i, j :: 0 <= i < j < |data| ==> data[i].index != data[j].index)
    && (forall x :: x in data ==> x.index < |chunk| && x.vector == model(chunk[x.index]))
  }

  lemma {:induction false} IncreasingAbove(xs: seq<nat>, i: nat)
    requires i < |xs| && forall j, k :: 0 <= j < k < |xs| ==> xs[j] < xs[k]
    ensures xs[i] >= i
  {
    if i > 0 { IncreasingAbove(xs, i - 1); }
  }

  lemma {:induction false} IncreasingBelow(xs: seq<nat>, n: nat, i: nat)
    requires i < |xs| && (forall j, k :: 0 <= j < k < |xs| ==> xs[j] < xs[k]) && forall j :: 0 <= j < |xs| ==> xs[j] < n
    ensures xs[i] + (|xs| - i) <= n
    decreases |xs| - i
  {
    if i + 1 < |xs| { IncreasingBelow(xs, n, i + 1); }
  }

  function IndexOf<V>(x: Item<V>): nat { x.index }

  function InInputOrder<V>(data: seq<Item<V>>): seq<Item<V>> {
    SortBy((a: Item<V>, b: Item<V>) => IndexLe(a, b), data)
  }

  lemma IndicesIncrease<V(!new)>(data: seq<Item<V>>)
    requires forall i, j :: 0 <= i < j < |data| ==> data[i].index != data[j].index
    ensures var xs := Map(IndexOf, InInputOrder(data)); forall i, j :: 0 <= i < j < |xs| ==> xs[i] < xs[j]
  {
    var le := (a: Item<V>, b: Item<V>) => IndexLe(a, b);
    var sorted := SortBy(le, data);
    SortBySorted(le, data);
    SortMapMultiset(le, IndexOf, data);
    DistinctPermutation(Map(IndexOf, data), Map(IndexOf, sorted));
    var xs := Map(IndexOf, sorted);
    forall i, j | 0 <= i < j < |xs| ensures xs[i] < xs[j] {
      assert le(sorted[i], sorted[j]) && xs[i] != xs[j];
    }
  }

  /** Sorting a response by index puts the embeddings in input order. */
  lemma AnswersInOrder<V(!new)>(model: string -> V, chunk: seq<string>, data: seq<Item<V>>, i: nat)
    requires Answers(model, chunk, data) && i < |chunk|
    ensures |InInputOrder(data)| == |chunk| && InInputOrder(data)[i].vector == model(chunk[i])
  {
    var sorted := InInputOrder(data);
    var xs := Map(IndexOf, sorted);
    IndicesIncrease(data);
    forall j | 0 <= j < |xs| ensures xs[j] < |chunk| { assert sorted[j] in data; }
    IncreasingAbove(xs, i);
    IncreasingBelow(xs, |chunk|, i);
    assert sorted[i] in data && xs[i] == i;
  }

  /** The endpoint answers every batch it answers with the right number of embeddings. */
  ghost predicate Faithful<V(!new)>(model: string -> V, endpoint: seq<string> -> Option<seq<Item<V>>>) {
    forall chunk :: endpoint(chunk).Some? && |endpoint(chunk).value| == |chunk| ==>
        Answers(model, chunk, endpoint(chunk).value)
  }

  method EmbedBatch<V(!new)>(model: string -> V, endpoint: seq<string> -> Option<seq<Item<V>>>, chunk: seq<string>)
    returns (r: Option<seq<V>>)
    requires Faithful(model, endpoint)
    ensures r.Some? ==> r.value == Map(model, chunk)
    ensures r.Some? <==> endpoint(chunk).Some? && |endpoint(chunk).value| == |chunk|
  {
    var data := endpoint(chunk);
    if data.None? || |data.value| != |chunk| { return None; }
    var sorted := InInputOrder(data.value);
    var vectors := Map((x: Item<V>) => x.vector, sorted);
    forall i | 0 <= i < |chunk| ensures vectors[i] == model(chunk[i]) {
      AnswersInOrder(model, chunk, data.value, i);
    }
    return Some(vectors);
  }

  /** The batches: 128 inputs each, the last one the rest. */
  function Batches(inputs: seq<string>): seq<seq<string>>
  {
    if inputs == [] then [] else if |inputs| <= EMBED_BATCH then [inputs]
    else [inputs[..EMBED_BATCH]] + Batches(inputs[EMBED_BATCH..])
  }

  /** No request has more than 128 inputs, and none but the last has fewer. */
  lemma {:induction false} BatchSizes(inputs: seq<string>, i: nat)
    requires i < |Batches(inputs)|
    ensures 1 <= |Batches(inputs)[i]| <= 128 && (i + 1 < |Batches(inputs)| ==> |Batches(inputs)[i]| == 128)
    decreases |inputs|
  {
    if |inputs| > EMBED_BATCH && i > 0 { BatchSizes(inputs[EMBED_BATCH..], i - 1); }
  }

  /** The endpoint answers this batch with as many embeddings as inputs. */
  predicate Answered<V>(endpoint: seq<string> -> Option<seq<Item<V>>>, chunk: seq<string>) {
    endpoint(chunk).Some? && |endpoint(chunk).value| == |chunk|
  }

  /** `embed`: batches in order; it fails exactly if one of them is not answered. */
  method Embed<V(!new)>(model: string -> V, endpoint: seq<string> -> Option<seq<Item<V>>>, inputs: seq<string>)
    returns (r: Option<seq<V>>)
    requires Faithful(model, endpoint)
    ensures r.Some? ==> r.value == Map(model, inputs)
    ensures r.Some? <==> forall chunk :: chunk in Batches(inputs) ==> Answered(endpoint, chunk)
  {
    var out: seq<V> := [];
    var from := 0;
    while from < |inputs|
      invariant from <= |inputs| && out == Map(model, inputs[..from])
      invariant (forall chunk :: chunk in Batches(inputs) ==> Answered(endpoint, chunk)) <==>
                forall chunk :: chunk in Batches(inputs[from..]) ==> Answered(endpoint, chunk)
    {
      var to := if from + EMBED_BATCH < |inputs| then from + EMBED_BATCH else |inputs|;
      NextBatch(inputs, from, to);
      var vectors := EmbedBatch(model, endpoint, inputs[from..to]);
      assert inputs[from..to] in Batches(inputs[from..]);
      if vectors.None? { return None; }
      MapAppend(model, inputs[..from], inputs[from..to]);
      assert inputs[..to] == inputs[..from] + inputs[from..to];
      out := out + vectors.value;
      from := to;
    }
    assert inputs[..|inputs|] == inputs;
    return Some(out);
  }

  lemma NextBatch(inputs: seq<string>, from: nat, to: nat)
    requires from < |inputs| && to == if from + 128 < |inputs| then from + 128 else |inputs|
    ensures Batches(inputs[from..]) == [inputs[from..to]] + Batches(inputs[to..])
  {
    var rest := inputs[from..];
    if |rest| > 128 {
      assert rest[..128] == inputs[from..to] && rest[128..] == inputs[to..];
    } else {
      assert rest == inputs[from..to] && inputs[to..] == [];
    }
  }

  // ── Ranking ──

  datatype Cached<V> = Cached(hash: nat, vector: V)

  datatype Scored = Scored(score: real, wire: string)

  /** Higher score first, then the smaller name. */
  predicate ScoredLe(a: Scored, b: Scored) {
    if a.score == b.score then StringLe(a.wire, b.wire) else a.score > b.score
  }

  function WireOf(s: Scored): string { s.wire }

  function Take<T>(xs: seq<T>, n: nat): seq<T> { if |xs| <= n then xs else xs[..n] }

  function ScoreOf<V>(model: string -> V, similarity: (V, V) -> real, query: string): Candidate -> Scored {
    (c: Candidate) => Scored(similarity(model(query), model(c.Text())), c.wire)
  }

  /** The ranking without a cache: embed everything, sort, cut. */
  function Ranking<V>(model: string -> V, similarity: (V, V) -> real, query: string, cs: seq<Candidate>,
                      limit: nat): seq<string> {
    Map(WireOf, Take(SortBy(ScoredLe, Map(ScoreOf(model, similarity, query), cs)), limit))
  }

  lemma RankingIsSortedPermutation<V>(model: string -> V, similarity: (V, V) -> real, query: string, cs: seq<Candidate>)
    ensures multiset(Ranking(model, similarity, query, cs, |cs|)) == multiset(Map((c: Candidate) => c.wire, cs))
    ensures Sorted(ScoredLe, SortBy(ScoredLe, Map(ScoreOf(model, similarity, query), cs)))
  {
    var scored := Map(ScoreOf(model, similarity, query), cs);
    SortMapMultiset(ScoredLe, WireOf, scored);
    assert Map(WireOf, scored) == Map((c: Candidate) => c.wire, cs);
    StringLeOrder();
    SortBySorted(ScoredLe, scored);
  }

  /** The entry carries the name of a candidate and the similarity of its text to the query. */
  ghost predicate ScoresSome<V>(model: string -> V, similarity: (V, V) -> real, query: string, cs: seq<Candidate>,
                                r: Scored) {
    exists c :: && c in cs && r.wire == c.wire
                && r.score == similarity(model(query), model(EmbedText(c.wire, c.description)))
  }

  lemma ScoredFrom<V>(model: string -> V, similarity: (V, V) -> real, query: string, cs: seq<Candidate>, r: Scored)
    requires r in Map(ScoreOf(model, similarity, query), cs)
    ensures ScoresSome(model, similarity, query, cs, r)
  {
    var scored := Map(ScoreOf(model, similarity, query), cs);
    var n :| 0 <= n < |scored| && scored[n] == r;
    assert cs[n] in cs && scored[n] == ScoreOf(model, similarity, query)(cs[n]);
    assert cs[n].Text() == EmbedText(cs[n].wire, cs[n].description);
  }

  /** In the full ranking a more similar tool comes first, and of equally similar ones the smaller name. */
  lemma RankedByScore<V>(model: string -> V, similarity: (V, V) -> real, query: string, cs: seq<Candidate>, i: nat,
                         j: nat)
    requires i < j < |cs|
    ensures var ranked := SortBy(ScoredLe, Map(ScoreOf(model, similarity, query), cs));
            && |ranked| == |cs| && Ranking(model, similarity, query, cs, |cs|)[i] == ranked[i].wire
            && ScoresSome(model, similarity, query, cs, ranked[i])
            && ranked[i].score >= ranked[j].score
            && (ranked[i].score == ranked[j].score ==> StringLe(ranked[i].wire, ranked[j].wire))
  {
    RankingIsSortedPermutation(model, similarity, query, cs);
    var ranked := SortBy(ScoredLe, Map(ScoreOf(model, similarity, query), cs));
    assert ScoredLe(ranked[i], ranked[j]) && ranked[i] in ranked;
    ScoredFrom(model, similarity, query, cs, ranked[i]);
  }

  /** A limit cuts the ranking after that many names. */
  lemma RankingIsCut<V>(model: string -> V, similarity: (V, V) -> real, query: string, cs: seq<Candidate>, limit: nat)
    ensures var all := Ranking(model, similarity, query, cs, |cs|);
            Ranking(model, similarity, query, cs, limit) == if limit < |cs| then all[..limit] else all
  {
  }

  // ── Ranking with a cache ──

  type Cache<V> = map<string, Cached<V>>

  /** No vector is cached for the candidate's present text. */
  predicate Stale<V>(cache: Cache<V>, hash: string -> nat, c: Candidate) {
    !(c.wire in cache && cache[c.wire].hash == hash(c.Text()))
  }

  function StaleTest<V>(cache: Cache<V>, hash: string -> nat): Candidate -> bool {
    (c: Candidate) => Stale(cache, hash, c)
  }

  /** The last candidate of this name: later writes to the cache replace earlier ones. */
  function LastNamed(cs: seq<Candidate>, wire: string): (r: Option<Candidate>)
    ensures r.Some? ==> r.value in cs && r.value.wire == wire
    ensures r.None? ==> forall c :: c in cs ==> c.wire != wire
  {
    if cs == [] then None
    else if cs[|cs| - 1].wire == wire then Some(cs[|cs| - 1])
    else LastNamed(cs[..|cs| - 1], wire)
  }

  /** The candidate whose text decides the score of `c`: the last stale one of its name, else `c` itself. */
  function Used<V>(cache: Cache<V>, hash: string -> nat, cs: seq<Candidate>, c: Candidate): Candidate {
    var stale := LastNamed(Filter(StaleTest(cache, hash), cs), c.wire);
    if stale.Some? then stale.value else c
  }

  function CachedScoreOf<V>(model: string -> V, similarity: (V, V) -> real, cache: Cache<V>, hash: string -> nat,
                            query: string, cs: seq<Candidate>): Candidate -> Scored {
    (c: Candidate) => Scored(similarity(model(query), model(Used(cache, hash, cs, c).Text())), c.wire)
  }

  /** What a call ranks by, given what the cache held before it. */
  function CachedRanking<V>(model: string -> V, similarity: (V, V) -> real, cache: Cache<V>, hash: string -> nat,
                            query: string, cs: seq<Candidate>, limit: nat): seq<string> {
    Map(WireOf, Take(SortBy(ScoredLe, Map(CachedScoreOf(model, similarity, cache, hash, query, cs), cs)), limit))
  }

  /** Candidates of one name have one text. */
  ghost predicate OneTextPerName(cs: seq<Candidate>) {
    forall a, b :: a in cs && b in cs && a.wire == b.wire ==> a.Text() == b.Text()
  }

  /**
   Whatever the cache holds, each candidate is scored by its own text: exactly when names do not repeat
   with different texts.
   */
  lemma CacheIsTransparentIff<V(!new)>(hash: string -> nat, cs: seq<Candidate>)
    ensures (forall cache: Cache<V>, c :: c in cs ==> Used(cache, hash, cs, c).Text() == c.Text()) <==>
            OneTextPerName(cs)
  {
    if OneTextPerName(cs) {
      forall cache: Cache<V>, c | c in cs ensures Used(cache, hash, cs, c).Text() == c.Text() {
        assert Used(cache, hash, cs, c) in cs && Used(cache, hash, cs, c).wire == c.wire;
      }
    }
    if forall cache: Cache<V>, c :: c in cs ==> Used(cache, hash, cs, c).Text() == c.Text() {
      forall a, b | a in cs && b in cs && a.wire == b.wire ensures a.Text() == b.Text() {
        var none: Cache<V> := map[];
        assert a in Filter(StaleTest(none, hash), cs);
        assert Used(none, hash, cs, a) == Used(none, hash, cs, b);
      }
    }
  }

  /** For instance, of two candidates with one name the second one's text scores both, if neither is cached. */
  lemma RepeatedNameSharesText<V>(hash: string -> nat, a: Candidate, b: Candidate)
    requires a.wire == b.wire
    ensures var none: Cache<V> := map[]; Used(none, hash, [a, b], a) == b && Used(none, hash, [a, b], b) == b
  {
    var none: Cache<V> := map[];
    assert Filter(StaleTest(none, hash), [a, b]) == [a, b];
    assert LastNamed([a, b], a.wire) == Some(b);
  }

  /** Then the cached ranking is the ranking that embedding everything afresh gives. */
  lemma CachedRankingIsRanking<V(!new)>(model: string -> V, similarity: (V, V) -> real, cache: Cache<V>,
                                 hash: string -> nat, query: string, cs: seq<Candidate>, limit: nat)
    requires OneTextPerName(cs)
    ensures CachedRanking(model, similarity, cache, hash, query, cs, limit) ==
            Ranking(model, similarity, query, cs, limit)
  {
    CacheIsTransparentIff<V>(hash, cs);
    assert Map(CachedScoreOf(model, similarity, cache, hash, query, cs), cs) ==
        Map(ScoreOf(model, similarity, query), cs);
  }

  /** What is cached under a name after writing the missing texts' vectors: the last one's, else what was there. */
  ghost predicate FilledAt<V>(model: string -> V, hash: string -> nat, was: Cache<V>, missing: seq<Candidate>,
                              cache: Cache<V>, w: string) {
    var last := LastNamed(missing, w);
    if last.Some? then w in cache && cache[w] == Cached(hash(last.value.Text()), model(last.value.Text()))
    else (w in cache <==> w in was) && (w in cache ==> cache[w] == was[w])
  }

  ghost predicate Filled<V(!new)>(model: string -> V, hash: string -> nat, was: Cache<V>, missing: seq<Candidate>,
                                  cache: Cache<V>) {
    forall w :: FilledAt(model, hash, was, missing, cache, w)
  }

  lemma FilledStep<V(!new)>(model: string -> V, hash: string -> nat, was: Cache<V>, missing: seq<Candidate>,
                            cache: Cache<V>, i: nat)
    requires i < |missing| && Filled(model, hash, was, missing[..i], cache)
    ensures var text := missing[i].Text();
            Filled(model, hash, was, missing[..i + 1], cache[missing[i].wire := Cached(hash(text), model(text))])
  {
    var text := missing[i].Text();
    var after := cache[missing[i].wire := Cached(hash(text), model(text))];
    assert missing[..i + 1][..i] == missing[..i];
    var taken := missing[..i + 1];
    forall w ensures FilledAt(model, hash, was, taken, after, w) {
      assert FilledAt(model, hash, was, missing[..i], cache, w);
    }
  }

  /** After the writes each candidate's vector is that of the text it is scored by. */
  lemma FilledScores<V(!new)>(model: string -> V, hash: string -> nat, was: Cache<V>, cs: seq<Candidate>,
                       cache: Cache<V>,
                              c: Candidate)
    requires Filled(model, hash, was, Filter(StaleTest(was, hash), cs), cache) && c in cs
    requires !Stale(was, hash, c) ==> was[c.wire].vector == model(c.Text())
    ensures c.wire in cache && cache[c.wire].vector == model(Used(was, hash, cs, c).Text())
  {
    var missing := Filter(StaleTest(was, hash), cs);
    assert FilledAt(model, hash, was, missing, cache, c.wire);
    assert Stale(was, hash, c) ==> c in missing;
  }

  /** Nothing is embedded twice: with one text per name, what a call has embedded is not missing in the next. */
  lemma NothingMissingAfter<V(!new)>(model: string -> V, hash: string -> nat, was: Cache<V>, cs: seq<Candidate>,
                              cache: Cache<V>)
    requires OneTextPerName(cs) && Filled(model, hash, was, Filter(StaleTest(was, hash), cs), cache)
    ensures Filter(StaleTest(cache, hash), cs) == []
  {
    forall c | c in cs ensures !Stale(cache, hash, c) {
      var missing := Filter(StaleTest(was, hash), cs);
      assert FilledAt(model, hash, was, missing, cache, c.wire);
      if LastNamed(missing, c.wire).Some? {
        assert LastNamed(missing, c.wire).value in cs;
      }
    }
    FilterNone(StaleTest(cache, hash), cs);
  }

  /** A text is missing exactly if no vector is cached under its name with the hash of that very text. */
  lemma StaleIff<V>(cache: Cache<V>, hash: string -> nat, wire: string, description: string)
    ensures Stale(cache, hash, Candidate(wire, description)) <==>
            wire !in cache || cache[wire].hash != hash(EmbedText(wire, description))
  {
  }

  function TextOf(c: Candidate): string { c.Text() }

  lemma QueryBatch(query: string)
    ensures Batches([query]) == [[query]] && Batches([]) == []
  {
  }

  class SemanticIndex<V(!new)> {
    const model: string -> V
    const hash: string -> nat
    const similarity: (V, V) -> real
    var cache: Cache<V>

    /** Every cached vector is the embedding of the text whose hash is kept with it, and hashes do not collide. */
    ghost predicate Valid()
      reads this
    {
      && (forall s, t :: hash(s) == hash(t) ==> s == t)
      && (forall w :: w in cache ==> exists t :: cache[w] == Cached(hash(t), model(t)))
    }

    constructor (model: string -> V, hash: string -> nat, similarity: (V, V) -> real)
      requires forall s, t :: hash(s) == hash(t) ==> s == t
      ensures Valid() && cache == map[] && this.model == model && this.hash == hash && this.similarity == similarity
    {
      this.model, this.hash, this.similarity := model, hash, similarity;
      cache := map[];
    }

    /** A hash that matches vouches for the vector. */
    lemma UpToDateVector(c: Candidate)
      requires Valid() && !Stale(cache, hash, c)
      ensures cache[c.wire].vector == model(c.Text())
    {
    }

    method CollectMissing(cs: seq<Candidate>) returns (missing: seq<Candidate>)
      ensures missing == Filter(StaleTest(cache, hash), cs)
    {
      missing := [];
      for i := 0 to |cs|
        invariant missing == Filter(StaleTest(cache, hash), cs[..i])
      {
        FilterStep(StaleTest(cache, hash), cs, i);
        if Stale(cache, hash, cs[i]) { missing := missing + [cs[i]]; }
      }
      assert cs[..|cs|] == cs;
    }

    /** Writing fresh embeddings; the vectors belong to `missing` in order, and of one name the last stays. */
    method Fill(missing: seq<Candidate>, vectors: seq<V>)
      requires Valid() && vectors == Map((c: Candidate) => model(c.Text()), missing)
      modifies this
      ensures Valid() && Filled(model, hash, old(cache), missing, cache)
    {
      for i := 0 to |missing|
        invariant Valid() && Filled(model, hash, old(cache), missing[..i], cache)
      {
        FilledStep(model, hash, old(cache), missing, cache, i);
        cache := cache[missing[i].wire := Cached(hash(missing[i].Text()), vectors[i])];
      }
      assert missing[..|missing|] == missing;
    }

    /**
     `rank`: a successful call ranks by the cache it found and what was missing; a failed one leaves the
     cache sound. With one text per name that is the ranking without a cache.
     */
    method Rank(endpoint: seq<string> -> Option<seq<Item<V>>>, query: string, cs: seq<Candidate>, limit: nat)
      returns (r: Option<seq<string>>)
      requires Valid()
      requires Faithful(model, endpoint)
      modifies this
      ensures Valid()
      ensures r.Some? ==> r.value == CachedRanking(model, similarity, old(cache), hash, query, cs, limit)
      ensures r.Some? && OneTextPerName(cs) ==> r.value == Ranking(model, similarity, query, cs, limit)
      ensures r.Some? <==>
              && Answered(endpoint, [query])
              && forall chunk :: chunk in Batches(Map(TextOf, Filter(StaleTest(old(cache), hash), cs))) ==>
                Answered(endpoint, chunk)
    {
      ghost var was := cache;
      var missing := CollectMissing(cs);
      forall c | c in cs && !Stale(was, hash, c) ensures was[c.wire].vector == model(c.Text()) { UpToDateVector(c); }
      if missing != [] {
        var vectors := Embed(model, endpoint, Map(TextOf, missing));
        if vectors.None? { return None; }
        assert vectors.value == Map((c: Candidate) => model(c.Text()), missing);
        Fill(missing, vectors.value);
      } else {
        assert Filled(model, hash, was, missing, cache);
      }
      QueryBatch(query);
      var q := Embed(model, endpoint, [query]);
      if q.None? { return None; }
      assert q.value == [model(query)];
      forall c | c in cs ensures c.wire in cache && cache[c.wire].vector == model(Used(was, hash, cs, c).Text()) {
        FilledScores(model, hash, was, cs, cache, c);
      }
      var scored := ScoreAll(q.value[0], query, cs, was);
      if OneTextPerName(cs) { CachedRankingIsRanking(model, similarity, was, hash, query, cs, limit); }
      return Some(Map(WireOf, Take(SortBy(ScoredLe, scored), limit)));
    }

    method ScoreAll(queryVector: V, query: string, cs: seq<Candidate>, ghost was: Cache<V>)
      returns (scored: seq<Scored>)
      requires queryVector == model(query)
      requires forall c :: c in cs ==> c.wire in cache && cache[c.wire].vector == model(Used(was, hash, cs, c).Text())
      ensures scored == Map(CachedScoreOf(model, similarity, was, hash, query, cs), cs)
    {
      scored := [];
      for i := 0 to |cs|
        invariant |scored| == i && forall j :: 0 <= j < i ==>
            scored[j] == CachedScoreOf(model, similarity, was, hash, query, cs)(cs[j])
      {
        assert cs[i] in cs;
        scored := scored + [Scored(similarity(queryVector, cache[cs[i].wire].vector), cs[i].wire)];
      }
    }
  }
}
