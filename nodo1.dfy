/**
 The item-based recommender of nodo1/client.go: transpose the
 customer-by-movie matrix into movie vectors, add up each movie's similarity
 to the favourite movies, and keep the five best-scoring movies.
 */
module Nodo1 {
  import opened Ratings

  /** The movies some customer has rated. */
  function RatedMovies(data: Matrix): set<int>
  {
    set u, m | u in data && m in data[u] :: m
  }

  /** The movie-by-customer matrix of a customer-by-movie matrix. */
  function Transpose(data: Matrix): Matrix
  {
    map m | m in RatedMovies(data) :: map u | u in data && m in data[u] :: data[u][m]
  }

  /** `vectors[m][u] == r` exactly when `data[u][m] == r`, and no movie is
      stored without a rating. */
  ghost predicate IsTranspose(data: Matrix, vectors: Matrix)
  {
    && (forall m, u :: Rated(vectors, m, u) <==> Rated(data, u, m))
    && (forall m, u :: Rated(vectors, m, u) ==> vectors[m][u] == data[u][m])
    && NoEmptyRows(vectors)
  }

  /** `Transpose` has the pointwise transpose property. */
  lemma TransposeIsTranspose(data: Matrix)
    ensures IsTranspose(data, Transpose(data))
  {
    var t := Transpose(data);
    forall m | m in t ensures t[m] != map[] {
      var u :| u in data && m in data[u];
      assert u in t[m];
    }
  }

  /** `Transpose` is the only matrix with the pointwise transpose property. */
  lemma TransposeUnique(data: Matrix, vectors: Matrix)
    requires IsTranspose(data, vectors)
    ensures vectors == Transpose(data)
  {
    var t := Transpose(data);
    forall m | m in vectors ensures m in t {
      var u := PickKey(vectors[m].Keys);
      assert Rated(vectors, m, u);
    }
    forall m | m in t ensures m in vectors {
      var u :| u in data && m in data[u];
      assert Rated(data, u, m);
    }
    forall m | m in t ensures vectors[m] == t[m] {
      forall u | u in vectors[m] ensures u in t[m] && vectors[m][u] == t[m][u] {
        assert Rated(vectors, m, u);
      }
      forall u | u in t[m] ensures u in vectors[m] {
        assert Rated(data, u, m);
      }
      assert vectors[m].Keys == t[m].Keys;
    }
    assert vectors.Keys == t.Keys;
  }

  /** Transposing twice gives back any matrix without empty rows (which is
      every matrix the loader builds). */
  lemma TransposeInvolution(data: Matrix)
    requires NoEmptyRows(data)
    ensures Transpose(Transpose(data)) == data
  {
    var t := Transpose(data);
    TransposeIsTranspose(data);
    assert IsTranspose(t, data);
    TransposeUnique(t, data);
  }

  /** `buildMovieVectors`: a double loop over customers and their ratings, in
      map iteration order, storing `movieVectors[movieID][userID] = rating`. */
  method BuildMovieVectors(data: Matrix) returns (vectors: Matrix)
    ensures IsTranspose(data, vectors)
    ensures vectors == Transpose(data)
    ensures vectors.Keys == RatedMovies(data)
  {
    vectors := map[];
    var users := data.Keys;
    while users != {}
      invariant users <= data.Keys
      invariant forall m, u :: Rated(vectors, m, u) <==> u in data && u !in users && m in data[u]
      invariant forall m, u :: Rated(vectors, m, u) ==> vectors[m][u] == data[u][m]
      invariant NoEmptyRows(vectors)
      decreases |users|
    {
      ghost var some := PickKey(users);
      var userID :| userID in users;
      var movies := data[userID];
      var rest := movies.Keys;
      while rest != {}
        invariant rest <= movies.Keys
        invariant forall m, u :: Rated(vectors, m, u) <==>
                    (u in data && u !in users && m in data[u]) || (u == userID && m in movies && m !in rest)
        invariant forall m, u :: Rated(vectors, m, u) ==> vectors[m][u] == data[u][m]
        invariant NoEmptyRows(vectors)
        decreases |rest|
      {
        ghost var next := PickKey(rest);
        var movieID :| movieID in rest;
        ghost var before := vectors;
        if movieID !in vectors {
          vectors := vectors[movieID := map[]];
        }
        vectors := vectors[movieID := vectors[movieID][userID := movies[movieID]]];
        assert vectors == Put(before, movieID, userID, movies[movieID]);
        PutEntries(before, movieID, userID, movies[movieID]);
        rest := rest - {movieID};
      }
      users := users - {userID};
    }
    TransposeUnique(data, vectors);
  }

  datatype MovieScore = MovieScore(movieID: int, score: real)

  ghost predicate Descending(s: seq<MovieScore>)
  {
    forall i, j :: 0 <= i < j < |s| ==> s[i].score >= s[j].score
  }

  /** `x` placed before the first entry that does not outscore it. */
  function InsertByScore(x: MovieScore, s: seq<MovieScore>): (r: seq<MovieScore>)
    requires Descending(s)
    ensures Descending(r) && multiset(r) == multiset(s) + multiset{x}
    ensures |r| == |s| + 1 && (r[0] == x || (|s| > 0 && r[0] == s[0]))
  {
    if s == [] || x.score >= s[0].score then [x] + s
    else
      assert s == [s[0]] + s[1..];
      [s[0]] + InsertByScore(x, s[1..])
  }

  /** `sort.Slice` with "higher score first": a permutation in non-increasing
      score order. Equal scores may come out in any order (the library sort is
      not stable), and nothing below depends on which. */
  function SortByScore(s: seq<MovieScore>): (r: seq<MovieScore>)
    ensures Descending(r) && multiset(r) == multiset(s)
  {
    if s == [] then []
    else
      assert s == [s[0]] + s[1..];
      InsertByScore(s[0], SortByScore(s[1..]))
  }

  lemma {:induction false} MultiplicityOfDistinct<T>(a: seq<T>, x: T)
    requires forall i, j :: 0 <= i < j < |a| ==> a[i] != a[j]
    ensures multiset(a)[x] <= 1
  {
    if a != [] {
      assert a == [a[0]] + a[1..];
      MultiplicityOfDistinct(a[1..], x);
      if x == a[0] {
        assert x !in a[1..];
      }
    }
  }

  lemma MultiplicityOfRepeat<T>(b: seq<T>, i: nat, j: nat)
    requires i < j < |b| && b[i] == b[j]
    ensures multiset(b)[b[i]] >= 2
  {
    assert b == b[..j] + [b[j]] + b[j + 1..];
    assert b[i] in b[..j];
  }

  /** A permutation of a sequence without repeats has no repeats. */
  lemma DistinctPermutation<T>(a: seq<T>, b: seq<T>)
    requires multiset(a) == multiset(b)
    requires forall i, j :: 0 <= i < j < |a| ==> a[i] != a[j]
    ensures forall i, j :: 0 <= i < j < |b| ==> b[i] != b[j]
  {
    forall i, j | 0 <= i < j < |b| ensures b[i] != b[j] {
      MultiplicityOfDistinct(a, b[i]);
      if b[i] == b[j] {
        MultiplicityOfRepeat(b, i, j);
        assert false;
      }
    }
  }

  /** `s` lists each key of `scores` exactly once, paired with its score. */
  ghost predicate ListsScores(scores: map<int, real>, s: seq<MovieScore>)
  {
    && (forall i :: 0 <= i < |s| ==> s[i].movieID in scores && s[i].score == scores[s[i].movieID])
    && (forall k :: k in scores ==> MovieScore(k, scores[k]) in s)
    && (forall i, j :: 0 <= i < j < |s| ==> s[i].movieID != s[j].movieID)
  }

  /** The collecting loop's progress: the keys outside `rest` are listed. */
  ghost predicate Collected(scores: map<int, real>, rest: set<int>, s: seq<MovieScore>)
  {
    && (forall i :: 0 <= i < |s| ==>
          s[i].movieID in scores && s[i].movieID !in rest && s[i].score == scores[s[i].movieID])
    && (forall k :: k in scores && k !in rest ==> MovieScore(k, scores[k]) in s)
    && (forall i, j :: 0 <= i < j < |s| ==> s[i].movieID != s[j].movieID)
  }

  lemma CollectStep(scores: map<int, real>, rest: set<int>, s: seq<MovieScore>, k: int)
    requires Collected(scores, rest, s) && k in rest && rest <= scores.Keys
    ensures Collected(scores, rest - {k}, s + [MovieScore(k, scores[k])])
  {
    var s' := s + [MovieScore(k, scores[k])];
    forall k' | k' in scores && k' !in rest - {k} ensures MovieScore(k', scores[k']) in s' {
      if k' != k {
        assert MovieScore(k', scores[k']) in s;
      }
    }
  }

  /** Reordering such a list keeps it such a list. */
  lemma ListsScoresPermutation(scores: map<int, real>, a: seq<MovieScore>, b: seq<MovieScore>)
    requires ListsScores(scores, a) && multiset(a) == multiset(b)
    ensures ListsScores(scores, b) && |b| == |a|
  {
    assert |multiset(a)| == |multiset(b)|;
    DistinctPermutation(a, b);
    forall i | 0 <= i < |b| ensures b[i].movieID in scores && b[i].score == scores[b[i].movieID] {
      assert b[i] in multiset(a);
    }
    forall k | k in scores ensures MovieScore(k, scores[k]) in b {
      assert MovieScore(k, scores[k]) in multiset(b);
    }
  }

  /** The first `n` IDs of a listing in descending score order are distinct
      keys in descending score order, and no key left out scores above them. */
  lemma TopPrefix(scores: map<int, real>, sorted: seq<MovieScore>, ids: seq<int>)
    requires ListsScores(scores, sorted) && Descending(sorted)
    requires |ids| <= |sorted| && forall k :: 0 <= k < |ids| ==> ids[k] == sorted[k].movieID
    ensures forall i :: 0 <= i < |ids| ==> ids[i] in scores
    ensures forall i, j :: 0 <= i < j < |ids| ==> ids[i] != ids[j]
    ensures forall i, j :: 0 <= i < j < |ids| ==> scores[ids[i]] >= scores[ids[j]]
    ensures forall k, i :: k in scores && k !in ids && 0 <= i < |ids| ==> scores[k] <= scores[ids[i]]
    ensures |ids| == |sorted| ==> forall k :: k in scores ==> k in ids
  {
    forall k | k in scores && k !in ids ensures forall p :: 0 <= p < |ids| ==> scores[k] <= scores[ids[p]] {
      var at :| 0 <= at < |sorted| && sorted[at] == MovieScore(k, scores[k]);
      assert at >= |ids|;
    }
    if |ids| == |sorted| {
      forall k | k in scores ensures k in ids {
        var at :| 0 <= at < |sorted| && sorted[at] == MovieScore(k, scores[k]);
        assert ids[at] == k;
      }
    }
  }

  /** The collecting loop of `sortMoviesByScore`: one (movie, score) pair
      per key, in map iteration order. */
  method CollectScores(scores: map<int, real>) returns (movieList: seq<MovieScore>)
    ensures ListsScores(scores, movieList) && |movieList| == |scores|
  {
    movieList := [];
    var rest := scores.Keys;
    while rest != {}
      invariant rest <= scores.Keys && Collected(scores, rest, movieList)
      invariant |movieList| + |rest| == |scores|
      decreases |rest|
    {
      ghost var some := PickKey(rest);
      var movieID :| movieID in rest;
      CollectStep(scores, rest, movieList, movieID);
      movieList := movieList + [MovieScore(movieID, scores[movieID])];
      rest := rest - {movieID};
    }
  }

  /** The taking loop of `sortMoviesByScore`: the IDs of the first `limit`
      entries (none when `limit` is not positive). */
  method TakeIds(sorted: seq<MovieScore>, limit: int) returns (ids: seq<int>)
    ensures |ids| == if limit <= 0 then 0 else if limit < |sorted| then limit else |sorted|
    ensures forall k :: 0 <= k < |ids| ==> ids[k] == sorted[k].movieID
  {
    ids := [];
    var i := 0;
    while i < |sorted|
      invariant 0 <= i <= |sorted|
      invariant i == 0 || i <= limit
      invariant |ids| == i && forall k :: 0 <= k < i ==> ids[k] == sorted[k].movieID
    {
      if i >= limit {
        break;
      }
      ids := ids + [sorted[i].movieID];
      i := i + 1;
    }
  }

  /** `sortMoviesByScore`: collect (movie, score) pairs in map order, sort
      them by descending score and keep the first `limit` IDs. */
  method SortMoviesByScore(scores: map<int, real>, limit: int) returns (ids: seq<int>)
    ensures |ids| == if limit <= 0 then 0 else if limit < |scores| then limit else |scores|
    ensures |scores| <= limit ==> forall k :: k in scores ==> k in ids
    ensures forall i :: 0 <= i < |ids| ==> ids[i] in scores
    ensures forall i, j :: 0 <= i < j < |ids| ==> ids[i] != ids[j]
    ensures forall i, j :: 0 <= i < j < |ids| ==> scores[ids[i]] >= scores[ids[j]]
    ensures forall k, i :: k in scores && k !in ids && 0 <= i < |ids| ==> scores[k] <= scores[ids[i]]
  {
    var movieList := CollectScores(scores);
    var sorted := SortByScore(movieList);
    ListsScoresPermutation(scores, movieList, sorted);
    ids := TakeIds(sorted, limit);
    TopPrefix(scores, sorted, ids);
  }

  /** What favourite `fav` adds to movie `m`'s score: nothing when the
      favourite has no ratings, when `m` has none, or when `m` is `fav`. */
  function Contribution(vectors: Matrix, sim: Similarity, fav: int, m: int): real
  {
    if fav in vectors && m in vectors && m != fav then sim(vectors[fav], vectors[m]) else 0.0
  }

  /** Movie `m`'s accumulated similarity to the favourites. */
  function Score(vectors: Matrix, sim: Similarity, favs: seq<int>, m: int): real
  {
    if favs == [] then 0.0
    else Score(vectors, sim, favs[..|favs| - 1], m) + Contribution(vectors, sim, favs[|favs| - 1], m)
  }

  /** A movie that some rated favourite other than itself was compared with. */
  ghost predicate Candidate(vectors: Matrix, favs: seq<int>, m: int)
  {
    m in vectors && exists i :: 0 <= i < |favs| && favs[i] in vectors && favs[i] != m
  }

  /** A movie that no favourite was compared with has score zero. */
  lemma {:induction false} NonCandidateScoresZero(vectors: Matrix, sim: Similarity, favs: seq<int>, m: int)
    requires !Candidate(vectors, favs, m)
    ensures Score(vectors, sim, favs, m) == 0.0
  {
    if favs != [] {
      var init := favs[..|favs| - 1];
      NonCandidateScoresZero(vectors, sim, init, m);
    }
  }

  /** The favourites seen so far, `done`, have left `sims` holding exactly
      the candidates, each with its score. */
  ghost predicate Scored(vectors: Matrix, sim: Similarity, done: seq<int>, sims: map<int, real>)
  {
    && (forall m :: m in sims <==> Candidate(vectors, done, m))
    && (forall m :: m in sims ==> sims[m] == Score(vectors, sim, done, m))
  }

  lemma CandidateExtend(vectors: Matrix, done: seq<int>, fav: int, m: int)
    ensures Candidate(vectors, done + [fav], m) <==>
            Candidate(vectors, done, m) || (m in vectors && fav in vectors && fav != m)
  {
    var d := done + [fav];
    if Candidate(vectors, d, m) {
      var i :| 0 <= i < |d| && d[i] in vectors && d[i] != m;
      if i < |done| {
        assert done[i] == d[i];
      }
    }
    if Candidate(vectors, done, m) {
      var i :| 0 <= i < |done| && done[i] in vectors && done[i] != m;
      assert d[i] == done[i];
    }
    if m in vectors && fav in vectors && fav != m {
      assert d[|done|] == fav;
    }
  }

  lemma ScoreExtend(vectors: Matrix, sim: Similarity, done: seq<int>, fav: int, m: int)
    ensures Score(vectors, sim, done + [fav], m) == Score(vectors, sim, done, m) + Contribution(vectors, sim, fav, m)
  {
    assert (done + [fav])[..|done|] == done;
  }

  /** One pass of the outer loop of `findSimilarMovies`: a favourite without
      ratings is skipped; otherwise its similarity is added to every other
      movie, a movie seen for the first time starting from zero. */
  method AddFavourite(vectors: Matrix, sim: Similarity, done: seq<int>, favID: int, similarities: map<int, real>)
    returns (sims: map<int, real>)
    requires Scored(vectors, sim, done, similarities)
    ensures Scored(vectors, sim, done + [favID], sims)
  {
    sims := similarities;
    forall m ensures (Candidate(vectors, done + [favID], m) <==>
        Candidate(vectors, done, m) || (m in vectors && favID in vectors && favID != m))
      && Score(vectors, sim, done + [favID], m) == Score(vectors, sim, done, m) + Contribution(vectors, sim, favID, m)
    {
      CandidateExtend(vectors, done, favID, m);
      ScoreExtend(vectors, sim, done, favID, m);
    }
    if favID !in vectors {
      return;
    }
    var favVector := vectors[favID];
    var rest := vectors.Keys;
    while rest != {}
      invariant rest <= vectors.Keys
      invariant forall m :: m in sims <==> Candidate(vectors, done, m) || (m in vectors && m !in rest && m != favID)
      invariant forall m :: m in sims ==>
                  sims[m] == (if m in rest then Score(vectors, sim, done, m) else Score(vectors, sim, done + [favID], m))
      decreases |rest|
    {
      ghost var next := PickKey(rest);
      var movieID :| movieID in rest;
      if movieID != favID {
        var similarity := sim(favVector, vectors[movieID]);
        if movieID !in sims {
          NonCandidateScoresZero(vectors, sim, done, movieID);
          sims := sims[movieID := 0.0];
        }
        sims := sims[movieID := sims[movieID] + similarity];
      }
      rest := rest - {movieID};
    }
  }

  /** `findSimilarMovies`: for each favourite that has ratings, add its
      similarity to every other movie, then keep the five best. The result
      is at most five distinct compared movies, best first, and no compared
      movie left out scores above one returned. */
  method FindSimilarMovies(favs: seq<int>, data: Matrix, sim: Similarity) returns (ids: seq<int>)
    ensures |ids| <= 5
    ensures forall i :: 0 <= i < |ids| ==> ids[i] in RatedMovies(data) && Candidate(Transpose(data), favs, ids[i])
    ensures forall i, j :: 0 <= i < j < |ids| ==> ids[i] != ids[j]
    ensures forall i, j :: 0 <= i < j < |ids| ==>
              Score(Transpose(data), sim, favs, ids[i]) >= Score(Transpose(data), sim, favs, ids[j])
    ensures forall m, i :: Candidate(Transpose(data), favs, m) && m !in ids && 0 <= i < |ids| ==>
              Score(Transpose(data), sim, favs, m) <= Score(Transpose(data), sim, favs, ids[i])
    ensures |ids| < 5 ==> forall m :: Candidate(Transpose(data), favs, m) ==> m in ids
  {
    var movieRatings := BuildMovieVectors(data);
    var similarities: map<int, real> := map[];
    var f := 0;
    while f < |favs|
      invariant 0 <= f <= |favs|
      invariant Scored(movieRatings, sim, favs[..f], similarities)
    {
      assert favs[..f + 1] == favs[..f] + [favs[f]];
      similarities := AddFavourite(movieRatings, sim, favs[..f], favs[f], similarities);
      f := f + 1;
    }
    assert favs[..|favs|] == favs;
    ids := SortMoviesByScore(similarities, 5);
    forall i | 0 <= i < |ids| ensures ids[i] in RatedMovies(data) && Candidate(movieRatings, favs, ids[i]) {
      assert ids[i] in similarities;
      assert Candidate(movieRatings, favs, ids[i]);
      assert ids[i] in Transpose(data);
    }
  }
}
