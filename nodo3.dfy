/**
 The key-collection recommender of nodo3/client.go: compare every favourite
 with every key of the rating matrix, add up the similarities per key, and
 return the keys that received a score. The keys of the matrix are
 customers (that is how the loader fills it), but the code treats them as
 movie IDs; the model follows the code. The scores are accumulated and then
 discarded: only which keys received one reaches the result.
 */
module Nodo3 {
  import opened Ratings

  /** Key `k` was compared with some favourite other than itself. */
  ghost predicate Compared(data: Matrix, favs: seq<int>, k: int)
  {
    k in data && exists i :: 0 <= i < |favs| && favs[i] != k
  }

  lemma ComparedExtend(data: Matrix, done: seq<int>, fav: int, k: int)
    ensures Compared(data, done + [fav], k) <==> Compared(data, done, k) || (k in data && k != fav)
  {
    var d := done + [fav];
    if Compared(data, d, k) {
      var i :| 0 <= i < |d| && d[i] != k;
      if i < |done| {
        assert done[i] == d[i];
      }
    }
    if Compared(data, done, k) {
      var i :| 0 <= i < |done| && done[i] != k;
      assert d[i] == done[i];
    }
    if k in data && k != fav {
      assert d[|done|] == fav;
    }
  }

  /** One pass of the outer loop of `generateMovieRecommendations`: favourite
      `movieID` is compared with every other key of the matrix, in map order,
      and each similarity is added to that key's score. */
  method CompareWithAll(data: Matrix, sim: Similarity, done: seq<int>, movieID: int, scores: map<int, real>)
    returns (updated: map<int, real>)
    requires forall k :: k in scores <==> Compared(data, done, k)
    ensures forall k :: k in updated <==> Compared(data, done + [movieID], k)
  {
    updated := scores;
    forall k ensures Compared(data, done + [movieID], k) <==> Compared(data, done, k) || (k in data && k != movieID) {
      ComparedExtend(data, done, movieID, k);
    }
    var rest := data.Keys;
    while rest != {}
      invariant rest <= data.Keys
      invariant forall k :: k in updated <==> Compared(data, done, k) || (k in data && k !in rest && k != movieID)
      decreases |rest|
    {
      ghost var next := PickKey(rest);
      var otherMovieID :| otherMovieID in rest;
      if otherMovieID != movieID {
        var similarity := sim(Row(data, movieID), data[otherMovieID]);
        var previous := if otherMovieID in updated then updated[otherMovieID] else 0.0;
        updated := updated[otherMovieID := previous + similarity];
      }
      rest := rest - {otherMovieID};
    }
  }

  /** `generateMovieRecommendations`: the keys of the matrix that differ from
      at least one favourite, each once, whatever their similarity. */
  method GenerateMovieRecommendations(data: Matrix, favs: seq<int>, sim: Similarity) returns (recs: seq<int>)
    ensures forall k :: k in recs <==> Compared(data, favs, k)
    ensures forall i, j :: 0 <= i < j < |recs| ==> recs[i] != recs[j]
    ensures |favs| == 0 ==> recs == []
    ensures |favs| == 1 ==> forall k :: k in recs <==> k in data && k != favs[0]
  {
    var similarMoviesScores: map<int, real> := map[];
    var f := 0;
    while f < |favs|
      invariant 0 <= f <= |favs|
      invariant forall k :: k in similarMoviesScores <==> Compared(data, favs[..f], k)
    {
      assert favs[..f + 1] == favs[..f] + [favs[f]];
      similarMoviesScores := CompareWithAll(data, sim, favs[..f], favs[f], similarMoviesScores);
      f := f + 1;
    }
    assert favs[..|favs|] == favs;

    recs := [];
    var rest := similarMoviesScores.Keys;
    while rest != {}
      invariant rest <= similarMoviesScores.Keys
      invariant forall k :: k in recs <==> k in similarMoviesScores && k !in rest
      invariant forall i, j :: 0 <= i < j < |recs| ==> recs[i] != recs[j]
      invariant |favs| == 0 ==> recs == []
      decreases |rest|
    {
      ghost var next := PickKey(rest);
      var movieID :| movieID in rest;
      recs := recs + [movieID];
      rest := rest - {movieID};
    }
  }
}
