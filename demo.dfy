/**
 The stand-alone user-based recommender of test.go: pick a customer with
 the strictly highest positive similarity to the target, then recommend
 that customer's movies rated at least 4.0 that the target has not rated.
 */
module Demo {
  import opened Ratings
  import opened UserBased

  /** The rating threshold of `generateRecommendations`. */
  const MinRating: real := 4.0

  /** `user` is a possible answer of `findMostSimilarUser`: a customer other
      than the target with positive similarity that no other customer
      exceeds, or -1 when no other customer has positive similarity. */
  ghost predicate IsMostSimilar(data: Matrix, target: int, sim: Similarity, user: int)
  {
    if exists u :: u in data && u != target && sim(Row(data, target), data[u]) > 0.0 then
      && user in data && user != target
      && sim(Row(data, target), data[user]) > 0.0
      && forall u :: u in data && u != target ==> sim(Row(data, target), data[u]) <= sim(Row(data, target), data[user])
    else user == -1
  }

  /** Possible answers differ only between customers of equal similarity. */
  lemma MostSimilarUpToTies(data: Matrix, target: int, sim: Similarity, a: int, b: int)
    requires IsMostSimilar(data, target, sim, a) && IsMostSimilar(data, target, sim, b)
    ensures a == b || (a in data && b in data && sim(Row(data, target), data[a]) == sim(Row(data, target), data[b]))
  {
  }

  /** `findMostSimilarUser`: one pass over the customers in map order,
      replacing the best so far only on a strictly higher similarity. */
  method FindMostSimilarUser(data: Matrix, target: int, sim: Similarity) returns (similarUser: int)
    ensures IsMostSimilar(data, target, sim, similarUser)
    ensures similarUser == -1 || (similarUser in data && similarUser != target)
  {
    var maxSim := 0.0;
    similarUser := -1;
    ghost var found := false;
    var targetRatings := Row(data, target);
    var rest := data.Keys;
    while rest != {}
      invariant rest <= data.Keys
      invariant !found ==> maxSim == 0.0 && similarUser == -1
      invariant found ==> similarUser in data && similarUser != target && similarUser !in rest
                          && sim(targetRatings, data[similarUser]) == maxSim && maxSim > 0.0
      invariant forall u :: u in data && u != target && u !in rest ==> sim(targetRatings, data[u]) <= maxSim
      decreases |rest|
    {
      ghost var next := PickKey(rest);
      var userID :| userID in rest;
      if userID != target {
        var similarity := sim(targetRatings, data[userID]);
        if similarity > maxSim {
          maxSim := similarity;
          similarUser := userID;
          found := true;
        }
      }
      rest := rest - {userID};
    }
  }

  /** `generateRecommendations`: the most similar customer's movies rated at
      least `MinRating` that the target has not rated, each once. */
  method GenerateRecommendations(data: Matrix, target: int, sim: Similarity) returns (recs: seq<int>)
    ensures exists u :: IsMostSimilar(data, target, sim, u) &&
              forall m :: m in recs <==> m in Eligible(data, target, u, MinRating)
    ensures forall i, j :: 0 <= i < j < |recs| ==> recs[i] != recs[j]
    ensures (forall u :: u in data && u != target ==> sim(Row(data, target), data[u]) <= 0.0) && -1 !in data
            ==> recs == []
  {
    var similarUser := FindMostSimilarUser(data, target, sim);
    recs := FilterNeighbourMovies(data, target, similarUser, MinRating);
  }
}
