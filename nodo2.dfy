/**
 The user-based recommender of nodo2/client.go: pick the customer most
 similar to the target (ties on similarity go to the customer with more
 movies in common with the target), then recommend that customer's movies
 rated at least 3.0 that the target has not rated.
 */
module Nodo2 {
  import opened Ratings
  import opened UserBased

  /** The rating threshold of `generateRecommendations`. */
  const MinRating: real := 3.0

  /** A candidate's similarity to the target and the number of movies both
      rated. */
  datatype Standing = Standing(similarity: real, common: nat)

  /** The search starts from similarity 0 and no common ratings. */
  const Baseline := Standing(0.0, 0)

  /** The update test of `findMostSimilarUser`: higher similarity, or equal
      similarity and more common ratings. */
  predicate Beats(a: Standing, b: Standing)
  {
    a.similarity > b.similarity || (a.similarity == b.similarity && a.common > b.common)
  }

  /** The number of movies rated by both customers. */
  function Common(target: Vector, ratings: Vector): nat
  {
    |target.Keys * ratings.Keys|
  }

  ghost function StandingOf(data: Matrix, target: int, sim: Similarity, u: int): Standing
    requires u in data
  {
    Standing(sim(Row(data, target), data[u]), Common(Row(data, target), data[u]))
  }

  /** A customer other than the target who beats the baseline. */
  ghost predicate Qualifies(data: Matrix, target: int, sim: Similarity, u: int)
  {
    u in data && u != target && Beats(StandingOf(data, target, sim, u), Baseline)
  }

  /** `user` is a possible answer of `findMostSimilarUser`: a qualifying
      customer whom no other customer beats, or -1 when nobody qualifies. */
  ghost predicate IsMostSimilar(data: Matrix, target: int, sim: Similarity, user: int)
  {
    if exists u :: Qualifies(data, target, sim, u) then
      && Qualifies(data, target, sim, user)
      && forall u :: u in data && u != target ==>
           !Beats(StandingOf(data, target, sim, u), StandingOf(data, target, sim, user))
    else user == -1
  }

  /** The answer is determined up to ties: any two possible answers have
      the same similarity and the same number of common ratings. */
  lemma MostSimilarUpToTies(data: Matrix, target: int, sim: Similarity, a: int, b: int)
    requires IsMostSimilar(data, target, sim, a) && IsMostSimilar(data, target, sim, b)
    ensures a == b || (Qualifies(data, target, sim, a) && Qualifies(data, target, sim, b)
                       && StandingOf(data, target, sim, a) == StandingOf(data, target, sim, b))
  {
  }

  /** The inner loop of `findMostSimilarUser`: walk the target's movies and
      count those the candidate also rated. */
  method CountCommonRatings(target: Vector, ratings: Vector) returns (commonRatings: nat)
    ensures commonRatings == Common(target, ratings)
  {
    commonRatings := 0;
    var rest := target.Keys;
    while rest != {}
      invariant rest <= target.Keys
      invariant commonRatings == |(target.Keys - rest) * ratings.Keys|
      decreases |rest|
    {
      ghost var next := PickKey(rest);
      var movieID :| movieID in rest;
      CountStep(target.Keys, ratings.Keys, rest, movieID);
      if movieID in ratings {
        commonRatings := commonRatings + 1;
      }
      rest := rest - {movieID};
    }
    assert target.Keys - rest == target.Keys;
  }

  /** Moving one movie from the unvisited set to the visited set adds one to
      the common count exactly when the other customer rated it. */
  lemma CountStep(all: set<int>, other: set<int>, rest: set<int>, m: int)
    requires m in rest && rest <= all
    ensures |(all - (rest - {m})) * other| == |(all - rest) * other| + if m in other then 1 else 0
  {
    var seen := (all - rest) * other;
    if m in other {
      assert (all - (rest - {m})) * other == seen + {m};
    } else {
      assert (all - (rest - {m})) * other == seen;
    }
  }

  /** `findMostSimilarUser`: one pass over the customers in map order, keeping
      the best (similarity, common ratings) seen so far. */
  method FindMostSimilarUser(data: Matrix, target: int, sim: Similarity) returns (similarUser: int)
    ensures IsMostSimilar(data, target, sim, similarUser)
    ensures similarUser == -1 || (similarUser in data && similarUser != target)
  {
    var maxSim := 0.0;
    similarUser := -1;
    var maxCommonRatings := 0;
    ghost var found := false;
    var targetRatings := Row(data, target);
    var rest := data.Keys;
    while rest != {}
      invariant rest <= data.Keys
      invariant !found ==> maxSim == 0.0 && maxCommonRatings == 0 && similarUser == -1
      invariant found ==> Qualifies(data, target, sim, similarUser) && similarUser !in rest
                          && StandingOf(data, target, sim, similarUser) == Standing(maxSim, maxCommonRatings)
      invariant forall u :: u in data && u != target && u !in rest ==>
                  !Beats(StandingOf(data, target, sim, u), Standing(maxSim, maxCommonRatings))
      decreases |rest|
    {
      ghost var next := PickKey(rest);
      var userID :| userID in rest;
      if userID != target {
        var ratings := data[userID];
        var similarity := sim(targetRatings, ratings);
        var commonRatings := CountCommonRatings(targetRatings, ratings);
        if similarity > maxSim || (similarity == maxSim && commonRatings > maxCommonRatings) {
          maxSim := similarity;
          similarUser := userID;
          maxCommonRatings := commonRatings;
          found := true;
        }
      }
      rest := rest - {userID};
    }
  }

  /** `generateRecommendations`: the most similar customer's movies rated at
      least `MinRating` that the target has not rated, each once. */
  method GenerateRecommendations(data: Matrix, target: int, sim: Similarity) returns (recs: seq<int>)
    ensures exists u :: IsMostSimilar(data, target, sim, u) &&
              forall m :: m in recs <==> m in Eligible(data, target, u, MinRating)
    ensures forall i, j :: 0 <= i < j < |recs| ==> recs[i] != recs[j]
    ensures (forall u :: !Qualifies(data, target, sim, u)) && -1 !in data ==> recs == []
  {
    var similarUser := FindMostSimilarUser(data, target, sim);
    recs := FilterNeighbourMovies(data, target, similarUser, MinRating);
  }
}
