/**
 The neighbour filter shared by the two user-based recommenders
 (nodo2/client.go and test.go): recommend the movies the most similar
 customer rated highly and the target customer has not rated.
 */
module UserBased {
  import opened Ratings

  /** The movies `neighbour` rated at least `threshold` that `target` has not
      rated. A customer without ratings contributes nothing. */
  function Eligible(data: Matrix, target: int, neighbour: int, threshold: real): set<int>
  {
    set m | m in Row(data, neighbour) && m !in Row(data, target) && Row(data, neighbour)[m] >= threshold
  }

  /** The recommendation loop of `generateRecommendations`: walk the
      neighbour's ratings in map order and append each eligible movie. */
  method FilterNeighbourMovies(data: Matrix, target: int, neighbour: int, threshold: real) returns (recs: seq<int>)
    ensures forall m :: m in recs <==> m in Eligible(data, target, neighbour, threshold)
    ensures forall i, j :: 0 <= i < j < |recs| ==> recs[i] != recs[j]
    ensures neighbour !in data ==> recs == []
  {
    recs := [];
    var neighbourRatings := Row(data, neighbour);
    var targetRatings := Row(data, target);
    var rest := neighbourRatings.Keys;
    while rest != {}
      invariant rest <= neighbourRatings.Keys
      invariant forall m :: m in recs <==> m in Eligible(data, target, neighbour, threshold) && m !in rest
      invariant forall i, j :: 0 <= i < j < |recs| ==> recs[i] != recs[j]
      invariant neighbour !in data ==> recs == []
      decreases |rest|
    {
      ghost var next := PickKey(rest);
      var movieID :| movieID in rest;
      var rating := neighbourRatings[movieID];
      if movieID !in targetRatings && rating >= threshold {
        recs := recs + [movieID];
      }
      rest := rest - {movieID};
    }
  }
}
