# Distributed movie recommender: verified model of the recommendation core

The system answers a list of favourite movies with recommendations. A
coordinator (server/server.go) sends the favourites and a customer-by-movie
rating matrix to three worker nodes. It counts one vote per movie ID in each
node's reply and answers with the IDs that received a vote. There are three
worker strategies:

- nodo1/client.go is item-based. It transposes the matrix into movie vectors,
  adds up each movie's similarity to the favourites and keeps the five
  best-scoring movies.
- nodo2/client.go and test.go are user-based. They pick the customer most
  similar to a target customer and recommend that customer's well-rated
  movies that the target has not rated. The tie-break and the rating
  threshold differ between the two files.
- nodo3/client.go defines a recommender that collects every matrix key
  compared with some favourite. The node itself never calls it: it replies
  with a fixed list (see "Left out").

server/server.go, nodo2/client.go, nodo3/client.go and test.go each build
a rating matrix with the same CSV insertion loop. nodo1/client.go has no
loader: it works on the matrix decoded from the coordinator's payload.

Modules, one per source file plus two shared ones:

| module | file | models |
|---|---|---|
| `Ratings` | ratings.dfy | the matrix types, Go nil-map reads, the CSV insertion loop of every `loadNetflixData` |
| `Server` | server.dfy | server/server.go: vote tally, completion counter (`sync.WaitGroup`), reassignment, fan-out, final answer |
| `Nodo1` | nodo1.dfy | nodo1/client.go: `buildMovieVectors`, `sortMoviesByScore`, `findSimilarMovies` |
| `UserBased` | user_based.dfy | the neighbour filter loop shared by nodo2/client.go and test.go |
| `Nodo2` | nodo2.dfy | nodo2/client.go: `findMostSimilarUser` with the common-ratings tie-break, `generateRecommendations` (threshold 3.0) |
| `Demo` | demo.dfy | test.go: `findMostSimilarUser` with a strict argmax, `generateRecommendations` (threshold 4.0) |
| `Nodo3` | nodo3.dfy | nodo3/client.go: `generateMovieRecommendations` |

Modelling choices:

- Go maps are Dafny maps. A nested Go map read of a missing customer is
  `Row`, which gives the empty row.
- A `range` over a map picks the next key with `:|` from the keys not yet
  visited. The order is therefore unspecified, as in Go. Every result is
  proved for every iteration order.
- Cosine similarity is the parameter `sim`, a function on two rating vectors.
  Every property holds whatever that function computes.
- The health probe and `net.Dial` are two oracles over node addresses,
  `healthy` and `dialable`.
- The tally and the counter are fields of a `Coordinator` object.
  Goroutines run one after another. A dispatch started with `go` is reported
  by the fan-out as launched, and its run is a later call of
  `HandleNodeConnection`.
- The tally is global in the source and nothing ever clears it, so it
  accumulates over all requests the server handles. The model keeps it that
  way: one `Coordinator` lives as long as the process.

## Model

| member | source | states |
|---|---|---|
| Ratings.LoadRatings | server/server.go:48-73 | An unreadable header gives the error flag and the empty matrix. Otherwise the header row is skipped and the records up to the first read error are inserted in file order, giving `BuildOnto(map[], Records(rows[1..]))`. The same loader is copied at nodo2/client.go:27-52, nodo3/client.go:26-51 and test.go:25-50. |
| Ratings.BuildOntoEntries | server/server.go:57-71 | After loading, a (customer, movie) entry exists iff it existed before or some inserted record names that pair. |
| Ratings.BuildOntoCustomers | server/server.go:67-69 | An inner map exists exactly for the customers that some record names. No inner map is ever left empty. |
| Ratings.BuildOntoKeeps | server/server.go:67-70 | Records for other (customer, movie) pairs leave an entry's rating unchanged. |
| Ratings.BuildOntoLastWriteWins | server/server.go:57-71 | The stored rating of a pair is the rating of the last record naming that pair. |
| Ratings.PutEntries | server/server.go:67-70 | A nested store `m[k][j] = v` adds exactly the entry (k, j) with value v and changes no other entry. |
| Server.MergeCounts | server/server.go:114-118 | Merging one node's list adds each ID's occurrence count in the list to its tally. The keys become the old keys plus the listed IDs, and nothing else changes. |
| Server.MergePositive | server/server.go:114-118 | Merging keeps every stored count at least 1. |
| Server.MergeCommutes | server/server.go:114-118 | Merging list A then list B gives the same tally as B then A. |
| Server.MergeAppend | server/server.go:114-118 | Merging list A and then list B equals merging their concatenation A + B: with `MergeCommutes`, the merge is associative and commutative. |
| Server.MergeAllFromEmpty | server/server.go:114-118 | Starting from the empty tally, an ID is a key iff it occurs in some merged list. Its count is its total number of occurrences, which is at least 1. |
| Server.Coordinator.constructor | server/server.go:16-18 | The process starts with an empty tally, a zero counter and no replies merged. |
| Server.Coordinator.MergeRecommendations | server/server.go:113-118 | The locked loop leaves the tally equal to `Merge(old tally, recs)`. It keeps the invariant that the tally is the merge of all replies so far, and leaves the counter unchanged. |
| Server.Coordinator.HandleNodeConnection | server/server.go:94-120 | Each of the three exits decrements the counter exactly once: encode failure, decode failure and success. Only a reply changes the tally, by merging its list. |
| Server.FirstAvailableIsFirst | server/server.go:134-145 | The reassignment target is available (healthy and dialable) and no earlier roster node is. There is no target only when no roster node is available. |
| Server.Coordinator.HandleReassignment | server/server.go:134-148 | Dispatches to `FirstAvailable`. Adds 1 to the counter on success and subtracts 1 when no node qualifies. The tally is untouched. |
| Server.NoUnitLostWhenANodeIsAvailable | server/server.go:179-184 | When some roster node is available, every failed dial is reassigned: no unit of work is lost. |
| Server.AllNodesDownAsWritten | server/server.go:179-184 | When no node accepts connections, all three units are lost and the as-written fan-out would leave the counter 3 below its start (in Go the process panics once the counter would drop below zero). |
| Server.Coordinator.DispatchToRosterAsWritten | server/server.go:168-188 | The fan-out as written records one outcome per roster node (connected, reassigned or lost). The counter ends at old + launched − lost. |
| Server.Coordinator.DispatchToRoster | server/server.go:168-188 | The corrected fan-out. The counter ends at old + launched, so it returns to its start exactly when every started goroutine has finished. |
| Server.Coordinator.GatherFinalRecommendations | server/server.go:202-210 | Returns every tally key exactly once, with no duplicates and as many IDs as keys. These are exactly the IDs that occur in some merged node reply. Nothing orders the IDs by count, and the tally is not modified (no `modifies`). |
| Nodo1.TransposeIsTranspose | nodo1/client.go:38-52 | `Transpose(data)[m][u] == r` iff `data[u][m] == r`, and no movie vector is empty. |
| Nodo1.TransposeUnique | nodo1/client.go:38-52 | Any matrix with the pointwise transpose property equals `Transpose(data)`. |
| Nodo1.TransposeInvolution | nodo1/client.go:38-52 | Transposing twice gives back any matrix without empty rows, which covers every matrix the loader builds. |
| Nodo1.BuildMovieVectors | nodo1/client.go:38-52 | The double loop builds exactly the transpose. Its keys are exactly the movies some customer rated. |
| Nodo1.InsertByScore | nodo1/client.go:98-100 | Inserting into a list in descending score order keeps it descending and adds exactly one entry, as a multiset. |
| Nodo1.SortByScore | nodo1/client.go:98-100 | The sort yields a permutation of its input (multiset equality) in non-increasing score order. |
| Nodo1.CollectScores | nodo1/client.go:92-95 | The collecting loop lists each key of `scores` exactly once, paired with its score. |
| Nodo1.ListsScoresPermutation | nodo1/client.go:92-100 | Sorting such a listing keeps it such a listing: no key is lost or repeated. |
| Nodo1.TakeIds | nodo1/client.go:103-109 | The loop with `break` takes the first `limit` IDs, or none when `limit` is not positive. |
| Nodo1.TopPrefix | nodo1/client.go:98-109 | The first IDs of the sorted listing are distinct keys in non-increasing score order, and no key left out scores above a returned one. |
| Nodo1.SortMoviesByScore | nodo1/client.go:85-112 | Returns min(limit, number of keys) IDs, or none when limit ≤ 0, and all keys when there are at most `limit`. The IDs are distinct keys in non-increasing score order, with top-k: no key left out outscores a returned one. |
| Nodo1.NonCandidateScoresZero | nodo1/client.go:61-79 | A movie that no favourite was compared with has accumulated score 0. |
| Nodo1.CandidateExtend | nodo1/client.go:61-79 | One more favourite makes a movie a candidate iff both have vectors and they differ. Absent favourites and self-pairs are skipped. |
| Nodo1.ScoreExtend | nodo1/client.go:69-76 | One more favourite adds exactly its contribution to a movie's score. |
| Nodo1.AddFavourite | nodo1/client.go:60-79 | One outer pass turns "scores for the favourites so far" into the same for one more favourite. A missing key starts from 0. |
| Nodo1.FindSimilarMovies | nodo1/client.go:55-82 | At most 5 IDs, all distinct rated movies compared with some favourite other than themselves. They come in non-increasing order of summed similarity, with top-k among all compared movies, and all compared movies are returned when fewer than 5 are. |
| UserBased.FilterNeighbourMovies | nodo2/client.go:101-108 | Returns the neighbour's movies rated at or above the threshold that the target has not rated: exactly those, each once. It is empty when the neighbour has no ratings. The same loop is at test.go:88-96 with threshold 4.0. |
| Nodo2.CountCommonRatings | nodo2/client.go:80-86 | The count is the number of movies rated by both customers. |
| Nodo2.CountStep | nodo2/client.go:82-85 | Visiting one more of the target's movies adds 1 to the common count exactly when the other customer rated it. |
| Nodo2.FindMostSimilarUser | nodo2/client.go:72-96 | Returns −1 or a customer other than the target. If some customer beats the baseline (similarity 0, no common ratings), the result is such a customer and no customer beats it lexicographically on (similarity, common ratings). Otherwise the result is −1. |
| Nodo2.MostSimilarUpToTies | nodo2/client.go:88-92 | Two possible answers are equal or have the same similarity and the same common count: only exact ties depend on map order. |
| Nodo2.GenerateRecommendations | nodo2/client.go:99-109 | For some most-similar answer u, the result holds exactly the movies u rated ≥ 3.0 that the target has not, each once. It is empty when nobody beats the baseline and there is no customer −1. |
| Demo.FindMostSimilarUser | test.go:70-83 | Returns −1 or a customer other than the target. If some other customer has positive similarity, the result has positive similarity ≥ every other customer's. Otherwise the result is −1. |
| Demo.MostSimilarUpToTies | test.go:76-79 | Two possible answers are equal or have equal similarity. |
| Demo.GenerateRecommendations | test.go:86-97 | For some most-similar answer u, the result holds exactly the movies u rated ≥ 4.0 that the target has not, each once. It is empty when nobody has positive similarity and there is no customer −1. |
| Nodo3.ComparedExtend | nodo3/client.go:75-79 | One more favourite adds exactly the matrix keys that differ from it. |
| Nodo3.CompareWithAll | nodo3/client.go:76-86 | One outer pass gives a score to exactly the keys compared so far. |
| Nodo3.GenerateMovieRecommendations | nodo3/client.go:71-96 | Returns each matrix key that differs from some favourite, each once, whatever the similarities. Empty favourites give an empty result. A single favourite k gives every key except k. |

## Left out

- Networking and wire formats are not modelled: sockets, `net.Dial`, `Listen`/`Accept`, gob and JSON encoding, and every `main`. A node exchange is an `Exchange` value (encode failure, decode failure or a reply).
- The health probe (server/server.go:124-131) and dial success are oracles over node addresses. They are fixed for the duration of one request.
- Goroutines and `sync.Mutex` are not modelled: runs are sequential. `sync.WaitGroup` is its counter only. Blocking in `wg.Wait` is not modelled, nor is the panic Go raises when `wg.Done()` would take the counter below zero: the model's counter goes negative where the real process crashes.
- CSV parsing and `strconv` are not modelled. A row is a parsed record or a read error. `strconv` failures silently becoming 0 are not modelled.
- Malformed rows: the loader stops at the first read error rather than skipping it, as the code at server/server.go:58-61 does. The model follows the code.
- Cosine similarity (nodo1/client.go:18-35, nodo2/client.go:56-69, nodo3/client.go:55-68, test.go:54-67) is floating-point code with `sqrt`, so similarity is a parameter. `float64` ratings and scores are `real`, with no rounding.
- Go's 64-bit `int` is modelled by Dafny's unbounded `int`, so 64-bit overflow of a tally count is not modelled.
- Which element wins an exact tie depends on map iteration order and on `sort.Slice` not being stable. The contracts allow every outcome.
- Nodo1.SortByScore: `sort.Slice` is modelled by an insertion sort. Only its contract (descending order, permutation) is relied on, and it is what the library promises.
- nodo3's hard-coded reply `[11, 12, 13, 14, 15]` (nodo3/client.go:132) is a stub and is not modelled.
- Nodo3.GenerateMovieRecommendations models dead code: the node's only call to it is commented out (nodo3/client.go:130), and the matrix it loads is discarded (nodo3/client.go:121). What the node actually sends is the fixed list above.
- Nodo3.GenerateMovieRecommendations: the score values are accumulated but not specified, because the result contains only the keys.
- The nodo2 dial-retry loop with `time.Sleep` (nodo2/client.go:118-142) is not modelled.
- api/main.go and client/my-app/app/page.tsx are not part of this model.
- nodo3 iterates over the matrix keys (customers) as if they were movie IDs. The model states what the code computes.
- The commented-out per-node dataset load in the fan-out (server/server.go:170-176) is not modelled.

## Findings

| source | as written | input that shows it | evidently intended | confidence | as-written member | corrected member |
|---|---|---|---|---|---|---|
| server/server.go:179-184 | A failed dial calls `handleReassignment`, which itself calls `wg.Done()` when no node is available (server/server.go:147). The caller then calls `wg.Done()` again (server/server.go:183). | All three nodes refuse connections: each lost unit is counted down twice. After `wg.Add(3)` the first unit takes the counter 3 → 2 (server/server.go:147) → 1 (server/server.go:183). The second unit takes it 1 → 0 at server/server.go:147, and the `wg.Done()` at server/server.go:183 would make it negative, so Go panics there; the unrecovered panic ends the whole server process. (The model, which has no panic, ends at −3.) | Each unit is counted down once: the caller counts down only after a successful reassignment, so the counter ends at the number of started goroutines | not executed | Server.Coordinator.DispatchToRosterAsWritten, Server.AllNodesDownAsWritten | Server.Coordinator.DispatchToRoster |
