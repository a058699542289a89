/**
 The rating matrix shared by the coordinator and the worker nodes, and the
 record-insertion loop of `loadNetflixData`, which every program of the
 repository carries a copy of (server/server.go, nodo2/client.go,
 nodo3/client.go, test.go).

 A matrix maps a customer to that customer's ratings (movie to rating).
 Reading a missing customer yields an empty row, as a Go nil map does.
 */
module Ratings {

  datatype Option<T> = None | Some(value: T)

  type Vector = map<int, real>
  type Matrix = map<int, Vector>

  /** A similarity measure between two rating vectors. The cosine similarity
      of the source is floating-point code; every property here holds for any
      measure, so it is a parameter. */
  type Similarity = (Vector, Vector) -> real

  /** The row stored under `k`, or the empty row (a Go nil map). */
  function Row(m: Matrix, k: int): Vector
  {
    if k in m then m[k] else map[]
  }

  /** Some element of a non-empty set: the next key of a Go `range` over a
      map, whose order is unspecified. */
  lemma PickKey(s: set<int>) returns (k: int)
    requires s != {}
    ensures k in s
  {
    if forall x :: x !in s {
      assert false;
    }
    k :| k in s;
  }

  /** One CSV record after conversion: columns movie, customer, rating. */
  datatype Record = Record(movie: int, customer: int, rating: real)

  /** What one call of the CSV reader yields: a record, or an error (a
      malformed line). End of file is the end of the sequence. */
  datatype CsvRow = Parsed(record: Record) | ReadError

  /** The records the loader inserts: those before the first read error. */
  function Records(rows: seq<CsvRow>): seq<Record>
  {
    if rows == [] || rows[0].ReadError? then [] else [rows[0].record] + Records(rows[1..])
  }

  /** `m[k][j] = v` on a nested Go map, creating the inner map if needed. */
  function Put(m: Matrix, k: int, j: int, v: real): Matrix
  {
    m[k := Row(m, k)[j := v]]
  }

  /** `Ratings[customer][movie] = rating`. */
  function Insert(m: Matrix, r: Record): Matrix
  {
    Put(m, r.customer, r.movie, r.rating)
  }

  /** The matrix after inserting `rs` into `m`, first record first. */
  function BuildOnto(m: Matrix, rs: seq<Record>): Matrix
    decreases |rs|
  {
    if rs == [] then m else BuildOnto(Insert(m, rs[0]), rs[1..])
  }

  ghost predicate Rated(m: Matrix, c: int, mv: int)
  {
    c in m && mv in m[c]
  }

  ghost predicate Touches(r: Record, c: int, mv: int)
  {
    r.customer == c && r.movie == mv
  }

  /** No customer is stored with an empty row. */
  ghost predicate NoEmptyRows(m: Matrix)
  {
    forall c :: c in m ==> m[c] != map[]
  }

  /** A nested store adds exactly its one entry and changes no other. */
  lemma PutEntries(m: Matrix, k: int, j: int, v: real)
    ensures forall k', j' :: Rated(Put(m, k, j, v), k', j') <==> Rated(m, k', j') || (k' == k && j' == j)
    ensures forall k', j' :: Rated(Put(m, k, j, v), k', j') ==>
              Put(m, k, j, v)[k'][j'] == if k' == k && j' == j then v else m[k'][j']
    ensures NoEmptyRows(m) ==> NoEmptyRows(Put(m, k, j, v))
  {
    assert j in Put(m, k, j, v)[k];
  }

  /** The header row is read and discarded; the loop then inserts every record
      up to the first read error or the end of the file. An unreadable header
      (an empty file) is an error and yields the empty matrix. */
  method LoadRatings(rows: seq<CsvRow>) returns (ratings: Matrix, ok: bool)
    ensures ok <==> |rows| > 0 && rows[0].Parsed?
    ensures ok ==> ratings == BuildOnto(map[], Records(rows[1..]))
    ensures !ok ==> ratings == map[]
  {
    ratings := map[];
    if |rows| == 0 || rows[0].ReadError? {
      return ratings, false;
    }
    ok := true;
    var i := 1;
    while i < |rows| && rows[i].Parsed?
      invariant 1 <= i <= |rows|
      invariant BuildOnto(ratings, Records(rows[i..])) == BuildOnto(map[], Records(rows[1..]))
    {
      var record := rows[i].record;
      assert rows[i..][1..] == rows[i + 1..];
      assert Records(rows[i..]) == [record] + Records(rows[i + 1..]);
      ghost var before := ratings;
      if record.customer !in ratings {
        ratings := ratings[record.customer := map[]];
      }
      ratings := ratings[record.customer := ratings[record.customer][record.movie := record.rating]];
      assert ratings == Insert(before, record);
      i := i + 1;
    }
  }

  /** An entry exists after loading iff it existed before or some record
      names that customer and movie. */
  lemma {:induction false} BuildOntoEntries(m: Matrix, rs: seq<Record>, c: int, mv: int)
    ensures Rated(BuildOnto(m, rs), c, mv) <==>
            Rated(m, c, mv) || exists i :: 0 <= i < |rs| && Touches(rs[i], c, mv)
    decreases |rs|
  {
    if rs != [] {
      BuildOntoEntries(Insert(m, rs[0]), rs[1..], c, mv);
      if exists i :: 0 <= i < |rs[1..]| && Touches(rs[1..][i], c, mv) {
        var i :| 0 <= i < |rs[1..]| && Touches(rs[1..][i], c, mv);
        assert Touches(rs[i + 1], c, mv);
      }
      if exists i :: 0 <= i < |rs| && Touches(rs[i], c, mv) {
        var i :| 0 <= i < |rs| && Touches(rs[i], c, mv);
        if i > 0 {
          assert Touches(rs[1..][i - 1], c, mv);
        }
      }
    }
  }

  /** A customer has an inner map after loading iff it had one before or some
      record names it; no inner map is ever left empty. */
  lemma {:induction false} BuildOntoCustomers(m: Matrix, rs: seq<Record>, c: int)
    ensures c in BuildOnto(m, rs) <==> c in m || exists i :: 0 <= i < |rs| && rs[i].customer == c
    ensures NoEmptyRows(m) ==> NoEmptyRows(BuildOnto(m, rs))
    decreases |rs|
  {
    if rs != [] {
      var m' := Insert(m, rs[0]);
      assert NoEmptyRows(m) ==> NoEmptyRows(m') by {
        if NoEmptyRows(m) {
          forall c' | c' in m' ensures m'[c'] != map[] {
            if c' == rs[0].customer {
              assert rs[0].movie in m'[c'];
            }
          }
        }
      }
      BuildOntoCustomers(m', rs[1..], c);
      if exists i :: 0 <= i < |rs[1..]| && rs[1..][i].customer == c {
        var i :| 0 <= i < |rs[1..]| && rs[1..][i].customer == c;
        assert rs[i + 1].customer == c;
      }
      if exists i :: 0 <= i < |rs| && rs[i].customer == c {
        var i :| 0 <= i < |rs| && rs[i].customer == c;
        if i > 0 {
          assert rs[1..][i - 1].customer == c;
        }
      }
    }
  }

  /** Records for other (customer, movie) pairs leave an entry alone. */
  lemma {:induction false} BuildOntoKeeps(m: Matrix, rs: seq<Record>, c: int, mv: int)
    requires Rated(m, c, mv)
    requires forall i :: 0 <= i < |rs| ==> !Touches(rs[i], c, mv)
    ensures Rated(BuildOnto(m, rs), c, mv) && BuildOnto(m, rs)[c][mv] == m[c][mv]
    decreases |rs|
  {
    if rs != [] {
      assert !Touches(rs[0], c, mv);
      forall i | 0 <= i < |rs[1..]| ensures !Touches(rs[1..][i], c, mv) {
        assert rs[1..][i] == rs[i + 1];
      }
      BuildOntoKeeps(Insert(m, rs[0]), rs[1..], c, mv);
    }
  }

  /** Last write wins: the stored rating is that of the last record naming
      the pair. */
  lemma {:induction false} BuildOntoLastWriteWins(m: Matrix, rs: seq<Record>, i: nat)
    requires i < |rs|
    requires forall j :: i < j < |rs| ==> !Touches(rs[j], rs[i].customer, rs[i].movie)
    ensures Rated(BuildOnto(m, rs), rs[i].customer, rs[i].movie)
    ensures BuildOnto(m, rs)[rs[i].customer][rs[i].movie] == rs[i].rating
    decreases |rs|
  {
    if i == 0 {
      var m' := Insert(m, rs[0]);
      forall j | 0 <= j < |rs[1..]| ensures !Touches(rs[1..][j], rs[0].customer, rs[0].movie) {
        assert rs[1..][j] == rs[j + 1];
      }
      BuildOntoKeeps(m', rs[1..], rs[0].customer, rs[0].movie);
    } else {
      assert rs[1..][i - 1] == rs[i];
      forall j | i - 1 < j < |rs[1..]| ensures !Touches(rs[1..][j], rs[i].customer, rs[i].movie) {
        assert rs[1..][j] == rs[j + 1];
      }
      BuildOntoLastWriteWins(Insert(m, rs[0]), rs[1..], i - 1);
    }
  }
}
