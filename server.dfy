/**
 The coordinator of server/server.go: the vote tally `recommendationsCount`,
 the completion counter (the `sync.WaitGroup`), reassignment of a failed
 dispatch, the fan-out to the roster and the extraction of the final answer.

 Goroutines run one after another in this model: a dispatch that the source
 starts with `go handleNodeConnection(...)` is reported by the fan-out as
 launched, and its run is a later call of `HandleNodeConnection`. The
 network is two oracles over node addresses: `healthy` (the two-second
 health probe) and `dialable` (whether `net.Dial` succeeds).
 */
module Server {
  import opened Ratings

  /** `nodeIPs`: the fixed roster, in dispatch order. */
  const NodeAddresses: seq<string> := ["172.20.0.2:9002", "172.20.0.3:9002", "172.20.0.4:9002"]

  /** Movie ID to the number of nodes' lists it occurred in (with repeats). */
  type Tally = map<int, int>

  /** The count of `id`, zero when absent (Go's zero value). */
  function Count(t: Tally, id: int): int
  {
    if id in t then t[id] else 0
  }

  /** The tally after `recommendationsCount[movieID]++` for each listed ID,
      in list order. */
  function Merge(t: Tally, recs: seq<int>): Tally
    decreases |recs|
  {
    if recs == [] then t else Merge(t[recs[0] := Count(t, recs[0]) + 1], recs[1..])
  }

  /** The tally after merging each list of `lists`, in order. */
  function MergeAll(t: Tally, lists: seq<seq<int>>): Tally
  {
    if lists == [] then t else Merge(MergeAll(t, lists[..|lists| - 1]), lists[|lists| - 1])
  }

  /** Total occurrences of `id` over all lists. */
  function Occurrences(lists: seq<seq<int>>, id: int): nat
  {
    if lists == [] then 0
    else Occurrences(lists[..|lists| - 1], id) + multiset(lists[|lists| - 1])[id]
  }

  /** Every stored count is at least one. */
  ghost predicate Positive(t: Tally)
  {
    forall id :: id in t ==> t[id] >= 1
  }

  /** Merging a list raises each ID's count by its number of occurrences in
      the list, adds exactly the listed IDs as keys and changes nothing else. */
  lemma {:induction false} MergeCounts(t: Tally, recs: seq<int>, id: int)
    ensures id in Merge(t, recs) <==> id in t || id in recs
    ensures Count(Merge(t, recs), id) == Count(t, id) + multiset(recs)[id]
    decreases |recs|
  {
    if recs != [] {
      MergeCounts(t[recs[0] := Count(t, recs[0]) + 1], recs[1..], id);
      assert recs == [recs[0]] + recs[1..];
      assert multiset(recs) == multiset{recs[0]} + multiset(recs[1..]);
    }
  }

  /** Merging keeps every count at least one. */
  lemma MergePositive(t: Tally, recs: seq<int>)
    requires Positive(t)
    ensures Positive(Merge(t, recs))
  {
    forall id | id in Merge(t, recs) ensures Merge(t, recs)[id] >= 1 {
      MergeCounts(t, recs, id);
      if id !in t {
        assert id in recs;
      }
    }
  }

  /** Two tallies with the same keys and the same counts are equal. */
  lemma TallyExtensionality(a: Tally, b: Tally)
    requires forall id :: id in a <==> id in b
    requires forall id :: Count(a, id) == Count(b, id)
    ensures a == b
  {
    forall id | id in a.Keys ensures id in b.Keys {}
    forall id | id in b.Keys ensures id in a.Keys {}
    forall id | id in a ensures a[id] == b[id] {
      assert Count(a, id) == Count(b, id);
    }
  }

  /** The order in which two nodes' lists are merged does not matter. */
  lemma MergeCommutes(t: Tally, a: seq<int>, b: seq<int>)
    ensures Merge(Merge(t, a), b) == Merge(Merge(t, b), a)
  {
    forall id ensures (id in Merge(Merge(t, a), b) <==> id in Merge(Merge(t, b), a))
      && Count(Merge(Merge(t, a), b), id) == Count(Merge(Merge(t, b), a), id)
    {
      MergeCounts(t, a, id);
      MergeCounts(Merge(t, a), b, id);
      MergeCounts(t, b, id);
      MergeCounts(Merge(t, b), a, id);
    }
    TallyExtensionality(Merge(Merge(t, a), b), Merge(Merge(t, b), a));
  }

  /** Merging two lists one after the other is merging their concatenation,
      so the grouping of node replies does not matter either. */
  lemma {:induction false} MergeAppend(t: Tally, a: seq<int>, b: seq<int>)
    ensures Merge(t, a + b) == Merge(Merge(t, a), b)
    decreases |a|
  {
    if a != [] {
      assert (a + b)[0] == a[0] && (a + b)[1..] == a[1..] + b;
      MergeAppend(t[a[0] := Count(t, a[0]) + 1], a[1..], b);
    } else {
      assert a + b == b;
    }
  }

  /** Starting from the empty tally, an ID is a key iff it occurred in some
      merged list; its count is its total number of occurrences, at least
      one. */
  lemma {:induction false} MergeAllFromEmpty(lists: seq<seq<int>>, id: int)
    ensures id in MergeAll(map[], lists) <==> exists i :: 0 <= i < |lists| && id in lists[i]
    ensures Count(MergeAll(map[], lists), id) == Occurrences(lists, id)
    ensures Positive(MergeAll(map[], lists))
  {
    if lists != [] {
      var init, last := lists[..|lists| - 1], lists[|lists| - 1];
      MergeAllFromEmpty(init, id);
      MergeCounts(MergeAll(map[], init), last, id);
      MergePositive(MergeAll(map[], init), last);
      if exists i :: 0 <= i < |lists| && id in lists[i] {
        var i :| 0 <= i < |lists| && id in lists[i];
        if i < |lists| - 1 {
          assert id in init[i];
        }
      }
      if exists i :: 0 <= i < |init| && id in init[i] {
        var i :| 0 <= i < |init| && id in init[i];
        assert id in lists[i];
      }
    }
  }

  /** What a dispatched node connection ends with. */
  datatype Exchange = EncodeFailed | DecodeFailed | Replied(recommendations: seq<int>)

  /** The first roster index from `from` on whose node passes the health
      check and accepts a connection. */
  function FirstAvailable(healthy: string -> bool, dialable: string -> bool, from: nat): Option<nat>
    decreases |NodeAddresses| - from
  {
    if from >= |NodeAddresses| then None
    else if healthy(NodeAddresses[from]) && dialable(NodeAddresses[from]) then Some(from)
    else FirstAvailable(healthy, dialable, from + 1)
  }

  ghost predicate Available(healthy: string -> bool, dialable: string -> bool, i: nat)
  {
    i < |NodeAddresses| && healthy(NodeAddresses[i]) && dialable(NodeAddresses[i])
  }

  /** The reassignment target is the first available node in roster order;
      there is none only when no node from `from` on is available. */
  lemma {:induction false} FirstAvailableIsFirst(healthy: string -> bool, dialable: string -> bool, from: nat)
    ensures match FirstAvailable(healthy, dialable, from)
            case Some(k) =>
              from <= k && Available(healthy, dialable, k) &&
              forall j :: from <= j < k ==> !Available(healthy, dialable, j)
            case None =>
              forall j :: from <= j < |NodeAddresses| ==> !Available(healthy, dialable, j)
    decreases |NodeAddresses| - from
  {
    if from < |NodeAddresses| && !Available(healthy, dialable, from) {
      FirstAvailableIsFirst(healthy, dialable, from + 1);
    }
  }

  /** What the fan-out does with roster node `i`'s unit of work. */
  datatype DialOutcome = Connected | Reassigned(node: nat) | Lost

  function Outcome(healthy: string -> bool, dialable: string -> bool, i: nat): DialOutcome
    requires i < |NodeAddresses|
  {
    if dialable(NodeAddresses[i]) then Connected
    else match FirstAvailable(healthy, dialable, 0)
      case Some(k) => Reassigned(k)
      case None => Lost
  }

  /** Number of units for which a `handleNodeConnection` goroutine started. */
  function Launched(outcomes: seq<DialOutcome>): nat
  {
    if outcomes == [] then 0
    else Launched(outcomes[..|outcomes| - 1]) + (if outcomes[|outcomes| - 1].Lost? then 0 else 1)
  }

  /** Number of units that no node received. */
  function LostCount(outcomes: seq<DialOutcome>): nat
  {
    if outcomes == [] then 0
    else LostCount(outcomes[..|outcomes| - 1]) + (if outcomes[|outcomes| - 1].Lost? then 1 else 0)
  }

  /** When some roster node is available, no unit of work is lost. */
  lemma {:induction false} NoUnitLostWhenANodeIsAvailable(healthy: string -> bool, dialable: string -> bool, outcomes: seq<DialOutcome>)
    requires exists j :: Available(healthy, dialable, j)
    requires |outcomes| <= |NodeAddresses|
    requires forall i :: 0 <= i < |outcomes| ==> outcomes[i] == Outcome(healthy, dialable, i)
    ensures LostCount(outcomes) == 0 && Launched(outcomes) == |outcomes|
  {
    FirstAvailableIsFirst(healthy, dialable, 0);
    if outcomes != [] {
      var init := outcomes[..|outcomes| - 1];
      NoUnitLostWhenANodeIsAvailable(healthy, dialable, init);
    }
  }

  /** When no roster node accepts connections, the as-written fan-out leaves
      the counter three below where it started: every unit is lost and each
      loss is counted down twice. */
  lemma AllNodesDownAsWritten(healthy: string -> bool, dialable: string -> bool, outcomes: seq<DialOutcome>)
    requires forall i :: 0 <= i < |NodeAddresses| ==> !dialable(NodeAddresses[i])
    requires |outcomes| == |NodeAddresses|
    requires forall i :: 0 <= i < |outcomes| ==> outcomes[i] == Outcome(healthy, dialable, i)
    ensures outcomes == [Lost, Lost, Lost]
    ensures Launched(outcomes) - LostCount(outcomes) == -3
  {
    FirstAvailableIsFirst(healthy, dialable, 0);
    assert FirstAvailable(healthy, dialable, 0).None?;
    assert outcomes == [Lost, Lost, Lost];
    assert [Lost, Lost, Lost][..2] == [Lost, Lost];
    assert [Lost, Lost][..1] == [Lost];
    assert [Lost][..0] == [];
  }

  class Coordinator {
    /** `recommendationsCount` */
    var tally: Tally
    /** The WaitGroup counter: dispatches not yet finished. */
    var pending: int
    /** The node replies merged so far, in merge order. */
    ghost var replies: seq<seq<int>>

    ghost predicate Valid()
      reads this
    {
      tally == MergeAll(map[], replies)
    }

    constructor ()
      ensures Valid() && tally == map[] && pending == 0 && replies == []
    {
      tally := map[];
      pending := 0;
      replies := [];
    }

    /** The locked loop of `handleNodeConnection` that counts one vote per
        listed ID. */
    method MergeRecommendations(recs: seq<int>)
      requires Valid()
      modifies this
      ensures Valid() && replies == old(replies) + [recs]
      ensures tally == Merge(old(tally), recs) && pending == old(pending)
    {
      var i := 0;
      while i < |recs|
        invariant 0 <= i <= |recs|
        invariant Merge(tally, recs[i..]) == Merge(old(tally), recs)
        invariant pending == old(pending) && replies == old(replies)
      {
        assert recs[i..][1..] == recs[i + 1..];
        var movieID := recs[i];
        tally := tally[movieID := Count(tally, movieID) + 1];
        i := i + 1;
      }
      assert recs[i..] == [];
      replies := replies + [recs];
      assert replies[..|replies| - 1] == old(replies);
    }

    /** One dispatch: the encode failure, the decode failure and the success
        path each count the dispatch down exactly once; only a reply changes
        the tally. */
    method HandleNodeConnection(ex: Exchange)
      requires Valid()
      modifies this
      ensures Valid() && pending == old(pending) - 1
      ensures ex.Replied? ==> tally == Merge(old(tally), ex.recommendations)
                              && replies == old(replies) + [ex.recommendations]
      ensures !ex.Replied? ==> tally == old(tally) && replies == old(replies)
    {
      match ex
      case EncodeFailed =>
        pending := pending - 1;
      case DecodeFailed =>
        pending := pending - 1;
      case Replied(recs) =>
        MergeRecommendations(recs);
        pending := pending - 1;
    }

    /** Dispatch to the first roster node that is healthy and accepts the
        connection, counting the new dispatch up; if there is none, count the
        failed unit down. The tally is untouched. */
    method HandleReassignment(healthy: string -> bool, dialable: string -> bool) returns (target: Option<nat>)
      modifies this
      ensures target == FirstAvailable(healthy, dialable, 0)
      ensures pending == old(pending) + (if target.Some? then 1 else -1)
      ensures tally == old(tally) && replies == old(replies)
    {
      var i := 0;
      while i < |NodeAddresses|
        invariant 0 <= i <= |NodeAddresses|
        invariant FirstAvailable(healthy, dialable, i) == FirstAvailable(healthy, dialable, 0)
        invariant pending == old(pending) && tally == old(tally) && replies == old(replies)
      {
        if healthy(NodeAddresses[i]) {
          if dialable(NodeAddresses[i]) {
            pending := pending + 1;
            return Some(i);
          }
        }
        i := i + 1;
      }
      pending := pending - 1;
      return None;
    }

    /** The fan-out loop of `handleAPIConnection` as written: after
        `wg.Add(len(nodeIPs))`, a failed dial calls `handleReassignment` and
        then counts down once more, so a unit that reassignment cannot place
        is counted down twice. */
    method DispatchToRosterAsWritten(healthy: string -> bool, dialable: string -> bool) returns (outcomes: seq<DialOutcome>)
      requires Valid()
      modifies this
      ensures Valid() && tally == old(tally) && replies == old(replies)
      ensures |outcomes| == |NodeAddresses|
      ensures forall i :: 0 <= i < |outcomes| ==> outcomes[i] == Outcome(healthy, dialable, i)
      ensures pending == old(pending) + Launched(outcomes) - LostCount(outcomes)
    {
      pending := pending + |NodeAddresses|;
      outcomes := [];
      var i := 0;
      while i < |NodeAddresses|
        invariant 0 <= i <= |NodeAddresses| && |outcomes| == i
        invariant forall k :: 0 <= k < i ==> outcomes[k] == Outcome(healthy, dialable, k)
        invariant pending == old(pending) + |NodeAddresses| - i + Launched(outcomes) - LostCount(outcomes)
        invariant Valid() && tally == old(tally) && replies == old(replies)
      {
        var o: DialOutcome;
        if dialable(NodeAddresses[i]) {
          o := Connected;
        } else {
          var target := HandleReassignment(healthy, dialable);
          pending := pending - 1;
          o := if target.Some? then Reassigned(target.value) else Lost;
        }
        assert (outcomes + [o])[..|outcomes|] == outcomes;
        outcomes := outcomes + [o];
        i := i + 1;
      }
    }

    /** The fan-out with the failed-reassignment unit counted down once: the
        counter then rises by exactly the number of goroutines started, so it
        returns to its starting value exactly when each of them has run
        `HandleNodeConnection`. */
    method DispatchToRoster(healthy: string -> bool, dialable: string -> bool) returns (outcomes: seq<DialOutcome>)
      requires Valid()
      modifies this
      ensures Valid() && tally == old(tally) && replies == old(replies)
      ensures |outcomes| == |NodeAddresses|
      ensures forall i :: 0 <= i < |outcomes| ==> outcomes[i] == Outcome(healthy, dialable, i)
      ensures pending == old(pending) + Launched(outcomes)
    {
      pending := pending + |NodeAddresses|;
      outcomes := [];
      var i := 0;
      while i < |NodeAddresses|
        invariant 0 <= i <= |NodeAddresses| && |outcomes| == i
        invariant forall k :: 0 <= k < i ==> outcomes[k] == Outcome(healthy, dialable, k)
        invariant pending == old(pending) + |NodeAddresses| - i + Launched(outcomes)
        invariant Valid() && tally == old(tally) && replies == old(replies)
      {
        var o: DialOutcome;
        if dialable(NodeAddresses[i]) {
          o := Connected;
        } else {
          var target := HandleReassignment(healthy, dialable);
          if target.Some? {
            pending := pending - 1;
          }
          o := if target.Some? then Reassigned(target.value) else Lost;
        }
        assert (outcomes + [o])[..|outcomes|] == outcomes;
        outcomes := outcomes + [o];
        i := i + 1;
      }
    }

    /** `gatherFinalRecommendations`: every tally key exactly once, in map
        iteration order. Nothing orders the keys by count. */
    method GatherFinalRecommendations() returns (ids: seq<int>)
      requires Valid()
      ensures forall id :: id in ids <==> id in tally
      ensures forall id :: id in ids <==> exists i :: 0 <= i < |replies| && id in replies[i]
      ensures forall i, j :: 0 <= i < j < |ids| ==> ids[i] != ids[j]
      ensures |ids| == |tally|
    {
      ids := [];
      var rest := tally.Keys;
      while rest != {}
        invariant rest <= tally.Keys
        invariant forall id :: id in ids <==> id in tally && id !in rest
        invariant forall i, j :: 0 <= i < j < |ids| ==> ids[i] != ids[j]
        invariant |ids| + |rest| == |tally|
        decreases |rest|
      {
        ghost var some := PickKey(rest);
        var id :| id in rest;
        ids := ids + [id];
        rest := rest - {id};
      }
      forall id ensures id in tally <==> exists i :: 0 <= i < |replies| && id in replies[i] {
        MergeAllFromEmpty(replies, id);
      }
    }
  }
}
