/**
 Quorum arithmetic of the write path and of elections.

 A write counts only the peers it has heard from recently; an election counts
 the whole replica set. The two kinds of quorum therefore meet only under a
 condition on the number of live peers, which `WriteMeetsElectionExactly` pins
 down.
 */
module Quorum {

  /** The votes `startElection` asks for in a replica set of size `n`. */
  function ElectionQuorum(n: nat): nat {
    n / 2 + 1
  }

  /** The follower acknowledgements a write needs with `live` live peers. */
  function NeededFollowers(live: nat): nat {
    (live + 1) / 2
  }

  datatype QuorumInfo = QuorumInfo(
    livePeers: map<string, string>,
    totalEligible: nat,
    quorum: nat,
    neededFollowers: nat)
  {
    predicate HasLiveQuorum() {
      |livePeers| >= neededFollowers
    }
  }

  /** Peer `id` was heard from within the window; a non-positive window accepts everyone. */
  predicate Recent(id: string, peerLast: map<string, int>, now: int, window: int) {
    window <= 0 || (id in peerLast && now - peerLast[id] <= window)
  }

  method PlanQuorum(peerAddrs: map<string, string>, peerLast: map<string, int>, now: int, window: int)
    returns (info: QuorumInfo)
    ensures info.livePeers == map id | id in peerAddrs && Recent(id, peerLast, now, window) :: peerAddrs[id]
    ensures forall id :: id in info.livePeers <==>
              && id in peerAddrs
              && (window <= 0 || (id in peerLast && peerLast[id] >= now - window))
    ensures info.totalEligible == |info.livePeers| + 1
    ensures 2 * info.quorum > info.totalEligible && 2 * (info.quorum - 1) <= info.totalEligible
    ensures info.quorum == ElectionQuorum(info.totalEligible)
    ensures info.neededFollowers == info.quorum - 1 == NeededFollowers(|info.livePeers|)
    ensures info.HasLiveQuorum()
  {
    var live: map<string, string> := map[];
    var rest := peerAddrs.Keys;
    if window <= 0 {
      while rest != {}
        invariant rest <= peerAddrs.Keys
        invariant live == map id | id in peerAddrs && id !in rest :: peerAddrs[id]
        decreases rest
      {
        var id :| id in rest;
        live := live[id := peerAddrs[id]];
        rest := rest - {id};
      }
    } else {
      while rest != {}
        invariant rest <= peerAddrs.Keys
        invariant live == map id | id in peerAddrs && id !in rest && Recent(id, peerLast, now, window) :: peerAddrs[id]
        decreases rest
      {
        var id :| id in rest;
        if id in peerLast && now - peerLast[id] <= window {
          live := live[id := peerAddrs[id]];
        }
        rest := rest - {id};
      }
    }
    var total := |live| + 1;
    var quorum := total / 2 + 1;
    info := QuorumInfo(live, total, quorum, quorum - 1);
  }

  // ---------------------------------------------------------------- sets

  lemma {:induction false} SubsetSize<T>(a: set<T>, b: set<T>)
    requires a <= b
    ensures |a| <= |b|
  {
    assert b == a + (b - a);
  }

  /** Two parts of a set that together outnumber it share a member. */
  lemma {:induction false} Overlap<T>(a: set<T>, b: set<T>, u: set<T>)
    requires a <= u && b <= u
    requires |a| + |b| > |u|
    ensures a * b != {}
  {
    if a * b == {} {
      assert |a + b| == |a| + |b|;
      SubsetSize(a + b, u);
    }
  }

  /** Any size up to that of the set is the size of one of its parts. */
  lemma {:induction false} PickSubset<T>(u: set<T>, k: nat) returns (s: set<T>)
    requires k <= |u|
    ensures s <= u && |s| == k
  {
    if k == 0 {
      s := {};
    } else {
      var x :| x in u;
      var s' := PickSubset(u - {x}, k - 1);
      s := s' + {x};
    }
  }

  // ---------------------------------------------------------------- quorums

  /** The leader and the peers that acknowledged outnumber the rest of the eligible set. */
  lemma {:induction false} WriteQuorumIsMajority(leader: string, live: set<string>, acked: set<string>)
    requires leader !in live && acked <= live
    requires |acked| >= NeededFollowers(|live|)
    ensures 2 * |acked + {leader}| > |live + {leader}|
  {
  }

  /** Two writes planned over one eligible set share a replica. */
  lemma {:induction false} WriteQuorumsMeet(
    l1: string, l2: string, eligible: set<string>, a1: set<string>, a2: set<string>)
    requires l1 in eligible && a1 <= eligible - {l1} && |a1| >= NeededFollowers(|eligible| - 1)
    requires l2 in eligible && a2 <= eligible - {l2} && |a2| >= NeededFollowers(|eligible| - 1)
    ensures (a1 + {l1}) * (a2 + {l2}) != {}
  {
    Overlap(a1 + {l1}, a2 + {l2}, eligible);
  }

  /** With `live` live peers out of `n` replicas, write quorums reach into every election quorum. */
  predicate PlanReachesElections(live: nat, n: nat) {
    NeededFollowers(live) + 1 + ElectionQuorum(n) > n
  }

  lemma {:induction false} AllPeersLiveReachesElections(n: nat)
    requires n > 0
    ensures PlanReachesElections(n - 1, n)
  {
  }

  lemma {:induction false} WriteMeetsElection(
    replicas: set<string>, leader: string, live: set<string>, acked: set<string>, voters: set<string>)
    requires leader in replicas && live <= replicas - {leader} && acked <= live && voters <= replicas
    requires |acked| >= NeededFollowers(|live|) && |voters| >= ElectionQuorum(|replicas|)
    requires PlanReachesElections(|live|, |replicas|)
    ensures (acked + {leader}) * voters != {}
  {
    Overlap(acked + {leader}, voters, replicas);
  }

  ghost predicate EveryWriteMeetsEveryElection(replicas: set<string>, leader: string, live: set<string>) {
    forall acked: set<string>, voters: set<string> ::
      acked <= live && voters <= replicas
      && |acked| >= NeededFollowers(|live|) && |voters| >= ElectionQuorum(|replicas|)
      ==> (acked + {leader}) * voters != {}
  }

  /** A write and an election that miss each other, whenever the plan is too small. */
  lemma {:induction false} DisjointQuorums(replicas: set<string>, leader: string, live: set<string>)
    returns (acked: set<string>, voters: set<string>)
    requires leader in replicas && live <= replicas - {leader}
    requires !PlanReachesElections(|live|, |replicas|)
    ensures acked <= live && |acked| == NeededFollowers(|live|)
    ensures voters <= replicas && |voters| == ElectionQuorum(|replicas|)
    ensures (acked + {leader}) * voters == {}
  {
    acked := PickSubset(live, NeededFollowers(|live|));
    var rest := replicas - (acked + {leader});
    assert acked + {leader} <= replicas;
    assert |rest| == |replicas| - |acked + {leader}|;
    voters := PickSubset(rest, ElectionQuorum(|replicas|));
  }

  /**
   The write plan meets every election exactly when it counts enough live
   peers; with all peers live it always does.
   */
  lemma {:induction false} WriteMeetsElectionExactly(replicas: set<string>, leader: string, live: set<string>)
    requires leader in replicas && live <= replicas - {leader}
    ensures EveryWriteMeetsEveryElection(replicas, leader, live) <==> PlanReachesElections(|live|, |replicas|)
  {
    if PlanReachesElections(|live|, |replicas|) {
      forall acked: set<string>, voters: set<string> |
        acked <= live && voters <= replicas
        && |acked| >= NeededFollowers(|live|) && |voters| >= ElectionQuorum(|replicas|)
        ensures (acked + {leader}) * voters != {}
      {
        WriteMeetsElection(replicas, leader, live, acked, voters);
      }
    } else {
      var acked, voters := DisjointQuorums(replicas, leader, live);
      assert (acked + {leader}) * voters == {};
    }
  }
}
