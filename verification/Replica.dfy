/**
 The runtime state of one shard replica and its message handlers. Each handler
 does to `View()` what the protocol's step function says, and changes the data
 only where it applies an entry.
 */
module Replica {
  import opened Common
  import opened NodeModel
  import opened ReplicationLog
  import opened StateMachine
  import DiskModel
  import Quorum
  import Recovery

  class ReplicaState {
    const shardId: string
    const nodeId: string
    const sm: StateMachine
    var role: Role
    var leaderId: string
    var isReady: bool
    var votedFor: string
    var votedForTerm: nat
    /** The shard this one was split from, until its data has been fetched. */
    var bootstrapShard: string

    ghost predicate Valid()
      reads this, sm.Repr()
    {
      sm.Valid()
    }

    ghost function View(): Node
      reads this, sm
    {
      Node(sm.term, sm.version, role, leaderId, isReady, votedFor, votedForTerm)
    }

    constructor (shardId: string, nodeId: string, sm: StateMachine)
      requires sm.Valid()
      ensures Valid() && this.shardId == shardId && this.nodeId == nodeId && this.sm == sm
      ensures View() == Node(sm.term, sm.version, Follower, "", false, "", 0) && bootstrapShard == ""
    {
      this.shardId := shardId;
      this.nodeId := nodeId;
      bootstrapShard := "";
      this.sm := sm;
      role, leaderId, isReady, votedFor, votedForTerm := Follower, "", false, "", 0;
    }

    // ---------------------------------------------------------------- followers

    method RequestVote(req: VoteRequest) returns (reply: VoteReply)
      requires Valid()
      modifies this, sm`term
      ensures Valid()
      ensures (View(), reply) == OnVoteRequest(old(View()), req)
    {
      var myTerm := sm.term;
      if req.term < myTerm {
        return VoteReply(myTerm, false);
      }
      if req.term > myTerm {
        sm.term := req.term;
        votedFor := "";
        votedForTerm := 0;
        if role != Follower {
          role := Follower;
        }
        myTerm := req.term;
      }
      if votedForTerm == req.term && votedFor != "" && votedFor != req.candidate {
        return VoteReply(myTerm, false);
      }
      if req.version < sm.version {
        return VoteReply(myTerm, false);
      }
      votedFor := req.candidate;
      votedForTerm := req.term;
      reply := VoteReply(myTerm, true);
    }

    method LeaderHeartbeat(term: nat, leader: string) returns (peerTerm: nat)
      requires Valid()
      modifies this, sm`term
      ensures Valid()
      ensures (View(), peerTerm) == OnHeartbeat(old(View()), term, leader)
    {
      var myTerm := sm.term;
      if term < myTerm {
        return myTerm;
      }
      if term > myTerm {
        sm.term := term;
        if role != Follower {
          role := Follower;
        }
      }
      leaderId := leader;
      peerTerm := sm.term;
    }

    /**
     A write from the leader: applied, recognised as a duplicate, or refused. A
     gap empties the log. The next version of a current term reaches the disk
     before its operation is looked at; nothing else does.
     */
    method Replicate(e: Entry) returns (reply: ReplicateReply)
      requires Valid()
      modifies this, sm.Repr()
      ensures Valid() && bootstrapShard == old(bootstrapShard)
      ensures (View(), reply) == OnReplicate(old(View()), e.term, e.version, !e.op.Other?)
      ensures sm.kv == if sm.version == old(sm.version) then old(sm.kv) else Update(old(sm.kv), e)
      ensures sm.history == if sm.version == old(sm.version) then old(sm.history) else Extended(old(sm.history), [e])
      ensures sm.log.entries ==
              if sm.version != old(sm.version) then LastN(old(sm.log.entries) + [e], sm.log.maxSize)
              else if e.term >= old(sm.term) && e.version > old(sm.version) + 1 then []
              else old(sm.log.entries)
      ensures sm.ds != null ==>
                sm.ds.disk == if e.term >= old(sm.term) && e.version == old(sm.version) + 1
                              then DiskModel.Do(old(sm.ds.disk), DiskModel.AppendLine(e)) else old(sm.ds.disk)
    {
      if e.term < sm.term {
        return Replied(false, sm.term);
      }
      if e.term > sm.term {
        sm.term := e.term;
        if role != Follower {
          role := Follower;
        }
      }
      if e.version <= sm.version {
        return Replied(true, sm.term);
      }
      if e.version != sm.version + 1 {
        isReady := false;
        sm.ResetLog();
        return Replied(false, sm.term);
      }
      var outcome := sm.Apply(e, true);
      if !outcome.Done? {
        return Rejected;
      }
      isReady := true;
      reply := Replied(true, e.term);
    }

    method ForceRecover()
      requires Valid()
      modifies this, sm.log
      ensures Valid() && View() == OnForceRecover(old(View())) && sm.log.entries == []
    {
      isReady := false;
      sm.ResetLog();
    }

    // ---------------------------------------------------------------- candidates

    /** Enters a new term and votes for itself, unless it already leads. */
    method BeginElection() returns (req: Option<VoteRequest>)
      requires Valid()
      modifies this, sm`term
      ensures Valid()
      ensures View() == OnStartElection(old(View()), nodeId)
      ensures req == if old(role).Leader? then None else Some(VoteRequest(old(sm.term) + 1, nodeId, sm.version))
    {
      if role == Leader {
        return None;
      }
      sm.term := sm.term + 1;
      votedFor := nodeId;
      votedForTerm := sm.term;
      req := Some(VoteRequest(sm.term, nodeId, sm.version));
    }

    /** Counts the answers of `peers` peers and takes over on a majority of the whole set. */
    method FinishElection(candidateTerm: nat, answers: seq<VoteReply>, peers: nat) returns (won: bool)
      requires Valid()
      modifies this, sm`term
      ensures Valid()
      ensures var tally, quorum := TallyOf(candidateTerm, answers), Quorum.ElectionQuorum(peers + 1);
              && View() == OnTally(old(View()), nodeId, candidateTerm, tally, quorum)
              && won == Wins(old(View()), candidateTerm, tally, quorum)
      ensures won <==>
                && old(sm.term) == candidateTerm && !old(role).Leader?
                && (forall i :: 0 <= i < |answers| ==> answers[i].term <= candidateTerm)
                && 2 * (|Granted(answers)| + 1) > peers + 1
      ensures won ==> role.Leader? && sm.term == candidateTerm && leaderId == nodeId && isReady
    {
      TallyExactly(candidateTerm, answers);
      var votes := 1;
      var quorum := (peers + 1) / 2 + 1;
      for i := 0 to |answers|
        invariant View() == old(View()) && Valid()
        invariant TallyOf(candidateTerm, answers[..i]) == Counted(votes)
      {
        assert answers[..i + 1][..i] == answers[..i];
        if answers[i].term > candidateTerm {
          HigherTermEnds(candidateTerm, answers, i);
          if answers[i].term > sm.term {
            sm.term := answers[i].term;
          }
          if role != Follower {
            role := Follower;
          }
          return false;
        }
        if answers[i].granted {
          votes := votes + 1;
        }
      }
      assert answers[..|answers|] == answers;
      if sm.term != candidateTerm || role == Leader {
        return false;
      }
      if votes < quorum {
        return false;
      }
      role := Leader;
      leaderId := nodeId;
      isReady := true;
      won := true;
    }

    // ---------------------------------------------------------------- leaders

    method HeartbeatAnswered(sentTerm: nat, peerTerm: nat)
      requires Valid()
      modifies this, sm`term
      ensures Valid() && View() == OnHeartbeatReply(old(View()), sentTerm, peerTerm)
    {
      if peerTerm > sentTerm {
        if peerTerm > sm.term {
          sm.term := peerTerm;
        }
        if role == Leader {
          role := Follower;
        }
      }
    }

    /** The shard map was refetched; it names `leader`. */
    method ApplyShardMap(leader: string)
      requires Valid()
      modifies this
      ensures Valid() && bootstrapShard == old(bootstrapShard)
      ensures View() == OnShardMap(old(View()), nodeId, leader, bootstrapShard != "")
    {
      leaderId := leader;
      if leader == nodeId && role != Leader {
        role := Leader;
        if bootstrapShard == "" {
          isReady := true;
        }
      } else if leader != nodeId && role == Leader {
        role := Follower;
      }
    }

    /** The entry a write would add, if this replica may write and knows the current shard map. */
    method PrepareWrite(op: Op, key: string, value: string, replicaMap: nat, currentMap: nat)
      returns (e: Option<Entry>)
      requires Valid()
      ensures e == if role.Leader? && isReady && replicaMap == currentMap
                   then Some(Entry(sm.term, sm.version + 1, op, key, value)) else None
    {
      if role != Leader {
        return None;
      }
      if !isReady {
        return None;
      }
      if replicaMap != currentMap {
        return None;
      }
      e := Some(Entry(sm.term, sm.version + 1, op, key, value));
    }

    /** Commits a prepared write once enough live peers have acknowledged it. */
    method CommitWrite(e: Entry, plan: Quorum.QuorumInfo, acked: set<string>) returns (ok: bool)
      requires Valid() && !e.op.Other?
      modifies this, sm.Repr()
      ensures Valid()
      ensures ok <==> |acked| >= plan.neededFollowers && Appliable(old(View()), e.term, e.version)
      ensures View() == if ok then OnApply(old(View()), e.term, e.version).(ready := true) else old(View())
      ensures sm.kv == if ok then Update(old(sm.kv), e) else old(sm.kv)
    {
      if |acked| < plan.neededFollowers {
        return false;
      }
      var outcome := sm.Apply(e, true);
      if !outcome.Done? {
        return false;
      }
      isReady := true;
      ok := true;
    }

    // ---------------------------------------------------------------- recovery

    /** The answer to a follower's recovery request; only a leader gives one. */
    method Recover(since: nat) returns (r: Option<Recovery.Response>)
      requires Valid()
      ensures r.Some? <==> role.Leader?
      ensures r.Some? ==>
                && r.value == Recovery.Respond(DiskModel.Snapshot(sm.term, sm.version, sm.kv), sm.log.entries, since)
                && (r.value.Entries? <==> Recovery.InReach(sm.version, |sm.log.entries|, since))
                && (r.value.Entries? ==>
                      r.value.entries == sm.log.entries[|sm.log.entries| - (sm.version - since)..])
                && (r.value.FullState? ==> r.value.snapshot == DiskModel.Snapshot(sm.term, sm.version, sm.kv))
    {
      if role != Leader {
        return None;
      }
      var answer := Recovery.Recover(sm, since);
      r := Some(answer);
    }

    /** Which shard to ask, and from which version: a split shard fetches its source from the start. */
    method BeginRecovery() returns (source: string, since: nat)
      requires Valid()
      ensures source == if bootstrapShard == "" then shardId else bootstrapShard
      ensures since == if bootstrapShard == "" then sm.version else 0
    {
      source, since := shardId, sm.version;
      if bootstrapShard != "" {
        source, since := bootstrapShard, 0;
      }
    }

    /**
     The rest of a recovery, any time after it began: the leader answers, and
     this replica applies the answer. A success makes it ready and ends a pending
     split; an error leaves both as they were. On the history `h` of the leader
     there is never a gap, and the replica ends on that history.
     */
    method DoIncrementalRecovery(leader: ReplicaState, since: nat, ghost h: seq<Entry>)
      returns (result: Option<Recovery.Result>)
      requires Valid() && leader.Valid()
      requires this != leader && leader.sm.Repr() !! sm.Repr()
      modifies this, sm.Repr()
      ensures Valid() && leader.Valid()
      ensures result.None? <==> !leader.role.Leader?
      ensures result.None? ==> Recovery.StateOf(sm) == old(Recovery.StateOf(sm))
      ensures result.Some? ==>
                && (result.value.FromSnapshot? <==>
                      !Recovery.InReach(leader.sm.version, |leader.sm.log.entries|, since))
                && (!result.value.FromSnapshot? ==> sm.version >= old(sm.version))
      ensures result.Some? && Recovery.Meets(leader.sm, old(sm.version), old(sm.history), since, h) ==>
                Recovery.Ended(leader.sm, sm, h, result.value, old(sm.term), old(sm.version))
      ensures View() == old(View()).(term := sm.term, version := sm.version, ready := isReady)
      ensures isReady == (old(isReady) || Recovery.Succeeded(result))
      ensures bootstrapShard == if Recovery.Succeeded(result) then "" else old(bootstrapShard)
    {
      if leader.role != Leader {
        return None;
      }
      var r := Recovery.DoIncrementalRecovery(leader.sm, sm, since, h);
      if r.Incremental? || r.FromSnapshot? {
        isReady := true;
        bootstrapShard := "";
      }
      result := Some(r);
    }
  }

  lemma {:induction false} HigherTermEnds(candidateTerm: nat, answers: seq<VoteReply>, i: nat)
    requires i < |answers|
    requires TallyOf(candidateTerm, answers[..i]).Counted? && answers[i].term > candidateTerm
    ensures TallyOf(candidateTerm, answers) == HigherTerm(answers[i].term)
    decreases |answers|
  {
    if i + 1 == |answers| {
      assert answers[..|answers| - 1] == answers[..i];
    } else {
      var init := answers[..|answers| - 1];
      assert init[..i] == answers[..i];
      HigherTermEnds(candidateTerm, init, i);
    }
  }
}
