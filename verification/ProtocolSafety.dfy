/**
 What holds over whole runs of the protocol: monotone replicas, one vote and one
 winner per term, and no committed version missing from a later leader.
 */
module ProtocolSafety {
  import opened Quorum
  import opened Protocol

  lemma {:induction false} RunKeepsInv(states: seq<State>, steps: seq<Step>)
    requires Run(states, steps)
    ensures Inv(states[|steps|])
    ensures states[|steps|].nodes.Keys == states[0].nodes.Keys
    decreases |steps|
  {
    if steps != [] {
      var n := |steps| - 1;
      PrefixOfRun(states, steps, n);
      RunKeepsInv(states[..n + 1], steps[..n]);
      assert StepAt(states, steps, n);
      StepKeepsInv(states[n], steps[n]);
    }
  }

  // ---------------------------------------------------------------- main results

  /** An installed snapshot or a restart takes the replica back. */
  predicate Lowers(s: State, step: Step, id: string)
    requires id in s.nodes
  {
    (step.InstallSnapshot? || step.Restart?) && step.id == id
    && (step.term < s.nodes[id].term || step.version < s.nodes[id].version)
  }

  /** A replica's term and version fall exactly by installing an older snapshot or coming back at an older state. */
  lemma {:induction false} StepIsMonotone(s: State, step: Step, id: string)
    requires Enabled(s, step) && id in s.nodes
    ensures NoLower(s, Do(s, step), id) <==> !Lowers(s, step, id)
  {
  }

  lemma {:induction false} InvAt(states: seq<State>, steps: seq<Step>, i: nat)
    requires Run(states, steps) && i <= |steps|
    ensures Inv(states[i]) && states[i].nodes.Keys == states[0].nodes.Keys
  {
    PrefixOfRun(states, steps, i);
    RunKeepsInv(states[..i + 1], steps[..i]);
  }

  ghost predicate NoLower(s: State, t: State, id: string) {
    && id in s.nodes && id in t.nodes
    && s.nodes[id].term <= t.nodes[id].term
    && s.nodes[id].version <= t.nodes[id].version
  }

  lemma {:induction false} StepOfRun(states: seq<State>, steps: seq<Step>, k: nat, id: string)
    requires Run(states, steps) && k < |steps| && id in states[0].nodes
    ensures id in states[k].nodes
    ensures NoLower(states[k], states[k + 1], id) <==> !Lowers(states[k], steps[k], id)
  {
    InvAt(states, steps, k);
    assert StepAt(states, steps, k);
    StepIsMonotone(states[k], steps[k], id);
  }

  /** Some snapshot or restart between `i` and `j` took the replica back. */
  ghost predicate TakenBack(states: seq<State>, steps: seq<Step>, i: nat, j: nat, id: string)
    requires |states| == |steps| + 1 && i <= j <= |steps|
  {
    exists k :: i <= k < j && id in states[k].nodes && Lowers(states[k], steps[k], id)
  }

  /** Over any stretch of a run, terms and versions never fall, unless an older state came back in it. */
  lemma {:induction false} RunIsMonotone(states: seq<State>, steps: seq<Step>, i: nat, j: nat, id: string)
    requires Run(states, steps) && i <= j <= |steps| && id in states[0].nodes
    ensures NoLower(states[i], states[j], id) || TakenBack(states, steps, i, j, id)
    decreases j - i
  {
    if i == j {
      InvAt(states, steps, i);
    } else {
      RunIsMonotone(states, steps, i, j - 1, id);
      StepOfRun(states, steps, j - 1, id);
    }
  }

  /**
   What a replica has promised binds it for good, whatever was installed or restarted: its
   term is at least that of each of its votes, and its term and version at least
   those it has acknowledged or committed.
   */
  lemma {:induction false} PromisesBind(states: seq<State>, steps: seq<Step>, v: Vote, r: Reached)
    requires Run(states, steps)
    ensures var s := states[|steps|];
            && (v in s.votes ==> v.voter in s.nodes && s.nodes[v.voter].term >= v.election.term)
            && (r in s.reached ==> r.replica in s.nodes
                                   && s.nodes[r.replica].term >= r.term && s.nodes[r.replica].version >= r.version)
  {
    RunKeepsInv(states, steps);
    var s := states[|steps|];
    assert v in s.votes ==> VoteInv(s, v);
    assert r in s.reached ==> ReachedInv(s, r);
  }

  /** In any run, all votes a replica ever casts in one term, its own included, go to one candidate. */
  lemma {:induction false} VotesAreUnique(states: seq<State>, steps: seq<Step>, v: Vote, w: Vote)
    requires Run(states, steps)
    requires v in states[|steps|].votes && w in states[|steps|].votes
    requires v.voter == w.voter && v.election.term == w.election.term
    ensures v.election.candidate == w.election.candidate
  {
    RunKeepsInv(states, steps);
  }

  /** Election safety: in any run, two wins in one term are by the same replica. */
  lemma {:induction false} ElectionSafety(states: seq<State>, steps: seq<Step>, w1: Win, w2: Win)
    requires Run(states, steps)
    requires w1 in states[|steps|].wins && w2 in states[|steps|].wins
    requires w1.election.term == w2.election.term
    ensures w1.election.candidate == w2.election.candidate
  {
    RunKeepsInv(states, steps);
    var s := states[|steps|];
    assert WinInv(s, w1) && WinInv(s, w2);
    Overlap(w1.voters, w2.voters, s.nodes.Keys);
    var q :| q in w1.voters * w2.voters;
    assert Vote(q, w1.election) in s.votes && Vote(q, w2.election) in s.votes;
  }

  /** The replica that both acknowledged the write and voted was at the version when it voted. */
  lemma {:induction false} CompletenessAt(s: State, c: Commit, w: Win)
    requires Inv(s) && c in s.commits && w in s.wins
    requires PlanReachesElections(|c.write.live|, |s.nodes|) && w.election.term > c.write.term
    ensures w.election.version >= c.write.version
  {
    assert CommitInv(s, c) && WinInv(s, w);
    assert |s.nodes| == |s.nodes.Keys|;
    WriteMeetsElection(s.nodes.Keys, c.write.leader, c.write.live, c.acked, w.voters);
    var q :| q in (c.acked + {c.write.leader}) * w.voters;
    assert ReachedInv(s, Reached(q, c.write.term, c.write.version));
    assert Vote(q, w.election) in s.votes;
  }

  /**
   Leader completeness by version: in any run, once a write has succeeded with
   enough of its peers counted as live, whoever wins an election in a later
   term asked for votes with at least that version. With all peers live the
   hypothesis holds (`Quorum.AllPeersLiveReachesElections`).
   */
  lemma {:induction false} LeaderCompleteness(states: seq<State>, steps: seq<Step>, c: Commit, w: Win)
    requires Run(states, steps)
    requires c in states[|steps|].commits && w in states[|steps|].wins
    requires PlanReachesElections(|c.write.live|, |states[0].nodes|)
    requires w.election.term > c.write.term
    ensures w.election.version >= c.write.version
  {
    RunKeepsInv(states, steps);
    var s := states[|steps|];
    assert |s.nodes| == |s.nodes.Keys| == |states[0].nodes.Keys| == |states[0].nodes|;
    CompletenessAt(s, c, w);
  }

  lemma {:induction false} LeaderCompletenessAllLive(states: seq<State>, steps: seq<Step>, c: Commit, w: Win)
    requires Run(states, steps)
    requires c in states[|steps|].commits && w in states[|steps|].wins
    requires c.write.live == states[0].nodes.Keys - {c.write.leader}
    requires w.election.term > c.write.term
    ensures w.election.version >= c.write.version
  {
    RunKeepsInv(states, steps);
    assert CommitInv(states[|steps|], c);
    assert |states[0].nodes| == |states[0].nodes.Keys|;
    assert |c.write.live| == |states[0].nodes| - 1;
    LeaderCompleteness(states, steps, c, w);
  }
}
