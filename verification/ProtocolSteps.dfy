/**
 What the steps of a run do, told from the states before and after alone: who
 wins an election, whose term counts, which vote and which write is accepted.
 */
module ProtocolSteps {
  import opened NodeModel
  import opened Quorum
  import opened Protocol

  /** Only this replica has changed. */
  predicate OnlyThis(s: State, t: State, id: string) {
    && s.nodes.Keys == t.nodes.Keys && id in s.nodes
    && forall u :: u in s.nodes && u != id ==> t.nodes[u] == s.nodes[u]
  }

  function Later(a: nat, b: nat): nat {
    if a < b then b else a
  }

  // ---------------------------------------------------------------- the end of an election

  /** Answer `k` is the first of a term above `term`. */
  predicate FirstHigher(answers: seq<Answer>, term: nat, k: nat) {
    && k < |answers| && answers[k].reply.term > term
    && forall j :: 0 <= j < k ==> answers[j].reply.term <= term
  }

  predicate NoneHigher(answers: seq<Answer>, term: nat) {
    forall j :: 0 <= j < |answers| ==> answers[j].reply.term <= term
  }

  lemma {:induction false} TallyOfMore(term: nat, answers: seq<Answer>)
    requires answers != []
    ensures var rest, last := TallyOf(term, Replies(answers[..|answers| - 1])), answers[|answers| - 1].reply;
            TallyOf(term, Replies(answers)) ==
            if rest.HigherTerm? then rest
            else if last.term > term then HigherTerm(last.term)
            else if last.granted then Counted(rest.votes + 1)
            else rest
  {
    assert Replies(answers)[..|answers| - 1] == Replies(answers[..|answers| - 1]);
  }

  lemma {:induction false} TallyIsCounted(term: nat, answers: seq<Answer>)
    requires NoneHigher(answers, term)
    ensures TallyOf(term, Replies(answers)).Counted?
  {
    if answers != [] {
      TallyOfMore(term, answers);
      TallyIsCounted(term, answers[..|answers| - 1]);
    }
  }

  lemma {:induction false} TallyIsHigher(term: nat, answers: seq<Answer>, k: nat)
    requires FirstHigher(answers, term, k)
    ensures TallyOf(term, Replies(answers)) == HigherTerm(answers[k].reply.term)
    decreases |answers|
  {
    var init := answers[..|answers| - 1];
    TallyOfMore(term, answers);
    if k == |init| {
      TallyIsCounted(term, init);
    } else {
      TallyIsHigher(term, init, k);
    }
  }

  /** The candidate, still in the term it asked in, does not lead; nobody knows a later one; and most have granted. */
  predicate Carries(s: State, e: Election, answers: seq<Answer>)
    requires e.candidate in s.nodes
  {
    && s.nodes[e.candidate].term == e.term && !s.nodes[e.candidate].role.Leader?
    && NoneHigher(answers, e.term)
    && 2 * (|Granters(answers)| + 1) > |s.nodes|
  }

  /** What becomes of the candidate. */
  ghost predicate EndsAs(n: Node, m: Node, e: Election, answers: seq<Answer>, won: bool) {
    && (m.role.Leader? && !n.role.Leader? <==> won)
    && (won ==> m == n.(role := Leader, leaderId := e.candidate, ready := true) && m.term == e.term)
    && (forall k: nat :: FirstHigher(answers, e.term, k) ==>
          m == n.(role := Follower, term := Later(n.term, answers[k].reply.term)))
    && (NoneHigher(answers, e.term) && !won ==> m == n)
  }

  lemma {:induction false} TallyEndsAs(s: State, e: Election, answers: seq<Answer>)
    requires e.candidate in s.nodes && AskedOnce(answers)
    ensures var n, tally, quorum := s.nodes[e.candidate], TallyOf(e.term, Replies(answers)), ElectionQuorum(|s.nodes|);
            && (Wins(n, e.term, tally, quorum) <==> Carries(s, e, answers))
            && EndsAs(n, OnTally(n, e.candidate, e.term, tally, quorum), e, answers, Carries(s, e, answers))
  {
    if NoneHigher(answers, e.term) {
      TallyIsCounted(e.term, answers);
      TallyCountsGranters(e.term, answers);
    } else {
      var k := FirstOf(answers, e.term, 0);
      TallyIsHigher(e.term, answers, k);
      assert forall j: nat :: FirstHigher(answers, e.term, j) ==> j == k;
    }
  }

  /**
   An election is won, and the candidate made leader of the term it asked in,
   exactly under these conditions. The first answer of a later term makes it a
   follower in at least that term; otherwise nothing happens.
   */
  lemma {:induction false} ElectionEndsExactly(
    states: seq<State>, steps: seq<Step>, i: nat, e: Election, answers: seq<Answer>)
    requires Run(states, steps) && i < |steps| && steps[i] == FinishElection(e, answers)
    ensures e.candidate in states[i].nodes && OnlyThis(states[i], states[i + 1], e.candidate)
    ensures var s, t := states[i], states[i + 1];
            var won := Carries(s, e, answers);
            && t.wins == s.wins + (if won then {Win(e, Granters(answers) + {e.candidate})} else {})
            && EndsAs(s.nodes[e.candidate], t.nodes[e.candidate], e, answers, won)
  {
    assert StepAt(states, steps, i);
    TallyEndsAs(states[i], e, answers);
  }

  lemma {:induction false} FirstOf(answers: seq<Answer>, term: nat, j: nat) returns (k: nat)
    requires !NoneHigher(answers, term) && j <= |answers|
    requires forall i :: 0 <= i < j ==> answers[i].reply.term <= term
    ensures FirstHigher(answers, term, k)
    decreases |answers| - j
  {
    if answers[j].reply.term > term {
      k := j;
    } else {
      k := FirstOf(answers, term, j + 1);
    }
  }

  // ---------------------------------------------------------------- later terms

  /** The term a message brings with it; the answer to a heartbeat counts only if it is above the one sent. */
  function Brings(step: Step): nat {
    match step
    case HandleVoteRequest(_, req) => req.term
    case HandleHeartbeat(_, _, term) => term
    case HandleReplicate(_, _, term, _, _) => term
    case HandleHeartbeatReply(_, sent, term) => if term > sent then term else 0
    case _ => 0
  }

  predicate Receives(step: Step) {
    step.HandleVoteRequest? || step.HandleHeartbeat? || step.HandleReplicate? || step.HandleHeartbeatReply?
  }

  /**
   A message moves its receiver to the later of the two terms and changes nobody
   else; a receiver that moves on no longer leads, and one that does not keeps its
   role, except that a leader gives up on an answer of a term above the one it sent.
   */
  lemma {:induction false} LaterTermIsAdopted(states: seq<State>, steps: seq<Step>, i: nat)
    requires Run(states, steps) && i < |steps| && Receives(steps[i])
    ensures OnlyThis(states[i], states[i + 1], steps[i].id)
    ensures var n, m := states[i].nodes[steps[i].id], states[i + 1].nodes[steps[i].id];
            && m.term == Later(n.term, Brings(steps[i]))
            && (m.term > n.term ==> !m.role.Leader?)
            && (n.role.Leader? && m.term > n.term ==> m.role.Follower?)
            && (m.term == n.term && !steps[i].HandleHeartbeatReply? ==> m.role == n.role)
            && (steps[i].HandleHeartbeatReply? ==>
                  (m.role.Leader? <==> n.role.Leader? && steps[i].peerTerm <= steps[i].sentTerm))
  {
    assert StepAt(states, steps, i);
  }

  /** Of a term that is not an older one the receiver takes over the leader; its answer bears the term it is then in. */
  lemma {:induction false} HeartbeatStepExactly(
    states: seq<State>, steps: seq<Step>, i: nat, id: string, leader: string, term: nat)
    requires Run(states, steps) && i < |steps| && steps[i] == HandleHeartbeat(id, leader, term)
    ensures id in states[i].nodes && id in states[i + 1].nodes
    ensures var s, t := states[i], states[i + 1];
            var n, m := s.nodes[id], t.nodes[id];
            && t.messages == s.messages + {HeartbeatAnswered(leader, term, m.term)}
            && m == n.(term := m.term, role := m.role, leaderId := if term >= n.term then leader else n.leaderId)
  {
    assert StepAt(states, steps, i);
  }

  // ---------------------------------------------------------------- votes

  /** The vote is free for the candidate: a later term, or the same and not given to another. */
  predicate VoteFree(n: Node, req: VoteRequest) {
    || req.term > n.term
    || (req.term == n.term && !(n.votedForTerm == n.term && n.votedFor != "" && n.votedFor != req.candidate))
  }

  /**
   A vote is recorded and answered with yes exactly for a candidate that is not
   behind, in a term in which it is free, and is then remembered; any answer bears
   the receiver's term. A refusal in the same term changes nothing, one in a later
   term forgets the vote.
   */
  lemma {:induction false} VoteStepExactly(states: seq<State>, steps: seq<Step>, i: nat, id: string, req: VoteRequest)
    requires Run(states, steps) && i < |steps| && steps[i] == HandleVoteRequest(id, req)
    ensures id in states[i].nodes && id in states[i + 1].nodes
    ensures var s, t := states[i], states[i + 1];
            var n, m := s.nodes[id], t.nodes[id];
            var granted := VoteFree(n, req) && req.version >= n.version;
            && t.messages == s.messages + {VoteAnswered(id, req, VoteReply(m.term, granted))}
            && t.votes == s.votes + (if granted then {Vote(id, Election(req.candidate, req.term, req.version))} else {})
            && (granted ==> m.votedFor == req.candidate && m.votedForTerm == req.term)
            && (!granted && req.term > n.term ==> m.votedFor == "" && m.votedForTerm == 0)
            && (!granted && req.term <= n.term ==> m == n)
            && m.version == n.version && m.ready == n.ready && m.leaderId == n.leaderId
  {
    assert StepAt(states, steps, i);
  }

  /** A candidate asks in the next term, at its version, and has its own vote; a leader does not ask. */
  lemma {:induction false} StartStepExactly(states: seq<State>, steps: seq<Step>, i: nat, id: string)
    requires Run(states, steps) && i < |steps| && steps[i] == StartElection(id)
    ensures OnlyThis(states[i], states[i + 1], id)
    ensures var s, t := states[i], states[i + 1];
            var n, m := s.nodes[id], t.nodes[id];
            var e := Election(id, n.term + 1, n.version);
            && !n.role.Leader? && m == n.(term := e.term, votedFor := id, votedForTerm := e.term)
            && t.messages == s.messages + {VoteAsked(VoteRequest(e.term, id, e.version))}
            && t.running == s.running + {e} && t.votes == s.votes + {Vote(id, e)}
  {
    assert StepAt(states, steps, i);
  }

  // ---------------------------------------------------------------- writes

  /**
   A replicated write is acknowledged exactly when its term is not an older one
   and its version is there already or the next, of a known operation; only the
   next one moves the version, and a hole ends readiness.
   */
  lemma {:induction false} ReplicateStepExactly(
    states: seq<State>, steps: seq<Step>, i: nat, id: string, leader: string, term: nat, version: nat, known: bool)
    requires Run(states, steps) && i < |steps| && steps[i] == HandleReplicate(id, leader, term, version, known)
    ensures id in states[i].nodes && id in states[i + 1].nodes
    ensures var s, t := states[i], states[i + 1];
            var n, m := s.nodes[id], t.nodes[id];
            var next := term >= n.term && version == n.version + 1 && known;
            var acked := next || (term >= n.term && version <= n.version);
            && t.messages == s.messages + (if acked then {ReplicateAcked(id, leader, term, version)} else {})
            && t.reached == s.reached + (if acked then {Reached(id, term, version)} else {})
            && m.version == (if next then version else n.version)
            && m.ready == (next || (n.ready && !(term >= n.term && version > n.version + 1)))
            && m.votedFor == n.votedFor && m.votedForTerm == n.votedForTerm && m.leaderId == n.leaderId
  {
    assert StepAt(states, steps, i);
  }

  /** A write begins at a ready leader, in its term and at the next version, and goes out unless nobody need answer. */
  lemma {:induction false} BeginStepExactly(states: seq<State>, steps: seq<Step>, i: nat, id: string, live: set<string>)
    requires Run(states, steps) && i < |steps| && steps[i] == BeginWrite(id, live)
    ensures id in states[i].nodes && states[i + 1].nodes == states[i].nodes
    ensures var s, t, n := states[i], states[i + 1], states[i].nodes[id];
            && n.role.Leader? && n.ready
            && t.writes == s.writes + {Write(id, n.term, n.version + 1, live)}
            && t.messages == s.messages + (if live == {} then {} else {ReplicateSent(id, n.term, n.version + 1)})
  {
    assert StepAt(states, steps, i);
    assert live != {} ==> |live| > 0;
  }

  /**
   An acknowledged write is committed exactly when it is still the next one for
   its leader and the leader has not moved to a later term; the acknowledgements
   and the leader are then a majority of the replicas counted live.
   */
  lemma {:induction false} CommitStepExactly(states: seq<State>, steps: seq<Step>, i: nat, w: Write, acked: set<string>)
    requires Run(states, steps) && i < |steps| && steps[i] == FinishWrite(w, acked)
    ensures w.leader in states[i].nodes && OnlyThis(states[i], states[i + 1], w.leader)
    ensures 2 * (|acked| + 1) > |w.live| + 1
    ensures var s, t := states[i], states[i + 1];
            var n, m := s.nodes[w.leader], t.nodes[w.leader];
            var fits := w.version == n.version + 1 && w.term >= n.term;
            && t.commits == s.commits + (if fits then {Commit(w, acked)} else {})
            && t.reached == s.reached + (if fits then {Reached(w.leader, w.term, w.version)} else {})
            && m == if fits then n.(term := w.term, version := w.version, ready := true) else n
  {
    assert StepAt(states, steps, i);
  }

  // ---------------------------------------------------------------- the shard map

  /** A new shard map makes exactly the replica it names the leader, and touches neither term, version nor vote. */
  lemma {:induction false} MapStepExactly(
    states: seq<State>, steps: seq<Step>, i: nat, id: string, leader: string, pending: bool)
    requires Run(states, steps) && i < |steps| && steps[i] == UpdateShardMap(id, leader, pending)
    ensures OnlyThis(states[i], states[i + 1], id)
    ensures var n, m := states[i].nodes[id], states[i + 1].nodes[id];
            && (m.role.Leader? <==> leader == id) && m.leaderId == leader
            && (n.role.Leader? && leader != id ==> m.role.Follower?)
            && (m.ready <==> n.ready || (leader == id && !n.role.Leader? && !pending))
            && m.term == n.term && m.version == n.version
            && m.votedFor == n.votedFor && m.votedForTerm == n.votedForTerm
  {
    assert StepAt(states, steps, i);
  }

  // ---------------------------------------------------------------- recovery and restarts

  /** An installed snapshot is taken over as it comes and makes ready; the vote, the role and the leader stay. */
  lemma {:induction false} InstallStepExactly(
    states: seq<State>, steps: seq<Step>, i: nat, id: string, term: nat, version: nat)
    requires Run(states, steps) && i < |steps| && steps[i] == InstallSnapshot(id, term, version)
    ensures OnlyThis(states[i], states[i + 1], id)
    ensures states[i + 1].nodes[id] == states[i].nodes[id].(term := term, version := version, ready := true)
  {
    assert StepAt(states, steps, i);
  }

  /** A recovered entry counts exactly when it is the next one and of no older term; it moves term and version alone. */
  lemma {:induction false} RecoverStepExactly(
    states: seq<State>, steps: seq<Step>, i: nat, id: string, term: nat, version: nat)
    requires Run(states, steps) && i < |steps| && steps[i] == RecoverEntry(id, term, version)
    ensures OnlyThis(states[i], states[i + 1], id)
    ensures var n := states[i].nodes[id];
            states[i + 1].nodes[id] ==
            if version == n.version + 1 && term >= n.term then n.(term := term, version := version) else n
  {
    assert StepAt(states, steps, i);
  }

  /**
   A restarted replica has the term and version its disk held, leads exactly if
   the shard map names it, and knows of no vote; what it had under way is gone.
   */
  lemma {:induction false} RestartStepExactly(
    states: seq<State>, steps: seq<Step>, i: nat, id: string, term: nat, version: nat, leader: string, ready: bool)
    requires Run(states, steps) && i < |steps| && steps[i] == Restart(id, term, version, leader, ready)
    ensures OnlyThis(states[i], states[i + 1], id)
    ensures var m := states[i + 1].nodes[id];
            && m.term == term && m.version == version && m.ready == ready && m.leaderId == leader
            && m.votedFor == "" && m.votedForTerm == 0 && (m.role.Leader? <==> leader == id) && !m.role.Unassigned?
    ensures forall e :: e in states[i + 1].running <==> e in states[i].running && e.candidate != id
    ensures forall w :: w in states[i + 1].writes <==> w in states[i].writes && w.leader != id
  {
    assert StepAt(states, steps, i);
  }
}
