/**
 Elections and replication of one shard over a fixed replica set, as a state
 machine over single handler calls.

 Messages live in a growing set, so each may be delivered late, out of order,
 more than once or never. Roles may also be flipped by the shard map at any
 time, and entries may arrive through recovery. Snapshots may be installed, older
 ones too, and replicas may restart, as long as they take back no promise:
 `InstallKeepsInvExactly` and `RestartKeepsInvExactly` say that no weaker
 condition would do.
 */
module Protocol {
  import opened NodeModel
  import opened Quorum

  datatype Message =
    | VoteAsked(request: VoteRequest)
    | VoteAnswered(voter: string, request: VoteRequest, reply: VoteReply)
    | Heartbeat(leader: string, term: nat)
    | HeartbeatAnswered(leader: string, sentTerm: nat, peerTerm: nat)
    | ReplicateSent(leader: string, term: nat, version: nat)
    | ReplicateAcked(follower: string, leader: string, term: nat, version: nat)

  datatype Election = Election(candidate: string, term: nat, version: nat)

  /** `voters` includes the candidate itself. */
  datatype Win = Win(election: Election, voters: set<string>)

  datatype Write = Write(leader: string, term: nat, version: nat, live: set<string>)

  datatype Commit = Commit(write: Write, acked: set<string>)

  datatype Vote = Vote(voter: string, election: Election)

  /** At some moment `replica` was in `term` and had reached `version`. */
  datatype Reached = Reached(replica: string, term: nat, version: nat)

  /** The last five fields record the past of the run. */
  datatype State = State(
    nodes: map<string, Node>,
    messages: set<Message>,
    running: set<Election>,
    writes: set<Write>,
    wins: set<Win>,
    commits: set<Commit>,
    votes: set<Vote>,
    reached: set<Reached>)

  /** A peer's answer as the candidate sees it. */
  datatype Answer = Answer(peer: string, reply: VoteReply)

  datatype Step =
    | StartElection(id: string)
    | HandleVoteRequest(id: string, request: VoteRequest)
    | FinishElection(election: Election, answers: seq<Answer>)
    | SendHeartbeat(id: string)
    | HandleHeartbeat(id: string, leader: string, term: nat)
    | HandleHeartbeatReply(id: string, sentTerm: nat, peerTerm: nat)
    | BeginWrite(id: string, live: set<string>)
    | HandleReplicate(id: string, leader: string, term: nat, version: nat, known: bool)
    | FinishWrite(write: Write, acked: set<string>)
    | ForceRecover(id: string)
    | RecoverEntry(id: string, term: nat, version: nat)
    | FinishRecovery(id: string)
    | InstallSnapshot(id: string, term: nat, version: nat)
    | UpdateShardMap(id: string, leader: string, pending: bool)
    | Restart(id: string, term: nat, version: nat, leader: string, ready: bool)

  function Replies(answers: seq<Answer>): seq<VoteReply> {
    seq(|answers|, i requires 0 <= i < |answers| => answers[i].reply)
  }

  /** Peers whose granted vote is among the answers. */
  function Granters(answers: seq<Answer>): set<string> {
    set i | 0 <= i < |answers| && answers[i].reply.granted :: answers[i].peer
  }

  /** Each peer was asked once, and answered what it really answered or could not be reached. */
  ghost predicate AnswersPossible(s: State, e: Election, answers: seq<Answer>) {
    && AskedOnce(answers)
    && (forall i :: 0 <= i < |answers| ==>
          && answers[i].peer in s.nodes && answers[i].peer != e.candidate
          && (answers[i].reply == NO_ANSWER
              || VoteAnswered(answers[i].peer, VoteRequest(e.term, e.candidate, e.version), answers[i].reply)
                 in s.messages))
  }

  function Actor(step: Step): string {
    match step
    case FinishElection(e, _) => e.candidate
    case FinishWrite(w, _) => w.leader
    case _ => step.id
  }

  /** The replica would still know of every vote it gave in a term it may still be asked in. */
  ghost predicate VotesKept(s: State, id: string, term: nat)
    requires id in s.nodes
  {
    forall v :: v in s.votes && v.voter == id ==>
      || v.election.term < term
      || (v.election.term == term
          && s.nodes[id].votedFor == v.election.candidate && s.nodes[id].votedForTerm == v.election.term)
  }

  /**
   Installing a snapshot of this term and version takes back nothing the replica
   has promised: no vote, no acknowledgement and no commit.
   */
  ghost predicate InstallSafe(s: State, id: string, term: nat, version: nat)
    requires id in s.nodes
  {
    && s.nodes[id].votedForTerm <= term
    && VotesKept(s, id, term)
    && forall r :: r in s.reached && r.replica == id ==> r.term <= term && r.version <= version
  }

  /** Coming back at this term and version, without its votes, a replica breaks no promise. */
  ghost predicate RestartSafe(s: State, id: string, term: nat, version: nat) {
    && (forall v :: v in s.votes && v.voter == id ==> v.election.term < term)
    && forall r :: r in s.reached && r.replica == id ==> r.term <= term && r.version <= version
  }

  ghost predicate Enabled(s: State, step: Step) {
    && Actor(step) in s.nodes
    && match step
       case StartElection(id) => !s.nodes[id].role.Leader?
       case HandleVoteRequest(id, req) => id != req.candidate && VoteAsked(req) in s.messages
       case FinishElection(e, answers) => e in s.running && AnswersPossible(s, e, answers)
       case SendHeartbeat(id) => s.nodes[id].role.Leader?
       case HandleHeartbeat(id, leader, term) => id != leader && Heartbeat(leader, term) in s.messages
       case HandleHeartbeatReply(id, sentTerm, peerTerm) => HeartbeatAnswered(id, sentTerm, peerTerm) in s.messages
       case BeginWrite(id, live) =>
         s.nodes[id].role.Leader? && s.nodes[id].ready && live <= s.nodes.Keys - {id}
       case HandleReplicate(id, leader, term, version, _) =>
         id != leader && ReplicateSent(leader, term, version) in s.messages
       case FinishWrite(w, acked) =>
         && w in s.writes
         && acked <= w.live
         && |acked| >= NeededFollowers(|w.live|)
         && forall q :: q in acked ==> ReplicateAcked(q, w.leader, w.term, w.version) in s.messages
       case ForceRecover(_) => true
       case RecoverEntry(_, _, _) => true
       case FinishRecovery(_) => true
       case InstallSnapshot(id, term, version) => InstallSafe(s, id, term, version)
       case UpdateShardMap(_, _, _) => true
       case Restart(id, term, version, _, _) => RestartSafe(s, id, term, version)
  }

  function SetNode(s: State, id: string, n: Node): State {
    s.(nodes := s.nodes[id := n])
  }

  function DoStartElection(s: State, id: string): State
    requires id in s.nodes
  {
    var n := OnStartElection(s.nodes[id], id);
    var e := Election(id, n.term, n.version);
    SetNode(s, id, n).(
      messages := s.messages + {VoteAsked(VoteRequest(e.term, id, e.version))},
      running := s.running + {e},
      votes := s.votes + {Vote(id, e)})
  }

  function DoHandleVoteRequest(s: State, id: string, req: VoteRequest): State
    requires id in s.nodes
  {
    var (n, reply) := OnVoteRequest(s.nodes[id], req);
    SetNode(s, id, n).(
      messages := s.messages + {VoteAnswered(id, req, reply)},
      votes := s.votes + if reply.granted then {Vote(id, Election(req.candidate, req.term, req.version))} else {})
  }

  function DoFinishElection(s: State, e: Election, answers: seq<Answer>): State
    requires e.candidate in s.nodes
  {
    var n := s.nodes[e.candidate];
    var tally := TallyOf(e.term, Replies(answers));
    var quorum := ElectionQuorum(|s.nodes|);
    SetNode(s, e.candidate, OnTally(n, e.candidate, e.term, tally, quorum)).(
      running := s.running - {e},
      wins := s.wins + if Wins(n, e.term, tally, quorum) then {Win(e, Granters(answers) + {e.candidate})} else {})
  }

  function DoHandleHeartbeat(s: State, id: string, leader: string, term: nat): State
    requires id in s.nodes
  {
    var (n, peerTerm) := OnHeartbeat(s.nodes[id], term, leader);
    SetNode(s, id, n).(messages := s.messages + {HeartbeatAnswered(leader, term, peerTerm)})
  }

  function DoBeginWrite(s: State, id: string, live: set<string>): State
    requires id in s.nodes
  {
    var n := s.nodes[id];
    s.(writes := s.writes + {Write(id, n.term, n.version + 1, live)},
       messages := s.messages +
         if NeededFollowers(|live|) == 0 then {} else {ReplicateSent(id, n.term, n.version + 1)})
  }

  function DoHandleReplicate(s: State, id: string, leader: string, term: nat, version: nat, known: bool): State
    requires id in s.nodes
  {
    var (n, reply) := OnReplicate(s.nodes[id], term, version, known);
    var ok := reply.Replied? && reply.success;
    SetNode(s, id, n).(
      messages := s.messages + if ok then {ReplicateAcked(id, leader, term, version)} else {},
      reached := s.reached + if ok then {Reached(id, term, version)} else {})
  }

  function DoFinishWrite(s: State, w: Write, acked: set<string>): State
    requires w.leader in s.nodes
  {
    var n := s.nodes[w.leader];
    if Appliable(n, w.term, w.version) then
      SetNode(s, w.leader, OnApply(n, w.term, w.version).(ready := true)).(
        commits := s.commits + {Commit(w, acked)},
        reached := s.reached + {Reached(w.leader, w.term, w.version)})
    else s
  }

  /** With the replica, the elections and writes it had under way are gone. */
  function DoRestart(s: State, id: string, n: Node): State {
    SetNode(s, id, n).(
      running := (set e | e in s.running && e.candidate != id),
      writes := (set w | w in s.writes && w.leader != id))
  }

  function Do(s: State, step: Step): State
    requires Actor(step) in s.nodes
  {
    match step
    case StartElection(id) => DoStartElection(s, id)
    case HandleVoteRequest(id, req) => DoHandleVoteRequest(s, id, req)
    case FinishElection(e, answers) => DoFinishElection(s, e, answers)
    case SendHeartbeat(id) => s.(messages := s.messages + {Heartbeat(id, s.nodes[id].term)})
    case HandleHeartbeat(id, leader, term) => DoHandleHeartbeat(s, id, leader, term)
    case HandleHeartbeatReply(id, sentTerm, peerTerm) =>
      SetNode(s, id, OnHeartbeatReply(s.nodes[id], sentTerm, peerTerm))
    case BeginWrite(id, live) => DoBeginWrite(s, id, live)
    case HandleReplicate(id, leader, term, version, known) => DoHandleReplicate(s, id, leader, term, version, known)
    case FinishWrite(w, acked) => DoFinishWrite(s, w, acked)
    case ForceRecover(id) => SetNode(s, id, OnForceRecover(s.nodes[id]))
    case RecoverEntry(id, term, version) => SetNode(s, id, OnApply(s.nodes[id], term, version))
    case FinishRecovery(id) => SetNode(s, id, OnRecovered(s.nodes[id]))
    case InstallSnapshot(id, term, version) => SetNode(s, id, OnInstall(s.nodes[id], term, version))
    case UpdateShardMap(id, leader, pending) => SetNode(s, id, OnShardMap(s.nodes[id], id, leader, pending))
    case Restart(id, term, version, leader, ready) => DoRestart(s, id, OnRestart(id, term, version, leader, ready))
  }

  /** Replicas start with whatever their disks held, and with no vote remembered. */
  ghost predicate Init(s: State) {
    && "" !in s.nodes
    && (forall id :: id in s.nodes ==> s.nodes[id].votedFor == "" && s.nodes[id].votedForTerm == 0)
    && s == State(s.nodes, {}, {}, {}, {}, {}, {}, {})
  }

  ghost predicate StepAt(states: seq<State>, steps: seq<Step>, i: nat)
    requires i < |steps| < |states|
  {
    Enabled(states[i], steps[i]) && states[i + 1] == Do(states[i], steps[i])
  }

  /** A run: states linked by enabled steps, from an initial one. */
  ghost predicate Run(states: seq<State>, steps: seq<Step>) {
    && |states| == |steps| + 1
    && Init(states[0])
    && forall i :: 0 <= i < |steps| ==> StepAt(states, steps, i)
  }

  lemma {:induction false} PrefixOfRun(states: seq<State>, steps: seq<Step>, n: nat)
    requires Run(states, steps) && n <= |steps|
    ensures Run(states[..n + 1], steps[..n])
  {
    var before, taken := states[..n + 1], steps[..n];
    forall i | 0 <= i < n ensures StepAt(before, taken, i) {
      assert StepAt(states, steps, i);
    }
  }

  // ---------------------------------------------------------------- invariant

  ghost predicate NodeInv(n: Node) {
    n.votedForTerm <= n.term
  }

  /** The vote is in the voter's past; if it is in the current term, the voter remembers it. */
  ghost predicate VoteInv(s: State, v: Vote) {
    && v.voter in s.nodes
    && v.election.term <= s.nodes[v.voter].term
    && v.election.candidate != ""
    && (v.election.term == s.nodes[v.voter].term ==>
          s.nodes[v.voter].votedFor == v.election.candidate && s.nodes[v.voter].votedForTerm == v.election.term)
  }

  /** What was reached stays reached, and later votes asked for at least that much. */
  ghost predicate ReachedInv(s: State, r: Reached) {
    && r.replica in s.nodes
    && r.term <= s.nodes[r.replica].term
    && r.version <= s.nodes[r.replica].version
    && forall v :: v in s.votes && v.voter == r.replica && v.election.term > r.term ==> v.election.version >= r.version
  }

  ghost predicate OneVotePerTerm(s: State) {
    forall v, w :: v in s.votes && w in s.votes && v.voter == w.voter && v.election.term == w.election.term
                   ==> v.election.candidate == w.election.candidate
  }

  ghost predicate MessageInv(s: State, m: Message) {
    match m
    case VoteAsked(req) => req.candidate in s.nodes
    case VoteAnswered(voter, req, reply) =>
      reply.granted ==> Vote(voter, Election(req.candidate, req.term, req.version)) in s.votes
    case ReplicateAcked(q, _, term, version) => Reached(q, term, version) in s.reached
    case _ => true
  }

  ghost predicate WinInv(s: State, w: Win) {
    && w.voters <= s.nodes.Keys
    && |w.voters| >= ElectionQuorum(|s.nodes|)
    && forall q :: q in w.voters ==> Vote(q, w.election) in s.votes
  }

  ghost predicate WriteInv(s: State, w: Write) {
    w.leader in s.nodes && w.live <= s.nodes.Keys - {w.leader}
  }

  ghost predicate CommitInv(s: State, c: Commit) {
    && WriteInv(s, c.write)
    && c.acked <= c.write.live
    && |c.acked| >= NeededFollowers(|c.write.live|)
    && Reached(c.write.leader, c.write.term, c.write.version) in s.reached
    && forall q :: q in c.acked ==> Reached(q, c.write.term, c.write.version) in s.reached
  }

  ghost predicate Inv(s: State) {
    && "" !in s.nodes
    && (forall id :: id in s.nodes ==> NodeInv(s.nodes[id]))
    && (forall v :: v in s.votes ==> VoteInv(s, v))
    && (forall r :: r in s.reached ==> ReachedInv(s, r))
    && OneVotePerTerm(s)
    && (forall m :: m in s.messages ==> MessageInv(s, m))
    && (forall e :: e in s.running ==> e.candidate in s.nodes && Vote(e.candidate, e) in s.votes)
    && (forall w :: w in s.wins ==> WinInv(s, w))
    && (forall w :: w in s.writes ==> WriteInv(s, w))
    && (forall c :: c in s.commits ==> CommitInv(s, c))
  }

  /**
   The records of a run only grow, and each clause about them survives growth;
   what a step has to show is about votes, reached versions and new records.
   */
  lemma {:induction false} GrowKeepsInv(s: State, t: State)
    requires Inv(s)
    requires t.nodes.Keys == s.nodes.Keys
    requires s.votes <= t.votes && s.reached <= t.reached
    requires forall id :: id in t.nodes ==> NodeInv(t.nodes[id])
    requires forall v :: v in t.votes ==> VoteInv(t, v)
    requires forall r :: r in t.reached ==> ReachedInv(t, r)
    requires OneVotePerTerm(t)
    requires forall m :: m in t.messages ==> m in s.messages || MessageInv(t, m)
    requires forall e :: e in t.running ==>
               e in s.running || (e.candidate in t.nodes && Vote(e.candidate, e) in t.votes)
    requires forall w :: w in t.wins ==> w in s.wins || WinInv(t, w)
    requires forall w :: w in t.writes ==> w in s.writes || WriteInv(t, w)
    requires forall c :: c in t.commits ==> c in s.commits || CommitInv(t, c)
    ensures Inv(t)
  {
    assert |t.nodes| == |t.nodes.Keys| == |s.nodes.Keys| == |s.nodes|;
    forall m | m in t.messages ensures MessageInv(t, m) {
      assert m in s.messages ==> MessageInv(s, m);
    }
    forall w | w in t.wins ensures WinInv(t, w) {
      assert w in s.wins ==> WinInv(s, w);
    }
    forall w | w in t.writes ensures WriteInv(t, w) {
      assert w in s.writes ==> WriteInv(s, w);
    }
    forall c | c in t.commits ensures CommitInv(t, c) {
      assert c in s.commits ==> CommitInv(s, c);
    }
  }

  /** A node may move forward, and forget a vote only by moving to a later term. */
  ghost predicate Forward(n: Node, m: Node) {
    && m.term >= n.term
    && m.version >= n.version
    && m.votedForTerm <= m.term
    && (m.term == n.term ==> m.votedFor == n.votedFor && m.votedForTerm == n.votedForTerm)
  }

  /** Moving one node forward keeps all votes and reached versions in order. */
  lemma {:induction false} ForwardKeepsRecords(s: State, t: State, id: string)
    requires Inv(s) && id in s.nodes && id in t.nodes && Forward(s.nodes[id], t.nodes[id])
    requires t.nodes == s.nodes[id := t.nodes[id]]
    requires t.votes == s.votes && t.reached == s.reached
    ensures forall i :: i in t.nodes ==> NodeInv(t.nodes[i])
    ensures forall v :: v in t.votes ==> VoteInv(t, v)
    ensures forall r :: r in t.reached ==> ReachedInv(t, r)
    ensures OneVotePerTerm(t)
  {
    forall v | v in t.votes ensures VoteInv(t, v) {
      assert VoteInv(s, v);
    }
    forall r | r in t.reached ensures ReachedInv(t, r) {
      assert ReachedInv(s, r);
    }
  }

  /** Recording a vote the voter has just cast. */
  lemma {:induction false} CastVoteKeepsRecords(s: State, t: State, id: string, e: Election)
    requires Inv(s) && id in s.nodes && id in t.nodes && e.candidate != ""
    requires t.nodes == s.nodes[id := t.nodes[id]]
    requires t.votes == s.votes + {Vote(id, e)} && t.reached == s.reached
    requires var n, m := s.nodes[id], t.nodes[id];
             && m.term == e.term >= n.term && m.version == n.version <= e.version
             && m.votedFor == e.candidate && m.votedForTerm == e.term
             && (n.term == e.term && n.votedForTerm == e.term && n.votedFor != "" ==> n.votedFor == e.candidate)
    ensures forall i :: i in t.nodes ==> NodeInv(t.nodes[i])
    ensures forall v :: v in t.votes ==> VoteInv(t, v)
    ensures forall r :: r in t.reached ==> ReachedInv(t, r)
    ensures OneVotePerTerm(t)
  {
    forall v | v in s.votes && v.voter == id && v.election.term == e.term
      ensures v.election.candidate == e.candidate
    {
      assert VoteInv(s, v);
    }
    forall v | v in t.votes ensures VoteInv(t, v) {
      assert v in s.votes ==> VoteInv(s, v);
    }
    forall r | r in t.reached ensures ReachedInv(t, r) {
      assert ReachedInv(s, r);
    }
  }

  /** Recording that a replica, moved forward, is in a term and has reached a version. */
  lemma {:induction false} ReachKeepsRecords(s: State, t: State, r: Reached)
    requires Inv(s) && r.replica in s.nodes && r.replica in t.nodes
    requires Forward(s.nodes[r.replica], t.nodes[r.replica])
    requires t.nodes == s.nodes[r.replica := t.nodes[r.replica]]
    requires t.votes == s.votes && t.reached == s.reached + {r}
    requires t.nodes[r.replica].term == r.term && t.nodes[r.replica].version >= r.version
    ensures forall i :: i in t.nodes ==> NodeInv(t.nodes[i])
    ensures forall v :: v in t.votes ==> VoteInv(t, v)
    ensures forall x :: x in t.reached ==> ReachedInv(t, x)
    ensures OneVotePerTerm(t)
  {
    ForwardKeepsRecords(s, t.(reached := s.reached), r.replica);
    forall v | v in t.votes ensures VoteInv(t, v) {
      assert VoteInv(t.(reached := s.reached), v);
    }
    forall x | x in t.reached ensures ReachedInv(t, x) {
      assert x in s.reached ==> ReachedInv(t.(reached := s.reached), x);
    }
  }

  // ---------------------------------------------------------------- steps keep it

  lemma {:induction false} StartElectionKeepsInv(s: State, id: string)
    requires Inv(s) && Enabled(s, StartElection(id))
    ensures Inv(DoStartElection(s, id))
  {
    var t := DoStartElection(s, id);
    CastVoteKeepsRecords(s, t, id, Election(id, t.nodes[id].term, t.nodes[id].version));
    GrowKeepsInv(s, t);
  }

  lemma {:induction false} HandleVoteRequestKeepsInv(s: State, id: string, req: VoteRequest)
    requires Inv(s) && Enabled(s, HandleVoteRequest(id, req))
    ensures Inv(DoHandleVoteRequest(s, id, req))
  {
    var t := DoHandleVoteRequest(s, id, req);
    assert MessageInv(s, VoteAsked(req));
    if OnVoteRequest(s.nodes[id], req).1.granted {
      CastVoteKeepsRecords(s, t, id, Election(req.candidate, req.term, req.version));
    } else {
      ForwardKeepsRecords(s, t, id);
    }
    GrowKeepsInv(s, t);
  }

  /** No peer was asked twice. */
  predicate AskedOnce(answers: seq<Answer>) {
    forall i, j :: 0 <= i < j < |answers| ==> answers[i].peer != answers[j].peer
  }

  lemma {:induction false} LastGranter(answers: seq<Answer>)
    requires answers != [] && AskedOnce(answers)
    ensures var init, last := answers[..|answers| - 1], answers[|answers| - 1];
            && AskedOnce(init) && last.peer !in Granters(init)
            && Granters(answers) == if last.reply.granted then Granters(init) + {last.peer} else Granters(init)
  {
    var init, last := answers[..|answers| - 1], answers[|answers| - 1];
    assert forall i :: 0 <= i < |init| ==> init[i] == answers[i];
    if last.reply.granted {
      assert Granters(answers) == Granters(init) + {last.peer};
    } else {
      assert Granters(answers) == Granters(init);
    }
  }

  lemma {:induction false} LastReply(term: nat, answers: seq<Answer>)
    requires answers != [] && TallyOf(term, Replies(answers)).Counted?
    ensures var init, last := answers[..|answers| - 1], answers[|answers| - 1];
            && TallyOf(term, Replies(init)).Counted?
            && TallyOf(term, Replies(answers)).votes ==
               TallyOf(term, Replies(init)).votes + if last.reply.granted then 1 else 0
  {
    assert Replies(answers)[..|answers| - 1] == Replies(answers[..|answers| - 1]);
  }

  /** A counted tally is one more than the number of peers that granted their vote. */
  lemma {:induction false} TallyCountsGranters(term: nat, answers: seq<Answer>)
    requires AskedOnce(answers) && TallyOf(term, Replies(answers)).Counted?
    ensures TallyOf(term, Replies(answers)).votes == |Granters(answers)| + 1
  {
    if answers == [] {
      assert Granters(answers) == {};
    } else {
      LastGranter(answers);
      LastReply(term, answers);
      TallyCountsGranters(term, answers[..|answers| - 1]);
    }
  }

  /** A winner's voters really voted for it, and are a majority. */
  lemma {:induction false} VotersMeetWinInv(s: State, e: Election, answers: seq<Answer>)
    requires e.candidate in s.nodes && Vote(e.candidate, e) in s.votes
    requires AnswersPossible(s, e, answers) && forall m :: m in s.messages ==> MessageInv(s, m)
    requires TallyOf(e.term, Replies(answers)).Counted?
    requires TallyOf(e.term, Replies(answers)).votes >= ElectionQuorum(|s.nodes|)
    ensures WinInv(s, Win(e, Granters(answers) + {e.candidate}))
  {
    var voters := Granters(answers) + {e.candidate};
    TallyCountsGranters(e.term, answers);
    assert e.candidate !in Granters(answers);
    forall q | q in voters ensures q in s.nodes && Vote(q, e) in s.votes {
      if q != e.candidate {
        var i :| 0 <= i < |answers| && answers[i].reply.granted && answers[i].peer == q;
        assert MessageInv(s, VoteAnswered(q, VoteRequest(e.term, e.candidate, e.version), answers[i].reply));
      }
    }
  }

  lemma {:induction false} FinishElectionKeepsInv(s: State, e: Election, answers: seq<Answer>)
    requires Inv(s) && Enabled(s, FinishElection(e, answers))
    ensures Inv(DoFinishElection(s, e, answers))
  {
    var t := DoFinishElection(s, e, answers);
    var tally := TallyOf(e.term, Replies(answers));
    assert NodeInv(s.nodes[e.candidate]);
    ForwardKeepsRecords(s, t, e.candidate);
    if Wins(s.nodes[e.candidate], e.term, tally, ElectionQuorum(|s.nodes|)) {
      VotersMeetWinInv(s, e, answers);
      assert |t.nodes| == |t.nodes.Keys| == |s.nodes.Keys| == |s.nodes|;
      assert WinInv(t, Win(e, Granters(answers) + {e.candidate}));
    }
    GrowKeepsInv(s, t);
  }

  lemma {:induction false} HandleReplicateKeepsInv(
    s: State, id: string, leader: string, term: nat, version: nat, known: bool)
    requires Inv(s) && Enabled(s, HandleReplicate(id, leader, term, version, known))
    ensures Inv(DoHandleReplicate(s, id, leader, term, version, known))
  {
    var t := DoHandleReplicate(s, id, leader, term, version, known);
    var reply := OnReplicate(s.nodes[id], term, version, known).1;
    if reply.Replied? && reply.success {
      ReachKeepsRecords(s, t, Reached(id, term, version));
    } else {
      ForwardKeepsRecords(s, t, id);
    }
    GrowKeepsInv(s, t);
  }

  lemma {:induction false} FinishWriteKeepsInv(s: State, w: Write, acked: set<string>)
    requires Inv(s) && Enabled(s, FinishWrite(w, acked))
    ensures Inv(DoFinishWrite(s, w, acked))
  {
    var t := DoFinishWrite(s, w, acked);
    if Appliable(s.nodes[w.leader], w.term, w.version) {
      assert WriteInv(s, w);
      ReachKeepsRecords(s, t, Reached(w.leader, w.term, w.version));
      forall q | q in acked ensures Reached(q, w.term, w.version) in t.reached {
        assert MessageInv(s, ReplicateAcked(q, w.leader, w.term, w.version));
      }
      assert CommitInv(t, Commit(w, acked));
      GrowKeepsInv(s, t);
    }
  }

  /** Moving one node forward, with nothing recorded, keeps the invariant. */
  lemma {:induction false} MoveKeepsInv(s: State, id: string, n: Node)
    requires Inv(s) && id in s.nodes && Forward(s.nodes[id], n)
    ensures Inv(SetNode(s, id, n))
  {
    var t := SetNode(s, id, n);
    ForwardKeepsRecords(s, t, id);
    GrowKeepsInv(s, t);
  }

  /** Messages that carry no vote and no acknowledgement keep it, and so does a write that begins. */
  lemma {:induction false} SendKeepsInv(s: State, m: Message)
    requires Inv(s) && (m.Heartbeat? || m.HeartbeatAnswered? || m.ReplicateSent?)
    ensures Inv(s.(messages := s.messages + {m}))
  {
    var t := s.(messages := s.messages + {m});
    RecordsStay(s, t);
    GrowKeepsInv(s, t);
  }

  lemma {:induction false} BeginKeepsInv(s: State, w: Write)
    requires Inv(s) && WriteInv(s, w)
    ensures Inv(s.(writes := s.writes + {w}))
  {
    var t := s.(writes := s.writes + {w});
    RecordsStay(s, t);
    GrowKeepsInv(s, t);
  }

  lemma {:induction false} RecordsStay(s: State, t: State)
    requires Inv(s) && t.nodes == s.nodes && t.votes == s.votes && t.reached == s.reached
    ensures forall v :: v in t.votes ==> VoteInv(t, v)
    ensures forall r :: r in t.reached ==> ReachedInv(t, r)
    ensures OneVotePerTerm(t)
  {
    forall v | v in t.votes ensures VoteInv(t, v) {
      assert VoteInv(s, v);
    }
    forall r | r in t.reached ensures ReachedInv(t, r) {
      assert ReachedInv(s, r);
    }
  }

  lemma {:induction false} BeginWriteKeepsInv(s: State, id: string, live: set<string>)
    requires Inv(s) && Enabled(s, BeginWrite(id, live))
    ensures Inv(DoBeginWrite(s, id, live))
  {
    var n := s.nodes[id];
    var w, m := Write(id, n.term, n.version + 1, live), ReplicateSent(id, n.term, n.version + 1);
    BeginKeepsInv(s, w);
    var begun := s.(writes := s.writes + {w});
    SendKeepsInv(begun, m);
    assert DoBeginWrite(s, id, live) ==
           if NeededFollowers(|live|) == 0 then begun else begun.(messages := begun.messages + {m});
  }

  lemma {:induction false} HandleHeartbeatKeepsInv(s: State, id: string, leader: string, term: nat)
    requires Inv(s) && id in s.nodes
    ensures Inv(DoHandleHeartbeat(s, id, leader, term))
  {
    var (n, peerTerm) := OnHeartbeat(s.nodes[id], term, leader);
    assert NodeInv(s.nodes[id]);
    MoveKeepsInv(s, id, n);
    SendKeepsInv(SetNode(s, id, n), HeartbeatAnswered(leader, term, peerTerm));
  }

  /** Everything the replica has promised is known to the node `n` in its place. */
  ghost predicate Backs(s: State, id: string, n: Node) {
    && NodeInv(n)
    && (forall v :: v in s.votes && v.voter == id ==>
          && v.election.term <= n.term
          && (v.election.term == n.term ==>
                n.votedFor == v.election.candidate && n.votedForTerm == v.election.term))
    && forall r :: r in s.reached && r.replica == id ==> r.term <= n.term && r.version <= n.version
  }

  /** Putting another node in a replica's place. */
  ghost predicate Replaces(s: State, t: State, id: string) {
    && id in s.nodes && id in t.nodes && t.nodes == s.nodes[id := t.nodes[id]]
    && t.votes == s.votes && t.reached == s.reached && t.messages == s.messages
    && t.wins == s.wins && t.commits == s.commits && t.running <= s.running && t.writes <= s.writes
  }

  lemma {:induction false} BackedRecords(s: State, t: State, id: string)
    requires Inv(s) && Replaces(s, t, id) && Backs(s, id, t.nodes[id])
    ensures forall v :: v in t.votes ==> VoteInv(t, v)
    ensures forall r :: r in t.reached ==> ReachedInv(t, r)
  {
    forall v | v in t.votes ensures VoteInv(t, v) {
      assert VoteInv(s, v);
    }
    forall r | r in t.reached ensures ReachedInv(t, r) {
      assert ReachedInv(s, r);
    }
  }

  lemma {:induction false} InvMeansBacked(s: State, t: State, id: string)
    requires Inv(t) && Replaces(s, t, id)
    ensures Backs(s, id, t.nodes[id])
  {
    assert NodeInv(t.nodes[id]);
    forall v | v in s.votes && v.voter == id
      ensures v.election.term <= t.nodes[id].term
      ensures v.election.term == t.nodes[id].term ==>
                t.nodes[id].votedFor == v.election.candidate && t.nodes[id].votedForTerm == v.election.term
    {
      assert VoteInv(t, v);
    }
    forall r | r in s.reached && r.replica == id
      ensures r.term <= t.nodes[id].term && r.version <= t.nodes[id].version
    {
      assert ReachedInv(t, r);
    }
  }

  lemma {:induction false} ReplacedKeepsInvExactly(s: State, t: State, id: string)
    requires Inv(s) && Replaces(s, t, id)
    ensures Inv(t) <==> Backs(s, id, t.nodes[id])
  {
    if Backs(s, id, t.nodes[id]) {
      BackedRecords(s, t, id);
      GrowKeepsInv(s, t);
    }
    if Inv(t) {
      InvMeansBacked(s, t, id);
    }
  }

  /** Installing a snapshot, older or newer, keeps the invariant exactly when it is safe. */
  lemma {:induction false} InstallKeepsInvExactly(s: State, id: string, term: nat, version: nat)
    requires Inv(s) && id in s.nodes
    ensures Inv(SetNode(s, id, OnInstall(s.nodes[id], term, version))) <==> InstallSafe(s, id, term, version)
  {
    ReplacedKeepsInvExactly(s, SetNode(s, id, OnInstall(s.nodes[id], term, version)), id);
    assert InstallSafe(s, id, term, version) <==> Backs(s, id, OnInstall(s.nodes[id], term, version));
  }

  /** So does a restart, which forgets every vote. */
  lemma {:induction false} RestartKeepsInvExactly(
    s: State, id: string, term: nat, version: nat, leader: string, ready: bool)
    requires Inv(s) && id in s.nodes
    ensures Inv(DoRestart(s, id, OnRestart(id, term, version, leader, ready))) <==> RestartSafe(s, id, term, version)
  {
    var n := OnRestart(id, term, version, leader, ready);
    ReplacedKeepsInvExactly(s, DoRestart(s, id, n), id);
    RestartBacks(s, id, n);
  }

  lemma {:induction false} RestartBacks(s: State, id: string, n: Node)
    requires Inv(s) && n.votedFor == "" && n.votedForTerm == 0
    ensures Backs(s, id, n) <==> RestartSafe(s, id, n.term, n.version)
  {
    assert forall v :: v in s.votes ==> VoteInv(s, v);
  }

  /** The replica could vote against a vote it has given. */
  ghost predicate VotesAgain(s: State, id: string, n: Node, v: Vote, req: VoteRequest) {
    && v in s.votes && v.voter == id && req.term == v.election.term && req.candidate != v.election.candidate
    && OnVoteRequest(n, req).1.granted
  }

  lemma {:induction false} KeptVoteStands(s: State, id: string, term: nat, version: nat, v: Vote, req: VoteRequest)
    requires Inv(s) && id in s.nodes && VotesKept(s, id, term)
    ensures !VotesAgain(s, id, OnInstall(s.nodes[id], term, version), v, req)
  {
    if v in s.votes {
      assert VoteInv(s, v);
    }
  }

  lemma {:induction false} LostVoteFalls(s: State, id: string, term: nat, version: nat, v: Vote)
    returns (req: VoteRequest)
    requires id in s.nodes && s.nodes[id].votedForTerm <= s.nodes[id].term && v in s.votes && v.voter == id
    requires v.election.term >= term
    requires v.election.term == term ==>
               !(s.nodes[id].votedFor == v.election.candidate && s.nodes[id].votedForTerm == v.election.term)
    ensures VotesAgain(s, id, OnInstall(s.nodes[id], term, version), v, req)
  {
    var n, other := s.nodes[id], v.election.candidate + "'";
    assert |other| == |v.election.candidate| + 1;
    var who := if v.election.term == term && n.votedForTerm == term && n.votedFor != "" then n.votedFor else other;
    req := VoteRequest(v.election.term, who, version);
  }

  /**
   Installing a snapshot lets a replica vote against one of its votes exactly
   when that vote is in a later term than the snapshot, or in its term and
   forgotten. A vote is forgotten as soon as a later term is heard of.
   */
  lemma {:induction false} InstallAllowsSecondVoteExactly(s: State, id: string, term: nat, version: nat)
    requires Inv(s) && id in s.nodes
    ensures (exists v, req :: VotesAgain(s, id, OnInstall(s.nodes[id], term, version), v, req))
            <==> !VotesKept(s, id, term)
  {
    if VotesKept(s, id, term) {
      forall v, req ensures !VotesAgain(s, id, OnInstall(s.nodes[id], term, version), v, req) {
        KeptVoteStands(s, id, term, version, v, req);
      }
    } else {
      var v :| v in s.votes && v.voter == id && !(
                 || v.election.term < term
                 || (v.election.term == term
                     && s.nodes[id].votedFor == v.election.candidate && s.nodes[id].votedForTerm == v.election.term));
      assert NodeInv(s.nodes[id]);
      var req := LostVoteFalls(s, id, term, version, v);
    }
  }

  /** The remaining steps move one node forward, or send a heartbeat. */
  lemma {:induction false} OtherStepKeepsInv(s: State, step: Step)
    requires Inv(s) && Enabled(s, step)
    requires !step.StartElection? && !step.HandleVoteRequest? && !step.FinishElection?
             && !step.HandleReplicate? && !step.FinishWrite? && !step.BeginWrite? && !step.HandleHeartbeat?
             && !step.InstallSnapshot? && !step.Restart?
    ensures Inv(Do(s, step))
  {
    assert NodeInv(s.nodes[step.id]);
    if step.SendHeartbeat? {
      SendKeepsInv(s, Heartbeat(step.id, s.nodes[step.id].term));
    } else {
      MoveKeepsInv(s, step.id, Do(s, step).nodes[step.id]);
    }
  }

  lemma {:induction false} StepKeepsInv(s: State, step: Step)
    requires Inv(s) && Enabled(s, step)
    ensures Inv(Do(s, step))
  {
    match step
    case StartElection(id) => StartElectionKeepsInv(s, id);
    case HandleVoteRequest(id, req) => HandleVoteRequestKeepsInv(s, id, req);
    case FinishElection(e, answers) => FinishElectionKeepsInv(s, e, answers);
    case HandleReplicate(id, leader, term, version, known) =>
      HandleReplicateKeepsInv(s, id, leader, term, version, known);
    case FinishWrite(w, acked) => FinishWriteKeepsInv(s, w, acked);
    case BeginWrite(id, live) => BeginWriteKeepsInv(s, id, live);
    case HandleHeartbeat(id, leader, term) => HandleHeartbeatKeepsInv(s, id, leader, term);
    case InstallSnapshot(id, term, version) => InstallKeepsInvExactly(s, id, term, version);
    case Restart(id, term, version, leader, ready) => RestartKeepsInvExactly(s, id, term, version, leader, ready);
    case _ => OtherStepKeepsInv(s, step);
  }
}
