/**
 How much of leader completeness the write path establishes: exactly as much as
 its live-peer count allows. When too few peers are counted as live there is a
 run in which a committed version is missing from a later leader.
 */
module ProtocolLimits {
  import opened NodeModel
  import opened Quorum
  import opened Protocol
  import opened ProtocolSafety

  /** Some run over `replicas` ends in `s`. */
  ghost predicate Reachable(replicas: set<string>, s: State) {
    exists states: seq<State>, steps: seq<Step> :: RunTo(replicas, states, steps, s)
  }

  ghost predicate RunTo(replicas: set<string>, states: seq<State>, steps: seq<Step>, s: State) {
    Run(states, steps) && states[0].nodes.Keys == replicas && states[|steps|] == s
  }

  lemma {:induction false} InitIsReachable(s: State)
    requires Init(s)
    ensures Reachable(s.nodes.Keys, s)
  {
    assert RunTo(s.nodes.Keys, [s], [], s);
  }

  lemma {:induction false} StepIsReachable(replicas: set<string>, s: State, step: Step)
    requires Reachable(replicas, s) && Enabled(s, step)
    ensures Reachable(replicas, Do(s, step))
  {
    var states: seq<State>, steps: seq<Step> :| RunTo(replicas, states, steps, s);
    var states', steps' := states + [Do(s, step)], steps + [step];
    forall i | 0 <= i < |steps'| ensures StepAt(states', steps', i) {
      assert i < |steps| ==> StepAt(states, steps, i);
    }
    assert RunTo(replicas, states', steps', Do(s, step));
  }

  const FRESH := Node(0, 0, Follower, "", true, "", 0)

  /** Everyone at term and version 0, and `leader` appointed by the shard map. */
  function Start(replicas: set<string>, leader: string): State {
    State(map id | id in replicas :: if id == leader then FRESH.(role := Leader) else FRESH, {}, {}, {}, {}, {}, {}, {})
  }

  /** These replicas have seen nothing yet. */
  predicate FreshAll(s: State, ids: set<string>) {
    forall id | id in ids :: id in s.nodes && s.nodes[id] == FRESH
  }

  /** The followers in `acked` apply and acknowledge version 1 one after another, and `others` see nothing of it. */
  lemma {:induction false} AcknowledgeAll(
    replicas: set<string>, s: State, leader: string, acked: set<string>, others: set<string>) returns (t: State)
    requires Reachable(replicas, s) && leader in s.nodes && leader !in acked && acked !! others
    requires acked != {} ==> ReplicateSent(leader, 0, 1) in s.messages
    requires FreshAll(s, acked) && FreshAll(s, others)
    ensures Reachable(replicas, t) && FreshAll(t, others)
    ensures t.nodes.Keys == s.nodes.Keys && t.nodes[leader] == s.nodes[leader] && t.writes == s.writes
    ensures forall q :: q in acked ==> ReplicateAcked(q, leader, 0, 1) in t.messages
    ensures s.messages <= t.messages
    decreases acked
  {
    if acked == {} {
      t := s;
    } else {
      var q :| q in acked;
      var step := HandleReplicate(q, leader, 0, 1, true);
      StepIsReachable(replicas, s, step);
      t := AcknowledgeAll(replicas, Do(s, step), leader, acked - {q}, others);
      assert ReplicateAcked(q, leader, 0, 1) in Do(s, step).messages;
    }
  }

  const TERM_ONE := VoteReply(1, true)

  /** Each of the voters granted `candidate` its vote. */
  ghost predicate Granted(s: State, candidate: string, voters: set<string>, answers: seq<Answer>) {
    && |answers| == |voters|
    && AskedOnce(answers)
    && forall i :: 0 <= i < |answers| ==>
         && answers[i].peer in voters && answers[i].reply == TERM_ONE
         && VoteAnswered(answers[i].peer, VoteRequest(1, candidate, 0), TERM_ONE) in s.messages
  }

  /** The voters grant `candidate` their vote in term 1 at version 0. */
  lemma {:induction false} VoteAll(replicas: set<string>, s: State, candidate: string, voters: set<string>)
    returns (t: State, answers: seq<Answer>)
    requires Reachable(replicas, s) && candidate in s.nodes && candidate !in voters
    requires VoteAsked(VoteRequest(1, candidate, 0)) in s.messages && FreshAll(s, voters)
    ensures Reachable(replicas, t)
    ensures t.nodes.Keys == s.nodes.Keys && t.nodes[candidate] == s.nodes[candidate]
    ensures t.running == s.running && t.commits == s.commits && s.messages <= t.messages
    ensures Granted(t, candidate, voters, answers)
    decreases voters
  {
    if voters == {} {
      t, answers := s, [];
    } else {
      var q :| q in voters;
      var step := HandleVoteRequest(q, VoteRequest(1, candidate, 0));
      StepIsReachable(replicas, s, step);
      var rest;
      t, rest := VoteAll(replicas, Do(s, step), candidate, voters - {q});
      assert VoteAnswered(q, VoteRequest(1, candidate, 0), TERM_ONE) in Do(s, step).messages;
      answers := [Answer(q, TERM_ONE)] + rest;
    }
  }

  lemma {:induction false} AllGrantedCounts(answers: seq<Answer>)
    requires forall i :: 0 <= i < |answers| ==> answers[i].reply == TERM_ONE
    ensures TallyOf(1, Replies(answers)) == Counted(|answers| + 1)
  {
    if answers != [] {
      var init := answers[..|answers| - 1];
      assert Replies(answers)[..|answers| - 1] == Replies(init);
      AllGrantedCounts(init);
    }
  }

  /** The appointed leader sends out version 1 to `live`. */
  lemma {:induction false} BeginRun(replicas: set<string>, leader: string, live: set<string>) returns (s: State)
    requires "" !in replicas && leader in replicas && live <= replicas - {leader}
    ensures Reachable(replicas, s) && s.nodes.Keys == replicas && s.nodes[leader] == FRESH.(role := Leader)
    ensures FreshAll(s, replicas - {leader}) && Write(leader, 0, 1, live) in s.writes
    ensures NeededFollowers(|live|) != 0 ==> ReplicateSent(leader, 0, 1) in s.messages
  {
    var s0 := Start(replicas, leader);
    assert s0.nodes.Keys == replicas;
    InitIsReachable(s0);
    StepIsReachable(replicas, s0, BeginWrite(leader, live));
    s := Do(s0, BeginWrite(leader, live));
  }

  /** With the acknowledgements in, the leader commits. */
  lemma {:induction false} FinishRun(
    replicas: set<string>, s: State, w: Write, acked: set<string>, others: set<string>) returns (t: State)
    requires Reachable(replicas, s) && w in s.writes && w.leader in s.nodes
    requires acked <= w.live && |acked| == NeededFollowers(|w.live|)
    requires forall q :: q in acked ==> ReplicateAcked(q, w.leader, w.term, w.version) in s.messages
    requires Appliable(s.nodes[w.leader], w.term, w.version)
    requires w.leader !in others && FreshAll(s, others)
    ensures Reachable(replicas, t) && t.nodes.Keys == s.nodes.Keys && FreshAll(t, others)
    ensures Commit(w, acked) in t.commits
  {
    StepIsReachable(replicas, s, FinishWrite(w, acked));
    t := Do(s, FinishWrite(w, acked));
  }

  lemma {:induction false} CommitRun(replicas: set<string>, leader: string, live: set<string>, acked: set<string>)
    returns (s: State)
    requires "" !in replicas && leader in replicas && live <= replicas - {leader}
    requires acked <= live && |acked| == NeededFollowers(|live|)
    ensures Reachable(replicas, s) && s.nodes.Keys == replicas
    ensures Commit(Write(leader, 0, 1, live), acked) in s.commits
    ensures FreshAll(s, replicas - acked - {leader})
  {
    var others := replicas - acked - {leader};
    var s1 := BeginRun(replicas, leader, live);
    var s2 := AcknowledgeAll(replicas, s1, leader, acked, others);
    s := FinishRun(replicas, s2, Write(leader, 0, 1, live), acked, others);
  }

  lemma {:induction false} CandidateRun(replicas: set<string>, s: State, candidate: string, others: set<string>)
    returns (t: State)
    requires Reachable(replicas, s) && FreshAll(s, {candidate}) && candidate !in others && FreshAll(s, others)
    ensures Reachable(replicas, t) && t.commits == s.commits && FreshAll(t, others)
    ensures t.nodes.Keys == s.nodes.Keys && candidate in t.nodes
    ensures t.nodes[candidate].term == 1 && t.nodes[candidate].role == Follower
    ensures Election(candidate, 1, 0) in t.running
    ensures VoteAsked(VoteRequest(1, candidate, 0)) in t.messages
  {
    assert candidate in s.nodes && s.nodes[candidate] == FRESH;
    StepIsReachable(replicas, s, StartElection(candidate));
    t := Do(s, StartElection(candidate));
  }

  lemma {:induction false} ElectRun(
    replicas: set<string>, s: State, candidate: string, voters: set<string>, answers: seq<Answer>)
    returns (t: State, win: Win)
    requires Reachable(replicas, s) && s.nodes.Keys == replicas
    requires Election(candidate, 1, 0) in s.running
    requires candidate in s.nodes && s.nodes[candidate].term == 1 && s.nodes[candidate].role == Follower
    requires voters <= replicas - {candidate} && |voters| + 1 >= ElectionQuorum(|replicas|)
    requires Granted(s, candidate, voters, answers)
    ensures Reachable(replicas, t) && t.commits == s.commits
    ensures win in t.wins && win.election == Election(candidate, 1, 0)
  {
    var e := Election(candidate, 1, 0);
    GrantsWin(s, candidate, voters, answers);
    StepIsReachable(replicas, s, FinishElection(e, answers));
    t := Do(s, FinishElection(e, answers));
    win := Win(e, Granters(answers) + {e.candidate});
  }

  lemma {:induction false} GrantsWin(s: State, candidate: string, voters: set<string>, answers: seq<Answer>)
    requires candidate in s.nodes && s.nodes[candidate].term == 1 && s.nodes[candidate].role == Follower
    requires voters <= s.nodes.Keys - {candidate} && |voters| + 1 >= ElectionQuorum(|s.nodes.Keys|)
    requires Granted(s, candidate, voters, answers)
    ensures AnswersPossible(s, Election(candidate, 1, 0), answers)
    ensures Wins(s.nodes[candidate], 1, TallyOf(1, Replies(answers)), ElectionQuorum(|s.nodes|))
  {
    AllGrantedCounts(answers);
    assert |s.nodes| == |s.nodes.Keys|;
  }

  lemma {:induction false} VoteAndElectRun(replicas: set<string>, s: State, candidate: string, voters: set<string>)
    returns (t: State, win: Win)
    requires Reachable(replicas, s) && s.nodes.Keys == replicas
    requires Election(candidate, 1, 0) in s.running && VoteAsked(VoteRequest(1, candidate, 0)) in s.messages
    requires candidate in s.nodes && s.nodes[candidate].term == 1 && s.nodes[candidate].role == Follower
    requires voters <= replicas - {candidate} && |voters| + 1 == ElectionQuorum(|replicas|) && FreshAll(s, voters)
    ensures Reachable(replicas, t) && t.commits == s.commits
    ensures win in t.wins && win.election == Election(candidate, 1, 0)
  {
    var voted, answers := VoteAll(replicas, s, candidate, voters);
    t, win := ElectRun(replicas, voted, candidate, voters, answers);
  }

  lemma {:induction false} PickOne(s: State, voters: set<string>) returns (candidate: string, others: set<string>)
    requires |voters| > 0 && FreshAll(s, voters)
    ensures candidate in voters && candidate !in others && others < voters && |others| + 1 == |voters|
    ensures FreshAll(s, {candidate}) && FreshAll(s, others)
  {
    candidate :| candidate in voters;
    others := voters - {candidate};
  }

  /** Replicas that have seen nothing elect one of theirs in term 1. */
  lemma {:induction false} WinRun(replicas: set<string>, s: State, voters: set<string>) returns (t: State, win: Win)
    requires Reachable(replicas, s) && s.nodes.Keys == replicas
    requires voters <= replicas && |voters| == ElectionQuorum(|replicas|) && FreshAll(s, voters)
    ensures Reachable(replicas, t) && t.commits == s.commits
    ensures win in t.wins && win.election.term == 1 && win.election.version == 0
  {
    var candidate, others := PickOne(s, voters);
    var asked := CandidateRun(replicas, s, candidate, others);
    t, win := VoteAndElectRun(replicas, asked, candidate, others);
  }

  /** Every later winner over `replicas` has what `leader` committed with `live`. */
  ghost predicate Complete(replicas: set<string>, leader: string, live: set<string>) {
    forall s: State, c: Commit, w: Win {:trigger Reachable(replicas, s), c in s.commits, w in s.wins} ::
      Reachable(replicas, s) && c in s.commits && w in s.wins
      && c.write.leader == leader && c.write.live == live && w.election.term > c.write.term
      ==> w.election.version >= c.write.version
  }

  /**
   Leader completeness holds for writes with a given live set exactly when that
   set is large enough for the write quorum to reach every election.
   */
  lemma {:induction false} CompletenessExactly(replicas: set<string>, leader: string, live: set<string>)
    requires "" !in replicas && leader in replicas && live <= replicas - {leader}
    ensures Complete(replicas, leader, live) <==> PlanReachesElections(|live|, |replicas|)
  {
    if PlanReachesElections(|live|, |replicas|) {
      forall s: State, c: Commit, w: Win |
        Reachable(replicas, s) && c in s.commits && w in s.wins
        && c.write.leader == leader && c.write.live == live && w.election.term > c.write.term
        ensures w.election.version >= c.write.version
      {
        var states: seq<State>, steps: seq<Step> :| RunTo(replicas, states, steps, s);
        assert |states[0].nodes| == |states[0].nodes.Keys|;
        LeaderCompleteness(states, steps, c, w);
      }
    } else {
      var acked, voters := DisjointQuorums(replicas, leader, live);
      var s := CommitRun(replicas, leader, live, acked);
      var t, w := WinRun(replicas, s, voters);
      assert Commit(Write(leader, 0, 1, live), acked) in t.commits;
    }
  }

  // ---------------------------------------------------------------- unsafe installs and restarts

  /** A replica that is not ready asks for everything after its version, which a snapshot of `version` may answer. */
  predicate Asks(s: State, id: string, version: nat) {
    id in s.nodes && !s.nodes[id].ready && s.nodes[id].version != version
  }

  /** Another replica leads at this term and version, so this is the snapshot it answers with. */
  predicate Offers(s: State, leader: string, id: string, term: nat, version: nat) {
    && leader in s.nodes && leader != id
    && s.nodes[leader].role.Leader? && s.nodes[leader].term == term && s.nodes[leader].version == version
  }

  /** The snapshot was asked for, and then sent by a leader. */
  ghost predicate Sent(states: seq<State>, i: nat, id: string, term: nat, version: nat)
    requires i < |states|
  {
    exists leader, m: nat, k: nat ::
      m <= k <= i && Asks(states[m], id, version) && Offers(states[k], leader, id, term, version)
  }

  /** A replica comes back at the version it had, and at the term last written, which may be an older one. */
  predicate ComesBack(s: State, id: string, term: nat, version: nat) {
    id in s.nodes && version == s.nodes[id].version && term <= s.nodes[id].term
  }

  /** A step the code may take: a snapshot that was sent is installed, a replica restarts, whatever is taken back. */
  ghost predicate Possible(states: seq<State>, i: nat, step: Step)
    requires i < |states|
  {
    && Actor(step) in states[i].nodes
    && match step
       case InstallSnapshot(id, term, version) => Sent(states, i, id, term, version)
       case Restart(id, term, version, _, _) => ComesBack(states[i], id, term, version)
       case _ => Enabled(states[i], step)
  }

  ghost predicate LooseStepAt(states: seq<State>, steps: seq<Step>, i: nat)
    requires i < |steps| < |states|
  {
    Possible(states, i, steps[i]) && states[i + 1] == Do(states[i], steps[i])
  }

  ghost predicate LooseRun(states: seq<State>, steps: seq<Step>) {
    && |states| == |steps| + 1
    && Init(states[0])
    && forall i :: 0 <= i < |steps| ==> LooseStepAt(states, steps, i)
  }

  /** Every snapshot installed is of this term. */
  predicate InstallsOf(steps: seq<Step>, term: nat) {
    forall i :: 0 <= i < |steps| && steps[i].InstallSnapshot? ==> steps[i].term == term
  }

  lemma {:induction false} LooseStep(states: seq<State>, steps: seq<Step>, step: Step)
    returns (states': seq<State>, steps': seq<Step>)
    requires LooseRun(states, steps) && Possible(states, |steps|, step)
    ensures LooseRun(states', steps') && states <= states' && |steps'| == |steps| + 1
    ensures states'[|steps'|] == Do(states[|steps|], step)
    ensures InstallsOf(steps, 1) && (step.InstallSnapshot? ==> step.term == 1) ==> InstallsOf(steps', 1)
  {
    states', steps' := states + [Do(states[|steps|], step)], steps + [step];
    forall i | 0 <= i < |steps'| ensures LooseStepAt(states', steps', i) {
      if i < |steps| {
        assert LooseStepAt(states, steps, i);
        if steps[i].InstallSnapshot? {
          SentStays(states, states', i, steps[i].id, steps[i].term, steps[i].version);
        }
      } else if step.InstallSnapshot? {
        SentStays(states, states', i, step.id, step.term, step.version);
      }
    }
  }

  lemma {:induction false} SentStays(
    states: seq<State>, states': seq<State>, i: nat, id: string, term: nat, version: nat)
    requires i < |states| && states <= states' && Sent(states, i, id, term, version)
    ensures Sent(states', i, id, term, version)
  {
    var leader, m: nat, k: nat :|
      m <= k <= i && Asks(states[m], id, version) && Offers(states[k], leader, id, term, version);
    assert Asks(states'[m], id, version) && Offers(states'[k], leader, id, term, version);
  }

  /** Out of three replicas, `candidate` asks in term 1, `voter` grants, and that is a majority. */
  lemma {:induction false} ElectedByOne(states: seq<State>, steps: seq<Step>, candidate: string, voter: string)
    returns (states': seq<State>, steps': seq<Step>)
    requires LooseRun(states, steps) && candidate != voter
    requires var s := states[|steps|];
             && candidate in s.nodes && voter in s.nodes && |s.nodes.Keys| == 3
             && s.nodes[candidate].term == 0 && s.nodes[candidate].role == Follower
             && OnVoteRequest(s.nodes[voter], VoteRequest(1, candidate, s.nodes[candidate].version)).1 == TERM_ONE
    ensures LooseRun(states', steps') && states <= states' && (InstallsOf(steps, 1) ==> InstallsOf(steps', 1))
    ensures var s, t := states[|steps|], states'[|steps'|];
            && s.wins <= t.wins && t.nodes.Keys == s.nodes.Keys
            && (exists w :: w in t.wins && w.election == Election(candidate, 1, s.nodes[candidate].version))
            && t.nodes[voter] == OnVoteRequest(s.nodes[voter], VoteRequest(1, candidate, s.nodes[candidate].version)).0
            && t.nodes[candidate].role.Leader? && t.nodes[candidate].ready
            && t.nodes[candidate].term == 1 && t.nodes[candidate].version == s.nodes[candidate].version
            && forall id :: id in s.nodes && id != candidate && id != voter ==> t.nodes[id] == s.nodes[id]
  {
    var version := states[|steps|].nodes[candidate].version;
    var e, req := Election(candidate, 1, version), VoteRequest(1, candidate, version);
    var states1, steps1 := LooseStep(states, steps, StartElection(candidate));
    var states2, steps2 := LooseStep(states1, steps1, HandleVoteRequest(voter, req));
    var s := states2[|steps2|];
    var answers := [Answer(voter, TERM_ONE)];
    assert AnswersPossible(s, e, answers);
    AllGrantedCounts(answers);
    assert |s.nodes| == |s.nodes.Keys| && s.nodes.Keys == states[|steps|].nodes.Keys;
    states', steps' := LooseStep(states2, steps2, FinishElection(e, answers));
    assert Win(e, Granters(answers) + {candidate}) in states'[|steps'|].wins;
  }

  const WAITING := FRESH.(ready := false)

  function Three(a: string, b: string, c: string, na: Node, nb: Node, nc: Node): State {
    State(map[a := na, b := nb, c := nc], {}, {}, {}, {}, {}, {}, {})
  }

  lemma {:induction false} ThreeStart(a: string, b: string, c: string, na: Node, nb: Node, nc: Node)
    requires a != b && b != c && a != c && "" !in {a, b, c}
    requires forall n | n in {na, nb, nc} :: n.votedFor == "" && n.votedForTerm == 0
    ensures var s := Three(a, b, c, na, nb, nc);
            && LooseRun([s], []) && s.nodes.Keys == {a, b, c} && |s.nodes.Keys| == 3
            && s.nodes[a] == na && s.nodes[b] == nb && s.nodes[c] == nc
  {
    var s := Three(a, b, c, na, nb, nc);
    assert s.nodes.Keys == {a, b, c};
  }

  /**
   An older snapshot undoes a vote: `b` votes for `a` in term 1, installs the
   snapshot that the leader `c` of term 0 sent it, and votes for `c` in term 1.
   */
  lemma {:induction false} LoweringInstallElectsTwo(a: string, b: string, c: string)
    returns (states: seq<State>, steps: seq<Step>, w1: Win, w2: Win)
    requires a != b && b != c && a != c && "" !in {a, b, c}
    ensures LooseRun(states, steps) && states[0].nodes.Keys == {a, b, c}
    ensures w1 in states[|steps|].wins && w2 in states[|steps|].wins
    ensures w1.election.term == w2.election.term && w1.election.candidate == a && w2.election.candidate == c
  {
    var s := Three(a, b, c, FRESH, WAITING, FRESH.(role := Leader, version := 1));
    ThreeStart(a, b, c, FRESH, WAITING, FRESH.(role := Leader, version := 1));
    states, steps := ElectedByOne([s], [], a, b);
    w1 :| w1 in states[|steps|].wins && w1.election == Election(a, 1, 0);
    assert Asks(states[0], b, 1) && Offers(states[0], c, b, 0, 1);
    states, steps := LooseStep(states, steps, InstallSnapshot(b, 0, 1));
    states, steps := LooseStep(states, steps, UpdateShardMap(c, a, false));
    states, steps := ElectedByOne(states, steps, c, b);
    w2 :| w2 in states[|steps|].wins && w2.election == Election(c, 1, 1);
  }

  /**
   A restart undoes a vote, which is not on disk: `b` votes for `a` in term 1,
   comes back in term 0, and votes for `c` in term 1.
   */
  lemma {:induction false} RestartElectsTwo(a: string, b: string, c: string)
    returns (states: seq<State>, steps: seq<Step>, w1: Win, w2: Win)
    requires a != b && b != c && a != c && "" !in {a, b, c}
    ensures LooseRun(states, steps) && states[0].nodes.Keys == {a, b, c}
    ensures w1 in states[|steps|].wins && w2 in states[|steps|].wins
    ensures w1.election.term == w2.election.term && w1.election.candidate == a && w2.election.candidate == c
  {
    var s := Three(a, b, c, FRESH, FRESH, FRESH);
    ThreeStart(a, b, c, FRESH, FRESH, FRESH);
    states, steps := ElectedByOne([s], [], a, b);
    w1 :| w1 in states[|steps|].wins && w1.election == Election(a, 1, 0);
    states, steps := LooseStep(states, steps, Restart(b, 0, 0, "", false));
    states, steps := ElectedByOne(states, steps, c, b);
    w2 :| w2 in states[|steps|].wins && w2.election == Election(c, 1, 0);
  }

  /** `b` votes for `a`, then reaches version 1 and asks for a recovery, while `a` still leads at version 0. */
  lemma {:induction false} AheadOfLeader(states: seq<State>, steps: seq<Step>, a: string, b: string)
    returns (states': seq<State>, steps': seq<Step>)
    requires LooseRun(states, steps) && a != b
    requires var s := states[|steps|];
             && a in s.nodes && b in s.nodes && s.nodes[a].role.Leader? && s.nodes[a].ready
             && s.nodes[a].term == s.nodes[b].term == 1 && s.nodes[a].version == s.nodes[b].version == 0
    ensures LooseRun(states', steps') && states <= states' && (InstallsOf(steps, 1) ==> InstallsOf(steps', 1))
    ensures var s, t := states[|steps|], states'[|steps'|];
            && t.nodes.Keys == s.nodes.Keys && t.wins == s.wins
            && t.nodes[a] == s.nodes[a] && t.nodes[b] == s.nodes[b].(version := 1, ready := false)
            && forall id :: id in s.nodes && id != b ==> t.nodes[id] == s.nodes[id]
  {
    states', steps' := LooseStep(states, steps, BeginWrite(a, {b}));
    assert NeededFollowers(|{b}|) != 0;
    states', steps' := LooseStep(states', steps', HandleReplicate(b, a, 1, 1, true));
    states', steps' := LooseStep(states', steps', ForceRecover(b));
  }

  /** `a`, no longer leader, asks in term 2 and is refused for its version; `b` forgets its vote of term 1. */
  lemma {:induction false} VoteForgotten(states: seq<State>, steps: seq<Step>, a: string, b: string, c: string)
    returns (states': seq<State>, steps': seq<Step>)
    requires LooseRun(states, steps) && a != b && a != c
    requires var s := states[|steps|];
             && a in s.nodes && b in s.nodes && s.nodes[a].role.Leader?
             && s.nodes[a].term == s.nodes[b].term == 1 && s.nodes[a].version == 0 && s.nodes[b].version == 1
    ensures LooseRun(states', steps') && states <= states' && (InstallsOf(steps, 1) ==> InstallsOf(steps', 1))
    ensures var s, t := states[|steps|], states'[|steps'|];
            && t.nodes.Keys == s.nodes.Keys && t.wins == s.wins
            && t.nodes[b] == Adopt(s.nodes[b], 2).(votedFor := "", votedForTerm := 0)
            && forall id :: id in s.nodes && id != a && id != b ==> t.nodes[id] == s.nodes[id]
  {
    states', steps' := LooseStep(states, steps, UpdateShardMap(a, c, false));
    states', steps' := LooseStep(states', steps', StartElection(a));
    states', steps' := LooseStep(states', steps', HandleVoteRequest(b, VoteRequest(2, a, 0)));
  }

  /**
   A snapshot of the same term undoes a vote as well, once the vote is
   forgotten: `b` votes for `a` in term 1, gets ahead of it and asks for a
   recovery, hears of term 2, and installs the snapshot of term 1 that `a` sent.
   Then it votes for `c` in term 1.
   */
  lemma {:induction false} ForgottenVoteElectsTwo(a: string, b: string, c: string)
    returns (states: seq<State>, steps: seq<Step>, w1: Win, w2: Win)
    requires a != b && b != c && a != c && "" !in {a, b, c}
    ensures LooseRun(states, steps) && states[0].nodes.Keys == {a, b, c}
    ensures w1 in states[|steps|].wins && w2 in states[|steps|].wins
    ensures w1.election.term == w2.election.term && w1.election.candidate == a && w2.election.candidate == c
    ensures InstallsOf(steps, w1.election.term)
  {
    states, steps, w1 := SnapshotOnItsWay(a, b, c);
    states, steps := VoteForgotten(states, steps, a, b, c);
    states, steps := LooseStep(states, steps, InstallSnapshot(b, 1, 0));
    states, steps := ElectedByOne(states, steps, c, b);
    w2 :| w2 in states[|steps|].wins && w2.election == Election(c, 1, 0);
  }

  lemma {:induction false} SnapshotOnItsWay(a: string, b: string, c: string)
    returns (states: seq<State>, steps: seq<Step>, w: Win)
    requires a != b && b != c && a != c && "" !in {a, b, c}
    ensures LooseRun(states, steps) && states[0].nodes.Keys == {a, b, c} && InstallsOf(steps, 1)
    ensures var s := states[|steps|];
            && s.nodes.Keys == {a, b, c} && |s.nodes.Keys| == 3
            && w in s.wins && w.election == Election(a, 1, 0)
            && Asks(s, b, 0) && Offers(s, a, b, 1, 0)
            && s.nodes[b].term == s.nodes[b].version == 1 && s.nodes[c] == FRESH
  {
    var s := Three(a, b, c, FRESH, FRESH, FRESH);
    ThreeStart(a, b, c, FRESH, FRESH, FRESH);
    states, steps := ElectedByOne([s], [], a, b);
    w :| w in states[|steps|].wins && w.election == Election(a, 1, 0);
    states, steps := AheadOfLeader(states, steps, a, b);
  }
}
