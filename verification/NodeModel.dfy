/**
 The part of a replica that elections and replication depend on, and what each
 message handler does to it.
 */
module NodeModel {

  datatype Role = Leader | Follower | Unassigned

  datatype Node = Node(
    term: nat,
    version: nat,
    role: Role,
    leaderId: string,
    ready: bool,
    votedFor: string,
    votedForTerm: nat)

  datatype VoteRequest = VoteRequest(term: nat, candidate: string, version: nat)

  datatype VoteReply = VoteReply(term: nat, granted: bool)

  datatype ReplicateReply = Replied(success: bool, term: nat) | Rejected

  /** One answer collected by a candidate; an unreachable peer counts as `VoteReply(0, false)`. */
  const NO_ANSWER := VoteReply(0, false)

  /** How the collection of answers ended. */
  datatype Tally = HigherTerm(term: nat) | Counted(votes: nat)

  function Adopt(n: Node, term: nat): Node {
    n.(term := term, role := Follower)
  }

  function OnVoteRequest(n: Node, req: VoteRequest): (Node, VoteReply) {
    if req.term < n.term then (n, VoteReply(n.term, false))
    else
      var m := if req.term > n.term then Adopt(n, req.term).(votedFor := "", votedForTerm := 0) else n;
      if m.votedForTerm == req.term && m.votedFor != "" && m.votedFor != req.candidate then
        (m, VoteReply(req.term, false))
      else if req.version < m.version then (m, VoteReply(req.term, false))
      else (m.(votedFor := req.candidate, votedForTerm := req.term), VoteReply(req.term, true))
  }

  function OnHeartbeat(n: Node, term: nat, leader: string): (Node, nat) {
    if term < n.term then (n, n.term)
    else
      var m := if term > n.term then Adopt(n, term) else n;
      (m.(leaderId := leader), m.term)
  }

  /** `known` says whether the operation is a put or a delete. */
  function OnReplicate(n: Node, term: nat, version: nat, known: bool): (Node, ReplicateReply) {
    if term < n.term then (n, Replied(false, n.term))
    else
      var m := if term > n.term then Adopt(n, term) else n;
      if version <= m.version then (m, Replied(true, m.term))
      else if version != m.version + 1 then (m.(ready := false), Replied(false, m.term))
      else if !known then (m, Rejected)
      else (m.(version := version, ready := true), Replied(true, term))
  }

  /** The entry passes the checks of the state machine. */
  predicate Appliable(n: Node, term: nat, version: nat) {
    version == n.version + 1 && term >= n.term
  }

  function OnApply(n: Node, term: nat, version: nat): Node {
    if Appliable(n, term, version) then n.(term := term, version := version) else n
  }

  function OnInstall(n: Node, term: nat, version: nat): Node {
    n.(term := term, version := version, ready := true)
  }

  /** A replica that comes back has what its disk held, the role the shard map gives it, and no vote. */
  function OnRestart(id: string, term: nat, version: nat, leader: string, ready: bool): Node {
    Node(term, version, if leader == id then Leader else Follower, leader, ready, "", 0)
  }

  function OnStartElection(n: Node, id: string): Node {
    if n.role.Leader? then n
    else n.(term := n.term + 1, votedFor := id, votedForTerm := n.term + 1)
  }

  /** The answers in the order they arrived; the first higher term ends the collection. */
  function TallyOf(candidateTerm: nat, answers: seq<VoteReply>): Tally {
    if answers == [] then Counted(1)
    else
      var rest := TallyOf(candidateTerm, answers[..|answers| - 1]);
      var last := answers[|answers| - 1];
      if rest.HigherTerm? then rest
      else if last.term > candidateTerm then HigherTerm(last.term)
      else if last.granted then Counted(rest.votes + 1)
      else rest
  }

  /** The places of the granted votes. */
  function Granted(answers: seq<VoteReply>): set<int> {
    set i | 0 <= i < |answers| && answers[i].granted
  }

  /** The candidate becomes leader. */
  predicate Wins(n: Node, candidateTerm: nat, tally: Tally, quorum: nat) {
    tally.Counted? && n.term == candidateTerm && !n.role.Leader? && tally.votes >= quorum
  }

  function OnTally(n: Node, id: string, candidateTerm: nat, tally: Tally, quorum: nat): Node {
    match tally
    case HigherTerm(t) => n.(term := if t > n.term then t else n.term, role := Follower)
    case Counted(_) =>
      if Wins(n, candidateTerm, tally, quorum) then n.(role := Leader, leaderId := id, ready := true) else n
  }

  /** A leader hears of a newer term in answer to a heartbeat it sent in `sentTerm`. */
  function OnHeartbeatReply(n: Node, sentTerm: nat, peerTerm: nat): Node {
    if peerTerm <= sentTerm then n
    else n.(term := if peerTerm > n.term then peerTerm else n.term,
            role := if n.role.Leader? then Follower else n.role)
  }

  /**
   The shard map names `leader`; roles follow it without touching the term. A
   new leader is ready at once, unless it still waits for the data of the shard
   it was split from.
   */
  function OnShardMap(n: Node, id: string, leader: string, pending: bool): Node {
    var m := n.(leaderId := leader);
    if leader == id && !m.role.Leader? then m.(role := Leader, ready := m.ready || !pending)
    else if leader != id && m.role.Leader? then m.(role := Follower)
    else m
  }

  function OnForceRecover(n: Node): Node {
    n.(ready := false)
  }

  /** A recovery ended without error. */
  function OnRecovered(n: Node): Node {
    n.(ready := true)
  }

  // ---------------------------------------------------------------- handler properties

  /** A vote goes out exactly to an up-to-date candidate in a term not yet spoken for. */
  lemma {:induction false} VoteGrantedExactly(n: Node, req: VoteRequest)
    ensures OnVoteRequest(n, req).1.granted <==>
            && req.term >= n.term
            && req.version >= n.version
            && (req.term == n.term && n.votedForTerm == n.term ==> n.votedFor == "" || n.votedFor == req.candidate)
  {
  }

  /**
   No handler lowers the term or the version, and only an entry moves the
   version. Installing a snapshot is the exception, and takes both as they come.
   */
  lemma {:induction false} HandlersMonotone(
    n: Node, req: VoteRequest, term: nat, version: nat, who: string, flag: bool, tally: Tally, quorum: nat)
    ensures Later(n, OnReplicate(n, term, version, flag).0)
    ensures Later(n, OnApply(n, term, version))
    ensures KeepsVersion(n, OnVoteRequest(n, req).0)
    ensures KeepsVersion(n, OnHeartbeat(n, term, who).0)
    ensures KeepsVersion(n, OnStartElection(n, who))
    ensures KeepsVersion(n, OnTally(n, who, term, tally, quorum))
    ensures KeepsVersion(n, OnHeartbeatReply(n, term, version))
    ensures KeepsVersion(n, OnShardMap(n, who, req.candidate, flag))
    ensures KeepsVersion(n, OnForceRecover(n)) && KeepsVersion(n, OnRecovered(n))
  {
  }

  /** A tally is counted exactly when nobody answers with a later term, and counts the granted votes and the own one. */
  lemma {:induction false} TallyExactly(candidateTerm: nat, answers: seq<VoteReply>)
    ensures var tally := TallyOf(candidateTerm, answers);
            && (tally.Counted? <==> forall i :: 0 <= i < |answers| ==> answers[i].term <= candidateTerm)
            && (tally.Counted? ==> tally.votes == |Granted(answers)| + 1)
            && (tally.HigherTerm? ==> tally.term > candidateTerm)
  {
    if answers == [] {
      assert Granted(answers) == {};
    } else {
      var n := |answers| - 1;
      TallyExactly(candidateTerm, answers[..n]);
      assert Granted(answers) == Granted(answers[..n]) + if answers[n].granted then {n} else {};
      assert forall i :: 0 <= i < n ==> answers[..n][i] == answers[i];
    }
  }

  predicate Later(n: Node, m: Node) {
    m.term >= n.term && m.version >= n.version
  }

  predicate KeepsVersion(n: Node, m: Node) {
    m.term >= n.term && m.version == n.version
  }

  /** An acknowledged write is in the follower's past, and the follower is in the leader's term. */
  lemma {:induction false} AckMeansApplied(n: Node, term: nat, version: nat, known: bool)
    requires OnReplicate(n, term, version, known).1.Replied? && OnReplicate(n, term, version, known).1.success
    ensures var m := OnReplicate(n, term, version, known).0; m.term == term && m.version >= version
  {
  }
}
