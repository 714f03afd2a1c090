/**
 Catching up a lagging follower: what the leader answers, the two passes over
 the entries, and the agreement of both with the leader's full history.
 */
module Recovery {
  import opened Common
  import opened ReplicationLog
  import opened DiskModel
  import opened StateMachine

  datatype Response = Entries(entries: seq<Entry>) | FullState(snapshot: Snapshot)

  datatype Result = Incremental | FromSnapshot | Gap | ApplyFailed(outcome: Outcome)

  /** The leader's answer to a follower at version `since`. */
  function Respond(leader: Snapshot, log: seq<Entry>, since: nat): Response {
    if since > leader.version then FullState(leader)
    else if since == leader.version then Entries([])
    else if !Evicted(log, since) && Newer(log, since) != [] then Entries(Newer(log, since))
    else FullState(leader)
  }

  /** The leader need not send its whole state: the asker is level, or all it lacks is in the log. */
  predicate InReach(version: nat, logged: nat, since: nat) {
    since == version || (since < version && version - logged <= since)
  }

  /** Over a log that ends at the leader's version: entries exactly when in reach, all that are lacking and no more. */
  lemma {:induction false} RespondExactly(leader: Snapshot, log: seq<Entry>, since: nat)
    requires EndsAt(log, leader.version)
    ensures var r := Respond(leader, log, since);
            && (r.Entries? <==> InReach(leader.version, |log|, since))
            && (r.Entries? ==> r.entries == log[|log| - (leader.version - since)..])
            && (r.FullState? ==> r.snapshot == leader)
  {
    if since < leader.version && log != [] {
      EvictedExactly(log, leader.version, since);
      if leader.version - |log| <= since {
        NewerIsSuffix(log, leader.version, since);
      }
    }
  }

  method Recover(sm: StateMachine, since: nat) returns (r: Response)
    requires sm.Valid()
    ensures r == Respond(Snapshot(sm.term, sm.version, sm.kv), sm.log.entries, since)
    ensures r.Entries? <==> InReach(sm.version, |sm.log.entries|, since)
    ensures r.Entries? ==> r.entries == sm.log.entries[|sm.log.entries| - (sm.version - since)..]
    ensures r.FullState? ==> r.snapshot == Snapshot(sm.term, sm.version, sm.kv)
  {
    RespondExactly(Snapshot(sm.term, sm.version, sm.kv), sm.log.entries, since);
    var snap := Snapshot(sm.term, sm.version, sm.kv);
    if since > snap.version {
      return FullState(snap);
    }
    if since == snap.version {
      return Entries([]);
    }
    var entries, ok := sm.EntriesSince(since);
    assert ok <==> !Evicted(sm.log.entries, since) by {
      if sm.log.entries != [] {
        EvictedExactly(sm.log.entries, sm.version, since);
      }
    }
    if ok && (|entries| > 0 || snap.version == since) {
      return Entries(entries);
    }
    r := FullState(snap);
  }

  /** Versions `version + 1`, `version + 2`, … without a hole or a repeat. */
  ghost predicate Continues(es: seq<Entry>, version: nat) {
    forall i :: 0 <= i < |es| ==> es[i].version == version + 1 + i
  }

  function UpdateAll(kv: map<string, string>, es: seq<Entry>): map<string, string> {
    if es == [] then kv else Update(UpdateAll(kv, es[..|es| - 1]), es[|es| - 1])
  }

  /**
   The first pass: the entries newer than `version`, whatever else is among
   them and in whatever order, must continue it.
   */
  method CheckContinues(es: seq<Entry>, version: nat) returns (ok: bool)
    ensures ok <==> Continues(Newer(es, version), version)
  {
    var expected := version + 1;
    for i := 0 to |es|
      invariant Continues(Newer(es[..i], version), version)
      invariant expected == version + 1 + |Newer(es[..i], version)|
    {
      assert es[..i + 1][..i] == es[..i];
      if es[i].version <= version {
        continue;
      }
      if es[i].version != expected {
        var bad := Newer(es[..i + 1], version);
        assert bad[|bad| - 1] == es[i];
        NewerPrefix(es, i + 1, version);
        assert Newer(es, version)[|bad| - 1] == es[i];
        return false;
      }
      expected := expected + 1;
    }
    assert es[..|es|] == es;
    ok := true;
  }

  lemma {:induction false} NewerPrefix(es: seq<Entry>, n: nat, since: nat)
    requires n <= |es|
    ensures Newer(es[..n], since) <= Newer(es, since)
    decreases |es|
  {
    if n < |es| {
      NewerPrefix(es[..|es| - 1], n, since);
      assert es[..|es| - 1][..n] == es[..n];
    } else {
      assert es[..n] == es;
    }
  }

  // ---------------------------------------------------------------- applying an answer

  /** Everything an entry changes, in memory and on disk, with the history behind it. */
  datatype State = State(
    kv: map<string, string>,
    term: nat,
    version: nat,
    log: seq<Entry>,
    disk: Option<Disk>,
    history: Option<seq<Entry>>)

  ghost function StateOf(sm: StateMachine): State
    reads sm.Repr()
  {
    State(sm.kv, sm.term, sm.version, sm.log.entries, if sm.ds == null then None else Some(sm.ds.disk), sm.history)
  }

  function Logged(disk: Option<Disk>, e: Entry): Option<Disk> {
    if disk.None? then None else Some(Do(disk.value, AppendLine(e)))
  }

  function LoggedAll(disk: Option<Disk>, es: seq<Entry>): Option<Disk> {
    if es == [] then disk else Logged(LoggedAll(disk, es[..|es| - 1]), es[|es| - 1])
  }

  function ApplyOne(s: State, max: nat, e: Entry): State {
    State(Update(s.kv, e), e.term, e.version, LastN(s.log + [e], max), Logged(s.disk, e), Extended(s.history, [e]))
  }

  function ApplyAll(s: State, max: nat, es: seq<Entry>): State {
    if es == [] then s else ApplyOne(ApplyAll(s, max, es[..|es| - 1]), max, es[|es| - 1])
  }

  /**
   Applying entries that continue the state adds up: the data is updated by all
   of them, the version moves by their number, the term is that of the last one,
   the log keeps the newest, the disk has a line for each, and the history is
   longer by exactly these entries.
   */
  lemma {:induction false} ApplyAllAddsUp(s: State, max: nat, es: seq<Entry>)
    requires max > 0 && |s.log| <= max && Continues(es, s.version)
    ensures ApplyAll(s, max, es) ==
            State(UpdateAll(s.kv, es), if es == [] then s.term else es[|es| - 1].term, s.version + |es|,
                  LastN(s.log + es, max), LoggedAll(s.disk, es), Extended(s.history, es))
  {
    if es == [] {
      assert s.log + es == s.log;
      assert s.history.Some? ==> s.history.value + es == s.history.value;
    } else {
      var init, last := es[..|es| - 1], es[|es| - 1];
      ApplyAllAddsUp(s, max, init);
      assert es == init + [last];
      LastNAppend(s.log + init, last, max);
      assert s.log + es == s.log + init + [last];
      assert s.history.Some? ==> s.history.value + es == s.history.value + init + [last];
    }
  }

  lemma {:induction false} LastNAppend<T>(s: seq<T>, x: T, n: nat)
    requires n > 0
    ensures LastN(LastN(s, n) + [x], n) == LastN(s + [x], n)
  {
  }

  /**
   The second half of a recovery, under the follower's lock. A gap changes
   nothing. Otherwise the entries past the follower's version are applied in
   order, and none of them can fail the version check; an entry that fails
   another check stops the recovery after the ones before it. A snapshot
   replaces everything, on disk too; `h` is the history behind it.
   */
  method ApplyResponse(sm: StateMachine, r: Response, ghost h: Option<seq<Entry>>) returns (result: Result)
    requires sm.Valid()
    requires r.FullState? && h.Some? ==> Follows(h.value, r.snapshot.kv, r.snapshot.version, [])
    modifies sm.Repr()
    ensures sm.Valid()
    ensures result.FromSnapshot? <==> r.FullState?
    ensures r.FullState? ==>
              && StateOf(sm) == State(r.snapshot.kv, r.snapshot.term, r.snapshot.version, [], StateOf(sm).disk, h)
              && (sm.ds != null ==>
                    sm.ds.disk == DoAll(old(sm.ds.disk), SnapshotEffects(old(sm.ds.disk), sm.ds.retention, r.snapshot)))
    ensures result.Gap? <==> r.Entries? && !Continues(Newer(r.entries, old(sm.version)), old(sm.version))
    ensures result.Gap? ==> StateOf(sm) == old(StateOf(sm))
    ensures result.Incremental? || result.ApplyFailed? ==>
              var news := Newer(r.entries, old(sm.version));
              && (result.Incremental? <==> Acceptable(old(sm.term), news))
              && AppliedUpTo(old(StateOf(sm)), sm.log.maxSize, news, result, StateOf(sm))
  {
    match r {
      case FullState(s) =>
        sm.ApplySnapshot(s, true, h);
        return FromSnapshot;
      case Entries(es) =>
        var ok := CheckContinues(es, sm.version);
        if !ok {
          return Gap;
        }
        result := ApplyEntries(sm, es);
    }
  }

  /**
   All of `news` was applied; or all before the first entry that the state
   machine refuses, which may leave a line on disk but nothing else.
   */
  ghost predicate AppliedUpTo(s: State, max: nat, news: seq<Entry>, result: Result, s': State) {
    && (result.Incremental? ==> s' == ApplyAll(s, max, news))
    && (result.ApplyFailed? ==>
          exists done: nat {:trigger news[..done]} ::
            && done < |news|
            && Refused(ApplyAll(s, max, news[..done]), news[done], result.outcome, s'))
  }

  ghost predicate Refused(s: State, e: Entry, outcome: Outcome, s': State) {
    && outcome == OutcomeOf(s.term, s.version, e) && (outcome.StaleTerm? || outcome.UnknownOp?)
    && s' == if outcome.UnknownOp? then s.(disk := Logged(s.disk, e)) else s
  }

  /** The term that entry `i` of `es` meets. */
  function TermBefore(term: nat, es: seq<Entry>, i: nat): nat
    requires i <= |es|
  {
    if i == 0 then term else es[i - 1].term
  }

  /** No term falls and every operation is known. */
  ghost predicate Acceptable(term: nat, es: seq<Entry>) {
    forall i :: 0 <= i < |es| ==> es[i].term >= TermBefore(term, es, i) && !es[i].op.Other?
  }

  lemma {:induction false} AcceptableStep(term: nat, es: seq<Entry>, n: nat)
    requires n < |es| && Acceptable(term, es[..n])
    ensures Acceptable(term, es[..n + 1]) <==> es[n].term >= TermBefore(term, es, n) && !es[n].op.Other?
    ensures Acceptable(term, es) ==> Acceptable(term, es[..n + 1])
  {
    assert forall i :: 0 <= i < n ==> es[..n + 1][i] == es[..n][i];
    assert es[..n + 1][n] == es[n];
  }

  /** One entry, as a step from state to state. */
  method ApplyNext(sm: StateMachine, e: Entry) returns (outcome: Outcome)
    requires sm.Valid() && e.version == sm.version + 1
    modifies sm.Repr()
    ensures sm.Valid()
    ensures outcome.Done? ==>
              && StateOf(sm) == ApplyOne(old(StateOf(sm)), sm.log.maxSize, e)
              && e.term >= old(sm.term) && !e.op.Other?
    ensures !outcome.Done? ==> Refused(old(StateOf(sm)), e, outcome, StateOf(sm))
  {
    outcome := sm.Apply(e, true);
  }

  method ApplyEntries(sm: StateMachine, es: seq<Entry>) returns (result: Result)
    requires sm.Valid() && Continues(Newer(es, sm.version), sm.version)
    modifies sm.Repr()
    ensures sm.Valid()
    ensures result.Incremental? || result.ApplyFailed?
    ensures result.Incremental? <==> Acceptable(old(sm.term), Newer(es, old(sm.version)))
    ensures AppliedUpTo(old(StateOf(sm)), sm.log.maxSize, Newer(es, old(sm.version)), result, StateOf(sm))
  {
    ghost var start, max, all, done := StateOf(sm), sm.log.maxSize, Newer(es, sm.version), 0;
    for i := 0 to |es|
      invariant sm.Valid()
      invariant done <= |all| && Newer(es[..i], start.version) == all[..done]
      invariant AppliedSoFar(start, max, all, done, StateOf(sm))
    {
      NewerStep(es, i, start.version, done);
      if es[i].version <= sm.version {
        continue;
      }
      ghost var before := StateOf(sm);
      var outcome := ApplyNext(sm, es[i]);
      if !outcome.Done? {
        RefusedAt(start, max, all, done, before, outcome, StateOf(sm));
        return ApplyFailed(outcome);
      }
      AppliedStep(start, max, all, done, before);
      done := done + 1;
    }
    assert es[..|es|] == es && all[..|all|] == all;
    result := Incremental;
  }

  /** The loop over `es` meets the newer entries one by one, in their order. */
  lemma {:induction false} NewerStep(es: seq<Entry>, i: nat, since: nat, done: nat)
    requires i < |es| && done <= |Newer(es, since)|
    requires Newer(es[..i], since) == Newer(es, since)[..done] && Continues(Newer(es, since), since)
    ensures es[i].version <= since + done ==> Newer(es[..i + 1], since) == Newer(es, since)[..done]
    ensures es[i].version > since + done ==>
              && done < |Newer(es, since)| && Newer(es, since)[done] == es[i]
              && Newer(es[..i + 1], since) == Newer(es, since)[..done + 1]
              && es[i].version == since + done + 1
  {
    var all := Newer(es, since);
    assert es[..i + 1][..i] == es[..i];
    NewerPrefix(es, i + 1, since);
    if es[i].version > since {
      assert Newer(es[..i + 1], since) == all[..done] + [es[i]];
      assert all[done] == es[i];
    }
  }

  /** The first `done` of `all` have been applied, and none of them was refused. */
  ghost predicate AppliedSoFar(start: State, max: nat, all: seq<Entry>, done: nat, s: State)
    requires done <= |all|
  {
    && s == ApplyAll(start, max, all[..done]) && s.version == start.version + done
    && s.term == TermBefore(start.term, all, done) && Acceptable(start.term, all[..done])
  }

  lemma {:induction false} AppliedStep(start: State, max: nat, all: seq<Entry>, done: nat, s: State)
    requires done < |all| && AppliedSoFar(start, max, all, done, s)
    requires all[done].version == s.version + 1 && all[done].term >= s.term && !all[done].op.Other?
    ensures AppliedSoFar(start, max, all, done + 1, ApplyOne(s, max, all[done]))
  {
    ApplyAllStep(start, max, all, done);
    AcceptableStep(start.term, all, done);
  }

  lemma {:induction false} RefusedAt(
    start: State, max: nat, all: seq<Entry>, done: nat, s: State, outcome: Outcome, s': State)
    requires done < |all| && AppliedSoFar(start, max, all, done, s) && Refused(s, all[done], outcome, s')
    ensures AppliedUpTo(start, max, all, ApplyFailed(outcome), s')
    ensures !Acceptable(start.term, all)
  {
    AcceptableStep(start.term, all, done);
    assert Refused(ApplyAll(start, max, all[..done]), all[done], outcome, s');
  }

  lemma {:induction false} ApplyAllStep(s: State, max: nat, es: seq<Entry>, n: nat)
    requires n < |es|
    ensures ApplyAll(s, max, es[..n + 1]) == ApplyOne(ApplyAll(s, max, es[..n]), max, es[n])
  {
    assert es[..n + 1][..n] == es[..n];
  }

  // ---------------------------------------------------------------- against the history

  lemma {:induction false} UpdateAllLast(kv: map<string, string>, es: seq<Entry>, n: nat)
    requires n < |es|
    ensures UpdateAll(kv, es[..n + 1]) == Update(UpdateAll(kv, es[..n]), es[n])
  {
    assert es[..n + 1][..n] == es[..n];
  }

  lemma {:induction false} ReplayLast(h: seq<Entry>, n: nat)
    requires n < |h|
    ensures Replay(h[..n + 1]) == Update(Replay(h[..n]), h[n])
  {
    assert h[..n + 1][..n] == h[..n];
  }

  lemma {:induction false} UpdateAllReplays(h: seq<Entry>, lo: nat, hi: nat)
    requires lo <= hi <= |h|
    ensures UpdateAll(Replay(h[..lo]), h[lo..hi]) == Replay(h[..hi])
    decreases hi
  {
    var es := h[lo..];
    assert h[lo..hi] == es[..hi - lo];
    if lo == hi {
      assert h[lo..hi] == [];
    } else {
      UpdateAllReplays(h, lo, hi - 1);
      assert h[lo..hi - 1] == es[..hi - 1 - lo];
      UpdateAllLast(Replay(h[..lo]), es, hi - 1 - lo);
      ReplayLast(h, hi - 1);
    }
  }

  /** The entries of a stretch of history that a follower at `version` still lacks. */
  lemma {:induction false} NewerOfHistory(h: seq<Entry>, since: nat, to: nat, version: nat)
    requires History(h) && since <= version && since <= to <= |h|
    ensures Newer(h[since..to], version) == if version <= to then h[version..to] else []
  {
    var es := h[since..to];
    if version <= to {
      assert EndsAt(es, to);
      NewerIsSuffix(es, to, version);
      assert es[|es| - (to - version)..] == h[version..to];
    } else {
      NothingNewer(es, version);
    }
  }

  /** Whatever the leader answers is its own history. */
  lemma {:induction false} RespondIsHistory(h: seq<Entry>, leader: Snapshot, log: seq<Entry>, since: nat)
    requires History(h) && WindowOf(log, h, leader.version)
    ensures var r := Respond(leader, log, since);
            && (r.FullState? ==> r.snapshot == leader)
            && (r.Entries? ==> since <= leader.version && r.entries == h[since..leader.version])
  {
    if since < leader.version {
      if log != [] && !Evicted(log, since) {
        NewerIsHistory(log, h, leader.version, since);
      }
    } else if since == leader.version {
      assert h[since..leader.version] == [];
    }
  }

  /**
   Recovery against the history `h`. The leader answered at `leader.version` a
   follower that asked from `since`; by the time the answer is applied the
   follower is at `version` on the same history. Entries then pass the gap check
   and extend the follower's part of the history to the later of the two
   versions. A follower that was ahead when it asked gets a snapshot.
   */
  lemma {:induction false} RecoveryFollowsHistory(
    h: seq<Entry>, leader: Snapshot, log: seq<Entry>, since: nat, version: nat)
    requires History(h) && WindowOf(log, h, leader.version)
    requires since > leader.version || since <= version <= |h|
    ensures var r := Respond(leader, log, since);
            && (since > leader.version ==> r.FullState?)
            && (r.FullState? ==> r.snapshot == leader)
            && (r.Entries? ==> Extends(h, Newer(r.entries, version), version, leader.version))
  {
    RespondIsHistory(h, leader, log, since);
    var r := Respond(leader, log, since);
    if r.Entries? {
      EntriesExtend(h, r.entries, since, leader.version, version);
    }
  }

  /** The entries `news` take `version` of the history to the later of `version` and `to`. */
  ghost predicate Extends(h: seq<Entry>, news: seq<Entry>, version: nat, to: nat)
    requires version <= |h| && to <= |h|
  {
    Continues(news, version) && h[..version] + news == h[..Later(version, to)]
  }

  lemma {:induction false} EntriesExtend(h: seq<Entry>, es: seq<Entry>, since: nat, to: nat, version: nat)
    requires History(h) && since <= to <= |h| && since <= version <= |h| && es == h[since..to]
    ensures Extends(h, Newer(es, version), version, to)
  {
    NewerOfHistory(h, since, to, version);
  }

  function Later(a: nat, b: nat): nat {
    if a <= b then b else a
  }

  /**
   For a follower that is not ahead, both branches end in the same place: the
   leader's version and the leader's data.
   */
  lemma {:induction false} BranchesAgree(
    h: seq<Entry>, leader: Snapshot, log: seq<Entry>, since: nat, version: nat, kv: map<string, string>)
    requires History(h) && WindowOf(log, h, leader.version) && leader.kv == Replay(h[..leader.version])
    requires since <= version <= leader.version && kv == Replay(h[..version])
    ensures var r := Respond(leader, log, since);
            && (r.FullState? ==> r.snapshot == leader)
            && (r.Entries? ==> CatchesUp(Newer(r.entries, version), version, kv, leader))
  {
    RespondIsHistory(h, leader, log, since);
    var r := Respond(leader, log, since);
    if r.Entries? {
      EntriesCatchUp(h, r.entries, since, version, kv, leader);
    }
  }

  ghost predicate CatchesUp(news: seq<Entry>, version: nat, kv: map<string, string>, leader: Snapshot) {
    version + |news| == leader.version && UpdateAll(kv, news) == leader.kv
  }

  lemma {:induction false} EntriesCatchUp(
    h: seq<Entry>, es: seq<Entry>, since: nat, version: nat, kv: map<string, string>, leader: Snapshot)
    requires History(h) && since <= version <= leader.version <= |h| && es == h[since..leader.version]
    requires kv == Replay(h[..version]) && leader.kv == Replay(h[..leader.version])
    ensures CatchesUp(Newer(es, version), version, kv, leader)
  {
    NewerOfHistory(h, since, leader.version, version);
    UpdateAllReplays(h, version, leader.version);
  }

  // ---------------------------------------------------------------- a whole recovery

  /** A replica somewhere on the history `h`. */
  ghost predicate OnHistory(sm: StateMachine, h: seq<Entry>)
    reads sm
  {
    sm.version <= |h| && sm.history == Some(h[..sm.version])
  }

  /** What being on a history means for the data and the log of a valid replica. */
  lemma {:induction false} OnHistoryMeans(sm: StateMachine, h: seq<Entry>)
    requires sm.Valid() && OnHistory(sm, h)
    ensures sm.kv == Replay(h[..sm.version]) && WindowOf(sm.log.entries, h, sm.version)
  {
    assert h[..sm.version][..sm.version] == h[..sm.version];
  }

  /**
   The leader's answer and its application. If both replicas are on the history
   `h`, the follower at or past the version it asked from, or if the follower
   had asked from ahead of the leader, then there is no gap, and afterwards the
   follower is on that history, whatever the result: its data is the replay of
   the history up to its version and its log a window of it. A recovery without
   error ends at the leader's version, unless the follower was past it already
   and was sent entries. The only error left is an entry of a falling term.
   */
  method DoIncrementalRecovery(leader: StateMachine, sm: StateMachine, since: nat, ghost h: seq<Entry>)
    returns (result: Result)
    requires leader.Valid() && sm.Valid() && leader.Repr() !! sm.Repr()
    modifies sm.Repr()
    ensures sm.Valid() && leader.Valid()
    ensures result.FromSnapshot? <==> !InReach(leader.version, |leader.log.entries|, since)
    ensures !result.FromSnapshot? ==> sm.version >= old(sm.version)
    ensures Meets(leader, old(sm.version), old(sm.history), since, h) ==>
              Ended(leader, sm, h, result, old(sm.term), old(sm.version))
  {
    var r := Recover(leader, since);
    ghost var before, met := StateOf(sm), Meets(leader, sm.version, sm.history, since, h);
    if met {
      OnHistoryMeans(leader, h);
      var snap := Snapshot(leader.term, leader.version, leader.kv);
      RecoveryFollowsHistory(h, snap, leader.log.entries, since, sm.version);
    }
    result := ApplyResponse(sm, r, leader.history);
    if result.Incremental? || result.ApplyFailed? {
      AppliedIsLater(before, sm.log.maxSize, Newer(r.entries, before.version), result, StateOf(sm));
    }
    if met {
      if r.Entries? {
        var news := Newer(r.entries, before.version);
        EntriesEndOnHistory(h, before, sm.log.maxSize, news, leader.version, result, StateOf(sm));
      }
      OnHistoryMeans(sm, h);
    }
  }

  lemma {:induction false} AppliedIsLater(s: State, max: nat, news: seq<Entry>, result: Result, s': State)
    requires Continues(news, s.version) && (result.Incremental? || result.ApplyFailed?)
    requires AppliedUpTo(s, max, news, result, s')
    ensures s'.version >= s.version
  {
    if result.Incremental? {
      ApplyAllFields(s, max, news);
    } else {
      var done: nat :| done < |news| && Refused(ApplyAll(s, max, news[..done]), news[done], result.outcome, s');
      ApplyAllFields(s, max, news[..done]);
    }
  }

  lemma {:induction false} EntriesEndOnHistory(
    h: seq<Entry>, s: State, max: nat, news: seq<Entry>, to: nat, result: Result, s': State)
    requires History(h) && to <= |h|
    requires s.version <= |h| && s.history == Some(h[..s.version]) && Extends(h, news, s.version, to)
    requires (result.Incremental? || result.ApplyFailed?) && AppliedUpTo(s, max, news, result, s')
    ensures s'.version <= |h| && s'.history == Some(h[..s'.version])
    ensures EndsRight(result, s.term, s.version, to, h, s'.version)
  {
    if result.Incremental? {
      AllOnHistory(h, s, max, news, to);
    } else {
      var done: nat :| done < |news| && Refused(ApplyAll(s, max, news[..done]), news[done], result.outcome, s');
      SomeOnHistory(h, s, max, news, to, done, result.outcome, s');
    }
  }

  lemma {:induction false} AllOnHistory(h: seq<Entry>, s: State, max: nat, news: seq<Entry>, to: nat)
    requires to <= |h| && s.version <= |h| && Extends(h, news, s.version, to)
    requires s.history == Some(h[..s.version])
    ensures var a := ApplyAll(s, max, news);
            a.version <= |h| && a.history == Some(h[..a.version]) && a.version == Later(s.version, to)
  {
    PrefixOnHistory(h, s, max, news, to, |news|);
    assert news[..|news|] == news;
  }

  lemma {:induction false} SomeOnHistory(
    h: seq<Entry>, s: State, max: nat, news: seq<Entry>, to: nat, done: nat, outcome: Outcome, s': State)
    requires History(h) && to <= |h| && s.version <= |h| && Extends(h, news, s.version, to)
    requires s.history == Some(h[..s.version])
    requires done < |news| && Refused(ApplyAll(s, max, news[..done]), news[done], outcome, s')
    ensures s'.version <= |h| && s'.history == Some(h[..s'.version])
    ensures EndsRight(ApplyFailed(outcome), s.term, s.version, to, h, s'.version)
  {
    PrefixOnHistory(h, s, max, news, to, done);
    RefusedOnHistory(h, s, news, to, done, ApplyAll(s, max, news[..done]), outcome, s');
  }

  lemma {:induction false} RefusedOnHistory(
    h: seq<Entry>, s: State, news: seq<Entry>, to: nat, n: nat, a: State, outcome: Outcome, s': State)
    requires History(h) && to <= |h|
    requires s.version <= |h| && Extends(h, news, s.version, to) && n < |news|
    requires a.version == s.version + n && a.term == TermBefore(s.term, news, n)
    requires Refused(a, news[n], outcome, s')
    ensures s'.version == a.version && s'.history == a.history
    ensures EndsRight(ApplyFailed(outcome), s.term, s.version, to, h, s'.version)
  {
    ExtendsAt(h, news, s.version, to, n);
    if n > 0 {
      ExtendsAt(h, news, s.version, to, n - 1);
    }
  }

  lemma {:induction false} ExtendsAt(h: seq<Entry>, news: seq<Entry>, version: nat, to: nat, i: nat)
    requires version <= |h| && to <= |h| && Extends(h, news, version, to) && i < |news|
    ensures version + |news| == Later(version, to) && news[i] == h[version + i]
  {
    assert (h[..version] + news)[version + i] == news[i];
  }

  lemma {:induction false} PrefixOnHistory(h: seq<Entry>, s: State, max: nat, news: seq<Entry>, to: nat, n: nat)
    requires to <= |h| && s.version <= |h| && Extends(h, news, s.version, to) && n <= |news|
    requires s.history == Some(h[..s.version])
    ensures s.version + n <= s.version + |news| == Later(s.version, to)
    ensures var a := ApplyAll(s, max, news[..n]);
            && a.version == s.version + n && a.history == Some(h[..s.version + n])
            && a.term == TermBefore(s.term, news, n)
  {
    ApplyAllFields(s, max, news[..n]);
    assert h[..s.version] + news[..n] == (h[..s.version] + news)[..s.version + n] == h[..s.version + n];
  }

  lemma {:induction false} ApplyAllFields(s: State, max: nat, es: seq<Entry>)
    requires Continues(es, s.version)
    ensures var a := ApplyAll(s, max, es);
            && a.version == s.version + |es| && a.term == TermBefore(s.term, es, |es|)
            && a.history == Extended(s.history, es)
  {
    if es == [] {
      assert s.history.Some? ==> s.history.value + es == s.history.value;
    } else {
      var init, last := es[..|es| - 1], es[|es| - 1];
      ApplyAllFields(s, max, init);
      assert s.history.Some? ==> s.history.value + es == s.history.value + init + [last];
    }
  }

  /** The premise of a recovery on the history `h`. */
  ghost predicate Meets(leader: StateMachine, version: nat, history: Option<seq<Entry>>, since: nat, h: seq<Entry>)
    reads leader
  {
    && History(h)
    && OnHistory(leader, h)
    && (since > leader.version || (since <= version <= |h| && history == Some(h[..version])))
  }

  ghost predicate Ended(
    leader: StateMachine, sm: StateMachine, h: seq<Entry>, result: Result, term: nat, version: nat)
    reads leader, sm, sm.log
  {
    && OnHistory(sm, h) && sm.kv == Replay(h[..sm.version]) && WindowOf(sm.log.entries, h, sm.version)
    && (sm.version == leader.version ==> sm.kv == leader.kv)
    && EndsRight(result, term, version, leader.version, h, sm.version)
  }

  predicate Succeeded(result: Option<Result>) {
    result.Some? && (result.value.Incremental? || result.value.FromSnapshot?)
  }

  /** How a recovery from `version` towards `to` on the history `h` may end, and at which version. */
  ghost predicate EndsRight(result: Result, term: nat, version: nat, to: nat, h: seq<Entry>, version': nat) {
    && !result.Gap?
    && (result.FromSnapshot? ==> version' == to)
    && (result.Incremental? ==> version' == Later(version, to))
    && (result.ApplyFailed? ==>
          && result.outcome.StaleTerm?
          && version <= version' < to <= |h|
          && h[version'].term < if version' == version then term else h[version' - 1].term)
  }
}
