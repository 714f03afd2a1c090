/**
 The state machine of one shard replica: the only place where entries and
 snapshots change the key-value map, the term, the version and the log.
 */
module StateMachine {
  import opened Common
  import opened ReplicationLog
  import DiskModel
  import DiskState

  datatype Outcome = Done | VersionGap | StaleTerm | UnknownOp

  /** What an entry meets: the version check, then the term check, then the operation. */
  function OutcomeOf(term: nat, version: nat, e: Entry): Outcome {
    if e.version != version + 1 then VersionGap
    else if e.term < term then StaleTerm
    else if e.op.Other? then UnknownOp
    else Done
  }

  class StateMachine {
    var kv: map<string, string>
    var term: nat
    var version: nat
    const log: Log
    const ds: DiskState.DiskState?
    /** Everything applied since the beginning, unless a snapshot of unknown origin was installed. */
    ghost var history: Option<seq<Entry>>

    ghost function Repr(): set<object> {
      {this, log} + if ds == null then {} else {ds}
    }

    /**
     The log holds at most `maxSize` entries, consecutive and ending at the
     current version; they are a window of the history and the data is its replay.
     */
    ghost predicate Valid()
      reads Repr()
    {
      && log.Valid()
      && Consistent(history, kv, version, log.entries)
      && (ds != null ==> ds.Valid())
    }

    constructor (logSize: int, ds: DiskState.DiskState?)
      requires ds != null ==> ds.Valid()
      ensures Valid() && fresh(this) && fresh(log) && this.ds == ds
      ensures kv == map[] && term == 0 && version == 0 && log.entries == [] && history == Some([])
    {
      kv, term, version := map[], 0, 0;
      log := new Log(logSize);
      this.ds := ds;
      history := Some([]);
      new;
      StartFollowsNothing();
    }

    /** The next entry reaches the data, the term, the version and the log together. */
    method Commit(e: Entry)
      requires Valid() && e.version == version + 1 && !e.op.Other?
      modifies this, log
      ensures Valid()
      ensures kv == Update(old(kv), e) && term == e.term && version == e.version
      ensures Takes(old(kv), e, kv)
      ensures log.entries == LastN(old(log.entries) + [e], log.maxSize) && history == Extended(old(history), [e])
    {
      UpdateTakes(kv, e);
      ConsistentOneMore(history, kv, version, log.entries, e, log.maxSize);
      history := Extended(history, [e]);
      kv := Update(kv, e);
      version := e.version;
      term := e.term;
      log.Append(e);
    }

    /**
     Applies one entry, or leaves the state as it was. The write-ahead log gets
     its line before the operation is looked at, so even an unknown one.
     */
    method Apply(e: Entry, withWal: bool) returns (r: Outcome)
      requires Valid()
      modifies Repr()
      ensures Valid()
      ensures r == OutcomeOf(old(term), old(version), e)
      ensures r.VersionGap? <==> e.version != old(version) + 1
      ensures r.StaleTerm? <==> e.version == old(version) + 1 && e.term < old(term)
      ensures r.Done? <==> e.version == old(version) + 1 && e.term >= old(term) && !e.op.Other?
      ensures r.Done? ==>
                && Takes(old(kv), e, kv)
                && kv == Update(old(kv), e) && term == e.term && version == e.version
                && log.entries == LastN(old(log.entries) + [e], log.maxSize)
                && history == Extended(old(history), [e])
      ensures !r.Done? ==>
                && kv == old(kv) && term == old(term) && version == old(version) && log.entries == old(log.entries)
                && history == old(history)
      ensures ds != null ==>
                ds.disk == if withWal && (r.Done? || r.UnknownOp?)
                           then DiskModel.Do(old(ds.disk), DiskModel.AppendLine(e)) else old(ds.disk)
      ensures ds != null ==>
                ds.writesSinceSnapshot ==
                old(ds.writesSinceSnapshot) + if withWal && (r.Done? || r.UnknownOp?) then 1 else 0
    {
      if e.version != version + 1 {
        return VersionGap;
      }
      if e.term < term {
        return StaleTerm;
      }
      if withWal && ds != null {
        ds.AppendWal(e);
      }
      if e.op.Other? {
        return UnknownOp;
      }
      Commit(e);
      r := Done;
    }

    /** The snapshot replaces everything; `h` is the history it is the replay of, where there is one. */
    method ApplySnapshot(s: DiskModel.Snapshot, persist: bool, ghost h: Option<seq<Entry>>)
      requires Valid() && (h.Some? ==> Follows(h.value, s.kv, s.version, []))
      modifies Repr()
      ensures Valid() && history == h
      ensures kv == s.kv && term == s.term && version == s.version && log.entries == []
      ensures ds != null ==>
                ds.disk == if persist
                           then DiskModel.DoAll(old(ds.disk), DiskModel.SnapshotEffects(old(ds.disk), ds.retention, s))
                           else old(ds.disk)
    {
      kv := s.kv;
      version := s.version;
      term := s.term;
      log.Reset();
      history := h;
      if persist && ds != null {
        ds.TakeSnapshot(s.term, s.version, s.kv);
      }
    }

    /** Everything after `since`, exactly, unless part of it is no longer in the log. */
    method EntriesSince(since: nat) returns (entries: seq<Entry>, ok: bool)
      requires Valid()
      ensures ok <==> log.entries == [] || version - |log.entries| <= since
      ensures ok && since <= version && log.entries != [] ==>
                && |entries| == version - since
                && forall i :: 0 <= i < |entries| ==> entries[i].version == since + 1 + i && entries[i] in log.entries
      ensures ok ==> entries == Newer(log.entries, since)
      ensures !ok ==> entries == []
    {
      entries, ok := log.Since(since);
      if log.entries != [] {
        EvictedExactly(log.entries, version, since);
        if ok && since <= version {
          NewerIsSuffix(log.entries, version, since);
        }
      }
    }

    method ResetLog()
      requires Valid()
      modifies log
      ensures Valid() && log.entries == []
    {
      log.Reset();
    }
  }

  /** In every valid state the data says of each key what the last entry about it says. */
  lemma {:induction false} DataTells(sm: StateMachine, k: string)
    requires sm.Valid() && sm.history.Some?
    ensures Tells(sm.history.value, sm.kv, k)
  {
    ReplayTells(sm.history.value, k);
  }
}
