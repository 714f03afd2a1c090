/**
 One shard of a node as it lives: the state machine over its disk, performing the
 events of a run. A crash leaves a prefix of the file effects that the operation
 performs, and start-up builds new objects from that disk alone.
 */
module ShardHost {
  import opened Common
  import opened ReplicationLog
  import opened DiskModel
  import opened DiskEvents
  import opened DiskDurability
  import Machine = StateMachine
  import DiskState

  /** The objects are in working order and keep this many snapshots. */
  ghost predicate Up(sm: Machine.StateMachine, retention: nat)
    reads sm.Repr()
  {
    sm.Valid() && sm.ds != null && sm.ds.retention == retention
  }

  /** The objects hold the shard. */
  ghost predicate Holding(sm: Machine.StateMachine, s: Shard)
    reads sm.Repr()
  {
    && sm.ds != null && sm.ds.disk == s.disk
    && Snapshot(sm.term, sm.version, sm.kv) == s.memory
  }

  /** Start-up puts what it reads into memory; without a disk layer, or with nothing readable, memory stays empty. */
  method Start(disk: Disk, interval: int, retention: int, logSize: int) returns (sm: Machine.StateMachine)
    ensures sm.Valid() && fresh(sm.Repr())
    ensures sm.ds == null <==> interval <= 0 || retention <= 0
    ensures sm.ds == null ==> Snapshot(sm.term, sm.version, sm.kv) == EMPTY
    ensures sm.ds != null ==>
              && sm.ds.disk == disk && sm.ds.interval == interval && sm.ds.retention == retention
              && Snapshot(sm.term, sm.version, sm.kv) == Restart(disk, retention)
  {
    var ds := DiskState.DiskState.Open(disk, interval, retention);
    sm := new Machine.StateMachine(logSize, ds);
    if ds != null {
      var loaded := ds.Load();
      if loaded.Loaded? {
        sm.ApplySnapshot(loaded.state, false, None);
      }
    }
  }

  /** A write of the leader: the entry, and a snapshot with the entry's own term once enough writes have gathered. */
  method Write(sm: Machine.StateMachine, ghost s: Shard, e: Entry) returns (r: Machine.Outcome)
    requires sm.ds != null && Up(sm, sm.ds.retention) && Holding(sm, s)
    modifies sm.Repr()
    ensures Up(sm, sm.ds.retention)
    ensures r.Done? || r.UnknownOp? <==> Enabled(s, sm.ds.retention, Apply(e))
    ensures !r.Done? && !r.UnknownOp? ==> Holding(sm, s)
    ensures r.Done? || r.UnknownOp? ==>
              var after := Next(s, sm.ds.retention, Apply(e));
              if r.Done? && old(sm.ds.writesSinceSnapshot) + 1 >= sm.ds.interval
              then Enabled(after, sm.ds.retention, Take(e.term))
                   && Holding(sm, Next(after, sm.ds.retention, Take(e.term)))
              else Holding(sm, after)
  {
    r := sm.Apply(e, true);
    if !r.Done? {
      return;
    }
    ghost var after := Next(s, sm.ds.retention, Apply(e));
    WholeSnapshot(after.disk, sm.ds.retention, Pictured(after.memory, e.term));
    sm.ds.MaybeSnapshot(e.term, e.version, sm.kv);
  }

  /** A cut behind the last file effect is none. */
  lemma {:induction false} WholeSnapshot(d: Disk, retention: nat, snap: Snapshot)
    requires retention > 0
    ensures CutDisk(d, retention, snap, AfterTruncate) == DoAll(d, SnapshotEffects(d, retention, snap))
  {
    var es := SnapshotEffects(d, retention, snap);
    assert es[..CutIndex(d, retention, AfterTruncate)] == es;
  }

  /** One event on the objects; after a crash they are new ones. */
  method Perform(sm: Machine.StateMachine, ghost s: Shard, ev: Event, logSize: int)
    returns (after: Machine.StateMachine)
    requires sm.ds != null && Up(sm, sm.ds.retention) && Holding(sm, s) && Enabled(s, sm.ds.retention, ev)
    modifies sm.Repr()
    ensures Up(after, sm.ds.retention) && Holding(after, Next(s, sm.ds.retention, ev))
    ensures after == sm || fresh(after.Repr())
  {
    after := sm;
    match ev
    case Apply(e) =>
      var _ := sm.Apply(e, true);
    case AdoptTerm(t) =>
      sm.term := t;
    case Take(t) =>
      WholeSnapshot(s.disk, sm.ds.retention, Pictured(s.memory, t));
      sm.ds.TakeSnapshot(t, sm.version, sm.kv);
    case Install(snap) =>
      WholeSnapshot(s.disk, sm.ds.retention, snap);
      sm.ApplySnapshot(snap, true, None);
    case CrashInApply(e, progress) =>
      after := Start(LineWritten(sm.ds.disk, e, progress), sm.ds.interval, sm.ds.retention, logSize);
    case CrashInTake(t, cut) =>
      var left := Crash(sm.ds, Pictured(Snapshot(sm.term, sm.version, sm.kv), t), cut);
      after := Start(left, sm.ds.interval, sm.ds.retention, logSize);
    case CrashInInstall(snap, cut) =>
      var left := Crash(sm.ds, snap, cut);
      after := Start(left, sm.ds.interval, sm.ds.retention, logSize);
  }

  /** What a crash leaves of a snapshot operation: the first of the file effects it performs. */
  method Crash(ds: DiskState.DiskState, snap: Snapshot, cut: Cut) returns (left: Disk)
    requires ds.Valid() && CutPossible(ds.disk, ds.retention, cut)
    modifies ds
    ensures ds.Valid()
    ensures left == CutDisk(old(ds.disk), ds.retention, snap, cut)
    ensures var n := |old(ds.effects)| + CutIndex(old(ds.disk), ds.retention, cut);
            && old(ds.effects) <= ds.effects && n <= |ds.effects|
            && left == DoAll(old(ds.disk), ds.effects[|old(ds.effects)|..n])
  {
    left := CutDisk(ds.disk, ds.retention, snap, cut);
    ghost var es := SnapshotEffects(ds.disk, ds.retention, snap);
    ds.TakeSnapshot(snap.term, snap.version, snap.kv);
    ghost var k := CutIndex(old(ds.disk), ds.retention, cut);
    assert ds.effects[|old(ds.effects)|..|old(ds.effects)| + k] == es[..k];
  }

  /**
   From an empty disk through every event of a run: the objects hold what the run
   comes to; and, if no event of it is harmful, what its events amount to.
   */
  method Live(interval: nat, retention: nat, logSize: int, evs: seq<Event>) returns (sm: Machine.StateMachine)
    requires interval > 0 && retention > 0 && RunOf(retention, evs).Some?
    ensures Up(sm, retention) && Holding(sm, RunOf(retention, evs).value)
    ensures Harmless(evs) ==> Snapshot(sm.term, sm.version, sm.kv) == Outcome(evs).memory
  {
    sm := Start(INITIAL.disk, interval, retention, logSize);
    for i := 0 to |evs|
      invariant fresh(sm.Repr()) && Up(sm, retention)
      invariant RunOf(retention, evs[..i]).Some? && Holding(sm, RunOf(retention, evs[..i]).value)
    {
      RunPrefix(retention, evs, i + 1);
      assert evs[..i + 1][..i] == evs[..i];
      sm := Perform(sm, RunOf(retention, evs[..i]).value, evs[i], logSize);
    }
    assert evs[..|evs|] == evs;
    if Harmless(evs) {
      CrashDurability(retention, evs);
    }
  }
}
