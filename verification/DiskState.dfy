/**
 The disk layer of one shard as an object. Every method performs exactly the
 file effects that the crash model cuts, in that order; `effects` records them.
 */
module DiskState {
  import opened Common
  import opened ReplicationLog
  import opened DiskModel

  class DiskState {
    var disk: Disk
    var writesSinceSnapshot: nat
    const interval: nat
    const retention: nat
    ghost var effects: seq<Effect>

    ghost predicate Valid()
      reads this
    {
      interval > 0 && retention > 0
    }

    constructor (disk: Disk, interval: nat, retention: nat)
      requires interval > 0 && retention > 0
      ensures Valid() && this.disk == disk && this.interval == interval && this.retention == retention
      ensures writesSinceSnapshot == 0 && effects == []
    {
      this.disk := disk;
      this.interval := interval;
      this.retention := retention;
      writesSinceSnapshot := 0;
      effects := [];
    }

    /** Opening fails unless both settings are positive. */
    static method Open(disk: Disk, interval: int, retention: int) returns (ds: DiskState?)
      ensures ds == null <==> interval <= 0 || retention <= 0
      ensures ds != null ==>
                && fresh(ds) && ds.Valid() && ds.disk == disk && ds.interval == interval && ds.retention == retention
                && ds.writesSinceSnapshot == 0 && ds.effects == []
    {
      if interval <= 0 {
        return null;
      }
      if retention <= 0 {
        return null;
      }
      ds := new DiskState(disk, interval, retention);
    }

    method Perform(e: Effect)
      modifies this`disk, this`effects
      ensures disk == Do(old(disk), e)
      ensures effects == old(effects) + [e]
    {
      disk := Do(disk, e);
      effects := effects + [e];
    }

    // ---------------------------------------------------------------- start-up

    method LoadLatestSnapshot() returns (best: Option<nat>)
      requires Valid()
      ensures best == Latest(disk.snaps, retention)
    {
      best := None;
      for i := 0 to retention
        invariant best == Latest(disk.snaps, i)
      {
        if i in disk.snaps {
          if best.None? || disk.snaps[i].version > disk.snaps[best.value].version {
            best := Some(i);
          }
        }
      }
    }

    method ReadWal() returns (entries: seq<Entry>)
      ensures entries == ReadAll(disk.wal)
      ensures |entries| <= |disk.wal| && (|entries| < |disk.wal| ==> disk.wal[|entries|].Torn?)
      ensures forall i :: 0 <= i < |entries| ==> !disk.wal[i].Torn? && entries[i] == disk.wal[i].entry
    {
      ReadAllExactly(disk.wal);
      entries := [];
      var i := 0;
      while i < |disk.wal|
        invariant 0 <= i <= |disk.wal|
        invariant ReadAll(disk.wal) == entries + ReadAll(disk.wal[i..])
      {
        if disk.wal[i].Torn? {
          break;
        }
        assert disk.wal[i..][1..] == disk.wal[i + 1..];
        entries := entries + [disk.wal[i].entry];
        i := i + 1;
      }
    }

    static method EnsureMonotonicWal(entries: seq<Entry>) returns (ok: bool)
      ensures ok <==> NonDecreasing(entries)
    {
      if |entries| == 0 {
        return true;
      }
      var last := entries[0].version;
      for i := 1 to |entries|
        invariant last == entries[i - 1].version
        invariant NonDecreasing(entries[..i])
      {
        if entries[i].version < last {
          assert entries[i - 1].version > entries[i].version;
          return false;
        }
        last := entries[i].version;
      }
      ok := true;
    }

    method Load() returns (result: LoadResult)
      requires Valid()
      ensures result == DiskModel.Load(disk, retention)
      ensures result.Fresh? <==> ReadAll(disk.wal) == [] && forall i: nat :: i < retention ==> i !in disk.snaps
      ensures result.NonMonotonic? <==>
                exists i, j :: 0 <= i < j < |ReadAll(disk.wal)| && Falls(ReadAll(disk.wal), i, j)
    {
      var best := LoadLatestSnapshot();
      var entries := ReadWal();
      if best.None? && |entries| == 0 {
        return Fresh;
      }
      var ok := EnsureMonotonicWal(entries);
      if !ok {
        ghost var i, j :| 0 <= i <= j < |entries| && entries[i].version > entries[j].version;
        assert Falls(entries, i, j);
        return NonMonotonic;
      }
      var base := if best.Some? then disk.snaps[best.value] else EMPTY;
      var state := ReplayEntries(base, entries);
      result := Loaded(state);
    }

    /** The log entries newer than the state, one after the other. */
    method ReplayEntries(base: Snapshot, entries: seq<Entry>) returns (state: Snapshot)
      ensures state == ReplayOver(base, entries)
      ensures forall k :: ReplayTellsOf(base, entries, state.kv, k)
    {
      var kv, term, version := base.kv, base.term, base.version;
      for i := 0 to |entries|
        invariant Snapshot(term, version, kv) == ReplayOver(base, entries[..i])
      {
        assert entries[..i + 1][..i] == entries[..i];
        var e := entries[i];
        if e.version <= version {
          continue;
        }
        match e.op {
          case Put => kv := kv[e.key := e.value];
          case Delete => kv := kv - {e.key};
          case Other(_) =>
        }
        version := e.version;
        if e.term > term {
          term := e.term;
        }
      }
      assert entries[..|entries|] == entries;
      state := Snapshot(term, version, kv);
      forall k ensures ReplayTellsOf(base, entries, state.kv, k) {
        ReplayOverTells(base, entries, k);
      }
    }

    // ---------------------------------------------------------------- writing

    method AppendWal(e: Entry)
      requires Valid()
      modifies this
      ensures Valid()
      ensures disk == Do(old(disk), AppendLine(e)) && effects == old(effects) + [AppendLine(e)]
      ensures writesSinceSnapshot == old(writesSinceSnapshot) + 1
    {
      Perform(AppendLine(e));
      writesSinceSnapshot := writesSinceSnapshot + 1;
    }

    /** Moves slot `i` up by one, discarding what the last slot would overwrite. */
    method RotateSlot(i: nat)
      requires Valid() && i < retention
      modifies this`disk, this`effects
      ensures disk == DoAll(old(disk), Round(old(disk), retention, i))
      ensures effects == old(effects) + Round(old(disk), retention, i)
    {
      ghost var start := disk;
      ghost var clear := if i == retention - 1 then [RemoveSnap(i + 1)] else [];
      if i == retention - 1 {
        Perform(RemoveSnap(i + 1));
        DoOne(start, RemoveSnap(i + 1));
      }
      ghost var mid := disk;
      ghost var move := if i in mid.snaps then [RenameSnap(i, i + 1)] else [];
      if i in disk.snaps {
        Perform(RenameSnap(i, i + 1));
        DoOne(mid, RenameSnap(i, i + 1));
      }
      DoAllConcat(start, clear, move);
    }

    /** Shifts every retained snapshot up one slot, highest first. */
    method RotateSnapshots()
      requires Valid()
      modifies this`disk, this`effects
      ensures disk == DoAll(old(disk), Rotate(old(disk), retention))
      ensures effects == old(effects) + Rotate(old(disk), retention)
    {
      if retention <= 1 {
        return;
      }
      var i := retention - 1;
      while i >= 1
        invariant 0 <= i < retention
        invariant effects + RotateFrom(disk, retention, i) == old(effects) + Rotate(old(disk), retention)
        invariant DoAll(disk, RotateFrom(disk, retention, i)) == DoAll(old(disk), Rotate(old(disk), retention))
      {
        ghost var round := Round(disk, retention, i);
        ghost var rest := RotateFrom(DoAll(disk, round), retention, i - 1);
        DoAllConcat(disk, round, rest);
        assert effects + (round + rest) == effects + round + rest;
        RotateSlot(i);
        i := i - 1;
      }
      RotateSlot(0);
    }

    method SaveSnapshot(s: Snapshot)
      requires Valid()
      modifies this`disk, this`effects
      ensures disk == DoAll(old(disk), Save(s))
      ensures effects == old(effects) + Save(s)
    {
      ghost var d0 := disk;
      Perform(CreateTemp);
      ghost var d1 := disk;
      Perform(FillTemp(s));
      ghost var d2 := disk;
      Perform(CommitTemp);
      ghost var d3 := disk;
      ghost var es := Save(s);
      assert es[1..] == [FillTemp(s), CommitTemp] && es[1..][1..] == [CommitTemp];
      assert [CommitTemp][1..] == [];
      assert DoAll(d2, [CommitTemp]) == DoAll(d3, []);
    }

    method TakeSnapshot(term: nat, version: nat, kv: map<string, string>)
      requires Valid()
      modifies this
      ensures Valid() && writesSinceSnapshot == 0
      ensures disk == DoAll(old(disk), SnapshotEffects(old(disk), retention, Snapshot(term, version, kv)))
      ensures effects == old(effects) + SnapshotEffects(old(disk), retention, Snapshot(term, version, kv))
    {
      ghost var start := disk;
      var s := Snapshot(term, version, kv);
      RotateSnapshots();
      SaveSnapshot(s);
      ghost var saved := disk;
      Perform(TruncateWal);
      DoAllConcat(start, Rotate(start, retention), Save(s));
      DoAllConcat(start, Rotate(start, retention) + Save(s), [TruncateWal]);
      assert DoAll(saved, [TruncateWal]) == DoAll(Do(saved, TruncateWal), [TruncateWal][1..]);
      writesSinceSnapshot := 0;
    }

    /** Takes a snapshot once `interval` writes have accumulated, and does nothing before. */
    method MaybeSnapshot(term: nat, version: nat, kv: map<string, string>)
      requires Valid()
      modifies this
      ensures Valid()
      ensures old(writesSinceSnapshot) < interval ==>
                disk == old(disk) && effects == old(effects) && writesSinceSnapshot == old(writesSinceSnapshot)
      ensures old(writesSinceSnapshot) >= interval ==>
                && writesSinceSnapshot == 0
                && disk == DoAll(old(disk), SnapshotEffects(old(disk), retention, Snapshot(term, version, kv)))
                && effects == old(effects) + SnapshotEffects(old(disk), retention, Snapshot(term, version, kv))
    {
      if writesSinceSnapshot >= interval {
        TakeSnapshot(term, version, kv);
      }
    }
  }
}
