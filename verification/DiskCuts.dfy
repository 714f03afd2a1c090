/**
 What a crash inside a snapshot operation leaves on disk, and which snapshot
 start-up picks there.
 */
module DiskCuts {
  import opened Common
  import opened DiskModel
  import opened DiskRotation
  import opened DiskEvents

  predicate SnapOnly(es: seq<Effect>) {
    forall i :: 0 <= i < |es| ==> es[i].RemoveSnap? || es[i].RenameSnap?
  }

  lemma {:induction false} SnapOnlyKeeps(d: Disk, es: seq<Effect>)
    requires SnapOnly(es)
    ensures DoAll(d, es).wal == d.wal && DoAll(d, es).temp == d.temp
    decreases |es|
  {
    if es != [] {
      SnapOnlyKeeps(Do(d, es[0]), es[1..]);
    }
  }

  lemma {:induction false} RotateIsSnapOnly(d: Disk, retention: nat, i: nat)
    ensures SnapOnly(RotateFrom(d, retention, i))
    decreases i
  {
    DoOne(d, RemoveSnap(i + 1));
    if i > 0 {
      RotateIsSnapOnly(DoAll(d, Round(d, retention, i)), retention, i - 1);
    }
  }

  /** What the disk looks like after a cut. */
  lemma {:induction false} CutState(d: Disk, retention: nat, snap: Snapshot, cut: Cut)
    requires retention > 0 && CutPossible(d, retention, cut)
    ensures var rot, after := Rotate(d, retention), CutDisk(d, retention, snap, cut);
            && after.wal == (if cut.AfterTruncate? then [] else d.wal)
            && after.snaps == if cut.BeforeSave? then DoAll(d, rot[..Least(cut.effects, |rot|)]).snaps
                              else DoAll(d, rot).snaps[0 := snap]
  {
    var rot, k := Rotate(d, retention), CutIndex(d, retention, cut);
    if retention > 1 {
      RotateIsSnapOnly(d, retention, retention - 1);
    }
    EffectsPrefix(rot, snap, k);
    if k <= |rot| {
      SnapOnlyKeeps(d, rot[..k]);
    } else {
      SnapOnlyKeeps(d, rot);
      assert rot[..|rot|] == rot;
      DoAllConcat(d, rot, SaveTail(snap)[..k - |rot|]);
      TailState(DoAll(d, rot), snap, k - |rot|);
    }
  }

  function Least(a: nat, b: nat): nat {
    if a <= b then a else b
  }

  function SaveTail(snap: Snapshot): seq<Effect> {
    [CreateTemp, FillTemp(snap), CommitTemp, TruncateWal]
  }

  lemma {:induction false} EffectsPrefix(rot: seq<Effect>, snap: Snapshot, k: nat)
    requires k <= |rot| + 4
    ensures (rot + Save(snap) + [TruncateWal])[..k] ==
            if k <= |rot| then rot[..k] else rot + SaveTail(snap)[..k - |rot|]
  {
    assert rot + Save(snap) + [TruncateWal] == rot + SaveTail(snap);
  }

  lemma {:induction false} TailState(d: Disk, snap: Snapshot, n: nat)
    requires 1 <= n <= 4
    ensures var after := DoAll(d, SaveTail(snap)[..n]);
            && after.snaps == (if n >= 3 then d.snaps[0 := snap] else d.snaps)
            && after.wal == if n == 4 then [] else d.wal
  {
    var d1 := Do(d, CreateTemp);
    var d2 := Do(d1, FillTemp(snap));
    var d3 := Do(d2, CommitTemp);
    var all := SaveTail(snap);
    DoOne(d, CreateTemp);
    DoOne(d1, FillTemp(snap));
    DoOne(d2, CommitTemp);
    DoOne(d3, TruncateWal);
    if n == 1 {
      assert all[..1] == [CreateTemp];
    } else if n == 2 {
      assert all[..2] == [CreateTemp] + [FillTemp(snap)];
      DoAllConcat(d, [CreateTemp], [FillTemp(snap)]);
    } else {
      DoAllConcat(d, [CreateTemp], [FillTemp(snap)]);
      DoAllConcat(d, [CreateTemp] + [FillTemp(snap)], [CommitTemp]);
      if n == 3 {
        assert all[..3] == [CreateTemp] + [FillTemp(snap)] + [CommitTemp];
      } else {
        assert all[..4] == [CreateTemp] + [FillTemp(snap)] + [CommitTemp] + [TruncateWal];
        DoAllConcat(d, [CreateTemp] + [FillTemp(snap)] + [CommitTemp], [TruncateWal]);
      }
    }
  }

  /** A rotation that runs to its end loses the newest snapshot at worst, never mixes up the order. */
  lemma {:induction false} RotateDone(d: Disk, retention: nat, best: Option<Snapshot>, p: nat)
    returns (best': Option<Snapshot>, q: nat)
    requires retention > 0 && Holds(d.snaps, retention, best, p)
    ensures Holds(DoAll(d, Rotate(d, retention)).snaps, retention, best', q)
    ensures best'.Some? ==> best' == best
  {
    var rot := Rotate(d, retention);
    assert rot[..|rot|] == rot;
    if retention == 1 {
      return best, p;
    }
    if best.Some? && p == retention - 1 {
      LastSlotRotation(d, retention, best.value);
      return None, 0;
    }
    RotateKeeps(d, retention, retention - 1, best, p, |rot|);
    q :| p <= q <= p + 1 && Holds(DoAll(d, rot[..|rot|]).snaps, retention, best, q);
    best' := best;
  }

  /** An allowed cut before the save leaves the newest snapshot in a scanned slot. */
  lemma {:induction false} CutKeeps(
    d: Disk, retention: nat, best: Option<Snapshot>, p: nat, snap: Snapshot, cut: Cut) returns (q: nat)
    requires retention > 0 && CutPossible(d, retention, cut) && cut.BeforeSave?
    requires Holds(d.snaps, retention, best, p) && CutAllowed(d, retention, cut)
    ensures Holds(CutDisk(d, retention, snap, cut).snaps, retention, best, q) && p <= q <= p + 1
  {
    CutState(d, retention, snap, cut);
    HoldsIsPicked(d.snaps, retention, best, p);
    q := PrefixKeeps(d, retention, best, p, Least(cut.effects, |Rotate(d, retention)|));
  }

  lemma {:induction false} PrefixKeeps(d: Disk, retention: nat, best: Option<Snapshot>, p: nat, k: nat) returns (q: nat)
    requires retention > 0 && k <= |Rotate(d, retention)| && Holds(d.snaps, retention, best, p)
    requires retention == 1 || k < 2 || best.None? || p + 1 < retention
    ensures Holds(DoAll(d, Rotate(d, retention)[..k]).snaps, retention, best, q) && p <= q <= p + 1
  {
    if retention == 1 {
      assert Rotate(d, retention)[..k] == [];
      q := p;
    } else if best.Some? && p + 1 == retention {
      q := p;
      LastSlotCut(d, retention, best.value, k);
    } else {
      RotateKeeps(d, retention, retention - 1, best, p, k);
      q :| p <= q <= p + 1 && Holds(DoAll(d, Rotate(d, retention)[..k]).snaps, retention, best, q);
    }
  }

  /** With the newest snapshot in the last slot, the first effect spares it and the second removes it. */
  lemma {:induction false} LastSlotCut(d: Disk, retention: nat, s: Snapshot, k: nat)
    requires retention >= 2 && NewestAt(d.snaps, retention, retention - 1, s) && k <= |Rotate(d, retention)|
    ensures |Rotate(d, retention)| == 2
    ensures k < 2 ==> NewestAt(DoAll(d, Rotate(d, retention)[..k]).snaps, retention, retention - 1, s)
    ensures k == 2 ==> NoneScanned(DoAll(d, Rotate(d, retention)[..k]).snaps, retention)
  {
    var i := retention - 1;
    var rot, remove, rename := Rotate(d, retention), RemoveSnap(retention), RenameSnap(i, retention);
    LastSlotRotation(d, retention, s);
    assert rot[..0] == [] && rot[..1] == [remove] && rot[..2] == rot;
    DoOne(d, remove);
    RemoveKeeps(d, retention, Some(s), i);
  }

  lemma {:induction false} LastSlotRotation(d: Disk, retention: nat, s: Snapshot)
    requires retention >= 2 && NewestAt(d.snaps, retention, retention - 1, s)
    ensures Rotate(d, retention) == [RemoveSnap(retention), RenameSnap(retention - 1, retention)]
    ensures NoneScanned(DoAll(d, Rotate(d, retention)).snaps, retention)
  {
    var i := retention - 1;
    RoundShape(d, retention, i);
    var round, mid := Round(d, retention, i), Do(d, RemoveSnap(retention));
    DoAllConcat(d, [RemoveSnap(retention)], [RenameSnap(i, retention)]);
    DoOne(d, RemoveSnap(retention));
    DoOne(mid, RenameSnap(i, retention));
    var next := DoAll(d, round);
    assert NoneScanned(next.snaps, retention);
    RotateEmpty(next, retention, i - 1);
    assert Rotate(d, retention) == round + [] == round;
  }

  /** The exact condition: with a snapshot to lose, a cut before the save keeps it exactly when it is allowed. */
  lemma {:induction false} CutKeepsExactly(
    d: Disk, retention: nat, best: Snapshot, p: nat, snap: Snapshot, cut: Cut)
    requires retention > 0 && CutPossible(d, retention, cut) && cut.BeforeSave?
    requires Holds(d.snaps, retention, Some(best), p)
    ensures var snaps := CutDisk(d, retention, snap, cut).snaps;
            (Latest(snaps, retention).Some? && Base(snaps, retention) == best) <==> CutAllowed(d, retention, cut)
  {
    var after := CutDisk(d, retention, snap, cut);
    HoldsIsPicked(d.snaps, retention, Some(best), p);
    if CutAllowed(d, retention, cut) {
      var q := CutKeeps(d, retention, Some(best), p, snap, cut);
      HoldsIsPicked(after.snaps, retention, Some(best), q);
    } else {
      CutState(d, retention, snap, cut);
      LastSlotRotation(d, retention, best);
      LastSlotCut(d, retention, best, 2);
      HoldsIsPicked(after.snaps, retention, None, 0);
    }
  }

  /** Every snapshot one slot up, and the new one in slot 0. */
  ghost predicate Pushed(before: map<nat, Snapshot>, after: map<nat, Snapshot>, retention: nat, snap: Snapshot) {
    && 0 in after && after[0] == snap
    && (forall i: nat :: i + 1 < retention ==> (i + 1 in after <==> i in before))
    && (forall i: nat :: i + 1 < retention && i in before ==> after[i + 1] == before[i])
  }

  lemma {:induction false} InstallPushes(d: Disk, retention: nat, snap: Snapshot)
    requires retention > 0
    ensures Pushed(d.snaps, DoAll(d, SnapshotEffects(d, retention, snap)).snaps, retention, snap)
  {
    var es := SnapshotEffects(d, retention, snap);
    assert es[..|es|] == es;
    CutState(d, retention, snap, AfterTruncate);
    if retention > 1 {
      RotateShifts(d, retention, retention - 1);
    }
  }

  /** Start-up picks the pushed snapshot exactly when none behind it is newer. */
  lemma {:induction false} PushedIsPicked(
    before: map<nat, Snapshot>, after: map<nat, Snapshot>, retention: nat, snap: Snapshot)
    requires retention > 0 && Pushed(before, after, retention, snap)
    ensures Base(after, retention) == snap
            <==> forall i :: i in before && i + 1 < retention ==> before[i].version <= snap.version
  {
    var l := Latest(after, retention);
    assert l.Some?;
    assert l.value > 0 ==> (l.value - 1) + 1 in after && l.value - 1 in before;
    if i :| i in before && i + 1 < retention && before[i].version > snap.version {
      assert i + 1 in after && after[i + 1].version <= after[l.value].version;
    }
  }

  /**
   Installing a snapshot over any disk takes effect for start-up exactly when no
   snapshot that stays in the scanned slots is newer.
   */
  lemma {:induction false} InstallTakesEffectExactly(d: Disk, retention: nat, snap: Snapshot)
    requires retention > 0
    ensures Base(DoAll(d, SnapshotEffects(d, retention, snap)).snaps, retention) == snap
            <==> forall i :: i in d.snaps && i + 1 < retention ==> d.snaps[i].version <= snap.version
  {
    InstallPushes(d, retention, snap);
    PushedIsPicked(d.snaps, DoAll(d, SnapshotEffects(d, retention, snap)).snaps, retention, snap);
  }

  /** With two slots, two crashes between rotation and save leave start-up nothing but the log. */
  lemma {:induction false} TwoCrashesLoseTheNewest(snap: Snapshot)
    ensures var d0 := Disk(map[0 := snap], Absent, []);
            var d1 := DoAll(d0, Rotate(d0, 2));
            var d2 := DoAll(d1, Rotate(d1, 2));
            Base(d1.snaps, 2) == snap && Base(d2.snaps, 2) == EMPTY
  {
    var d0 := Disk(map[0 := snap], Absent, []);
    FirstCrash(d0, snap);
    SecondCrash(DoAll(d0, Rotate(d0, 2)), snap);
  }

  lemma {:induction false} FirstCrash(d: Disk, snap: Snapshot)
    requires d.snaps == map[0 := snap]
    ensures NewestAt(DoAll(d, Rotate(d, 2)).snaps, 2, 1, snap)
  {
    RotateShifts(d, 2, 1);
    var snaps := DoAll(d, Rotate(d, 2)).snaps;
    assert 0 in d.snaps && 0 + 1 in snaps && snaps[0 + 1] == snap && 0 !in snaps;
  }

  lemma {:induction false} SecondCrash(d: Disk, snap: Snapshot)
    requires NewestAt(d.snaps, 2, 1, snap)
    ensures Base(d.snaps, 2) == snap && Base(DoAll(d, Rotate(d, 2)).snaps, 2) == EMPTY
  {
    HoldsIsPicked(d.snaps, 2, Some(snap), 1);
    LastSlotRotation(d, 2, snap);
    HoldsIsPicked(DoAll(d, Rotate(d, 2)).snaps, 2, None, 0);
  }
}
