/**
 Snapshot rotation under crashes: at every cut of a rotation the newest
 completed snapshot stays where start-up looks for it, exactly as long as it
 was not in the last slot when the rotation began.
 */
module DiskRotation {
  import opened Common
  import opened DiskModel

  /** Lower slots hold newer snapshots. */
  ghost predicate Ordered(snaps: map<nat, Snapshot>, retention: nat) {
    forall i: nat, j: nat :: i < j < retention && i in snaps && j in snaps ==> snaps[i].version >= snaps[j].version
  }

  /** `s` is the newest snapshot and sits in slot `p`, the lowest one in use. */
  ghost predicate NewestAt(snaps: map<nat, Snapshot>, retention: nat, p: nat, s: Snapshot) {
    && p < retention && p in snaps && snaps[p] == s
    && (forall j: nat :: j < p ==> j !in snaps)
    && Ordered(snaps, retention)
  }

  ghost predicate NoneScanned(snaps: map<nat, Snapshot>, retention: nat) {
    forall j: nat :: j < retention ==> j !in snaps
  }

  /** The newest completed snapshot, if any, is at slot `p`. */
  ghost predicate Holds(snaps: map<nat, Snapshot>, retention: nat, best: Option<Snapshot>, p: nat) {
    match best
    case None => NoneScanned(snaps, retention)
    case Some(s) => NewestAt(snaps, retention, p, s)
  }

  /** Start-up picks the newest snapshot and nothing else. */
  lemma {:induction false} HoldsIsPicked(snaps: map<nat, Snapshot>, retention: nat, best: Option<Snapshot>, p: nat)
    requires Holds(snaps, retention, best, p)
    ensures best.None? <==> Latest(snaps, retention).None?
    ensures best.Some? ==> Latest(snaps, retention) == Some(p)
    ensures Base(snaps, retention) == if best.Some? then best.value else EMPTY
  {
    if best.Some? {
      assert p < retention && p in snaps;
    }
  }

  /** The slot of the newest snapshot after the round at index `i`. */
  function After(p: nat, i: nat): nat {
    if p == i then p + 1 else p
  }

  lemma {:induction false} RoundShape(d: Disk, retention: nat, i: nat)
    ensures i != retention - 1 && i !in d.snaps ==> Round(d, retention, i) == []
    ensures i != retention - 1 && i in d.snaps ==> Round(d, retention, i) == [RenameSnap(i, i + 1)]
    ensures i == retention - 1 && i !in d.snaps ==> Round(d, retention, i) == [RemoveSnap(i + 1)]
    ensures i == retention - 1 && i in d.snaps ==>
              Round(d, retention, i) == [RemoveSnap(i + 1)] + [RenameSnap(i, i + 1)]
  {
    DoOne(d, RemoveSnap(i + 1));
  }

  lemma {:induction false} RemoveKeeps(d: Disk, retention: nat, best: Option<Snapshot>, p: nat)
    requires Holds(d.snaps, retention, best, p)
    ensures Holds(Do(d, RemoveSnap(retention)).snaps, retention, best, p)
  {
  }

  lemma {:induction false} RenameKeeps(d: Disk, retention: nat, i: nat, best: Option<Snapshot>, p: nat)
    requires Holds(d.snaps, retention, best, p)
    requires best.Some? ==> p + 1 < retention
    requires i < retention && i in d.snaps
    requires i < retention - 1 ==> i + 1 !in d.snaps
    ensures Holds(Do(d, RenameSnap(i, i + 1)).snaps, retention, best, After(p, i))
    ensures i !in Do(d, RenameSnap(i, i + 1)).snaps
  {
  }

  /** Every cut of one round keeps the newest snapshot in a scanned slot. */
  lemma {:induction false} RoundKeeps(d: Disk, retention: nat, i: nat, best: Option<Snapshot>, p: nat, k: nat)
    requires retention >= 2 && i < retention
    requires Holds(d.snaps, retention, best, p)
    requires best.Some? ==> p <= i && p + 1 < retention
    requires i < retention - 1 ==> i + 1 !in d.snaps
    requires k <= |Round(d, retention, i)|
    ensures Kept(d, Round(d, retention, i)[..k], retention, best, p, if p <= i then 1 else 0)
    ensures k == |Round(d, retention, i)| ==>
              var after := DoAll(d, Round(d, retention, i)[..k]);
              Holds(after.snaps, retention, best, After(p, i)) && i !in after.snaps
  {
    RoundShape(d, retention, i);
    var es := Round(d, retention, i);
    var after := DoAll(d, es[..k]);
    if k == 0 {
      assert es[..0] == [];
      assert Holds(after.snaps, retention, best, p);
    } else if k == 1 {
      assert es[..1] == [es[0]];
      DoOne(d, es[0]);
      if i == retention - 1 {
        RemoveKeeps(d, retention, best, p);
        assert Holds(after.snaps, retention, best, p);
      } else {
        RenameKeeps(d, retention, i, best, p);
        assert Holds(after.snaps, retention, best, After(p, i));
      }
    } else {
      var mid := Do(d, RemoveSnap(i + 1));
      assert es[..2] == [RemoveSnap(i + 1)] + [RenameSnap(i, i + 1)];
      DoAllConcat(d, [RemoveSnap(i + 1)], [RenameSnap(i, i + 1)]);
      DoOne(d, RemoveSnap(i + 1));
      DoOne(mid, RenameSnap(i, i + 1));
      RemoveKeeps(d, retention, best, p);
      RenameKeeps(mid, retention, i, best, p);
      assert Holds(after.snaps, retention, best, After(p, i));
    }
  }

  /** After the effects the newest snapshot is at most `slack` slots further along. */
  ghost predicate Kept(
    d: Disk, es: seq<Effect>, retention: nat, best: Option<Snapshot>, p: nat, slack: nat)
  {
    exists q :: p <= q <= p + slack && Holds(DoAll(d, es).snaps, retention, best, q)
  }

  lemma {:induction false} NothingMoves(d: Disk, retention: nat, i: nat, best: Option<Snapshot>, p: nat, k: nat)
    requires retention >= 2 && i < p && best.Some? && Holds(d.snaps, retention, best, p)
    requires k <= |RotateFrom(d, retention, i)|
    ensures Kept(d, RotateFrom(d, retention, i)[..k], retention, best, p, 0)
  {
    RotateEmpty(d, retention, i);
    assert RotateFrom(d, retention, i)[..k] == [];
    assert Holds(DoAll(d, []).snaps, retention, best, p);
  }

  /** Every cut of a whole rotation keeps it, at most one slot further along. */
  lemma {:induction false} RotateKeeps(d: Disk, retention: nat, i: nat, best: Option<Snapshot>, p: nat, k: nat)
    requires retention >= 2 && i < retention
    requires Holds(d.snaps, retention, best, p)
    requires best.Some? ==> p + (if p <= i then 1 else 0) < retention
    requires i < retention - 1 ==> i + 1 !in d.snaps || (best.Some? && p == i + 1)
    requires k <= |RotateFrom(d, retention, i)|
    ensures Kept(d, RotateFrom(d, retention, i)[..k], retention, best, p, if p <= i then 1 else 0)
    decreases i
  {
    if best.Some? && p > i {
      NothingMoves(d, retention, i, best, p, k);
    } else {
      var round := Round(d, retention, i);
      if k <= |round| {
        RotateStarts(d, retention, i, k);
        RoundKeeps(d, retention, i, best, p, k);
      } else {
        WholeRoundKeeps(d, retention, i, best, p);
        RotateKeeps(DoAll(d, round), retention, i - 1, best, After(p, i), k - |round|);
        KeptBehindRound(d, retention, i, best, p, k);
      }
    }
  }

  lemma {:induction false} RotateStarts(d: Disk, retention: nat, i: nat, k: nat)
    requires k <= |Round(d, retention, i)|
    ensures k <= |RotateFrom(d, retention, i)| && RotateFrom(d, retention, i)[..k] == Round(d, retention, i)[..k]
  {
  }

  lemma {:induction false} WholeRoundKeeps(d: Disk, retention: nat, i: nat, best: Option<Snapshot>, p: nat)
    requires retention >= 2 && i < retention
    requires Holds(d.snaps, retention, best, p)
    requires best.Some? ==> p <= i && p + 1 < retention
    requires i < retention - 1 ==> i + 1 !in d.snaps
    ensures var next := DoAll(d, Round(d, retention, i));
            Holds(next.snaps, retention, best, After(p, i)) && i !in next.snaps
  {
    var round := Round(d, retention, i);
    RoundKeeps(d, retention, i, best, p, |round|);
    assert round[..|round|] == round;
  }

  lemma {:induction false} KeptBehindRound(d: Disk, retention: nat, i: nat, best: Option<Snapshot>, p: nat, k: nat)
    requires i > 0 && |Round(d, retention, i)| <= k <= |RotateFrom(d, retention, i)|
    requires var round := Round(d, retention, i);
             var next := DoAll(d, round);
             Kept(next, RotateFrom(next, retention, i - 1)[..k - |round|], retention, best, After(p, i),
                  if After(p, i) <= i - 1 then 1 else 0)
    ensures Kept(d, RotateFrom(d, retention, i)[..k], retention, best, p, if p <= i then 1 else 0)
  {
    RotatePrefix(d, retention, i, k);
  }

  lemma {:induction false} RotatePrefix(d: Disk, retention: nat, i: nat, k: nat)
    requires i > 0 && |Round(d, retention, i)| <= k <= |RotateFrom(d, retention, i)|
    ensures var round := Round(d, retention, i);
            var rest := RotateFrom(DoAll(d, round), retention, i - 1);
            && k - |round| <= |rest|
            && DoAll(d, RotateFrom(d, retention, i)[..k]) == DoAll(DoAll(d, round), rest[..k - |round|])
  {
    var round := Round(d, retention, i);
    var rest := RotateFrom(DoAll(d, round), retention, i - 1);
    assert RotateFrom(d, retention, i)[..k] == round + rest[..k - |round|];
    DoAllConcat(d, round, rest[..k - |round|]);
  }

  lemma {:induction false} RotateEmpty(d: Disk, retention: nat, i: nat)
    requires retention >= 2 && i < retention - 1
    requires forall j: nat :: j <= i ==> j !in d.snaps
    ensures RotateFrom(d, retention, i) == []
    decreases i
  {
    RoundShape(d, retention, i);
    assert DoAll(d, []) == d;
    if i > 0 {
      RotateEmpty(d, retention, i - 1);
    }
  }

  /**
   For a rotation started with the newest snapshot in slot `p`: it is found by
   start-up at every cut exactly when `p` is not the last slot.
   */
  lemma {:induction false} RotationKeepsNewestExactly(d: Disk, retention: nat, p: nat, s: Snapshot)
    requires retention >= 2 && NewestAt(d.snaps, retention, p, s)
    ensures (forall k: nat :: k <= |Rotate(d, retention)| ==> FoundAfter(d, retention, k, s))
            <==> p < retention - 1
  {
    if p < retention - 1 {
      forall k: nat | k <= |Rotate(d, retention)| ensures FoundAfter(d, retention, k, s) {
        RotateKeeps(d, retention, retention - 1, Some(s), p, k);
        var q :| p <= q <= p + 1 && Holds(DoAll(d, Rotate(d, retention)[..k]).snaps, retention, Some(s), q);
        HoldsIsPicked(DoAll(d, Rotate(d, retention)[..k]).snaps, retention, Some(s), q);
      }
    } else {
      var es := Rotate(d, retention);
      RoundShape(d, retention, retention - 1);
      var first := [RemoveSnap(retention)] + [RenameSnap(retention - 1, retention)];
      assert es[..2] == first;
      DoAllConcat(d, [RemoveSnap(retention)], [RenameSnap(retention - 1, retention)]);
      DoOne(d, RemoveSnap(retention));
      DoOne(Do(d, RemoveSnap(retention)), RenameSnap(retention - 1, retention));
      assert !FoundAfter(d, retention, 2, s);
    }
  }

  ghost predicate FoundAfter(d: Disk, retention: nat, k: nat, s: Snapshot)
    requires retention > 0 && k <= |Rotate(d, retention)|
  {
    var snaps := DoAll(d, Rotate(d, retention)[..k]).snaps;
    Latest(snaps, retention).Some? && Base(snaps, retention) == s
  }

  /** Slot `i` and all below it have moved up by one; slots above `i + 1` are untouched. */
  ghost predicate Shifted(before: map<nat, Snapshot>, after: map<nat, Snapshot>, i: nat) {
    && 0 !in after
    && (forall j: nat :: j <= i ==> (j + 1 in after <==> j in before))
    && (forall j: nat :: j <= i && j in before ==> after[j + 1] == before[j])
    && (forall j: nat :: j > i + 1 ==> (j in after <==> j in before))
    && (forall j: nat :: j > i + 1 && j in before ==> after[j] == before[j])
  }

  /** Slot `i` has moved up by one; other slots are untouched. */
  ghost predicate Moved(before: map<nat, Snapshot>, after: map<nat, Snapshot>, i: nat) {
    && i !in after
    && (i + 1 in after <==> i in before)
    && (i in before ==> after[i + 1] == before[i])
    && (forall j: nat :: j != i && j != i + 1 ==> (j in after <==> j in before))
    && (forall j: nat :: j != i && j != i + 1 && j in before ==> after[j] == before[j])
  }

  lemma {:induction false} MovedThenShifted(
    before: map<nat, Snapshot>, mid: map<nat, Snapshot>, after: map<nat, Snapshot>, i: nat)
    requires i > 0 && Moved(before, mid, i) && Shifted(mid, after, i - 1)
    ensures Shifted(before, after, i)
  {
    assert i + 1 in after <==> i + 1 in mid;
  }

  /** A rotation run to its end moves every slot up by one. */
  lemma {:induction false} RotateShifts(d: Disk, retention: nat, i: nat)
    requires retention >= 2 && i < retention
    requires i < retention - 1 ==> i + 1 !in d.snaps
    ensures Shifted(d.snaps, DoAll(d, RotateFrom(d, retention, i)).snaps, i)
    decreases i
  {
    var round := Round(d, retention, i);
    var next := DoAll(d, round);
    RoundMoves(d, retention, i);
    if i > 0 {
      RotateShifts(next, retention, i - 1);
      DoAllConcat(d, round, RotateFrom(next, retention, i - 1));
      MovedThenShifted(d.snaps, next.snaps, DoAll(next, RotateFrom(next, retention, i - 1)).snaps, i);
    }
  }

  lemma {:induction false} RoundMoves(d: Disk, retention: nat, i: nat)
    requires retention >= 2 && i < retention
    requires i < retention - 1 ==> i + 1 !in d.snaps
    ensures Moved(d.snaps, DoAll(d, Round(d, retention, i)).snaps, i)
  {
    RoundShape(d, retention, i);
    var mid := Do(d, RemoveSnap(i + 1));
    DoOne(d, RemoveSnap(i + 1));
    DoOne(d, RenameSnap(i, i + 1));
    DoAllConcat(d, [RemoveSnap(i + 1)], [RenameSnap(i, i + 1)]);
    DoOne(mid, RenameSnap(i, i + 1));
  }

  /** Saving a snapshot at least as new as the others makes it the newest, in slot 0. */
  lemma {:induction false} SaveBecomesNewest(
    snaps: map<nat, Snapshot>, retention: nat, best: Option<Snapshot>, p: nat, s: Snapshot)
    requires retention > 0
    requires Holds(snaps, retention, best, p)
    requires best.Some? ==> best.value.version <= s.version
    ensures NewestAt(snaps[0 := s], retention, 0, s)
  {
  }
}
