/**
 Crash durability of a shard's disk state. After any run without a harmful
 event, memory and what start-up would read are exactly what the events amount
 to; and a run keeps that promise at every point exactly when it has no such event.
 */
module DiskDurability {
  import opened Common
  import opened ReplicationLog
  import opened DiskModel
  import opened DiskRotation
  import opened DiskEvents
  import opened DiskCuts

  // ---------------------------------------------------------------- the log

  predicate EndsTorn(wal: seq<Line>) {
    wal != [] && wal[|wal| - 1].Torn?
  }

  predicate EndsBare(wal: seq<Line>) {
    wal != [] && wal[|wal| - 1].Bare?
  }

  /** The lines with their newlines. */
  function Body(wal: seq<Line>): seq<Line> {
    if EndsWhole(wal) then wal else wal[..|wal| - 1]
  }

  /** Every line but the last has its newline. */
  predicate LinesWhole(wal: seq<Line>) {
    forall i :: 0 <= i < |wal| - 1 ==> wal[i].Whole?
  }

  /** The versions do not fall and are at most one ahead of `version`. */
  predicate InOrder(es: seq<Entry>, version: nat) {
    NonDecreasing(es) && forall i :: 0 <= i < |es| ==> es[i].version <= version + 1
  }

  ghost predicate LogOk(wal: seq<Line>, version: nat) {
    LinesWhole(wal) && InOrder(ReadAll(wal), version)
  }

  lemma {:induction false} BodyIsWhole(wal: seq<Line>)
    requires LinesWhole(wal)
    ensures Torn !in Body(wal)
  {
  }

  /** What is read: the lines with newlines, and a bare last one. */
  lemma {:induction false} ReadBody(wal: seq<Line>)
    requires LinesWhole(wal)
    ensures var es := ReadAll(Body(wal));
            ReadAll(wal) == if EndsBare(wal) then es + [wal[|wal| - 1].entry] else es
  {
    BodyIsWhole(wal);
    if !EndsWhole(wal) {
      assert wal == Body(wal) + [wal[|wal| - 1]];
      ReadAllAppend(Body(wal), wal[|wal| - 1]);
    }
  }

  /** What is read after more was written behind a whole line: what was before, and the new entry. */
  lemma {:induction false} ReadBehindWhole(wal: seq<Line>, l: Line)
    requires LinesWhole(wal) && EndsWhole(wal)
    ensures LinesWhole(Written(wal, l))
    ensures ReadAll(Written(wal, l)) == if l.Torn? then ReadAll(wal) else ReadAll(wal) + [l.entry]
  {
    BodyIsWhole(wal);
    ReadAllAppend(wal, l);
  }

  lemma {:induction false} BodyBehindWhole(wal: seq<Line>, l: Line)
    requires EndsWhole(wal)
    ensures Body(Written(wal, l)) == if l.Whole? then wal + [l] else wal
  {
    assert (wal + [l])[..|wal|] == wal;
  }

  /** And behind any other: only what the lines with newlines hold. */
  lemma {:induction false} ReadBehindOther(wal: seq<Line>, l: Line)
    requires LinesWhole(wal) && !EndsWhole(wal)
    ensures LinesWhole(Written(wal, l))
    ensures ReadAll(Written(wal, l)) == ReadAll(Body(wal))
  {
    BodyIsWhole(wal);
    assert Written(wal, l) == Body(wal) + [Torn];
    ReadAllAppend(Body(wal), Torn);
  }

  /** The log replayed over a snapshot. */
  function Replayed(base: Snapshot, wal: seq<Line>): Snapshot {
    ReplayOver(base, ReadAll(wal))
  }

  lemma {:induction false} BodyReplayed(base: Snapshot, wal: seq<Line>)
    requires LinesWhole(wal)
    ensures var body := Replayed(base, Body(wal));
            && Replayed(base, wal) == (if EndsBare(wal) then ReplayOne(body, wal[|wal| - 1].entry) else body)
            && body.version >= base.version
  {
    ReadBody(wal);
    ReplayBounds(base, ReadAll(Body(wal)));
    if EndsBare(wal) {
      ReplayLast(base, ReadAll(Body(wal)), wal[|wal| - 1].entry);
    }
  }

  lemma {:induction false} WrittenReplayed(base: Snapshot, wal: seq<Line>, l: Line)
    requires LinesWhole(wal)
    ensures Replayed(base, Written(wal, l)) ==
            if !EndsWhole(wal) then Replayed(base, Body(wal))
            else if l.Torn? then Replayed(base, wal)
            else ReplayOne(Replayed(base, wal), l.entry)
  {
    if !EndsWhole(wal) {
      ReadBehindOther(wal, l);
    } else {
      ReadBehindWhole(wal, l);
      if !l.Torn? {
        ReplayLast(base, ReadAll(wal), l.entry);
      }
    }
  }

  lemma {:induction false} OneMoreInOrder(es: seq<Entry>, version: nat, e: Entry)
    requires InOrder(es, version)
    ensures e.version == version + 1 ==> InOrder(es + [e], version)
  {
  }

  lemma {:induction false} OneLessInOrder(es: seq<Entry>, version: nat, e: Entry)
    requires InOrder(es + [e], version)
    ensures InOrder(es, version)
  {
    assert forall i :: 0 <= i < |es| ==> (es + [e])[i] == es[i];
  }

  lemma {:induction false} WrittenOk(wal: seq<Line>, version: nat, l: Line)
    requires LogOk(wal, version) && (l.Torn? || l.entry.version == version + 1)
    ensures LogOk(Written(wal, l), version)
  {
    if EndsWhole(wal) {
      ReadBehindWhole(wal, l);
      if !l.Torn? {
        OneMoreInOrder(ReadAll(wal), version, l.entry);
      }
    } else {
      ReadBody(wal);
      ReadBehindOther(wal, l);
      if EndsBare(wal) {
        OneLessInOrder(ReadAll(Body(wal)), version, wal[|wal| - 1].entry);
      }
    }
  }

  // ---------------------------------------------------------------- every run

  /** What every run keeps, harmful events or not. */
  ghost predicate Sound(s: Shard, retention: nat, best: Option<Snapshot>, p: nat) {
    && retention > 0
    && LogOk(s.disk.wal, s.memory.version)
    && Holds(s.disk.snaps, retention, best, p)
    && (best.Some? ==> p <= s.rotations && best.value.version <= s.memory.version)
  }

  /** Start-up reads a sound disk: the newest snapshot, and the log replayed over it. */
  lemma {:induction false} SoundLoads(s: Shard, retention: nat, best: Option<Snapshot>, p: nat)
    requires Sound(s, retention, best, p)
    ensures !Load(s.disk, retention).NonMonotonic?
    ensures Base(s.disk.snaps, retention) == if best.Some? then best.value else EMPTY
    ensures Restart(s.disk, retention) == Replayed(Base(s.disk.snaps, retention), s.disk.wal)
  {
    HoldsIsPicked(s.disk.snaps, retention, best, p);
  }

  lemma {:induction false} SoundReboot(s: Shard, retention: nat, best: Option<Snapshot>, p: nat)
    requires Sound(s, retention, best, p)
    ensures Sound(Reboot(s, retention), retention, best, p)
  {
    SoundLoads(s, retention, best, p);
    ReplayBounds(Base(s.disk.snaps, retention), ReadAll(s.disk.wal));
  }

  function LogWith(s: Shard, l: Line): Shard {
    s.(disk := s.disk.(wal := Written(s.disk.wal, l)))
  }

  lemma {:induction false} SoundWritten(s: Shard, retention: nat, best: Option<Snapshot>, p: nat, l: Line)
    requires Sound(s, retention, best, p) && (l.Torn? || l.entry.version == s.memory.version + 1)
    ensures Sound(LogWith(s, l), retention, best, p)
  {
    WrittenOk(s.disk.wal, s.memory.version, l);
  }

  /** The line that a write cut short leaves. */
  function LineOf(e: Entry, progress: Progress): Line
    requires !progress.Unwritten?
  {
    match progress
    case Partly => Torn
    case Unterminated => Bare(e)
    case Fully => Whole(e)
  }

  lemma {:induction false} LineIsWritten(s: Shard, e: Entry, progress: Progress)
    requires !progress.Unwritten?
    ensures s.(disk := LineWritten(s.disk, e, progress)) == LogWith(s, LineOf(e, progress))
  {
  }

  lemma {:induction false} SoundLine(
    s: Shard, retention: nat, best: Option<Snapshot>, p: nat, e: Entry, progress: Progress)
    requires Sound(s, retention, best, p) && Applicable(s.memory, e)
    ensures Sound(s.(disk := LineWritten(s.disk, e, progress)), retention, best, p)
  {
    if !progress.Unwritten? {
      LineIsWritten(s, e, progress);
      SoundWritten(s, retention, best, p, LineOf(e, progress));
    }
  }

  /** Once saved, the snapshot is the newest, for a memory of its version. */
  lemma {:induction false} SoundSaved(
    s: Shard, retention: nat, best: Option<Snapshot>, p: nat, snap: Snapshot, cut: Cut, m: Snapshot)
    requires Sound(s, retention, best, p) && !cut.BeforeSave?
    requires m.version == snap.version >= s.memory.version
    ensures Sound(Interrupted(s, retention, snap, cut).(memory := m), retention, Some(snap), 0)
  {
    CutState(s.disk, retention, snap, cut);
    var best', q := RotateDone(s.disk, retention, best, p);
    SaveBecomesNewest(DoAll(s.disk, Rotate(s.disk, retention)).snaps, retention, best', q, snap);
  }

  lemma {:induction false} SoundUnsaved(
    s: Shard, retention: nat, best: Option<Snapshot>, p: nat, snap: Snapshot, cut: Cut) returns (q: nat)
    requires Sound(s, retention, best, p) && cut.BeforeSave?
    requires CutPossible(s.disk, retention, cut) && CutAllowed(s.disk, retention, cut)
    ensures Sound(Interrupted(s, retention, snap, cut), retention, best, q)
  {
    CutState(s.disk, retention, snap, cut);
    q := CutKeeps(s.disk, retention, best, p, snap, cut);
  }

  lemma {:induction false} SoundCrash(
    s: Shard, retention: nat, best: Option<Snapshot>, p: nat, snap: Snapshot, cut: Cut)
    returns (best': Option<Snapshot>, p': nat)
    requires Sound(s, retention, best, p) && snap.version >= s.memory.version
    requires CutPossible(s.disk, retention, cut) && CutAllowed(s.disk, retention, cut)
    ensures Sound(Reboot(Interrupted(s, retention, snap, cut), retention), retention, best', p')
  {
    var after := Interrupted(s, retention, snap, cut);
    if cut.BeforeSave? {
      best' := best;
      p' := SoundUnsaved(s, retention, best, p, snap, cut);
      SoundReboot(after, retention, best', p');
    } else {
      best', p' := Some(snap), 0;
      SoundSaved(s, retention, best, p, snap, cut, snap);
      SoundReboot(after.(memory := snap), retention, best', p');
    }
  }

  lemma {:induction false} StepIsSound(s: Shard, retention: nat, ev: Event, best: Option<Snapshot>, p: nat)
    returns (best': Option<Snapshot>, p': nat)
    requires Sound(s, retention, best, p) && Enabled(s, retention, ev)
    ensures Sound(Next(s, retention, ev), retention, best', p')
  {
    best', p' := best, p;
    match ev
    case Apply(e) =>
      SoundLine(s, retention, best, p, e, Fully);
    case CrashInApply(e, progress) =>
      SoundLine(s, retention, best, p, e, progress);
      SoundReboot(s.(disk := LineWritten(s.disk, e, progress)), retention, best, p);
    case AdoptTerm(_) =>
    case Take(t) =>
      SoundSaved(s, retention, best, p, Pictured(s.memory, t), AfterTruncate, s.memory);
      best', p' := Some(Pictured(s.memory, t)), 0;
    case CrashInTake(t, cut) =>
      best', p' := SoundCrash(s, retention, best, p, Pictured(s.memory, t), cut);
    case Install(snap) =>
      SoundSaved(s, retention, best, p, snap, AfterTruncate, snap);
      best', p' := Some(snap), 0;
    case CrashInInstall(snap, cut) =>
      best', p' := SoundCrash(s, retention, best, p, snap, cut);
  }

  lemma {:induction false} RunIsSound(retention: nat, evs: seq<Event>) returns (best: Option<Snapshot>, p: nat)
    requires retention > 0 && RunOf(retention, evs).Some?
    ensures Sound(RunOf(retention, evs).value, retention, best, p)
  {
    if evs == [] {
      best, p := None, 0;
    } else {
      var init := evs[..|evs| - 1];
      best, p := RunIsSound(retention, init);
      best, p := StepIsSound(RunOf(retention, init).value, retention, evs[|evs| - 1], best, p);
    }
  }

  // ---------------------------------------------------------------- harmless runs

  /** The log ends as the events say. */
  predicate TailFits(tail: Tail, base: Snapshot, wal: seq<Line>, version: nat) {
    match tail
    case Clean => EndsWhole(wal)
    case Open => EndsBare(wal) && Replayed(base, Body(wal)).version < version
    case Broken => EndsTorn(wal) || (EndsBare(wal) && wal[|wal| - 1].entry.version <= base.version)
  }

  /** The shard is what the events amount to, in memory and on disk. */
  ghost predicate Durable(s: Shard, retention: nat, o: Expected) {
    && s.memory == o.memory
    && o.saved <= o.memory.term
    && TailFits(o.tail, Base(s.disk.snaps, retention), s.disk.wal, s.memory.version)
    && Replayed(Base(s.disk.snaps, retention), s.disk.wal) == Restarted(o).memory
  }

  lemma {:induction false} DurableReboot(s: Shard, retention: nat, best: Option<Snapshot>, p: nat, o: Expected)
    requires Sound(s, retention, best, p) && Durable(s, retention, o)
    ensures Durable(Reboot(s, retention), retention, Restarted(o))
    ensures Restart(s.disk, retention) == Restarted(o).memory
  {
    SoundLoads(s, retention, best, p);
  }

  /** Replaying a log that is one line longer ends with that line. */
  lemma {:induction false} ReplayLast(base: Snapshot, es: seq<Entry>, e: Entry)
    ensures ReplayOver(base, es + [e]) == ReplayOne(ReplayOver(base, es), e)
  {
    assert (es + [e])[..|es|] == es;
  }

  /** Behind a broken end nothing that counts is lost. */
  lemma {:induction false} BrokenStays(base: Snapshot, wal: seq<Line>, version: nat, l: Line)
    requires LinesWhole(wal) && TailFits(Broken, base, wal, version)
    ensures Replayed(base, Written(wal, l)) == Replayed(base, wal) && EndsTorn(Written(wal, l))
  {
    BodyReplayed(base, wal);
    WrittenReplayed(base, wal, l);
  }

  /** The next entry, written behind a whole line. */
  lemma {:induction false} AppendFits(base: Snapshot, wal: seq<Line>, version: nat, l: Line)
    requires LinesWhole(wal) && EndsWhole(wal) && !l.Torn?
    requires Replayed(base, wal).version == version && l.entry.version == version + 1
    ensures TailFits(if l.Whole? then Clean else Open, base, Written(wal, l), version + 1)
    ensures Replayed(base, Written(wal, l)) == ReplayOne(Replayed(base, wal), l.entry)
  {
    WrittenReplayed(base, wal, l);
    BodyBehindWhole(wal, l);
  }

  /** An entry written behind a whole line, with or without its newline. */
  lemma {:induction false} DurableAppend(s: Shard, retention: nat, o: Expected, e: Entry, l: Line)
    requires LinesWhole(s.disk.wal) && Durable(s, retention, o) && Applicable(s.memory, e)
    requires !e.op.Other? && o.tail.Clean? && !l.Torn? && l.entry == e
    ensures var written := LogWith(s, l).(memory := Applied(s.memory, e));
            Durable(written, retention, ApplyOutcome(o, e).(tail := if l.Whole? then Clean else Open))
  {
    AppendFits(Base(s.disk.snaps, retention), s.disk.wal, s.memory.version, l);
  }

  /** A write that does not count, behind a whole line torn or behind a broken end anyhow. */
  lemma {:induction false} DurableLoss(s: Shard, retention: nat, o: Expected, l: Line)
    requires LinesWhole(s.disk.wal) && Durable(s, retention, o)
    requires (o.tail.Clean? && l.Torn?) || o.tail.Broken?
    ensures Durable(LogWith(s, l), retention, o.(tail := Broken))
  {
    if o.tail.Broken? {
      BrokenStays(Base(s.disk.snaps, retention), s.disk.wal, s.memory.version, l);
    } else {
      WrittenReplayed(Base(s.disk.snaps, retention), s.disk.wal, l);
    }
  }

  /** A newer snapshot under the same log: nothing of the log counts any more. */
  lemma {:induction false} TailSaved(tail: Tail, base: Snapshot, wal: seq<Line>, version: nat, snap: Snapshot)
    requires LinesWhole(wal) && TailFits(tail, base, wal, version)
    requires Replayed(base, wal).version <= snap.version
    ensures TailFits(if tail.Clean? then Clean else Broken, snap, wal, snap.version)
    ensures Replayed(snap, wal) == snap
  {
    ReplayBounds(base, ReadAll(wal));
    ReplaySkips(snap, ReadAll(wal));
    BodyReplayed(base, wal);
  }

  /** A saved snapshot, and what it leaves in memory. */
  lemma {:induction false} DurableSaved(
    s: Shard, retention: nat, best: Option<Snapshot>, p: nat, o: Expected, snap: Snapshot, cut: Cut, m: Snapshot)
    requires Sound(s, retention, best, p) && Durable(s, retention, o) && !cut.BeforeSave?
    requires m.version == snap.version >= s.memory.version && m.kv == snap.kv && snap.term <= m.term
    ensures Durable(Interrupted(s, retention, snap, cut).(memory := m), retention,
                    SnapshotOutcome(o, m, snap.term, cut))
  {
    var after := Interrupted(s, retention, snap, cut);
    SoundSaved(s, retention, best, p, snap, cut, m);
    SoundLoads(after.(memory := m), retention, Some(snap), 0);
    CutState(s.disk, retention, snap, cut);
    if cut.AfterSave? {
      TailSaved(o.tail, Base(s.disk.snaps, retention), s.disk.wal, s.memory.version, snap);
    } else {
      ReplaySkips(snap, ReadAll(after.disk.wal));
    }
  }

  lemma {:induction false} DurableUnsaved(
    s: Shard, retention: nat, best: Option<Snapshot>, p: nat, o: Expected, snap: Snapshot, cut: Cut)
    requires Sound(s, retention, best, p) && Durable(s, retention, o) && cut.BeforeSave?
    requires CutPossible(s.disk, retention, cut) && CutAllowed(s.disk, retention, cut)
    ensures Durable(Interrupted(s, retention, snap, cut), retention, o)
  {
    CutState(s.disk, retention, snap, cut);
    var q := SoundUnsaved(s, retention, best, p, snap, cut);
    SoundLoads(Interrupted(s, retention, snap, cut), retention, best, q);
    SoundLoads(s, retention, best, p);
  }

  /** A snapshot operation cut by a crash, and the restart after it. */
  lemma {:induction false} DurableCrash(
    s: Shard, retention: nat, best: Option<Snapshot>, p: nat, o: Expected, snap: Snapshot, cut: Cut, m: Snapshot)
    requires Sound(s, retention, best, p) && Durable(s, retention, o)
    requires CutPossible(s.disk, retention, cut) && CutAllowed(s.disk, retention, cut)
    requires m.version == snap.version >= s.memory.version && m.kv == snap.kv && snap.term <= m.term
    ensures Durable(Reboot(Interrupted(s, retention, snap, cut), retention), retention,
                    Restarted(SnapshotOutcome(o, m, snap.term, cut)))
  {
    var after := Interrupted(s, retention, snap, cut);
    if cut.BeforeSave? {
      DurableUnsaved(s, retention, best, p, o, snap, cut);
      var q := SoundUnsaved(s, retention, best, p, snap, cut);
      DurableReboot(after, retention, best, q, o);
    } else {
      DurableSaved(s, retention, best, p, o, snap, cut, m);
      SoundSaved(s, retention, best, p, snap, cut, m);
      DurableReboot(after.(memory := m), retention, Some(snap), 0, SnapshotOutcome(o, m, snap.term, cut));
    }
  }

  lemma {:induction false} DurableApply(
    s: Shard, retention: nat, best: Option<Snapshot>, p: nat, o: Expected, e: Entry)
    requires Sound(s, retention, best, p) && Durable(s, retention, o) && Applicable(s.memory, e)
    requires !Harmful(o, Apply(e))
    ensures Durable(Next(s, retention, Apply(e)), retention, ApplyOutcome(o, e))
  {
    if o.tail.Clean? {
      DurableAppend(s, retention, o, e, Whole(e));
    } else {
      DurableLoss(s, retention, o, Whole(e));
    }
  }

  /** A line cut by a crash, before the restart; an entry that counts is then in memory. */
  lemma {:induction false} DurableLine(s: Shard, retention: nat, o: Expected, e: Entry, progress: Progress)
    requires LinesWhole(s.disk.wal) && Durable(s, retention, o) && Applicable(s.memory, e)
    requires !Harmful(o, CrashInApply(e, progress))
    ensures var written := s.(disk := LineWritten(s.disk, e, progress), memory := LineOutcome(o, e, progress).memory);
            Durable(written, retention, LineOutcome(o, e, progress))
  {
    if !progress.Unwritten? {
      LineIsWritten(s, e, progress);
      if o.tail.Clean? && !progress.Partly? {
        DurableAppend(s, retention, o, e, LineOf(e, progress));
      } else {
        DurableLoss(s, retention, o, LineOf(e, progress));
      }
    }
  }

  lemma {:induction false} DurableCrashInApply(
    s: Shard, retention: nat, best: Option<Snapshot>, p: nat, o: Expected, e: Entry, progress: Progress)
    requires Sound(s, retention, best, p) && Durable(s, retention, o) && Applicable(s.memory, e)
    requires !Harmful(o, CrashInApply(e, progress))
    ensures Durable(Next(s, retention, CrashInApply(e, progress)), retention, Expect(o, CrashInApply(e, progress)))
  {
    SoundLine(s, retention, best, p, e, progress);
    DurableLine(s, retention, o, e, progress);
    var after := LineOutcome(o, e, progress);
    var written := s.(disk := LineWritten(s.disk, e, progress), memory := after.memory);
    assert Sound(written, retention, best, p);
    DurableReboot(written, retention, best, p, after);
  }

  /** One harmless event takes the shard to what the event amounts to. */
  lemma {:induction false} StepIsDurable(
    s: Shard, retention: nat, ev: Event, best: Option<Snapshot>, p: nat, o: Expected)
    requires Sound(s, retention, best, p) && Durable(s, retention, o) && Enabled(s, retention, ev)
    requires !Harmful(o, ev)
    ensures Durable(Next(s, retention, ev), retention, Expect(o, ev))
  {
    match ev
    case Apply(e) => DurableApply(s, retention, best, p, o, e);
    case CrashInApply(e, progress) => DurableCrashInApply(s, retention, best, p, o, e, progress);
    case AdoptTerm(_) =>
    case Take(t) =>
      DurableSaved(s, retention, best, p, o, Pictured(s.memory, t), AfterTruncate, s.memory);
    case CrashInTake(t, cut) =>
      DurableCrash(s, retention, best, p, o, Pictured(s.memory, t), cut, s.memory);
    case Install(snap) =>
      DurableSaved(s, retention, best, p, o, snap, AfterTruncate, snap);
    case CrashInInstall(snap, cut) =>
      DurableCrash(s, retention, best, p, o, snap, cut, snap);
  }

  lemma {:induction false} RunIsDurable(retention: nat, evs: seq<Event>)
    requires retention > 0 && RunOf(retention, evs).Some? && Harmless(evs)
    ensures Durable(RunOf(retention, evs).value, retention, Outcome(evs))
  {
    if evs != [] {
      var n := |evs| - 1;
      var init := evs[..n];
      HarmlessPrefix(evs, n);
      RunIsDurable(retention, init);
      var best, p := RunIsSound(retention, init);
      assert !Harmful(Outcome(init), evs[n]);
      StepIsDurable(RunOf(retention, init).value, retention, evs[n], best, p, Outcome(init));
    }
  }

  lemma {:induction false} HarmlessPrefix(evs: seq<Event>, n: nat)
    requires n <= |evs| && Harmless(evs)
    ensures Harmless(evs[..n])
  {
    forall i | 0 <= i < n ensures !Harmful(Outcome(evs[..n][..i]), evs[..n][i]) {
      assert evs[..n][..i] == evs[..i];
    }
  }

  lemma {:induction false} RunPrefix(retention: nat, evs: seq<Event>, n: nat)
    requires retention > 0 && n <= |evs| && RunOf(retention, evs).Some?
    ensures RunOf(retention, evs[..n]).Some?
    decreases |evs|
  {
    if n == |evs| {
      assert evs[..n] == evs;
    } else {
      assert evs[..|evs| - 1][..n] == evs[..n];
      RunPrefix(retention, evs[..|evs| - 1], n);
    }
  }

  // ---------------------------------------------------------------- main results

  /** A restart after these events finds exactly what they amount to. */
  ghost predicate Recovers(retention: nat, evs: seq<Event>)
    requires retention > 0
  {
    && RunOf(retention, evs).Some?
    && Restart(RunOf(retention, evs).value.disk, retention) == Restarted(Outcome(evs)).memory
  }

  /**
   After any run without a harmful event, memory holds what the events amount
   to, and a restart recovers exactly that: data, version, and the term it was
   last written with.
   */
  lemma {:induction false} CrashDurability(retention: nat, evs: seq<Event>)
    requires retention > 0 && RunOf(retention, evs).Some? && Harmless(evs)
    ensures RunOf(retention, evs).value.memory == Outcome(evs).memory
    ensures Recovers(retention, evs)
  {
    RunIsDurable(retention, evs);
    var best, p := RunIsSound(retention, evs);
    DurableReboot(RunOf(retention, evs).value, retention, best, p, Outcome(evs));
  }

  /** The version start-up reads behind each kind of end once more was written, torn or not. */
  ghost predicate Shows(tail: Tail, version: nat, torn: bool, read: nat) {
    match tail
    case Clean => read == if torn then version else version + 1
    case Open => read < version
    case Broken => read == version
  }

  lemma {:induction false} LineReplayed(base: Snapshot, wal: seq<Line>, tail: Tail, version: nat, l: Line)
    requires LinesWhole(wal) && TailFits(tail, base, wal, version) && Replayed(base, wal).version == version
    requires l.Torn? || l.entry.version == version + 1
    ensures Shows(tail, version, l.Torn?, Replayed(base, Written(wal, l)).version)
  {
    WrittenReplayed(base, wal, l);
    BodyReplayed(base, wal);
  }

  lemma {:induction false} WriteShows(
    s: Shard, retention: nat, best: Option<Snapshot>, p: nat, o: Expected, l: Line)
    requires Sound(s, retention, best, p) && Durable(s, retention, o)
    requires l.Torn? || l.entry.version == s.memory.version + 1
    ensures Shows(o.tail, o.memory.version, l.Torn?, Restart(LogWith(s, l).disk, retention).version)
  {
    SoundWritten(s, retention, best, p, l);
    SoundLoads(LogWith(s, l), retention, best, p);
    LineReplayed(Base(s.disk.snaps, retention), s.disk.wal, o.tail, o.memory.version, l);
  }

  /** A harmful event leaves a disk that start-up reads at another version. */
  lemma {:induction false} HarmShows(
    s: Shard, retention: nat, ev: Event, best: Option<Snapshot>, p: nat, o: Expected)
    requires Sound(s, retention, best, p) && Durable(s, retention, o) && Enabled(s, retention, ev)
    requires Harmful(o, ev)
    ensures Restart(Next(s, retention, ev).disk, retention).version != Expect(o, ev).memory.version
  {
    var progress := if ev.Apply? then Fully else ev.progress;
    LineIsWritten(s, ev.entry, progress);
    WriteShows(s, retention, best, p, o, LineOf(ev.entry, progress));
  }

  /** A run can be trusted to be recovered at every point exactly when it has no harmful event. */
  lemma {:induction false} DurableExactly(retention: nat, evs: seq<Event>)
    requires retention > 0 && RunOf(retention, evs).Some?
    ensures (forall n :: 0 <= n <= |evs| ==> Recovers(retention, evs[..n])) <==> Harmless(evs)
  {
    if Harmless(evs) {
      forall n | 0 <= n <= |evs| ensures Recovers(retention, evs[..n]) {
        HarmlessPrefix(evs, n);
        RunPrefix(retention, evs, n);
        CrashDurability(retention, evs[..n]);
      }
    } else {
      var n := FirstHarm(evs);
      FirstHarmShows(retention, evs, n);
      assert !Recovers(retention, evs[..n + 1]);
    }
  }

  lemma {:induction false} FirstHarm(evs: seq<Event>) returns (n: nat)
    requires !Harmless(evs)
    ensures n < |evs| && Harmless(evs[..n]) && Harmful(Outcome(evs[..n]), evs[n])
    decreases |evs|
  {
    var last := |evs| - 1;
    if !Harmless(evs[..last]) {
      n := FirstHarm(evs[..last]);
      assert evs[..last][..n] == evs[..n];
    } else {
      n := last;
      if !Harmful(Outcome(evs[..last]), evs[last]) {
        HarmlessExtends(evs);
        assert false;
      }
    }
  }

  lemma {:induction false} HarmlessExtends(evs: seq<Event>)
    requires evs != [] && Harmless(evs[..|evs| - 1])
    requires !Harmful(Outcome(evs[..|evs| - 1]), evs[|evs| - 1])
    ensures Harmless(evs)
  {
    var init := evs[..|evs| - 1];
    forall i | 0 <= i < |evs| ensures !Harmful(Outcome(evs[..i]), evs[i]) {
      if i < |init| {
        assert init[..i] == evs[..i] && init[i] == evs[i];
      }
    }
  }

  lemma {:induction false} FirstHarmShows(retention: nat, evs: seq<Event>, n: nat)
    requires retention > 0 && RunOf(retention, evs).Some?
    requires n < |evs| && Harmless(evs[..n]) && Harmful(Outcome(evs[..n]), evs[n])
    ensures !Recovers(retention, evs[..n + 1])
  {
    var init := evs[..n];
    RunPrefix(retention, evs, n);
    RunPrefix(retention, evs, n + 1);
    assert evs[..n + 1][..n] == init;
    RunIsDurable(retention, init);
    var best, p := RunIsSound(retention, init);
    HarmShows(RunOf(retention, init).value, retention, evs[n], best, p, Outcome(init));
  }

  /** A refused operation at version 1, then an acknowledged put at version 1: a restart loses the put. */
  lemma {:induction false} RefusedLineLosesWrite(key: string, value: string, name: string)
    ensures var evs := [Apply(Entry(1, 1, Other(name), key, value)), Apply(Entry(1, 1, Put, key, value))];
            && RunOf(1, evs).Some?
            && RunOf(1, evs).value.memory == Snapshot(1, 1, map[key := value])
            && Restart(RunOf(1, evs).value.disk, 1) == Snapshot(1, 1, map[])
  {
    var refused, put := Entry(1, 1, Other(name), key, value), Entry(1, 1, Put, key, value);
    var evs := [Apply(refused), Apply(put)];
    var one, two := OnlyLog([Whole(refused)]), OnlyLog([Whole(refused), Whole(put)]);
    assert Next(INITIAL, 1, evs[0]) == Shard(one, EMPTY, 0);
    assert Next(Shard(one, EMPTY, 0), 1, evs[1]) == Shard(two, Snapshot(1, 1, map[key := value]), 0);
    TwoEvents(1, evs);
    ReadTwo(refused, put);
  }

  /** A write torn by a crash, then an acknowledged put behind it: a restart loses the put. */
  lemma {:induction false} TornLineLosesWrite(key: string, value: string)
    ensures var put := Entry(1, 1, Put, key, value);
            var evs := [CrashInApply(put, Partly), Apply(put)];
            && RunOf(1, evs).Some?
            && RunOf(1, evs).value.memory == Snapshot(1, 1, map[key := value])
            && Restart(RunOf(1, evs).value.disk, 1) == EMPTY
  {
    var put := Entry(1, 1, Put, key, value);
    var evs := [CrashInApply(put, Partly), Apply(put)];
    TwoEvents(1, evs);
    var torn := Do(INITIAL.disk, TearLine);
    assert torn.wal == [Torn] && ReadAll([Torn]) == [];
    assert Restart(torn, 1) == EMPTY;
  }

  /**
   A write cut by a crash before its newline, which the restart recovers, then an
   acknowledged put behind it: the next restart loses both.
   */
  lemma {:induction false} BareLineLosesBoth(a: string, b: string, value: string)
    ensures var first, put := Entry(1, 1, Put, a, value), Entry(1, 2, Put, b, value);
            var evs := [CrashInApply(first, Unterminated), Apply(put)];
            && RunOf(1, evs).Some?
            && RunOf(1, evs[..1]).value.memory == Snapshot(1, 1, map[a := value])
            && RunOf(1, evs).value.memory == Snapshot(1, 2, map[a := value][b := value])
            && Restart(RunOf(1, evs).value.disk, 1) == EMPTY
  {
    var first, put := Entry(1, 1, Put, a, value), Entry(1, 2, Put, b, value);
    var evs := [CrashInApply(first, Unterminated), Apply(put)];
    var one, two := OnlyLog([Bare(first)]), OnlyLog([Torn]);
    var kv := map[a := value];
    ReadBare(first);
    WrittenAfterBare(first, put);
    assert Next(INITIAL, 1, evs[0]) == Shard(one, Snapshot(1, 1, kv), 0);
    assert Next(Shard(one, Snapshot(1, 1, kv), 0), 1, evs[1]) == Shard(two, Snapshot(1, 2, kv[b := value]), 0);
    TwoEvents(1, evs);
    assert ReadAll([Torn]) == [];
  }

  function OnlyLog(wal: seq<Line>): Disk {
    Disk(map[], Absent, wal)
  }

  lemma {:induction false} WrittenAfterBare(e: Entry, put: Entry)
    ensures Do(INITIAL.disk, BareLine(e)) == OnlyLog([Bare(e)])
    ensures Do(OnlyLog([Bare(e)]), AppendLine(put)) == OnlyLog([Torn])
  {
    assert [] + [Bare(e)] == [Bare(e)] && [Bare(e)][0 := Torn] == [Torn];
  }

  lemma {:induction false} ReadBare(e: Entry)
    requires e.version > 0 && e.op.Put?
    ensures Restart(OnlyLog([Bare(e)]), 1) == Snapshot(e.term, e.version, map[e.key := e.value])
  {
    ReadAllAppend([], Bare(e));
    assert [] + [Bare(e)] == [Bare(e)] && [e] == [] + [e];
    ReplayLast(EMPTY, [], e);
  }

  lemma {:induction false} TwoEvents(retention: nat, evs: seq<Event>)
    requires retention > 0 && |evs| == 2 && Enabled(INITIAL, retention, evs[0])
    requires Enabled(Next(INITIAL, retention, evs[0]), retention, evs[1])
    ensures RunOf(retention, evs[..1]) == Some(Next(INITIAL, retention, evs[0]))
    ensures RunOf(retention, evs) == Some(Next(Next(INITIAL, retention, evs[0]), retention, evs[1]))
  {
    assert evs[..1] == [evs[0]] && [evs[0]][..0] == [];
    assert RunOf(retention, [evs[0]]) == Some(Next(INITIAL, retention, evs[0]));
  }

  lemma {:induction false} ReadTwo(a: Entry, b: Entry)
    ensures ReadAll([Whole(a), Whole(b)]) == [a, b]
    ensures ReplayOver(EMPTY, [a, b]) == ReplayOne(ReplayOne(EMPTY, a), b)
  {
    ReadAllAppend([], Whole(a));
    ReadAllAppend([Whole(a)], Whole(b));
    assert [Whole(a)] + [Whole(b)] == [Whole(a), Whole(b)] && [] + [Whole(a)] == [Whole(a)];
    assert [a, b] == [a] + [b] && [a] == [] + [a];
    ReplayLast(EMPTY, [a], b);
    ReplayLast(EMPTY, [], a);
  }

  /**
   A line torn by a crash is invisible to the load that follows, whatever the run
   before, exactly when it does not run into a bare line that is still needed.
   */
  lemma {:induction false} TornTailIsIgnoredExactly(retention: nat, evs: seq<Event>)
    requires retention > 0 && RunOf(retention, evs).Some?
    ensures var d := RunOf(retention, evs).value.disk;
            Restart(Do(d, TearLine), retention) == Restart(d, retention) <==> !NeedsBare(d, retention)
  {
    var s := RunOf(retention, evs).value;
    var best, p := RunIsSound(retention, evs);
    WrittenOk(s.disk.wal, s.memory.version, Torn);
    SoundLoads(s, retention, best, p);
    SoundLoads(s.(disk := Do(s.disk, TearLine)), retention, best, p);
    BodyReplayed(Base(s.disk.snaps, retention), s.disk.wal);
    WrittenReplayed(Base(s.disk.snaps, retention), s.disk.wal, Torn);
  }

  /** The log ends with a bare line newer than all before it. */
  predicate NeedsBare(d: Disk, retention: nat) {
    && EndsBare(d.wal)
    && d.wal[|d.wal| - 1].entry.version > Replayed(Base(d.snaps, retention), Body(d.wal)).version
  }

  /**
   At every allowed cut inside a snapshot operation of any run, start-up picks
   the newest completed snapshot: the one before, or the new one once saved. A
   cut that is not allowed loses the newest snapshot.
   */
  lemma {:induction false} RotationBound(retention: nat, evs: seq<Event>, snap: Snapshot, cut: Cut)
    requires retention > 0 && RunOf(retention, evs).Some?
    requires var s := RunOf(retention, evs).value;
             snap.version >= s.memory.version && CutPossible(s.disk, retention, cut)
    ensures var d := RunOf(retention, evs).value.disk;
            var after := CutDisk(d, retention, snap, cut).snaps;
            && (!cut.BeforeSave? ==> Base(after, retention) == snap)
            && (cut.BeforeSave? && Latest(d.snaps, retention).Some? ==>
                  (Latest(after, retention).Some? && Base(after, retention) == Base(d.snaps, retention)
                   <==> CutAllowed(d, retention, cut)))
  {
    var s := RunOf(retention, evs).value;
    var best, p := RunIsSound(retention, evs);
    SoundLoads(s, retention, best, p);
    HoldsIsPicked(s.disk.snaps, retention, best, p);
    if !cut.BeforeSave? {
      SoundSaved(s, retention, best, p, snap, cut, snap);
      SoundLoads(Interrupted(s, retention, snap, cut).(memory := snap), retention, Some(snap), 0);
    } else if best.Some? {
      CutKeepsExactly(s.disk, retention, best.value, p, snap, cut);
    }
  }

  /** While fewer than `retention` rotations are open, every cut is allowed. */
  lemma {:induction false} FewRotationsAllowEveryCut(retention: nat, evs: seq<Event>, cut: Cut)
    requires retention > 0 && RunOf(retention, evs).Some?
    requires RunOf(retention, evs).value.rotations + 1 < retention
    ensures CutAllowed(RunOf(retention, evs).value.disk, retention, cut)
  {
    var s := RunOf(retention, evs).value;
    var best, p := RunIsSound(retention, evs);
    HoldsIsPicked(s.disk.snaps, retention, best, p);
  }

  /**
   A snapshot carries the version of the write it follows and the data of the
   moment it is taken. Another write in between leaves a disk that start-up reads
   with all the data but at the older version, so the two fit exactly when there
   was none.
   */
  lemma {:induction false} LateSnapshotFitsExactly(retention: nat, evs: seq<Event>, term: nat, version: nat)
    requires retention > 0 && RunOf(retention, evs).Some?
    requires var s := RunOf(retention, evs).value;
             Base(s.disk.snaps, retention).version <= version <= s.memory.version
    ensures var s := RunOf(retention, evs).value;
            var snap := Snapshot(term, version, s.memory.kv);
            var read := Restart(CutDisk(s.disk, retention, snap, AfterTruncate), retention);
            && read.kv == s.memory.kv && read.term == term
            && (read.version == s.memory.version <==> version == s.memory.version)
  {
    var s := RunOf(retention, evs).value;
    var snap := Snapshot(term, version, s.memory.kv);
    var best, p := RunIsSound(retention, evs);
    SoundLoads(s, retention, best, p);
    CutState(s.disk, retention, snap, AfterTruncate);
    var best', q := RotateDone(s.disk, retention, best, p);
    SaveBecomesNewest(DoAll(s.disk, Rotate(s.disk, retention)).snaps, retention, best', q, snap);
    HoldsIsPicked(CutDisk(s.disk, retention, snap, AfterTruncate).snaps, retention, Some(snap), 0);
  }
}
