/**
 Runs of a shard over its disk: applies, adopted terms, snapshots and installs,
 each of which may complete or be cut by a crash after any of its file effects
 and followed by a restart; and what a run should come to, told from its events
 alone.
 */
module DiskEvents {
  import opened Common
  import opened ReplicationLog
  import opened DiskModel

  /**
   A replica's memory and disk. `rotations` counts the rotations begun since
   the last completed `Save`.
   */
  datatype Shard = Shard(disk: Disk, memory: Snapshot, rotations: nat)

  /** How much of a log line had reached the disk; an unterminated one lacks its newline. */
  datatype Progress = Unwritten | Partly | Unterminated | Fully

  /** Where a crash cut a snapshot operation; before the save, after how many file effects. */
  datatype Cut = BeforeSave(effects: nat) | AfterSave | AfterTruncate

  datatype Event =
    | Apply(entry: Entry)
    | CrashInApply(entry: Entry, progress: Progress)
    | AdoptTerm(term: nat)
    | Take(term: nat)
    | CrashInTake(term: nat, cut: Cut)
    | Install(snapshot: Snapshot)
    | CrashInInstall(snapshot: Snapshot, cut: Cut)

  // ---------------------------------------------------------------- what happens

  /** What start-up puts into memory; a fresh or unreadable disk leaves it empty. */
  function Restart(d: Disk, retention: nat): Snapshot {
    var r := Load(d, retention);
    if r.Loaded? then r.state else EMPTY
  }

  function Reboot(s: Shard, retention: nat): Shard {
    s.(memory := Restart(s.disk, retention))
  }

  /** The checks an entry passes before it is logged; its operation is looked at only afterwards. */
  predicate Applicable(m: Snapshot, e: Entry) {
    e.version == m.version + 1 && e.term >= m.term
  }

  /** An unknown operation is refused, and changes nothing in memory. */
  function Applied(m: Snapshot, e: Entry): Snapshot {
    if e.op.Other? then m else Snapshot(e.term, e.version, Update(m.kv, e))
  }

  function LineWritten(d: Disk, e: Entry, progress: Progress): Disk {
    match progress
    case Unwritten => d
    case Partly => Do(d, TearLine)
    case Unterminated => Do(d, BareLine(e))
    case Fully => Do(d, AppendLine(e))
  }

  /** The number of file effects before the cut. */
  function CutIndex(d: Disk, retention: nat, cut: Cut): nat
    requires retention > 0
  {
    match cut
    case BeforeSave(n) => n
    case AfterSave => |Rotate(d, retention)| + 3
    case AfterTruncate => |Rotate(d, retention)| + 4
  }

  predicate CutPossible(d: Disk, retention: nat, cut: Cut)
    requires retention > 0
  {
    cut.BeforeSave? ==> cut.effects < |Rotate(d, retention)| + 3
  }

  /** The cut leaves the newest snapshot where start-up looks: it is not pushed out of the last slot. */
  predicate CutAllowed(d: Disk, retention: nat, cut: Cut) {
    var l := Latest(d.snaps, retention);
    retention == 1 || !cut.BeforeSave? || cut.effects < 2 || l.None? || l.value + 1 < retention
  }

  function CutDisk(d: Disk, retention: nat, snap: Snapshot, cut: Cut): Disk
    requires retention > 0 && CutPossible(d, retention, cut)
  {
    DoAll(d, SnapshotEffects(d, retention, snap)[..CutIndex(d, retention, cut)])
  }

  /** A snapshot operation up to the cut. */
  function Interrupted(s: Shard, retention: nat, snap: Snapshot, cut: Cut): Shard
    requires retention > 0 && CutPossible(s.disk, retention, cut)
  {
    Shard(CutDisk(s.disk, retention, snap, cut), s.memory, if cut.BeforeSave? then s.rotations + 1 else 0)
  }

  /** A snapshot of memory; its term is that of the write it follows, and memory may have moved on since. */
  function Pictured(m: Snapshot, term: nat): Snapshot {
    m.(term := term)
  }

  predicate Enabled(s: Shard, retention: nat, ev: Event)
    requires retention > 0
  {
    match ev
    case Apply(e) => Applicable(s.memory, e)
    case CrashInApply(e, _) => Applicable(s.memory, e)
    case AdoptTerm(t) => t >= s.memory.term
    case Take(t) => t <= s.memory.term
    case CrashInTake(t, cut) =>
      t <= s.memory.term && CutPossible(s.disk, retention, cut) && CutAllowed(s.disk, retention, cut)
    case Install(snap) => snap.version >= s.memory.version
    case CrashInInstall(snap, cut) =>
      snap.version >= s.memory.version && CutPossible(s.disk, retention, cut) && CutAllowed(s.disk, retention, cut)
  }

  function Next(s: Shard, retention: nat, ev: Event): Shard
    requires retention > 0 && Enabled(s, retention, ev)
  {
    match ev
    case Apply(e) => s.(disk := Do(s.disk, AppendLine(e)), memory := Applied(s.memory, e))
    case CrashInApply(e, progress) => Reboot(s.(disk := LineWritten(s.disk, e, progress)), retention)
    case AdoptTerm(t) => s.(memory := s.memory.(term := t))
    case Take(t) => Interrupted(s, retention, Pictured(s.memory, t), AfterTruncate)
    case CrashInTake(t, cut) => Reboot(Interrupted(s, retention, Pictured(s.memory, t), cut), retention)
    case Install(snap) => Interrupted(s, retention, snap, AfterTruncate).(memory := snap)
    case CrashInInstall(snap, cut) => Reboot(Interrupted(s, retention, snap, cut), retention)
  }

  const INITIAL := Shard(Disk(map[], Absent, []), EMPTY, 0)

  /** The shard after the events, if each of them was possible in its turn. */
  function RunOf(retention: nat, evs: seq<Event>): Option<Shard>
    requires retention > 0
  {
    if evs == [] then Some(INITIAL)
    else
      var before := RunOf(retention, evs[..|evs| - 1]);
      if before.Some? && Enabled(before.value, retention, evs[|evs| - 1])
      then Some(Next(before.value, retention, evs[|evs| - 1]))
      else None
  }

  // ---------------------------------------------------------------- what should happen

  /**
   How the log ends: with a whole line; with a bare line whose entry counts; or so
   that nothing written behind it can be read, and nothing that counts is lost.
   */
  datatype Tail = Clean | Open | Broken

  /**
   What the events amount to: the state in memory, the term that state had when
   it was last written, and how the log ends.
   */
  datatype Expected = Expected(memory: Snapshot, saved: nat, tail: Tail)

  /** A restart forgets a term that was only adopted. */
  function Restarted(o: Expected): Expected {
    o.(memory := o.memory.(term := o.saved))
  }

  /** A saved snapshot makes the entry of a bare line superfluous; the line itself goes only with the log. */
  function TailAfter(tail: Tail, cut: Cut): Tail {
    match cut
    case BeforeSave(_) => tail
    case AfterSave => if tail.Clean? then Clean else Broken
    case AfterTruncate => Clean
  }

  /** A snapshot of `memory`, which is to be in memory itself, with its term. */
  function SnapshotOutcome(o: Expected, memory: Snapshot, term: nat, cut: Cut): Expected {
    if cut.BeforeSave? then o else Expected(memory, term, TailAfter(o.tail, cut))
  }

  function ApplyOutcome(o: Expected, e: Entry): Expected {
    o.(memory := Applied(o.memory, e), saved := if e.op.Other? then o.saved else e.term,
       tail := if o.tail.Clean? then Clean else Broken)
  }

  /** An entry takes effect if all of it was written where it can be read. */
  function LineOutcome(o: Expected, e: Entry, progress: Progress): Expected {
    match progress
    case Unwritten => o
    case Partly => o.(tail := Broken)
    case Unterminated => if o.tail.Clean? then ApplyOutcome(o, e).(tail := Open) else o.(tail := Broken)
    case Fully => if o.tail.Clean? then ApplyOutcome(o, e) else o.(tail := Broken)
  }

  /** Completed events take effect; one cut by a crash does if its last write had reached the disk. */
  function Expect(o: Expected, ev: Event): Expected {
    match ev
    case Apply(e) => ApplyOutcome(o, e)
    case CrashInApply(e, progress) => Restarted(LineOutcome(o, e, progress))
    case AdoptTerm(t) => o.(memory := o.memory.(term := t))
    case Take(t) => SnapshotOutcome(o, o.memory, t, AfterTruncate)
    case CrashInTake(t, cut) => Restarted(SnapshotOutcome(o, o.memory, t, cut))
    case Install(snap) => SnapshotOutcome(o, snap, snap.term, AfterTruncate)
    case CrashInInstall(snap, cut) => Restarted(SnapshotOutcome(o, snap, snap.term, cut))
  }

  function Outcome(evs: seq<Event>): Expected {
    if evs == [] then Expected(EMPTY, 0, Clean) else Expect(Outcome(evs[..|evs| - 1]), evs[|evs| - 1])
  }

  /**
   The events after which the disk no longer tells what happened: a refused
   operation whose line was written all the same, a write behind a torn line, and
   any write, even one cut short, behind a bare line.
   */
  predicate Harmful(o: Expected, ev: Event) {
    match ev
    case Apply(e) => o.tail.Open? || (e.op.Other? <==> o.tail.Clean?)
    case CrashInApply(e, progress) =>
      && !progress.Unwritten?
      && (o.tail.Open? || (o.tail.Clean? && e.op.Other? && !progress.Partly?))
    case _ => false
  }

  ghost predicate Harmless(evs: seq<Event>) {
    forall n :: 0 <= n < |evs| ==> !Harmful(Outcome(evs[..n]), evs[n])
  }
}
