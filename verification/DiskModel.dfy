/**
 What a shard keeps on disk, the single file effects that change it, and what
 start-up reads back.

 Every disk operation is a list of file effects; a crash may stop it after any
 prefix of the list.
 */
module DiskModel {
  import opened Common
  import opened ReplicationLog

  /** Shard state at one version: the content of a snapshot, and what start-up returns. */
  datatype Snapshot = Snapshot(term: nat, version: nat, kv: map<string, string>)

  /**
   One line of the write-ahead log. A crash may cut a write short: before the
   last byte of the entry, which leaves a torn line, or between the entry and its
   newline, which leaves a bare one. A bare line can still be decoded.
   */
  datatype Line = Whole(entry: Entry) | Bare(entry: Entry) | Torn

  /** The temporary file that `Save` fills before renaming it into place. */
  datatype Temp = Absent | Partial | Complete(snapshot: Snapshot)

  /** `snaps[0]` is `snapshot.json`, `snaps[i]` is `snapshot.json.i`. */
  datatype Disk = Disk(snaps: map<nat, Snapshot>, temp: Temp, wal: seq<Line>)

  const EMPTY := Snapshot(0, 0, map[])

  // ---------------------------------------------------------------- file effects

  datatype Effect =
    | RemoveSnap(index: nat)
    | RenameSnap(from: nat, to: nat)
    | CreateTemp
    | FillTemp(snapshot: Snapshot)
    | CommitTemp
    | TruncateWal
    | AppendLine(entry: Entry)
    | BareLine(entry: Entry)
    | TearLine

  function Do(d: Disk, e: Effect): Disk {
    match e
    case RemoveSnap(i) => d.(snaps := d.snaps - {i})
    case RenameSnap(i, j) => if i in d.snaps then d.(snaps := (d.snaps - {i})[j := d.snaps[i]]) else d
    case CreateTemp => d.(temp := Partial)
    case FillTemp(s) => d.(temp := Complete(s))
    case CommitTemp =>
      if d.temp.Complete? then d.(snaps := d.snaps[0 := d.temp.snapshot], temp := Absent) else d
    case TruncateWal => d.(wal := [])
    case AppendLine(x) => d.(wal := Written(d.wal, Whole(x)))
    case BareLine(x) => d.(wal := Written(d.wal, Bare(x)))
    case TearLine => d.(wal := Written(d.wal, Torn))
  }

  /** What is written behind a line without its newline runs into it, and neither can be decoded. */
  function Written(wal: seq<Line>, l: Line): seq<Line> {
    if wal == [] || wal[|wal| - 1].Whole? then wal + [l] else wal[|wal| - 1 := Torn]
  }

  function DoAll(d: Disk, es: seq<Effect>): Disk
    decreases |es|
  {
    if es == [] then d else DoAll(Do(d, es[0]), es[1..])
  }

  lemma {:induction false} DoAllConcat(d: Disk, a: seq<Effect>, b: seq<Effect>)
    ensures DoAll(d, a + b) == DoAll(DoAll(d, a), b)
    decreases |a|
  {
    if a == [] {
      assert a + b == b;
    } else {
      assert (a + b)[0] == a[0] && (a + b)[1..] == a[1..] + b;
      DoAllConcat(Do(d, a[0]), a[1..], b);
    }
  }

  /** The effects of one round of the rotation loop: slot `i` moves up by one. */
  function Round(d: Disk, retention: nat, i: nat): seq<Effect> {
    var clear := if i == retention - 1 then [RemoveSnap(i + 1)] else [];
    clear + if i in DoAll(d, clear).snaps then [RenameSnap(i, i + 1)] else []
  }

  /** The rounds that make room for a new `snaps[0]`, from slot `i` down. */
  function RotateFrom(d: Disk, retention: nat, i: nat): seq<Effect>
    decreases i
  {
    var round := Round(d, retention, i);
    if i == 0 then round else round + RotateFrom(DoAll(d, round), retention, i - 1)
  }

  function Rotate(d: Disk, retention: nat): seq<Effect>
    requires retention > 0
  {
    if retention <= 1 then [] else RotateFrom(d, retention, retention - 1)
  }

  /** Replace `snaps[0]` through the temporary file. */
  function Save(s: Snapshot): seq<Effect> {
    [CreateTemp, FillTemp(s), CommitTemp]
  }

  /** All effects of taking or installing a snapshot. */
  function SnapshotEffects(d: Disk, retention: nat, s: Snapshot): seq<Effect>
    requires retention > 0
  {
    Rotate(d, retention) + Save(s) + [TruncateWal]
  }

  // ---------------------------------------------------------------- start-up

  /** The entries before the first line that cannot be decoded. */
  function ReadAll(lines: seq<Line>): seq<Entry> {
    if lines == [] || lines[0].Torn? then [] else [lines[0].entry] + ReadAll(lines[1..])
  }

  predicate NonDecreasing(es: seq<Entry>) {
    forall i, j :: 0 <= i <= j < |es| ==> es[i].version <= es[j].version
  }

  /** The versions fall between two places. */
  predicate Falls(es: seq<Entry>, i: int, j: int)
    requires 0 <= i < j < |es|
  {
    es[i].version > es[j].version
  }

  /**
   The snapshot start-up begins from: the highest version among the first
   `retention` files, the lowest index on ties.
   */
  function Latest(snaps: map<nat, Snapshot>, retention: nat): (r: Option<nat>)
    ensures r.None? <==> forall i: nat :: i < retention ==> i !in snaps
    ensures r.Some? ==>
              && r.value < retention && r.value in snaps
              && (forall j :: j in snaps && j < retention ==> snaps[j].version <= snaps[r.value].version)
              && (forall j :: j in snaps && j < r.value ==> snaps[j].version < snaps[r.value].version)
  {
    if retention == 0 then None
    else
      var i := retention - 1;
      var best := Latest(snaps, i);
      if i in snaps && (best.None? || snaps[i].version > snaps[best.value].version) then Some(i) else best
  }

  /** One entry replayed over a state; entries the state already includes are skipped. */
  function ReplayOne(s: Snapshot, e: Entry): Snapshot {
    if e.version <= s.version then s
    else Snapshot(if e.term > s.term then e.term else s.term, e.version, Update(s.kv, e))
  }

  function ReplayOver(s: Snapshot, es: seq<Entry>): Snapshot {
    if es == [] then s else ReplayOne(ReplayOver(s, es[..|es| - 1]), es[|es| - 1])
  }

  datatype LoadResult = Fresh | NonMonotonic | Loaded(state: Snapshot)

  function Base(snaps: map<nat, Snapshot>, retention: nat): Snapshot {
    var best := Latest(snaps, retention);
    if best.Some? then snaps[best.value] else EMPTY
  }

  function Load(d: Disk, retention: nat): LoadResult {
    var es := ReadAll(d.wal);
    if Latest(d.snaps, retention).None? && es == [] then Fresh
    else if !NonDecreasing(es) then NonMonotonic
    else Loaded(ReplayOver(Base(d.snaps, retention), es))
  }

  // ---------------------------------------------------------------- basic facts

  lemma {:induction false} ReadAllAppend(lines: seq<Line>, l: Line)
    requires Torn !in lines
    ensures ReadAll(lines + [l]) == ReadAll(lines) + if l.Torn? then [] else [l.entry]
    ensures |ReadAll(lines)| == |lines|
    ensures forall i :: 0 <= i < |lines| ==> ReadAll(lines)[i] == lines[i].entry
  {
    if lines == [] {
      assert lines + [l] == [l];
      assert ReadAll([l]) == if l.Torn? then [] else [l.entry] + ReadAll([l][1..]);
    } else {
      assert lines[0] in lines;
      assert (lines + [l])[1..] == lines[1..] + [l];
      ReadAllAppend(lines[1..], l);
    }
  }

  /** Reading yields the entries of all lines before the first torn one, and stops there. */
  lemma {:induction false} ReadAllExactly(lines: seq<Line>)
    ensures var n := |ReadAll(lines)|;
            && n <= |lines| && (n < |lines| ==> lines[n].Torn?)
            && forall i :: 0 <= i < n ==> !lines[i].Torn? && ReadAll(lines)[i] == lines[i].entry
  {
    if lines != [] && !lines[0].Torn? {
      ReadAllExactly(lines[1..]);
    }
  }

  lemma {:induction false} ReadAllStopsAtTorn(a: seq<Line>, b: seq<Line>)
    requires Torn !in a
    ensures ReadAll(a + [Torn] + b) == ReadAll(a)
  {
    if a == [] {
      assert a + [Torn] + b == [Torn] + b;
    } else {
      assert a[0] in a;
      assert (a + [Torn] + b)[1..] == a[1..] + [Torn] + b;
      assert (a + [Torn] + b)[0] == a[0];
      ReadAllStopsAtTorn(a[1..], b);
    }
  }

  lemma {:induction false} DoOne(d: Disk, e: Effect)
    ensures DoAll(d, [e]) == Do(d, e)
  {
    assert DoAll(d, [e]) == DoAll(Do(d, e), [e][1..]);
  }

  /** Entries no newer than the base change nothing. */
  lemma {:induction false} ReplaySkips(s: Snapshot, es: seq<Entry>)
    requires forall i :: 0 <= i < |es| ==> es[i].version <= s.version
    ensures ReplayOver(s, es) == s
  {
    if es != [] {
      ReplaySkips(s, es[..|es| - 1]);
    }
  }

  lemma {:induction false} ReplayBounds(s: Snapshot, es: seq<Entry>)
    ensures ReplayOver(s, es).version >= s.version
    ensures forall i :: 0 <= i < |es| ==> es[i].version <= ReplayOver(s, es).version
  {
    if es != [] {
      ReplayBounds(s, es[..|es| - 1]);
    }
  }

  /** Entry `i` is newer than the base and than every entry before it, so it is replayed and not skipped. */
  predicate Taken(base: Snapshot, es: seq<Entry>, i: nat) {
    i < |es| && es[i].version > base.version && forall j :: 0 <= j < i ==> es[j].version < es[i].version
  }

  /** Entry `i` is the last one about the key that is replayed. */
  predicate LastTaken(base: Snapshot, es: seq<Entry>, k: string, i: nat) {
    && Taken(base, es, i) && About(es[i], k)
    && forall j: nat :: i < j < |es| && Taken(base, es, j) ==> !About(es[j], k)
  }

  predicate NoneTaken(base: Snapshot, es: seq<Entry>, k: string) {
    forall i: nat :: i < |es| && Taken(base, es, i) ==> !About(es[i], k)
  }

  /** Of a key, a replay says what the last replayed entry about it says, and without one what the snapshot says. */
  ghost predicate ReplayTellsOf(base: Snapshot, es: seq<Entry>, kv: map<string, string>, k: string) {
    && (forall i: nat :: LastTaken(base, es, k, i) ==>
          (k in kv <==> es[i].op.Put?) && (es[i].op.Put? ==> kv[k] == es[i].value))
    && (NoneTaken(base, es, k) ==> (k in kv <==> k in base.kv) && (k in kv ==> kv[k] == base.kv[k]))
  }

  lemma {:induction false} TakenBefore(base: Snapshot, es: seq<Entry>, i: nat)
    requires i < |es| - 1
    ensures Taken(base, es, i) <==> Taken(base, es[..|es| - 1], i)
  {
    assert forall j :: 0 <= j <= i ==> es[..|es| - 1][j] == es[j];
  }

  lemma {:induction false} LastIsTaken(base: Snapshot, es: seq<Entry>)
    requires es != []
    ensures Taken(base, es, |es| - 1) <==> es[|es| - 1].version > ReplayOver(base, es[..|es| - 1]).version
  {
    var n := |es| - 1;
    ReplayBounds(base, es[..n]);
    ReplayReaches(base, es[..n]);
    assert forall j :: 0 <= j < n ==> es[..n][j] == es[j];
  }

  /** Replay ends at the version of the base or of an entry. */
  lemma {:induction false} ReplayReaches(base: Snapshot, es: seq<Entry>)
    ensures var v := ReplayOver(base, es).version;
            v == base.version || exists i :: 0 <= i < |es| && es[i].version == v
  {
    if es != [] {
      var n := |es| - 1;
      ReplayReaches(base, es[..n]);
      if es[n].version <= ReplayOver(base, es[..n]).version && ReplayOver(base, es).version != base.version {
        var i :| 0 <= i < n && es[..n][i].version == ReplayOver(base, es).version;
        assert es[i].version == ReplayOver(base, es).version;
      }
    }
  }

  /** One entry more: what it says, if it is about the key and replayed, and else what was known before. */
  lemma {:induction false} ReplayOneTells(s: Snapshot, e: Entry, k: string)
    ensures var kv := ReplayOne(s, e).kv;
            if e.version > s.version && About(e, k)
            then (k in kv <==> e.op.Put?) && (e.op.Put? ==> kv[k] == e.value)
            else (k in kv <==> k in s.kv) && (k in kv ==> kv[k] == s.kv[k])
  {
    UpdateTakes(s.kv, e);
  }

  lemma {:induction false} ReplayOfLastTaken(base: Snapshot, es: seq<Entry>, k: string, i: nat)
    requires LastTaken(base, es, k, i)
    ensures var kv := ReplayOver(base, es).kv;
            (k in kv <==> es[i].op.Put?) && (es[i].op.Put? ==> kv[k] == es[i].value)
    decreases |es|
  {
    var n := |es| - 1;
    LastIsTaken(base, es);
    ReplayOneTells(ReplayOver(base, es[..n]), es[n], k);
    if i < n {
      LastTakenBefore(base, es, k, i);
      ReplayOfLastTaken(base, es[..n], k, i);
    }
  }

  lemma {:induction false} LastTakenBefore(base: Snapshot, es: seq<Entry>, k: string, i: nat)
    requires LastTaken(base, es, k, i) && i < |es| - 1
    ensures LastTaken(base, es[..|es| - 1], k, i)
  {
    var init := es[..|es| - 1];
    TakenBefore(base, es, i);
    forall j: nat | i < j < |init| && Taken(base, init, j) ensures !About(init[j], k) {
      TakenBefore(base, es, j);
    }
  }

  lemma {:induction false} ReplayOfNoneTaken(base: Snapshot, es: seq<Entry>, k: string)
    requires NoneTaken(base, es, k)
    ensures var kv := ReplayOver(base, es).kv;
            (k in kv <==> k in base.kv) && (k in kv ==> kv[k] == base.kv[k])
    decreases |es|
  {
    if es != [] {
      var n := |es| - 1;
      LastIsTaken(base, es);
      ReplayOneTells(ReplayOver(base, es[..n]), es[n], k);
      forall j: nat | j < n && Taken(base, es[..n], j) ensures !About(es[..n][j], k) {
        TakenBefore(base, es, j);
      }
      ReplayOfNoneTaken(base, es[..n], k);
    }
  }

  lemma {:induction false} ReplayOverTells(base: Snapshot, es: seq<Entry>, k: string)
    ensures ReplayTellsOf(base, es, ReplayOver(base, es).kv, k)
  {
    forall i: nat | LastTaken(base, es, k, i)
      ensures var kv := ReplayOver(base, es).kv;
              (k in kv <==> es[i].op.Put?) && (es[i].op.Put? ==> kv[k] == es[i].value)
    {
      ReplayOfLastTaken(base, es, k, i);
    }
    if NoneTaken(base, es, k) {
      ReplayOfNoneTaken(base, es, k);
    }
  }

  /** The last line has its newline, or there is none. */
  predicate EndsWhole(wal: seq<Line>) {
    wal == [] || wal[|wal| - 1].Whole?
  }

  /**
   An appended entry is read back, behind all that was read before, exactly when
   no torn line precedes it and the last line is not a bare one.
   */
  lemma {:induction false} AppendReadableExactly(d: Disk, e: Entry)
    ensures ReadAll(Do(d, AppendLine(e)).wal) == ReadAll(d.wal) + [e] <==> Torn !in d.wal && EndsWhole(d.wal)
  {
    if Torn in d.wal {
      AppendBehindTorn(d, e);
    } else if EndsWhole(d.wal) {
      ReadAllAppend(d.wal, Whole(e));
    } else {
      AppendBehindBare(d, e);
    }
  }

  lemma {:induction false} AppendBehindTorn(d: Disk, e: Entry)
    requires Torn in d.wal
    ensures ReadAll(Do(d, AppendLine(e)).wal) == ReadAll(d.wal)
  {
    var i := FirstTorn(d.wal);
    var after := Do(d, AppendLine(e)).wal;
    assert d.wal == d.wal[..i] + [Torn] + d.wal[i + 1..];
    assert after == after[..i] + [Torn] + after[i + 1..] && after[..i] == d.wal[..i];
    ReadAllStopsAtTorn(d.wal[..i], d.wal[i + 1..]);
    ReadAllStopsAtTorn(after[..i], after[i + 1..]);
  }

  /** Behind a bare line, both entries are lost. */
  lemma {:induction false} AppendBehindBare(d: Disk, e: Entry)
    requires Torn !in d.wal && !EndsWhole(d.wal)
    ensures ReadAll(d.wal) == ReadAll(Do(d, AppendLine(e)).wal) + [d.wal[|d.wal| - 1].entry]
  {
    var n := |d.wal| - 1;
    assert d.wal[n] in d.wal;
    assert d.wal == d.wal[..n] + [d.wal[n]];
    ReadAllAppend(d.wal[..n], d.wal[n]);
    ReadAllStopsAtTorn(d.wal[..n], []);
    assert d.wal[n := Torn] == d.wal[..n] + [Torn] + [];
  }

  lemma {:induction false} FirstTorn(lines: seq<Line>) returns (i: nat)
    requires Torn in lines
    ensures i < |lines| && lines[i].Torn? && Torn !in lines[..i]
  {
    if lines[0].Torn? {
      i := 0;
    } else {
      var j := FirstTorn(lines[1..]);
      i := j + 1;
      assert lines[..i] == [lines[0]] + lines[1..][..j];
    }
  }
}
