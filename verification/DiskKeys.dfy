/**
 What a shard knows of a key, in memory and after a restart: what the last
 completed event about it says.
 */
module DiskKeys {
  import opened Common
  import opened ReplicationLog
  import opened DiskEvents
  import opened DiskDurability

  /** The event makes a put or a delete count: applied, or cut by a crash but readable in the log. */
  predicate Writes(o: Expected, ev: Event) {
    match ev
    case Apply(e) => !e.op.Other?
    case CrashInApply(e, progress) => !e.op.Other? && o.tail.Clean? && (progress.Unterminated? || progress.Fully?)
    case _ => false
  }

  /** The event makes a snapshot count: installed, or cut by a crash once saved. */
  predicate Loads(ev: Event) {
    ev.Install? || (ev.CrashInInstall? && !ev.cut.BeforeSave?)
  }

  /** Event `i` settles what is known of the key. */
  predicate Settles(evs: seq<Event>, i: nat, k: string)
    requires i < |evs|
  {
    (Writes(Outcome(evs[..i]), evs[i]) && evs[i].entry.key == k) || Loads(evs[i])
  }

  predicate LastSettles(evs: seq<Event>, i: nat, k: string) {
    i < |evs| && Settles(evs, i, k) && forall j: nat :: i < j < |evs| ==> !Settles(evs, j, k)
  }

  predicate NothingSettles(evs: seq<Event>, k: string) {
    forall i: nat :: i < |evs| ==> !Settles(evs, i, k)
  }

  /** What the event says of the key: the value put, nothing after a delete, or what the snapshot holds. */
  function Said(ev: Event, k: string): Option<string>
    requires Loads(ev) || ev.Apply? || ev.CrashInApply?
  {
    if Loads(ev) then Known(ev.snapshot.kv, k)
    else if ev.entry.op.Put? then Some(ev.entry.value) else None
  }

  function Known(kv: map<string, string>, k: string): Option<string> {
    if k in kv then Some(kv[k]) else None
  }

  /** One event more: what it says, if it settles the key, and else what was known before. */
  lemma {:induction false} LastEventTells(evs: seq<Event>, k: string)
    requires evs != []
    ensures var n := |evs| - 1;
            Known(Outcome(evs).memory.kv, k) ==
            if Settles(evs, n, k) then Said(evs[n], k) else Known(Outcome(evs[..n]).memory.kv, k)
  {
    var n := |evs| - 1;
    var o := Outcome(evs[..n]);
    match evs[n]
    case Apply(e) => UpdateTakes(o.memory.kv, e);
    case CrashInApply(e, _) => UpdateTakes(o.memory.kv, e);
    case _ =>
  }

  lemma {:induction false} SettlesBefore(evs: seq<Event>, i: nat, k: string)
    requires i < |evs| - 1
    ensures Settles(evs, i, k) <==> Settles(evs[..|evs| - 1], i, k)
  {
    assert evs[..|evs| - 1][..i] == evs[..i];
  }

  lemma {:induction false} LastSettlesBefore(evs: seq<Event>, i: nat, k: string)
    requires LastSettles(evs, i, k) && i < |evs| - 1
    ensures LastSettles(evs[..|evs| - 1], i, k) && !Settles(evs, |evs| - 1, k)
  {
    var init := evs[..|evs| - 1];
    SettlesBefore(evs, i, k);
    forall j: nat | i < j < |init| ensures !Settles(init, j, k) {
      SettlesBefore(evs, j, k);
    }
  }

  lemma {:induction false} NothingSettlesBefore(evs: seq<Event>, k: string)
    requires NothingSettles(evs, k) && evs != []
    ensures NothingSettles(evs[..|evs| - 1], k)
  {
    var init := evs[..|evs| - 1];
    forall j: nat | j < |init| ensures !Settles(init, j, k) {
      SettlesBefore(evs, j, k);
    }
  }

  /** What the events amount to for a key is what the last event that settles it says. */
  lemma {:induction false} OutcomeTells(evs: seq<Event>, k: string, i: nat)
    requires LastSettles(evs, i, k)
    ensures Known(Outcome(evs).memory.kv, k) == Said(evs[i], k)
    decreases |evs|
  {
    LastEventTells(evs, k);
    if i < |evs| - 1 {
      LastSettlesBefore(evs, i, k);
      OutcomeTells(evs[..|evs| - 1], k, i);
    }
  }

  /** Without such an event the key is unknown. */
  lemma {:induction false} OutcomeOfNone(evs: seq<Event>, k: string)
    requires NothingSettles(evs, k)
    ensures Known(Outcome(evs).memory.kv, k) == None
    decreases |evs|
  {
    if evs != [] {
      LastEventTells(evs, k);
      NothingSettlesBefore(evs, k);
      OutcomeOfNone(evs[..|evs| - 1], k);
    }
  }

  /** After any run without a harmful event, memory and a restart know of a key what its last settling event says. */
  lemma {:induction false} KeysSurvive(retention: nat, evs: seq<Event>, k: string)
    requires retention > 0 && RunOf(retention, evs).Some? && Harmless(evs)
    ensures var s := RunOf(retention, evs).value;
            && Known(Restart(s.disk, retention).kv, k) == Known(s.memory.kv, k)
            && (forall i: nat :: LastSettles(evs, i, k) ==> Known(s.memory.kv, k) == Said(evs[i], k))
            && (NothingSettles(evs, k) ==> Known(s.memory.kv, k) == None)
  {
    CrashDurability(retention, evs);
    forall i: nat | LastSettles(evs, i, k) ensures Known(Outcome(evs).memory.kv, k) == Said(evs[i], k) {
      OutcomeTells(evs, k, i);
    }
    if NothingSettles(evs, k) {
      OutcomeOfNone(evs, k);
    }
  }
}
