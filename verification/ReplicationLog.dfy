/**
 The bounded in-memory log of recent writes kept by every replica, and the full
 history it is a window onto.
 */
module ReplicationLog {
  import opened Common

  datatype Op = Put | Delete | Other(name: string)

  datatype Entry = Entry(term: nat, version: nat, op: Op, key: string, value: string)

  const DEFAULT_SIZE: nat := 1000

  /** The last `n` elements, or all of them if there are fewer. */
  function LastN<T>(s: seq<T>, n: nat): seq<T> {
    if |s| <= n then s else s[|s| - n..]
  }

  /** The entries newer than `since`, in order. */
  function Newer(entries: seq<Entry>, since: nat): seq<Entry> {
    if entries == [] then []
    else
      var rest := Newer(entries[..|entries| - 1], since);
      if entries[|entries| - 1].version > since then rest + [entries[|entries| - 1]] else rest
  }

  /** Some entries after `since` have been evicted. */
  predicate Evicted(entries: seq<Entry>, since: nat) {
    entries != [] && entries[0].version > since + 1
  }

  class Log {
    var entries: seq<Entry>
    const maxSize: nat

    ghost predicate Valid()
      reads this
    {
      0 < maxSize && |entries| <= maxSize
    }

    constructor (size: int)
      ensures Valid() && entries == []
      ensures maxSize == if size <= 0 then DEFAULT_SIZE else size
    {
      maxSize := if size <= 0 then DEFAULT_SIZE else size;
      entries := [];
    }

    /** Keeps the newest `maxSize` entries. */
    method Append(e: Entry)
      requires Valid()
      modifies this
      ensures Valid()
      ensures entries == LastN(old(entries) + [e], maxSize)
    {
      if |entries| >= maxSize {
        entries := entries[1..];
      }
      entries := entries + [e];
    }

    method Since(since: nat) returns (result: seq<Entry>, ok: bool)
      ensures ok <==> !Evicted(entries, since)
      ensures result == if ok then Newer(entries, since) else []
    {
      if |entries| == 0 {
        return [], true;
      }
      if entries[0].version > since + 1 {
        return [], false;
      }
      result := [];
      for i := 0 to |entries|
        invariant result == Newer(entries[..i], since)
      {
        assert entries[..i + 1][..i] == entries[..i];
        if entries[i].version > since {
          result := result + [entries[i]];
        }
      }
      assert entries[..|entries|] == entries;
      ok := true;
    }

    method Reset()
      requires Valid()
      modifies this
      ensures Valid() && entries == []
    {
      entries := [];
    }
  }

  // ---------------------------------------------------------------- histories

  /** A full history: versions count up from 1 and every operation is a put or a delete. */
  ghost predicate History(h: seq<Entry>) {
    forall i :: 0 <= i < |h| ==> h[i].version == i + 1 && !h[i].op.Other?
  }

  /** The log is the stretch of the history that ends at `version`. */
  ghost predicate WindowOf(entries: seq<Entry>, h: seq<Entry>, version: nat) {
    && |entries| <= version <= |h|
    && forall i :: 0 <= i < |entries| ==> entries[i] == h[version - |entries| + i]
  }

  /** The key-value map after a history, from an empty store. */
  function Replay(h: seq<Entry>): map<string, string> {
    if h == [] then map[] else Update(Replay(h[..|h| - 1]), h[|h| - 1])
  }

  function Update(kv: map<string, string>, e: Entry): map<string, string> {
    match e.op
    case Put => kv[e.key := e.value]
    case Delete => kv - {e.key}
    case Other(_) => kv
  }

  /** A put sets its key, a delete removes it, anything else changes nothing; no other key is touched. */
  ghost predicate Takes(kv: map<string, string>, e: Entry, kv': map<string, string>) {
    && (e.op.Put? ==> e.key in kv' && kv'[e.key] == e.value)
    && (e.op.Delete? ==> e.key !in kv')
    && (e.op.Other? ==> kv' == kv)
    && forall k :: k != e.key ==> (k in kv' <==> k in kv) && (k in kv ==> kv'[k] == kv[k])
  }

  lemma {:induction false} UpdateTakes(kv: map<string, string>, e: Entry)
    ensures Takes(kv, e, Update(kv, e))
  {
  }

  // ---------------------------------------------------------------- what the data says of a key

  predicate About(e: Entry, k: string) {
    e.key == k && !e.op.Other?
  }

  /** Entry `i` is the last one about the key. */
  predicate LastAbout(es: seq<Entry>, k: string, i: nat) {
    i < |es| && About(es[i], k) && forall j :: i < j < |es| ==> !About(es[j], k)
  }

  predicate NoneAbout(es: seq<Entry>, k: string) {
    forall i :: 0 <= i < |es| ==> !About(es[i], k)
  }

  lemma {:induction false} FindLast(es: seq<Entry>, k: string) returns (i: nat)
    requires !NoneAbout(es, k)
    ensures LastAbout(es, k, i)
  {
    var n := |es| - 1;
    if About(es[n], k) {
      i := n;
    } else {
      i := FindLast(es[..n], k);
    }
  }

  lemma {:induction false} ReplayOfLast(h: seq<Entry>, k: string, i: nat)
    requires LastAbout(h, k, i)
    ensures k in Replay(h) <==> h[i].op.Put?
    ensures h[i].op.Put? ==> Replay(h)[k] == h[i].value
  {
    var n := |h| - 1;
    UpdateTakes(Replay(h[..n]), h[n]);
    if i < n {
      ReplayOfLast(h[..n], k, i);
    }
  }

  lemma {:induction false} ReplayOfNone(h: seq<Entry>, k: string)
    requires NoneAbout(h, k)
    ensures k !in Replay(h)
  {
    if h != [] {
      var n := |h| - 1;
      UpdateTakes(Replay(h[..n]), h[n]);
      ReplayOfNone(h[..n], k);
    }
  }

  /** A key is in the replay of a history exactly when the last entry about it is a put, with the value put. */
  ghost predicate Tells(h: seq<Entry>, kv: map<string, string>, k: string) {
    && (k in kv <==> exists i: nat :: LastAbout(h, k, i) && h[i].op.Put?)
    && forall i: nat :: LastAbout(h, k, i) && h[i].op.Put? ==> k in kv && kv[k] == h[i].value
  }

  lemma {:induction false} ReplayTells(h: seq<Entry>, k: string)
    ensures Tells(h, Replay(h), k)
  {
    if NoneAbout(h, k) {
      ReplayOfNone(h, k);
    } else {
      var i := FindLast(h, k);
      ReplayOfLast(h, k, i);
      assert forall j: nat :: LastAbout(h, k, j) ==> j == i;
    }
  }

  // ---------------------------------------------------------------- windows

  /** Appending the next entry of the history moves the window along it. */
  lemma {:induction false} AppendMovesWindow(entries: seq<Entry>, h: seq<Entry>, version: nat, max: nat)
    requires max > 0
    requires History(h) && version < |h| && WindowOf(entries, h, version)
    ensures WindowOf(LastN(entries + [h[version]], max), h, version + 1)
  {
    assert WindowOf(entries + [h[version]], h, version + 1);
  }

  /** A replica that has applied exactly `h`: its data is the replay, its log a window ending at its version. */
  ghost predicate Follows(h: seq<Entry>, kv: map<string, string>, version: nat, entries: seq<Entry>) {
    History(h) && |h| == version && kv == Replay(h) && WindowOf(entries, h, version)
  }

  lemma {:induction false} StartFollowsNothing()
    ensures Follows([], map[], 0, [])
  {
  }

  lemma {:induction false} FollowsOneMore(
    h: seq<Entry>, kv: map<string, string>, version: nat, entries: seq<Entry>, e: Entry, max: nat)
    requires Follows(h, kv, version, entries) && max > 0 && e.version == version + 1 && !e.op.Other?
    ensures Follows(h + [e], Update(kv, e), version + 1, LastN(entries + [e], max))
  {
    var longer := h + [e];
    assert longer[..version] == h && WindowOf(entries, longer, version);
    AppendMovesWindow(entries, longer, version, max);
  }

  /** Entries with consecutive versions, the last one `version`. */
  ghost predicate EndsAt(entries: seq<Entry>, version: nat) {
    && |entries| <= version
    && forall i :: 0 <= i < |entries| ==> entries[i].version == version - |entries| + 1 + i
  }

  lemma {:induction false} EndsOneLater(entries: seq<Entry>, version: nat, e: Entry, max: nat)
    requires EndsAt(entries, version) && e.version == version + 1
    ensures EndsAt(LastN(entries + [e], max), version + 1)
  {
    var all := entries + [e];
    assert EndsAt(all, version + 1);
  }

  /** What is known of a replica: its log ends at its version, and what it follows, if its history is known. */
  ghost predicate Consistent(h: Option<seq<Entry>>, kv: map<string, string>, version: nat, entries: seq<Entry>) {
    EndsAt(entries, version) && (h.Some? ==> Follows(h.value, kv, version, entries))
  }

  function Extended(h: Option<seq<Entry>>, es: seq<Entry>): Option<seq<Entry>> {
    if h.None? then None else Some(h.value + es)
  }

  lemma {:induction false} ConsistentOneMore(
    h: Option<seq<Entry>>, kv: map<string, string>, version: nat, entries: seq<Entry>, e: Entry, max: nat)
    requires Consistent(h, kv, version, entries) && max > 0 && e.version == version + 1 && !e.op.Other?
    ensures Consistent(Extended(h, [e]), Update(kv, e), version + 1, LastN(entries + [e], max))
  {
    EndsOneLater(entries, version, e, max);
    if h.Some? {
      FollowsOneMore(h.value, kv, version, entries, e, max);
    }
  }

  /**
   Over consecutive entries ending at `version`, the answer to "what came after
   `since`" is exactly the entries `since + 1` to `version`.
   */
  lemma {:induction false} NewerIsSuffix(entries: seq<Entry>, version: nat, since: nat)
    requires EndsAt(entries, version) && version - |entries| <= since <= version
    ensures Newer(entries, since) == entries[|entries| - (version - since)..]
    decreases |entries|
  {
    var n := |entries|;
    if since < version {
      NewerIsSuffix(entries[..n - 1], version - 1, since);
      var from := n - (version - since);
      assert entries[from..] == entries[..n - 1][from..] + [entries[n - 1]];
    } else {
      NothingNewer(entries, since);
    }
  }

  /** For a non-empty log, eviction is reported exactly when an entry after `since` is gone. */
  lemma {:induction false} EvictedExactly(entries: seq<Entry>, version: nat, since: nat)
    requires EndsAt(entries, version) && entries != []
    ensures Evicted(entries, since) <==> since < version - |entries|
  {
    assert entries[0].version == version - |entries| + 1;
  }

  /** The log answers with the history itself. */
  lemma {:induction false} NewerIsHistory(entries: seq<Entry>, h: seq<Entry>, version: nat, since: nat)
    requires History(h) && WindowOf(entries, h, version)
    requires since <= version && entries != [] && !Evicted(entries, since)
    ensures Newer(entries, since) == h[since..version]
  {
    WindowEndsAt(entries, h, version);
    EvictedExactly(entries, version, since);
    NewerIsSuffix(entries, version, since);
    assert entries[|entries| - (version - since)..] == h[since..version];
  }

  lemma {:induction false} WindowEndsAt(entries: seq<Entry>, h: seq<Entry>, version: nat)
    requires History(h) && WindowOf(entries, h, version)
    ensures EndsAt(entries, version)
  {
    var start := version - |entries|;
    forall i | 0 <= i < |entries| ensures entries[i].version == start + 1 + i {
      assert entries[i] == h[start + i];
    }
  }

  lemma {:induction false} NothingNewer(entries: seq<Entry>, since: nat)
    requires forall i :: 0 <= i < |entries| ==> entries[i].version <= since
    ensures Newer(entries, since) == []
  {
    if entries != [] {
      NothingNewer(entries[..|entries| - 1], since);
    }
  }
}
