/** What a migration and a round of migration checks do to each shard. */
module MigrationModel {
  import opened ShardMaps
  import opened CoordinatorModel
  import opened Leadership

  // ---------------------------------------------------------------- starting

  /** The new replicas that are not among the old ones, in order. */
  function Fresh(present: seq<string>, wanted: seq<string>): seq<string> {
    if wanted == [] then []
    else
      var n := |wanted| - 1;
      Fresh(present, wanted[..n]) + (if wanted[n] in present then [] else [wanted[n]])
  }

  function Union(present: seq<string>, wanted: seq<string>): seq<string> {
    present + Fresh(present, wanted)
  }

  predicate NoRepeats(nodes: seq<string>) {
    forall i, j :: 0 <= i < j < |nodes| ==> nodes[i] != nodes[j]
  }

  lemma {:induction false} FreshIsNew(present: seq<string>, wanted: seq<string>)
    ensures forall r :: r in Fresh(present, wanted) <==> r in wanted && r !in present
    ensures NoRepeats(wanted) ==> NoRepeats(Fresh(present, wanted))
    decreases |wanted|
  {
    if wanted != [] {
      var n := |wanted| - 1;
      FreshIsNew(present, wanted[..n]);
      assert wanted == wanted[..n] + [wanted[n]];
      if NoRepeats(wanted) {
        assert NoRepeats(wanted[..n]);
        assert wanted[n] !in wanted[..n];
      }
    }
  }

  /** The widened replica set is the union, without repeats when neither side has any. */
  lemma {:induction false} UnionIsUnion(present: seq<string>, wanted: seq<string>)
    ensures forall r :: r in Union(present, wanted) <==> r in present || r in wanted
    ensures NoRepeats(present) && NoRepeats(wanted) ==> NoRepeats(Union(present, wanted))
  {
    FreshIsNew(present, wanted);
    var added := Fresh(present, wanted);
    if NoRepeats(present) && NoRepeats(wanted) {
      forall i, j | 0 <= i < j < |Union(present, wanted)|
        ensures Union(present, wanted)[i] != Union(present, wanted)[j]
      {
        if j >= |present| {
          assert Union(present, wanted)[j] == added[j - |present|];
          assert added[j - |present|] in added;
        }
      }
    }
  }

  function Started(c: Coord, s: string, target: seq<string>): Coord
    requires s in c.view.shards
  {
    var info := Shard(c, s);
    var widened := WithShard(c, s, Rereplicated(info, Union(info.replicas, target)));
    WithShard(widened, s, Shard(widened, s).(incoming := target)).(migrations := c.migrations[s := target])
  }

  lemma {:induction false} StartKeeps(c: Coord, s: string, target: seq<string>)
    requires Inv(c) && s in c.view.shards
    ensures Inv(Started(c, s, target)) && Evolves(c, Started(c, s, target))
    ensures var before, after := Shard(c, s), Shard(Started(c, s, target), s);
            && after.leader == before.leader && after.incoming == target
            && forall r :: r in after.replicas <==> r in before.replicas || r in target
  {
    assert ShardOk(c, s);
    var info := Shard(c, s);
    UnionIsUnion(info.replicas, target);
    var widened := WithShard(c, s, Rereplicated(info, Union(info.replicas, target)));
    assert s in c.migrations ==> MigrationOk(c, s);
    ChangeKeeps(c, s, Rereplicated(info, Union(info.replicas, target)));
    assert s in widened.migrations ==> MigrationOk(widened, s);
    ChangeKeeps(widened, s, Shard(widened, s).(incoming := target));
    var tagged := WithShard(widened, s, Shard(widened, s).(incoming := target));
    forall u | u in c.migrations[s := target]
      ensures u in tagged.view.shards && forall r | r in c.migrations[s := target][u] :: r in Shard(tagged, u).replicas
    {
      if u != s {
        assert MigrationOk(tagged, u);
      }
    }
    MigrationsKeep(tagged, c.migrations[s := target]);
    EvolvesTransitive(c, widened, tagged);
    EvolvesTransitive(c, tagged, Started(c, s, target));
  }

  // ---------------------------------------------------------------- checking

  /** All replicas are alive and have reported a version. */
  predicate AllReady(mem: Members, s: string, replicas: seq<string>) {
    replicas != [] && forall r | r in replicas :: r in mem.alive && VersionOf(mem, r, s) > 0
  }

  /** The shard narrowed to its target, before a leader is looked for. */
  function Narrowed(c: Coord, s: string, target: seq<string>): Coord
    requires s in c.view.shards
  {
    var narrow := WithShard(c, s, Rereplicated(Shard(c, s), target));
    WithShard(narrow, s, Shard(narrow, s).(incoming := []))
  }

  /** Nothing but a dead or missing leader has been replaced, by the best candidate. */
  predicate Touched(a: Coord, b: Coord, s: string, mem: Members) {
    && s in a.view.shards && s in b.view.shards && s in a.terms && s in b.terms
    && var before, after := Shard(a, s), Shard(b, s);
       && after == before.(leader := after.leader, bootstrap := after.bootstrap)
       && (|| (after.leader == before.leader && a.terms[s] == b.terms[s])
           || (NeedsLeader(before, mem) && Picks(before, mem, after.leader) && b.terms[s] == a.terms[s] + 1))
  }

  /** The highest version among the nodes. */
  predicate HighestOf(mem: Members, s: string, nodes: seq<string>, node: string) {
    forall r | r in nodes :: VersionOf(mem, r, s) <= VersionOf(mem, node, s)
  }

  /**
   The migration to `target` is over: the replicas are the target, a live one of
   them leads.  The old leader goes on if it is in the target; otherwise the new
   one has the highest version there, and the term has risen.
   */
  predicate Done(a: Coord, b: Coord, s: string, target: seq<string>, mem: Members) {
    && s in a.view.shards && s in b.view.shards && s in a.terms && s in b.terms && s !in b.migrations
    && var before, after := Shard(a, s), Shard(b, s);
       && after.id == before.id && after.replicas == target && after.incoming == []
       && after.leader in target && after.leader in mem.alive
       && (if before.leader in target then after.leader == before.leader && b.terms[s] == a.terms[s]
           else HighestOf(mem, s, target, after.leader) && b.terms[s] > a.terms[s])
  }

  lemma {:induction false} TouchedStep(a: Coord, b: Coord, c: Coord, s: string, mem: Members)
    requires "" !in mem.alive && Touched(a, b, s, mem) && ReassignedIn(b, c, s, mem)
    ensures Touched(a, c, s, mem)
  {
  }

  lemma {:induction false} DoneStep(a: Coord, b: Coord, c: Coord, s: string, target: seq<string>, mem: Members)
    requires "" !in mem.alive && Done(a, b, s, target, mem) && ReassignedIn(b, c, s, mem) && s !in c.migrations
    ensures Done(a, c, s, target, mem)
  {
  }

  /** A replacement leader is the best of all live replicas, so of any live part of them. */
  lemma {:induction false} PickIsHighest(info: ShardInfo, mem: Members, node: string, target: seq<string>)
    requires Picks(info, mem, node) && NeedsLeader(info, mem) && "" !in mem.alive
    requires forall r | r in target :: r in info.replicas && r in mem.alive
    ensures HighestOf(mem, info.id, target, node)
  {
    forall r | r in target ensures VersionOf(mem, r, info.id) <= VersionOf(mem, node, info.id) {
      assert IsCandidate(info, mem, r);
    }
  }

  lemma {:induction false} TargetHasCandidate(info: ShardInfo, mem: Members, target: seq<string>)
    requires info.replicas == target && info.leader == "" && "" !in mem.alive
    requires target != [] && forall r | r in target :: r in mem.alive
    ensures HasCandidate(info, mem)
  {
    assert target[0] in target && IsCandidate(info, mem, target[0]);
  }

  /** Narrowing a ready shard and looking for a leader ends its migration. */
  lemma {:induction false} FinaliseDone(a: Coord, b: Coord, c: Coord, s: string, target: seq<string>, mem: Members)
    requires "" !in mem.alive && Touched(a, b, s, mem) && Shard(a, s).id == s
    requires AllReady(mem, s, target) && forall r | r in target :: r in Shard(a, s).replicas
    requires ReassignedIn(Narrowed(b, s, target), c, s, mem)
    ensures Done(a, c.(migrations := c.migrations - {s}), s, target, mem)
  {
    var before, mid := Shard(a, s), Shard(b, s);
    var narrow := Shard(Narrowed(b, s, target), s);
    if mid.leader in target {
      if mid.leader != before.leader {
        PickIsHighest(before, mem, mid.leader, target);
      }
    } else {
      TargetHasCandidate(narrow, mem, target);
      PickIsHighest(narrow, mem, Shard(c, s).leader, target);
    }
  }

  // ---------------------------------------------------------------- the first half of a round

  /** The shard's migration is pending and its target is ready. */
  predicate Ready(c: Coord, s: string, mem: Members) {
    s in c.migrations && AllReady(mem, s, c.migrations[s])
  }

  /** The shard's migration is over, or still to be looked at or not ready. */
  predicate FinalisedAt(a: Coord, b: Coord, s: string, left: set<string>, mem: Members) {
    && s in a.view.shards && s in b.view.shards && Shard(b, s).bootstrap == Shard(a, s).bootstrap
    && if Ready(a, s, mem) && s !in left then Done(a, b, s, a.migrations[s], mem) else Touched(a, b, s, mem)
  }

  /** Of the pending migrations, those that are over are gone. */
  ghost predicate PendingLeft(a: Coord, b: Coord, left: set<string>, mem: Members) {
    && (forall s :: s in b.migrations <==> s in a.migrations && (s in left || !Ready(a, s, mem)))
    && (forall s | s in b.migrations :: b.migrations[s] == a.migrations[s])
  }

  /** Pending migrations have been looked at, but for those left. */
  ghost predicate Finalising(a: Coord, b: Coord, left: set<string>, mem: Members) {
    && a.view.shards.Keys == b.view.shards.Keys
    && (forall s | s in a.view.shards :: FinalisedAt(a, b, s, left, mem))
    && PendingLeft(a, b, left, mem)
  }

  lemma {:induction false} FinalisingStarts(a: Coord, mem: Members)
    requires Inv(a)
    ensures Finalising(a, a, a.migrations.Keys, mem)
  {
    forall s | s in a.view.shards ensures FinalisedAt(a, a, s, a.migrations.Keys, mem) {
      assert ShardOk(a, s);
    }
  }

  lemma {:induction false} NotReadySkipped(a: Coord, b: Coord, left: set<string>, s: string, mem: Members)
    requires Finalising(a, b, left, mem) && !Ready(a, s, mem)
    ensures Finalising(a, b, left - {s}, mem)
  {
    forall u | u in a.view.shards ensures FinalisedAt(a, b, u, left - {s}, mem) {
      assert FinalisedAt(a, b, u, left, mem);
    }
  }

  /** What a finalisation leaves of the other shards. */
  lemma {:induction false} OtherFinalised(
    a: Coord, b: Coord, c: Coord, left: set<string>, s: string, mem: Members, u: string)
    requires "" !in mem.alive && FinalisedAt(a, b, u, left, mem) && s in b.view.shards && s in a.migrations
    requires AllReassigned(Narrowed(b, s, a.migrations[s]), c, mem) && u != s
    ensures FinalisedAt(a, c.(migrations := b.migrations - {s}), u, left - {s}, mem)
  {
    var n, d := Narrowed(b, s, a.migrations[s]), c.(migrations := b.migrations - {s});
    assert Shard(n, u) == Shard(b, u);
    assert ReassignedIn(n, c, u, mem);
    if Ready(a, u, mem) && u !in left {
      assert Done(a, n, u, a.migrations[u], mem);
      DoneStep(a, n, d, u, a.migrations[u], mem);
    } else {
      assert Touched(a, n, u, mem);
      TouchedStep(a, n, d, u, mem);
    }
  }

  lemma {:induction false} ThisFinalised(a: Coord, b: Coord, c: Coord, left: set<string>, s: string, mem: Members)
    requires "" !in mem.alive && FinalisedAt(a, b, s, left, mem) && s in left && Ready(a, s, mem)
    requires MigrationOk(a, s) && ShardOk(a, s) && AllReassigned(Narrowed(b, s, a.migrations[s]), c, mem)
    ensures FinalisedAt(a, c.(migrations := c.migrations - {s}), s, left - {s}, mem)
  {
    assert ReassignedIn(Narrowed(b, s, a.migrations[s]), c, s, mem);
    FinaliseDone(a, b, c, s, a.migrations[s], mem);
  }

  lemma {:induction false} PendingStep(a: Coord, b: Coord, c: Coord, left: set<string>, s: string, mem: Members)
    requires PendingLeft(a, b, left, mem) && Ready(a, s, mem) && c.migrations == b.migrations - {s}
    ensures PendingLeft(a, c, left - {s}, mem)
  {
  }

  lemma {:induction false} EachFinalised(
    a: Coord, b: Coord, c: Coord, left: set<string>, s: string, mem: Members, u: string)
    requires "" !in mem.alive && FinalisedAt(a, b, u, left, mem) && s in left && Ready(a, s, mem) && s in a.view.shards
    requires MigrationOk(a, s) && ShardOk(a, s) && s in b.view.shards
    requires AllReassigned(Narrowed(b, s, a.migrations[s]), c, mem) && c.migrations == b.migrations
    ensures FinalisedAt(a, c.(migrations := b.migrations - {s}), u, left - {s}, mem)
  {
    if u == s {
      ThisFinalised(a, b, c, left, s, mem);
    } else {
      OtherFinalised(a, b, c, left, s, mem, u);
    }
  }

  lemma {:induction false} FinalisingStep(a: Coord, b: Coord, c: Coord, left: set<string>, s: string, mem: Members)
    requires "" !in mem.alive && Finalising(a, b, left, mem) && s in left && Ready(a, s, mem) && s in a.view.shards
    requires MigrationOk(a, s) && ShardOk(a, s) && s in b.view.shards
    requires AllReassigned(Narrowed(b, s, a.migrations[s]), c, mem) && c.migrations == b.migrations
    ensures Finalising(a, c.(migrations := b.migrations - {s}), left - {s}, mem)
  {
    forall u | u in a.view.shards ensures FinalisedAt(a, c.(migrations := b.migrations - {s}), u, left - {s}, mem) {
      EachFinalised(a, b, c, left, s, mem, u);
    }
    PendingStep(a, b, c.(migrations := b.migrations - {s}), left, s, mem);
  }

  lemma {:induction false} NarrowedKeeps(c: Coord, s: string)
    requires Inv(c) && s in c.view.shards && s in c.migrations
    ensures Inv(Narrowed(c, s, c.migrations[s])) && Evolves(c, Narrowed(c, s, c.migrations[s]))
  {
    var target := c.migrations[s];
    assert ShardOk(c, s);
    ChangeKeeps(c, s, Rereplicated(Shard(c, s), target));
    var narrow := WithShard(c, s, Rereplicated(Shard(c, s), target));
    ChangeKeeps(narrow, s, Shard(narrow, s).(incoming := []));
    EvolvesTransitive(c, narrow, Narrowed(c, s, target));
  }

  // ---------------------------------------------------------------- the second half of a round

  /** A split shard whose replicas are all ready no longer needs its source, and has a live leader. */
  predicate Booted(b: Coord, c: Coord, s: string, mem: Members) {
    && s in b.view.shards && s in c.view.shards
    && var before, after := Shard(b, s), Shard(c, s);
       && after.bootstrap == (if AllReady(mem, s, before.replicas) then "" else before.bootstrap)
       && (before.bootstrap != "" && AllReady(mem, s, before.replicas) ==> after.leader in mem.alive)
  }

  predicate BootedAt(b: Coord, c: Coord, s: string, left: set<string>, mem: Members) {
    && Touched(b, c, s, mem)
    && (if s in left then Shard(c, s).bootstrap == Shard(b, s).bootstrap else Booted(b, c, s, mem))
  }

  /** Split shards have been looked at, but for those left. */
  predicate Booting(b: Coord, c: Coord, left: set<string>, mem: Members) {
    && b.view.shards.Keys == c.view.shards.Keys && b.migrations == c.migrations
    && forall s | s in b.view.shards :: BootedAt(b, c, s, left, mem)
  }

  lemma {:induction false} BootingStarts(b: Coord, mem: Members)
    requires Inv(b)
    ensures Booting(b, b, b.view.shards.Keys, mem)
  {
    forall s | s in b.view.shards ensures BootedAt(b, b, s, b.view.shards.Keys, mem) {
      assert ShardOk(b, s);
    }
  }

  lemma {:induction false} BootingSkips(b: Coord, c: Coord, left: set<string>, s: string, mem: Members)
    requires Booting(b, c, left, mem) && s in left && s in b.view.shards
    requires Shard(b, s).bootstrap == "" || !AllReady(mem, s, Shard(b, s).replicas)
    ensures Booting(b, c, left - {s}, mem)
  {
    forall u | u in b.view.shards ensures BootedAt(b, c, u, left - {s}, mem) {
      assert BootedAt(b, c, u, left, mem);
    }
  }

  function Unsourced(c: Coord, s: string): Coord
    requires s in c.view.shards
  {
    WithShard(c, s, Shard(c, s).(bootstrap := ""))
  }

  /** Clearing the source of a shard that has a live leader already. */
  lemma {:induction false} BootingClears(b: Coord, c: Coord, left: set<string>, s: string, mem: Members)
    requires "" !in mem.alive && Booting(b, c, left, mem) && s in left && s in b.view.shards && ShardOk(b, s)
    requires AllReady(mem, s, Shard(b, s).replicas) && Shard(b, s).leader != ""
    ensures Booting(b, Unsourced(c, s), left - {s}, mem)
  {
    forall u | u in b.view.shards ensures BootedAt(b, Unsourced(c, s), u, left - {s}, mem) {
      assert BootedAt(b, c, u, left, mem);
    }
  }

  lemma {:induction false} EachBooted(
    b: Coord, c: Coord, d: Coord, left: set<string>, s: string, mem: Members, u: string)
    requires "" !in mem.alive && BootedAt(b, c, u, left, mem) && s in left && s in b.view.shards && s in c.view.shards
    requires ShardOk(b, s) && AllReady(mem, s, Shard(b, s).replicas)
    requires u in Unsourced(c, s).view.shards && ReassignedIn(Unsourced(c, s), d, u, mem)
    ensures BootedAt(b, d, u, left - {s}, mem)
  {
    var m := Unsourced(c, s);
    TouchedStep(b, m, d, u, mem);
    if u == s {
      var replicas := Shard(b, s).replicas;
      assert replicas[0] in replicas;
      ReassignedIsAlive(Shard(m, s), m.terms[s], Shard(d, s), d.terms[s], mem, replicas[0]);
    }
  }

  /** Reassigning afterwards changes no source, and gives the shard a live leader. */
  lemma {:induction false} BootingAssigns(b: Coord, c: Coord, d: Coord, left: set<string>, s: string, mem: Members)
    requires "" !in mem.alive && Booting(b, c, left, mem) && s in left && s in b.view.shards && ShardOk(b, s)
    requires AllReady(mem, s, Shard(b, s).replicas)
    requires AllReassigned(Unsourced(c, s), d, mem) && d.migrations == c.migrations
    ensures Booting(b, d, left - {s}, mem)
  {
    forall u | u in b.view.shards ensures BootedAt(b, d, u, left - {s}, mem) {
      assert BootedAt(b, c, u, left, mem);
      assert ReassignedIn(Unsourced(c, s), d, u, mem);
      EachBooted(b, c, d, left, s, mem, u);
    }
  }

  // ---------------------------------------------------------------- a whole round

  /** What a round of checks does to a shard. */
  predicate Checked(a: Coord, c: Coord, s: string, mem: Members) {
    && s in a.view.shards && s in c.view.shards
    && (if Ready(a, s, mem) then Done(a, c, s, a.migrations[s], mem)
        else Touched(a, c, s, mem) && (s in c.migrations <==> s in a.migrations)
             && (s in a.migrations ==> c.migrations[s] == a.migrations[s]))
    && var ready := AllReady(mem, s, Shard(c, s).replicas);
       && Shard(c, s).bootstrap == (if ready then "" else Shard(a, s).bootstrap)
       && (Shard(a, s).bootstrap != "" && ready ==> Shard(c, s).leader in mem.alive)
  }

  lemma {:induction false} TouchedTwice(a: Coord, b: Coord, c: Coord, s: string, mem: Members)
    requires "" !in mem.alive && Touched(a, b, s, mem) && Touched(b, c, s, mem)
    ensures Touched(a, c, s, mem)
  {
  }

  lemma {:induction false} DoneThenTouched(a: Coord, b: Coord, c: Coord, s: string, target: seq<string>, mem: Members)
    requires "" !in mem.alive && Done(a, b, s, target, mem) && Touched(b, c, s, mem) && c.migrations == b.migrations
    ensures Done(a, c, s, target, mem)
  {
  }

  /** Both halves of a round together. */
  lemma {:induction false} RoundChecks(a: Coord, b: Coord, c: Coord, s: string, mem: Members)
    requires "" !in mem.alive && Finalising(a, b, {}, mem) && Booting(b, c, {}, mem)
    requires s in a.view.shards
    ensures Checked(a, c, s, mem)
  {
    assert FinalisedAt(a, b, s, {}, mem) && BootedAt(b, c, s, {}, mem);
    if Ready(a, s, mem) {
      DoneThenTouched(a, b, c, s, a.migrations[s], mem);
    } else {
      TouchedTwice(a, b, c, s, mem);
    }
  }

  // ---------------------------------------------------------------- the steps of a round

  /** The shard is narrowed to its ready target, leaders are looked for, and the migration is forgotten. */
  ghost predicate Finalises(a: Coord, b: Coord, s: string, mem: Members) {
    && s in a.view.shards && Ready(a, s, mem)
    && b.migrations == a.migrations - {s}
    && Reassigns(Narrowed(a, s, a.migrations[s]), b.(migrations := a.migrations), mem)
  }

  /** The ready shard forgets the one it was split from, and leaders may be looked for. */
  ghost predicate Boots(a: Coord, b: Coord, s: string, mem: Members) {
    && s in a.view.shards && Shard(a, s).bootstrap != "" && AllReady(mem, s, Shard(a, s).replicas)
    && (b == Unsourced(a, s) || Reassigns(Unsourced(a, s), b, mem))
  }

  ghost predicate CheckStep(a: Coord, b: Coord, mem: Members) {
    exists s :: Finalises(a, b, s, mem) || Boots(a, b, s, mem)
  }

  ghost predicate CheckSteps(states: seq<Coord>, mem: Members) {
    states != [] && forall i :: 0 < i < |states| ==> CheckStep(states[i - 1], states[i], mem)
  }

  ghost predicate CheckedBy(a: Coord, b: Coord, states: seq<Coord>, mem: Members) {
    CheckSteps(states, mem) && states[0] == a && states[|states| - 1] == b
  }

  /** Some steps of a round lead from `a` to `b`. */
  ghost predicate Reaches(a: Coord, b: Coord, mem: Members) {
    exists states :: CheckedBy(a, b, states, mem)
  }

  /** A round of checks: a chain of steps, and what it comes to for every shard. */
  ghost predicate Round(a: Coord, b: Coord, mem: Members) {
    && Reaches(a, b, mem)
    && a.view.shards.Keys == b.view.shards.Keys
    && forall s | s in a.view.shards :: Checked(a, b, s, mem)
  }

  lemma {:induction false} ReachesItself(a: Coord, mem: Members)
    ensures Reaches(a, a, mem)
  {
    assert CheckedBy(a, a, [a], mem);
  }

  lemma {:induction false} ReachesMore(a: Coord, b: Coord, c: Coord, mem: Members)
    requires Reaches(a, b, mem) && CheckStep(b, c, mem)
    ensures Reaches(a, c, mem)
  {
    var states :| CheckedBy(a, b, states, mem);
    var more := states + [c];
    forall i | 0 < i < |more| ensures CheckStep(more[i - 1], more[i], mem) {
      assert i < |states| ==> CheckStep(states[i - 1], states[i], mem);
    }
    assert CheckedBy(a, c, more, mem);
  }

  lemma {:induction false} ReachesFurther(a: Coord, b: Coord, c: Coord, mem: Members)
    requires Reaches(a, b, mem) && Reaches(b, c, mem)
    ensures Reaches(a, c, mem)
  {
    var first :| CheckedBy(a, b, first, mem);
    var second :| CheckedBy(b, c, second, mem);
    var all := first + second[1..];
    forall i | 0 < i < |all| ensures CheckStep(all[i - 1], all[i], mem) {
      if i >= |first| {
        assert all[i] == second[i - |first| + 1] && all[i - 1] == second[i - |first|];
      }
    }
    assert CheckedBy(a, c, all, mem);
  }

  lemma {:induction false} DroppedKeeps(c: Coord, id: string)
    requires Inv(c)
    ensures Inv(c.(migrations := c.migrations - {id})) && Evolves(c, c.(migrations := c.migrations - {id}))
  {
    forall s | s in c.migrations - {id}
      ensures s in c.view.shards && forall r | r in c.migrations[s] :: r in Shard(c, s).replicas
    {
      assert MigrationOk(c, s);
    }
    MigrationsKeep(c, c.migrations - {id});
  }

  lemma {:induction false} UnsourcedKeeps(c: Coord, s: string)
    requires Inv(c) && s in c.view.shards
    ensures Inv(Unsourced(c, s)) && Evolves(c, Unsourced(c, s))
  {
    assert ShardOk(c, s) && (s in c.migrations ==> MigrationOk(c, s));
    ChangeKeeps(c, s, Shard(c, s).(bootstrap := ""));
  }

  lemma {:induction false} FinalisesKeeps(a: Coord, b: Coord, s: string, mem: Members)
    requires Inv(a) && Finalises(a, b, s, mem)
    ensures Inv(b) && Evolves(a, b)
  {
    var narrow, reassigned := Narrowed(a, s, a.migrations[s]), b.(migrations := a.migrations);
    NarrowedKeeps(a, s);
    ReassignsKeeps(narrow, reassigned, mem);
    DroppedKeeps(reassigned, s);
    assert b == reassigned.(migrations := reassigned.migrations - {s});
    EvolvesTransitive(a, narrow, reassigned);
    EvolvesTransitive(a, reassigned, b);
  }

  lemma {:induction false} BootsKeeps(a: Coord, b: Coord, s: string, mem: Members)
    requires Inv(a) && Boots(a, b, s, mem)
    ensures Inv(b) && Evolves(a, b)
  {
    var mid := Unsourced(a, s);
    UnsourcedKeeps(a, s);
    if Reassigns(mid, b, mem) {
      ReassignsKeeps(mid, b, mem);
      EvolvesTransitive(a, mid, b);
    }
  }

  lemma {:induction false} CheckStepKeeps(a: Coord, b: Coord, mem: Members)
    requires Inv(a) && CheckStep(a, b, mem)
    ensures Inv(b) && Evolves(a, b)
  {
    var s :| Finalises(a, b, s, mem) || Boots(a, b, s, mem);
    if Finalises(a, b, s, mem) {
      FinalisesKeeps(a, b, s, mem);
    } else {
      BootsKeeps(a, b, s, mem);
    }
  }

  lemma {:induction false} CheckStepsKeep(states: seq<Coord>, mem: Members, n: nat)
    requires CheckSteps(states, mem) && Inv(states[0]) && n < |states|
    ensures Inv(states[n]) && Evolves(states[0], states[n])
  {
    if n == 0 {
      EvolvesReflexive(states[0]);
    } else {
      CheckStepsKeep(states, mem, n - 1);
      assert CheckStep(states[n - 1], states[n], mem);
      CheckStepKeeps(states[n - 1], states[n], mem);
      EvolvesTransitive(states[0], states[n - 1], states[n]);
    }
  }

  /** A round of checks keeps the invariant, whatever migrations it ends. */
  lemma {:induction false} RoundKeeps(a: Coord, b: Coord, mem: Members)
    requires Inv(a) && Round(a, b, mem)
    ensures Inv(b) && Evolves(a, b)
  {
    var states :| CheckedBy(a, b, states, mem);
    CheckStepsKeep(states, mem, |states| - 1);
  }
}
