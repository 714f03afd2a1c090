/** Migrations and leaders over whole runs of the coordinator: how a migration stands until it ends, and how it ends. */
module MigrationRuns {
  import opened ShardMaps
  import opened CoordinatorModel
  import opened Leadership
  import opened MigrationModel
  import opened Coordinator
  import opened CoordinatorCalls

  // ---------------------------------------------------------------- migrations

  /** The call starts a migration of the shard, or is the round that ends it. */
  predicate Turns(c: Coord, call: Call, s: string) {
    match call
    case StartMigration(id, target) => id == s && s != "" && target != [] && s in c.view.shards
    case CheckMigrations(mem) => s in c.migrations && Populated(mem, s, c.migrations[s])
    case _ => false
  }

  /** The shard is on its way to `target`: pending, with these replicas and the new ones marked. */
  predicate Migrating(c: Coord, s: string, replicas: seq<string>, target: seq<string>) {
    && s in c.view.shards && s in c.migrations && c.migrations[s] == target
    && Shard(c, s).replicas == replicas && Shard(c, s).incoming == target
  }

  /** No other call moves the shard off its way. */
  lemma {:induction false} CallKeepsMigrating(
    infos: seq<ShardInfo>, calls: seq<Call>, states: seq<Coord>, i: nat, s: string,
    replicas: seq<string>, target: seq<string>)
    requires Run(infos, calls, states) && i < |calls| && !Turns(states[i], calls[i], s)
    requires Migrating(states[i], s, replicas, target)
    ensures Migrating(states[i + 1], s, replicas, target)
  {
    assert CallAt(calls, states, i);
    match calls[i]
    case NotifyLeader(id, node, term) => NotifyExactly(infos, calls, states, i, s, id, node, term);
    case CheckAndReassign(mem) => ReassignExactly(infos, calls, states, i, s, mem);
    case StartMigration(id, to) => StartExactly(infos, calls, states, i, s, id, to);
    case CheckMigrations(mem) => RoundExactly(infos, calls, states, i, s, mem);
    case SplitShard(source, id, nodes) => SplitExactly(infos, calls, states, i, s, source, id, nodes);
  }

  /**
   From an accepted start until the shard is migrated anew or a round finds its
   target alive with data, the migration is pending and the shard has its old
   replicas and the new ones.
   */
  lemma {:induction false} MigrationOverRuns(
    infos: seq<ShardInfo>, calls: seq<Call>, states: seq<Coord>, i: nat, j: nat, s: string, target: seq<string>)
    requires Run(infos, calls, states) && i < j < |states|
    requires calls[i] == StartMigration(s, target) && Turns(states[i], calls[i], s)
    requires forall k :: i < k < j ==> !Turns(states[k], calls[k], s)
    ensures Migrating(states[j], s, Union(Shard(states[i], s).replicas, target), target)
    ensures forall r :: r in Shard(states[j], s).replicas <==> r in Shard(states[i], s).replicas || r in target
    decreases j
  {
    var wide := Union(Shard(states[i], s).replicas, target);
    UnionIsUnion(Shard(states[i], s).replicas, target);
    if i == j - 1 {
      assert CallAt(calls, states, i);
    } else {
      MigrationOverRuns(infos, calls, states, i, j - 1, s, target);
      CallKeepsMigrating(infos, calls, states, j - 1, s, wide, target);
    }
  }

  /**
   The next round ends the migration exactly when every node of the target is
   alive and has reported data. The shard is then left with the target alone,
   under a leader that has data; otherwise it stays on its way.
   */
  lemma {:induction false} MigrationEnds(
    infos: seq<ShardInfo>, calls: seq<Call>, states: seq<Coord>, i: nat, j: nat, s: string, target: seq<string>,
    mem: Members)
    requires Run(infos, calls, states) && i < j < |calls|
    requires calls[i] == StartMigration(s, target) && Turns(states[i], calls[i], s)
    requires forall k :: i < k < j ==> !Turns(states[k], calls[k], s)
    requires calls[j] == CheckMigrations(mem)
    ensures s !in states[j + 1].migrations <==>
            && target != []
            && forall r | r in target :: r in mem.alive && (r, s) in mem.versions && mem.versions[(r, s)] > 0
    ensures s !in states[j + 1].migrations ==>
              Moved(states[j], states[j + 1], s, mem) && Shard(states[j + 1], s).replicas == target
    ensures s in states[j + 1].migrations ==>
              Migrating(states[j + 1], s, Union(Shard(states[i], s).replicas, target), target)
  {
    MigrationOverRuns(infos, calls, states, i, j, s, target);
    RoundExactly(infos, calls, states, j, s, mem);
  }

  // ---------------------------------------------------------------- leaders

  /** The calls that may take a shard from its leader, told before the call. */
  predicate Unseats(c: Coord, call: Call, s: string)
    requires s in c.view.shards
  {
    var info := Shard(c, s);
    match call
    case NotifyLeader(id, node, term) =>
      id == s && s in c.terms && term > c.terms[s] && node in info.replicas && node != info.leader
    case CheckAndReassign(mem) => Replaceable(info, mem)
    case CheckMigrations(mem) =>
      if Turns(c, call, s) then info.leader !in c.migrations[s] else Replaceable(info, mem)
    case _ => false
  }

  /** Who leads after such a call, and in which term. */
  predicate Succeeds(c: Coord, call: Call, c': Coord, s: string)
    requires s in c.view.shards && s in c'.view.shards && s in c.terms && s in c'.terms
  {
    var leader, t := Shard(c', s).leader, c'.terms[s];
    match call
    case NotifyLeader(id, node, term) => leader == node && t == term > c.terms[s]
    case CheckAndReassign(mem) => Best(Shard(c, s), mem, s, leader) && t == c.terms[s] + 1
    case CheckMigrations(mem) =>
      if Turns(c, call, s) then Moved(c, c', s, mem) && t > c.terms[s]
      else Best(Shard(c, s), mem, s, leader) && t == c.terms[s] + 1
    case _ => false
  }

  /**
   A leader changes only by the report of an election, when it is dead or missing,
   or when the migration it is not part of ends; always into a higher term. All but
   a round that ends no migration of the shard then do change it.
   */
  lemma {:induction false} LeaderChangesExactly(
    infos: seq<ShardInfo>, calls: seq<Call>, states: seq<Coord>, i: nat, s: string)
    requires Run(infos, calls, states) && i < |calls| && s in states[i].view.shards
    ensures var c, c' := states[i], states[i + 1];
            && s in c'.view.shards && s in c.terms && s in c'.terms
            && (Shard(c', s).leader != Shard(c, s).leader ==>
                  Unseats(c, calls[i], s) && Succeeds(c, calls[i], c', s))
            && (Unseats(c, calls[i], s) && (calls[i].CheckMigrations? ==> Turns(c, calls[i], s)) ==>
                  Shard(c', s).leader != Shard(c, s).leader)
  {
    RunKeepsInv(infos, calls, states, i);
    assert CallAt(calls, states, i) && ShardOk(states[i], s);
    match calls[i]
    case NotifyLeader(id, node, term) => NotifyExactly(infos, calls, states, i, s, id, node, term);
    case CheckAndReassign(mem) => ReassignExactly(infos, calls, states, i, s, mem);
    case StartMigration(id, to) => StartExactly(infos, calls, states, i, s, id, to);
    case CheckMigrations(mem) => RoundExactly(infos, calls, states, i, s, mem);
    case SplitShard(source, id, nodes) => SplitExactly(infos, calls, states, i, s, source, id, nodes);
  }

  /** Between two states of a run with different leaders of a shard there was such a call. */
  lemma {:induction false} LeaderOverRuns(
    infos: seq<ShardInfo>, calls: seq<Call>, states: seq<Coord>, i: nat, j: nat, s: string) returns (k: nat)
    requires Run(infos, calls, states) && i <= j < |states|
    requires s in states[i].view.shards && s in states[j].view.shards
    requires Shard(states[i], s).leader != Shard(states[j], s).leader
    ensures i <= k < j && s in states[k].view.shards && Unseats(states[k], calls[k], s)
    decreases j
  {
    ShardStays(infos, calls, states, i, j - 1, s);
    if Shard(states[j - 1], s).leader != Shard(states[j], s).leader {
      LeaderChangesExactly(infos, calls, states, j - 1, s);
      k := j - 1;
    } else {
      k := LeaderOverRuns(infos, calls, states, i, j - 1, s);
    }
  }

  lemma {:induction false} ShardStays(
    infos: seq<ShardInfo>, calls: seq<Call>, states: seq<Coord>, i: nat, j: nat, s: string)
    requires Run(infos, calls, states) && i <= j < |states| && s in states[i].view.shards
    ensures Inv(states[j]) && s in states[j].view.shards
  {
    RunEvolves(infos, calls, states, i, j);
    assert ShardEvolves(states[i], states[j], s);
  }
}
