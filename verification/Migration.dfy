/** The migration manager: widening a shard to its new replicas, and narrowing it once they are ready. */
module Migration {
  import opened ShardMaps
  import opened CoordinatorModel
  import opened Leadership
  import opened MigrationModel

  class MigrationManager {
    const shards: ShardMap
    const leader: LeaderManager
    var migrations: map<string, seq<string>>

    ghost predicate Valid()
      reads this, leader, shards
    {
      leader.shards == shards && Inv(State())
    }

    ghost function State(): Coord
      reads this, leader, leader.shards
    {
      leader.State(migrations)
    }

    constructor (shards: ShardMap, leader: LeaderManager)
      requires leader.shards == shards && Inv(leader.State(map[]))
      ensures this.shards == shards && this.leader == leader && migrations == map[] && Valid()
    {
      this.shards := shards;
      this.leader := leader;
      migrations := map[];
    }

    method Widen(present: seq<string>, wanted: seq<string>) returns (union: seq<string>)
      ensures union == Union(present, wanted)
    {
      union := present;
      var existing := set r | r in present;
      for i := 0 to |wanted|
        invariant union == Union(present, wanted[..i])
      {
        assert wanted[..i + 1][..i] == wanted[..i];
        if wanted[i] !in existing {
          union := union + [wanted[i]];
        }
      }
      assert wanted[..|wanted|] == wanted;
    }

    /** Widens the shard to old and new replicas and remembers the target. */
    method StartMigration(id: string, target: seq<string>) returns (ok: bool)
      requires Valid()
      modifies this, shards
      ensures Valid() && Evolves(old(State()), State())
      ensures ok <==> id in old(shards.shards)
      ensures State() == if ok then Started(old(State()), id, target) else old(State())
    {
      ghost var start := State();
      var info := shards.Get(id);
      if info.None? {
        EvolvesReflexive(start);
        return false;
      }
      var union := Widen(info.value.replicas, target);
      var widened := shards.SetReplicas(id, union);
      var tagged := shards.SetIncomingReplicas(id, target);
      migrations := migrations[id := target];
      assert State() == Started(start, id, target);
      StartKeeps(start, id, target);
      return true;
    }

    method CheckReady(mem: Members, id: string, replicas: seq<string>) returns (ready: bool)
      ensures ready <==> AllReady(mem, id, replicas)
      ensures ready <==>
                && replicas != []
                && forall r | r in replicas :: r in mem.alive && (r, id) in mem.versions && mem.versions[(r, id)] > 0
    {
      if |replicas| == 0 {
        return false;
      }
      for i := 0 to |replicas|
        invariant forall r | r in replicas[..i] :: r in mem.alive && VersionOf(mem, r, id) > 0
      {
        if replicas[i] !in mem.alive || VersionOf(mem, replicas[i], id) == 0 {
          return false;
        }
      }
      assert replicas[..|replicas|] == replicas;
      return true;
    }

    method Narrow(id: string)
      requires Valid() && id in migrations
      modifies shards
      ensures Valid()
      ensures id in old(shards.shards) && State() == Narrowed(old(State()), id, migrations[id])
    {
      ghost var start := State();
      assert MigrationOk(start, id);
      var narrowed := shards.SetReplicas(id, migrations[id]);
      var cleared := shards.SetIncomingReplicas(id, []);
      assert State() == Narrowed(start, id, migrations[id]);
      NarrowedKeeps(start, id);
    }

    /** Narrows the shard to its target, looks for leaders and forgets the migration. */
    method FinaliseMigration(id: string, mem: Members)
      requires Valid() && "" !in mem.alive && id in migrations && AllReady(mem, id, migrations[id])
      modifies this, leader, shards
      ensures Valid() && Finalises(old(State()), State(), id, mem)
    {
      ghost var start := State();
      Narrow(id);
      ghost var narrow := State();
      var changed := leader.CheckAndReassign(mem, migrations);
      ghost var reassigned := State();
      migrations := migrations - {id};
      assert State() == reassigned.(migrations := reassigned.migrations - {id});
      assert State().(migrations := start.migrations) == reassigned;
      DroppedKeeps(reassigned, id);
    }

    /** Finalises the migrations whose targets are ready. */
    method FinaliseReady(mem: Members)
      requires Valid() && "" !in mem.alive
      modifies this, leader, shards
      ensures Valid() && Reaches(old(State()), State(), mem)
      ensures Finalising(old(State()), State(), {}, mem)
    {
      ghost var start := State();
      ReachesItself(start, mem);
      FinalisingStarts(start, mem);
      var pending := migrations;
      var left := pending.Keys;
      while left != {}
        invariant left <= pending.Keys && Valid()
        invariant Reaches(start, State(), mem) && Finalising(start, State(), left, mem)
        decreases left
      {
        var id :| id in left;
        ghost var before := State();
        var ready := CheckReady(mem, id, pending[id]);
        if ready {
          assert MigrationOk(start, id) && ShardOk(start, id);
          FinaliseMigration(id, mem);
          FinalisingStep(start, before, State().(migrations := before.migrations), left, id, mem);
          ReachesMore(start, before, State(), mem);
        } else {
          NotReadySkipped(start, before, left, id, mem);
        }
        left := left - {id};
      }
    }

    method ClearSource(id: string)
      requires Valid() && id in shards.shards && shards.shards[id].bootstrap != ""
      modifies shards
      ensures Valid() && State() == Unsourced(old(State()), id)
    {
      ghost var start := State();
      var cleared := shards.ClearBootstrapSource(id);
      assert State() == Unsourced(start, id);
      UnsourcedKeeps(start, id);
    }

    /** Clears the source of a split shard and looks for leaders if it had none. */
    method FinishSplit(id: string, led: bool, mem: Members)
      requires Valid() && "" !in mem.alive && id in shards.shards && shards.shards[id].bootstrap != ""
      modifies leader, shards
      ensures Valid() && id in old(shards.shards)
      ensures if led then State() == Unsourced(old(State()), id)
              else Reassigns(Unsourced(old(State()), id), State(), mem)
    {
      ClearSource(id);
      if !led {
        var changed := leader.CheckAndReassign(mem, migrations);
      }
    }

    /** Clears the sources of split shards whose replicas are ready. */
    method ClearSources(mem: Members)
      requires Valid() && "" !in mem.alive
      modifies leader, shards
      ensures Valid() && Reaches(old(State()), State(), mem)
      ensures Booting(old(State()), State(), {}, mem)
    {
      ghost var start := State();
      ReachesItself(start, mem);
      BootingStarts(start, mem);
      var snapshot := shards.shards;
      var left := snapshot.Keys;
      while left != {}
        invariant left <= snapshot.Keys && Valid()
        invariant Reaches(start, State(), mem) && Booting(start, State(), left, mem)
        decreases left
      {
        var id :| id in left;
        assert ShardOk(start, id);
        var info := snapshot[id];
        ghost var before := State();
        var ready := CheckReady(mem, id, info.replicas);
        if info.bootstrap != "" && ready {
          assert BootedAt(start, before, id, left, mem);
          FinishSplit(id, info.leader != "", mem);
          SplitFinished(start, before, State(), left, id, mem);
          assert Boots(before, State(), id, mem);
          ReachesMore(start, before, State(), mem);
        } else {
          BootingSkips(start, before, left, id, mem);
        }
        left := left - {id};
      }
    }

    /** One round of checks. */
    method CheckMigrations(mem: Members)
      requires Valid() && "" !in mem.alive
      modifies this, leader, shards
      ensures Valid() && Evolves(old(State()), State())
      ensures Round(old(State()), State(), mem)
    {
      ghost var start := State();
      FinaliseReady(mem);
      ghost var mid := State();
      ClearSources(mem);
      ReachesFurther(start, mid, State(), mem);
      forall s | s in start.view.shards ensures Checked(start, State(), s, mem) {
        RoundChecks(start, mid, State(), s, mem);
      }
      RoundKeeps(start, State(), mem);
    }
  }

  lemma {:induction false} SplitFinished(
    start: Coord, before: Coord, after: Coord, left: set<string>, s: string, mem: Members)
    requires "" !in mem.alive && s in left && s in start.view.shards && ShardOk(start, s)
    requires Booting(start, before, left, mem) && AllReady(mem, s, Shard(start, s).replicas)
    requires s in before.view.shards && after.migrations == before.migrations
    requires if Shard(start, s).leader != "" then after == Unsourced(before, s)
             else Reassigns(Unsourced(before, s), after, mem)
    ensures Booting(start, after, left - {s}, mem)
  {
    if Shard(start, s).leader != "" {
      BootingClears(start, before, left, s, mem);
    } else {
      BootingAssigns(start, before, after, left, s, mem);
    }
  }
}
