/** Runs of the coordinator: whole calls, one after the other, with any heartbeats in between. */
module Coordinator {
  import opened Common
  import opened ShardMaps
  import opened CoordinatorModel
  import opened Leadership
  import opened MigrationModel
  import opened Migration

  /** A call, with what membership knows at that moment where the call asks it. */
  datatype Call =
    | NotifyLeader(id: string, node: string, term: nat)
    | CheckAndReassign(mem: Members)
    | StartMigration(id: string, target: seq<string>)
    | CheckMigrations(mem: Members)
    | SplitShard(source: string, id: string, replicas: seq<string>)

  /** Node identifiers are never empty. */
  predicate Allowed(call: Call) {
    match call
    case CheckAndReassign(mem) => "" !in mem.alive
    case CheckMigrations(mem) => "" !in mem.alive
    case _ => true
  }

  // ---------------------------------------------------------------- runs

  /** What a call does. */
  ghost predicate Next(c: Coord, call: Call, c': Coord) {
    match call
    case NotifyLeader(id, node, term) => c' == if Accepts(c, id, node, term) then Lead(c, id, node, term) else c
    case CheckAndReassign(mem) => Reassigns(c, c', mem)
    case StartMigration(id, target) => c' == if CanMigrate(c, id, target) then Started(c, id, target) else c
    case CheckMigrations(mem) => Round(c, c', mem)
    case SplitShard(source, id, replicas) =>
      c' == if CanSplit(c, source, id, replicas) then Added(c, ShardInfo(id, replicas, "", source, [])) else c
  }

  predicate CanMigrate(c: Coord, id: string, target: seq<string>) {
    id != "" && target != [] && id in c.view.shards
  }

  predicate CanSplit(c: Coord, source: string, id: string, replicas: seq<string>) {
    source != "" && id != "" && replicas != [] && source in c.view.shards && id !in c.view.shards
  }

  /** Every call keeps the invariant, and only moves on. */
  lemma {:induction false} NextKeeps(c: Coord, call: Call, c': Coord)
    requires Inv(c) && Allowed(call) && Next(c, call, c')
    ensures Inv(c') && Evolves(c, c')
  {
    EvolvesReflexive(c);
    match call
    case NotifyLeader(id, node, term) =>
      if Accepts(c, id, node, term) {
        LeadKeeps(c, id, node, term);
      }
    case CheckAndReassign(mem) => ReassignsKeeps(c, c', mem);
    case StartMigration(id, target) =>
      if CanMigrate(c, id, target) {
        StartKeeps(c, id, target);
      }
    case CheckMigrations(mem) => RoundKeeps(c, c', mem);
    case SplitShard(source, id, replicas) =>
      if CanSplit(c, source, id, replicas) {
        AddedExactly(c, ShardInfo(id, replicas, "", source, []));
      }
  }

  /** The initial leaders are replicas of their shards. */
  predicate LeadersFit(infos: seq<ShardInfo>) {
    forall i :: 0 <= i < |infos| ==> infos[i].leader == "" || infos[i].leader in infos[i].replicas
  }

  ghost predicate CallAt(calls: seq<Call>, states: seq<Coord>, i: nat)
    requires i < |calls| < |states|
  {
    Allowed(calls[i]) && Next(states[i], calls[i], states[i + 1])
  }

  /** A coordinator configured with `infos`, and the states after each of the calls. */
  ghost predicate Run(infos: seq<ShardInfo>, calls: seq<Call>, states: seq<Coord>) {
    && |states| == |calls| + 1
    && LeadersFit(infos) && Configured(EMPTY, infos) == Some(states[0])
    && forall i :: 0 <= i < |calls| ==> CallAt(calls, states, i)
  }

  lemma {:induction false} RunKeepsInv(infos: seq<ShardInfo>, calls: seq<Call>, states: seq<Coord>, i: nat)
    requires Run(infos, calls, states) && i < |states|
    ensures Inv(states[i])
  {
    if i == 0 {
      ConfiguredExactly(infos);
    } else {
      RunKeepsInv(infos, calls, states, i - 1);
      assert CallAt(calls, states, i - 1);
      NextKeeps(states[i - 1], calls[i - 1], states[i]);
    }
  }

  lemma {:induction false} RunEvolves(infos: seq<ShardInfo>, calls: seq<Call>, states: seq<Coord>, i: nat, j: nat)
    requires Run(infos, calls, states) && i <= j < |states|
    ensures Inv(states[i]) && Inv(states[j]) && Evolves(states[i], states[j])
    decreases j
  {
    RunKeepsInv(infos, calls, states, j);
    if i == j {
      EvolvesReflexive(states[i]);
    } else {
      RunEvolves(infos, calls, states, i, j - 1);
      assert CallAt(calls, states, j - 1);
      NextKeeps(states[j - 1], calls[j - 1], states[j]);
      EvolvesTransitive(states[i], states[j - 1], states[j]);
    }
  }

  /**
   Over every run: a leader is a replica, terms never fall, within a term a
   shard has at most one leader, and every change of the map raises its version.
   */
  lemma {:induction false} LeadershipOverRuns(
    infos: seq<ShardInfo>, calls: seq<Call>, states: seq<Coord>, i: nat, j: nat, s: string)
    requires Run(infos, calls, states) && i <= j < |states| && s in states[i].view.shards
    ensures states[i].view.version <= states[j].view.version
    ensures states[i].view.shards != states[j].view.shards ==> states[i].view.version < states[j].view.version
    ensures s in states[j].view.shards && s in states[i].terms && s in states[j].terms
    ensures states[i].terms[s] <= states[j].terms[s]
    ensures var a, b := Shard(states[i], s).leader, Shard(states[j], s).leader;
            && (a == "" || a in Shard(states[i], s).replicas)
            && (b == "" || b in Shard(states[j], s).replicas)
            && (states[i].terms[s] == states[j].terms[s] && a != "" && b != "" ==> a == b)
  {
    RunEvolves(infos, calls, states, i, j);
    assert ShardEvolves(states[i], states[j], s) && ShardOk(states[i], s) && ShardOk(states[j], s);
  }

  /** No shard and term are ever given two leaders, not even inside one call. */
  lemma {:induction false} OneLeaderPerTerm(
    infos: seq<ShardInfo>, calls: seq<Call>, states: seq<Coord>, i: nat, j: nat,
    s: string, t: nat, a: string, b: string)
    requires Run(infos, calls, states) && i <= j < |states|
    requires Granted(states[i], s, t, a) && Granted(states[j], s, t, b)
    ensures a == b
  {
    RunEvolves(infos, calls, states, i, j);
  }

  /** Every leader was given its shard in the shard's present term. */
  lemma {:induction false} LeadersAreGranted(
    infos: seq<ShardInfo>, calls: seq<Call>, states: seq<Coord>, i: nat, s: string)
    requires Run(infos, calls, states) && i < |states|
    requires s in states[i].view.shards && Shard(states[i], s).leader != ""
    ensures s in states[i].terms && Granted(states[i], s, states[i].terms[s], Shard(states[i], s).leader)
  {
    RunKeepsInv(infos, calls, states, i);
    assert ShardOk(states[i], s);
  }

  /** A configured coordinator is in order exactly when the initial leaders are replicas. */
  lemma {:induction false} ConfiguredExactly(infos: seq<ShardInfo>)
    requires Configured(EMPTY, infos).Some?
    ensures Inv(Configured(EMPTY, infos).value) <==> LeadersFit(infos)
    decreases |infos|
  {
    if infos != [] {
      var n := |infos| - 1;
      assert LeadersFit(infos) <==>
             LeadersFit(infos[..n]) && (infos[n].leader == "" || infos[n].leader in infos[n].replicas);
      ConfiguredExactly(infos[..n]);
      var before, info := Configured(EMPTY, infos[..n]).value, infos[n];
      ConfiguredNames(infos[..n]);
      if Inv(before) {
        AddedExactly(before, info);
      } else {
        AddedKeepsFault(before, info);
      }
    }
  }

  const EMPTY: Coord := Coord(MapView(0, map[]), map[], map[], {})

  lemma {:induction false} ConfiguredNames(infos: seq<ShardInfo>)
    requires Configured(EMPTY, infos).Some?
    ensures var c := Configured(EMPTY, infos).value;
            && (forall s :: s in c.terms <==> s in c.view.shards) && c.migrations == map[]
            && (forall s | s in c.view.shards :: c.view.shards[s].id == s && c.terms[s] == 1)
            && (forall s | s in c.view.shards :: Shard(c, s).leader != "" ==> Granted(c, s, 1, Shard(c, s).leader))
            && (forall g | g in c.grants ::
                  g.shard in c.view.shards && g.term == 1 && g.leader == Shard(c, g.shard).leader)
    decreases |infos|
  {
    if infos != [] {
      ConfiguredNames(infos[..|infos| - 1]);
    }
  }

  /** A shard with a leader that is no replica stays so when others are added. */
  lemma {:induction false} AddedKeepsFault(c: Coord, info: ShardInfo)
    requires !Inv(c) && info.id !in c.view.shards && c.migrations == map[]
    requires forall s :: s in c.terms <==> s in c.view.shards
    requires forall s | s in c.view.shards :: c.view.shards[s].id == s && c.terms[s] == 1
    requires forall s | s in c.view.shards :: Shard(c, s).leader != "" ==> Granted(c, s, 1, Shard(c, s).leader)
    requires forall g | g in c.grants :: g.shard in c.view.shards && g.term == 1 && g.leader == Shard(c, g.shard).leader
    ensures !Inv(Added(c, info))
  {
    assert GrantsOk(c);
    var s :| s in c.view.shards && !ShardOk(c, s);
    assert !ShardOk(Added(c, info), s);
  }

  // ---------------------------------------------------------------- the coordinator

  class Server {
    const shards: ShardMap
    const leader: LeaderManager
    const migration: MigrationManager

    ghost predicate Valid()
      reads this, shards, leader, migration, migration.leader, migration.shards
    {
      && leader.shards == shards && migration.leader == leader && migration.shards == shards
      && migration.Valid()
    }

    ghost function State(): Coord
      reads this, migration, migration.leader, migration.leader.shards
    {
      migration.State()
    }

    constructor ()
      ensures Valid() && State() == EMPTY
      ensures fresh(shards) && fresh(leader) && fresh(migration)
    {
      var map' := new ShardMap();
      var leaders := new LeaderManager(map');
      var migrations := new MigrationManager(map', leaders);
      shards, leader, migration := map', leaders, migrations;
    }

    /**
     The shards of the configuration, each in term 1 with its initial leader;
     with a repeated name, those before it, and an error.
     */
    method Init(infos: seq<ShardInfo>) returns (ok: bool)
      requires Valid() && State() == EMPTY && LeadersFit(infos)
      modifies leader, shards
      ensures ok <==> Configured(EMPTY, infos).Some?
      ensures Valid() && Some(State()) == Configured(EMPTY, infos[..Distinct(EMPTY, infos)])
      ensures ok ==> Configured(EMPTY, infos) == Some(State())
    {
      ok := leader.InitFromConfig(infos, migration.migrations);
      ghost var added := infos[..Distinct(EMPTY, infos)];
      ConfiguredExactly(added);
      assert ok ==> added == infos;
    }

    /** A new shard starts from another one's data, without a leader. */
    method Split(source: string, id: string, replicas: seq<string>) returns (ok: bool)
      requires Valid()
      modifies leader, shards
      ensures Valid() && Evolves(old(State()), State())
      ensures ok <==> CanSplit(old(State()), source, id, replicas)
      ensures State() == if ok then Added(old(State()), ShardInfo(id, replicas, "", source, [])) else old(State())
    {
      ghost var start := State();
      EvolvesReflexive(start);
      if source == "" || id == "" || |replicas| == 0 {
        return false;
      }
      var found := shards.Get(source);
      if found.None? {
        return false;
      }
      var info := ShardInfo(id, replicas, "", source, []);
      ok := shards.AddShard(info);
      if !ok {
        return false;
      }
      leader.InitTerm(id);
      assert State() == Added(start, info);
      AddedExactly(start, info);
    }

    /** A migration to another set of replicas begins. */
    method Migrate(id: string, target: seq<string>) returns (ok: bool)
      requires Valid()
      modifies migration, shards
      ensures Valid() && Evolves(old(State()), State())
      ensures ok <==> CanMigrate(old(State()), id, target)
      ensures State() == if ok then Started(old(State()), id, target) else old(State())
    {
      EvolvesReflexive(State());
      if id == "" || |target| == 0 {
        return false;
      }
      ok := migration.StartMigration(id, target);
    }

    method Perform(call: Call)
      requires Valid() && Allowed(call)
      modifies leader, migration, shards
      ensures Valid() && Next(old(State()), call, State())
    {
      match call {
        case NotifyLeader(id, node, term) =>
          var ok := leader.NotifyLeader(id, node, term, migration.migrations);
        case CheckAndReassign(mem) =>
          var changed := leader.CheckAndReassign(mem, migration.migrations);
        case StartMigration(id, target) =>
          var ok := Migrate(id, target);
        case CheckMigrations(mem) =>
          migration.CheckMigrations(mem);
        case SplitShard(source, id, replicas) =>
          var ok := Split(source, id, replicas);
      }
    }

    /** A coordinator that is configured and then called makes a run. */
    method Serve(infos: seq<ShardInfo>, calls: seq<Call>) returns (ok: bool, ghost states: seq<Coord>)
      requires Valid() && State() == EMPTY && LeadersFit(infos)
      requires forall i :: 0 <= i < |calls| ==> Allowed(calls[i])
      modifies leader, migration, shards
      ensures Valid()
      ensures ok <==> Configured(EMPTY, infos).Some?
      ensures ok ==> Run(infos, calls, states) && states[|calls|] == State()
    {
      ok := Init(infos);
      states := [State()];
      if !ok {
        return;
      }
      for i := 0 to |calls|
        invariant Valid() && |states| == i + 1 && Run(infos, calls[..i], states) && states[i] == State()
      {
        Perform(calls[i]);
        ghost var before := states;
        states := states + [State()];
        RunGoesOn(infos, calls, before, states, i);
      }
      assert calls[..|calls|] == calls;
    }
  }

  lemma {:induction false} RunGoesOn(
    infos: seq<ShardInfo>, calls: seq<Call>, before: seq<Coord>, after: seq<Coord>, n: nat)
    requires n < |calls| && Run(infos, calls[..n], before) && |after| == n + 2 && after[..n + 1] == before
    requires Allowed(calls[n]) && Next(before[n], calls[n], after[n + 1])
    ensures Run(infos, calls[..n + 1], after)
  {
    var cs := calls[..n + 1];
    forall i | 0 <= i < |cs| ensures CallAt(cs, after, i) {
      if i < n {
        assert CallAt(calls[..n], before, i);
        assert after[i] == before[i] && after[i + 1] == before[i + 1];
      } else {
        assert after[n] == before[n];
      }
    }
    assert after[0] == before[0];
  }
}
