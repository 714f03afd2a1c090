/**
 What each call of a run does to each shard, told from the states, the request
 and the heartbeats alone.
 */
module CoordinatorCalls {
  import opened ShardMaps
  import opened CoordinatorModel
  import opened Leadership
  import opened MigrationModel
  import opened Coordinator

  /** Nothing about the shard has changed. */
  predicate Same(c: Coord, c': Coord, s: string) {
    && (s in c.view.shards <==> s in c'.view.shards) && (s in c.terms <==> s in c'.terms)
    && (s in c.migrations <==> s in c'.migrations)
    && (s in c.view.shards && s in c'.view.shards ==> Shard(c', s) == Shard(c, s))
    && (s in c.terms && s in c'.terms ==> c'.terms[s] == c.terms[s])
    && (s in c.migrations && s in c'.migrations ==> c'.migrations[s] == c.migrations[s])
  }

  /** The version a node last reported for a shard. */
  function Reported(mem: Members, node: string, s: string): nat {
    if (node, s) in mem.versions then mem.versions[(node, s)] else 0
  }

  /** There are such nodes, and each is alive and has reported data. */
  predicate Populated(mem: Members, s: string, nodes: seq<string>) {
    && nodes != []
    && forall r | r in nodes :: r in mem.alive && (r, s) in mem.versions && mem.versions[(r, s)] > 0
  }

  // ---------------------------------------------------------------- configuration

  predicate ListedAt(c: Coord, infos: seq<ShardInfo>, i: nat)
    requires i < |infos|
  {
    var id := infos[i].id;
    && id in c.view.shards && c.view.shards[id] == infos[i] && id in c.terms && c.terms[id] == 1
    && forall j :: 0 <= j < i ==> infos[j].id != id
  }

  /** Exactly the configured shards, as configured and of different names, each in term 1, and no migrations. */
  ghost predicate AsConfigured(c: Coord, infos: seq<ShardInfo>) {
    && c.migrations == map[] && c.view.version == |infos|
    && (forall i :: 0 <= i < |infos| ==> ListedAt(c, infos, i))
    && forall s | s in c.view.shards :: exists i :: 0 <= i < |infos| && infos[i].id == s
  }

  lemma {:induction false} OneMoreConfigured(c: Coord, infos: seq<ShardInfo>)
    requires infos != [] && AsConfigured(c, infos[..|infos| - 1]) && infos[|infos| - 1].id !in c.view.shards
    ensures AsConfigured(Added(c, infos[|infos| - 1]), infos)
  {
    var n := |infos| - 1;
    var init, after := infos[..n], Added(c, infos[n]);
    forall i | 0 <= i < |infos| ensures ListedAt(after, infos, i) {
      if i < n {
        assert ListedAt(c, init, i);
        assert forall j :: 0 <= j <= i ==> init[j] == infos[j];
      } else {
        forall j | 0 <= j < n ensures infos[j].id != infos[n].id {
          assert ListedAt(c, init, j) && init[j] == infos[j];
        }
      }
    }
    forall s | s in after.view.shards ensures exists i :: 0 <= i < |infos| && infos[i].id == s {
      if s == infos[n].id {
        assert infos[n].id == s;
      } else {
        var i :| 0 <= i < n && init[i].id == s;
        assert infos[i].id == s;
      }
    }
  }

  lemma {:induction false} ConfiguredIsListed(infos: seq<ShardInfo>)
    requires Configured(EMPTY, infos).Some?
    ensures AsConfigured(Configured(EMPTY, infos).value, infos)
    decreases |infos|
  {
    if infos != [] {
      ConfiguredIsListed(infos[..|infos| - 1]);
      OneMoreConfigured(Configured(EMPTY, infos[..|infos| - 1]).value, infos);
    }
  }

  lemma {:induction false} StartIsConfigured(infos: seq<ShardInfo>, calls: seq<Call>, states: seq<Coord>)
    requires Run(infos, calls, states)
    ensures AsConfigured(states[0], infos)
  {
    ConfiguredIsListed(infos);
  }

  // ---------------------------------------------------------------- reassignment

  /** The leader is missing or dead, and another replica is alive. */
  predicate Replaceable(info: ShardInfo, mem: Members) {
    && (info.leader == "" || info.leader !in mem.alive)
    && exists r | r in info.replicas :: r in mem.alive && r != info.leader
  }

  /** The node is a live replica, and no other live one has reported a higher version. */
  predicate Best(info: ShardInfo, mem: Members, s: string, node: string) {
    && node in info.replicas && node in mem.alive && node != info.leader
    && forall r | r in info.replicas && r in mem.alive && r != info.leader ::
         Reported(mem, r, s) <= Reported(mem, node, s)
  }

  predicate LeaderReplaced(c: Coord, c': Coord, s: string, mem: Members) {
    && s in c.view.shards && s in c'.view.shards && s in c.terms && s in c'.terms
    && var before, after := Shard(c, s), Shard(c', s);
       && Best(before, mem, s, after.leader) && after == before.(leader := after.leader)
       && c'.terms[s] == c.terms[s] + 1
  }

  /** A shard gets a new leader exactly when its own is missing or dead and there is a live replica. */
  lemma {:induction false} ReassignExactly(
    infos: seq<ShardInfo>, calls: seq<Call>, states: seq<Coord>, i: nat, s: string, mem: Members)
    requires Run(infos, calls, states) && i < |calls| && calls[i] == CheckAndReassign(mem)
    ensures if s in states[i].view.shards && Replaceable(Shard(states[i], s), mem)
            then LeaderReplaced(states[i], states[i + 1], s, mem)
            else Same(states[i], states[i + 1], s)
  {
    RunKeepsInv(infos, calls, states, i);
    assert CallAt(calls, states, i);
    if s in states[i].view.shards {
      assert ShardOk(states[i], s) && ReassignedIn(states[i], states[i + 1], s, mem);
      CandidatesAgree(Shard(states[i], s), mem);
    }
  }

  lemma {:induction false} CandidatesAgree(info: ShardInfo, mem: Members)
    ensures NeedsLeader(info, mem) && HasCandidate(info, mem) <==> Replaceable(info, mem)
    ensures forall node :: Picks(info, mem, node) <==> Best(info, mem, info.id, node)
  {
    forall node ensures Picks(info, mem, node) <==> Best(info, mem, info.id, node) {
      assert forall r :: Reported(mem, r, info.id) == VersionOf(mem, r, info.id);
      assert forall r | r in info.replicas :: IsCandidate(info, mem, r) <==> r in mem.alive && r != info.leader;
    }
  }

  // ---------------------------------------------------------------- requests

  /** The result of an election counts exactly in a later term and for a replica. */
  lemma {:induction false} NotifyExactly(
    infos: seq<ShardInfo>, calls: seq<Call>, states: seq<Coord>, i: nat, s: string, id: string, node: string, term: nat)
    requires Run(infos, calls, states) && i < |calls| && calls[i] == NotifyLeader(id, node, term)
    ensures var c, c' := states[i], states[i + 1];
            if s == id && s in c.view.shards && s in c.terms && term > c.terms[s] && node in Shard(c, s).replicas
            then s in c'.view.shards && s in c'.terms
                 && Shard(c', s) == Shard(c, s).(leader := node) && c'.terms[s] == term
            else Same(c, c', s)
  {
    assert CallAt(calls, states, i);
  }

  /** A migration starts exactly for a known shard and at least one target; the replicas are then the union. */
  lemma {:induction false} StartExactly(
    infos: seq<ShardInfo>, calls: seq<Call>, states: seq<Coord>, i: nat, s: string, id: string, target: seq<string>)
    requires Run(infos, calls, states) && i < |calls| && calls[i] == StartMigration(id, target)
    ensures var c, c' := states[i], states[i + 1];
            if s == id && s != "" && target != [] && s in c.view.shards
            then && s in c'.view.shards && s in c'.migrations && c'.migrations[s] == target
                 && (s in c.terms <==> s in c'.terms) && (s in c.terms ==> c'.terms[s] == c.terms[s])
                 && var before, after := Shard(c, s), Shard(c', s);
                    && after == before.(replicas := after.replicas, incoming := target)
                    && forall r :: r in after.replicas <==> r in before.replicas || r in target
            else Same(c, c', s)
  {
    RunKeepsInv(infos, calls, states, i);
    assert CallAt(calls, states, i);
    if s in states[i].view.shards {
      assert ShardOk(states[i], s);
      UnionIsUnion(Shard(states[i], s).replicas, target);
    }
  }

  /** A shard is split off exactly under a new name, from a known one and with replicas; it starts without a leader. */
  lemma {:induction false} SplitExactly(
    infos: seq<ShardInfo>, calls: seq<Call>, states: seq<Coord>, i: nat, s: string,
    source: string, id: string, replicas: seq<string>)
    requires Run(infos, calls, states) && i < |calls| && calls[i] == SplitShard(source, id, replicas)
    ensures var c, c' := states[i], states[i + 1];
            if && s == id && s != "" && source != "" && replicas != []
               && source in c.view.shards && s !in c.view.shards
            then && s in c'.view.shards && Shard(c', s) == ShardInfo(s, replicas, "", source, [])
                 && s in c'.terms && c'.terms[s] == 1
            else Same(c, c', s)
  {
    assert CallAt(calls, states, i);
  }

  // ---------------------------------------------------------------- rounds

  /** The shard is its target alone, under a live leader with data: the old one if it is there, else the best. */
  predicate Moved(c: Coord, c': Coord, s: string, mem: Members) {
    && s in c.view.shards && s in c'.view.shards && s in c.migrations && s !in c'.migrations
    && s in c.terms && s in c'.terms
    && var before, after, target := Shard(c, s), Shard(c', s), c.migrations[s];
       && after.id == s && after.replicas == target && after.incoming == []
       && after.leader in target && after.leader in mem.alive && Reported(mem, after.leader, s) > 0
       && (if before.leader in target then after.leader == before.leader && c'.terms[s] == c.terms[s]
           else c'.terms[s] > c.terms[s]
                && forall r | r in target :: Reported(mem, r, s) <= Reported(mem, after.leader, s))
  }

  /** The shard stays as it was, but for a dead or missing leader that may be replaced. */
  predicate Stays(c: Coord, c': Coord, s: string, mem: Members) {
    && s in c.view.shards && s in c'.view.shards && s in c.terms && s in c'.terms
    && (s in c.migrations <==> s in c'.migrations) && (s in c.migrations ==> c'.migrations[s] == c.migrations[s])
    && var before, after := Shard(c, s), Shard(c', s);
       && after == before.(leader := after.leader, bootstrap := after.bootstrap)
       && (|| (after.leader == before.leader && c'.terms[s] == c.terms[s])
           || (Replaceable(before, mem) && Best(before, mem, s, after.leader) && c'.terms[s] == c.terms[s] + 1))
  }

  lemma {:induction false} ReadyIsPopulated(mem: Members, s: string, nodes: seq<string>)
    ensures AllReady(mem, s, nodes) <==> Populated(mem, s, nodes)
  {
    assert forall r :: VersionOf(mem, r, s) == Reported(mem, r, s);
  }

  lemma {:induction false} DoneIsMoved(c: Coord, c': Coord, s: string, mem: Members)
    requires s in c.view.shards && s in c.migrations && Shard(c, s).id == s && Populated(mem, s, c.migrations[s])
    requires Done(c, c', s, c.migrations[s], mem)
    ensures Moved(c, c', s, mem)
  {
    var leader := Shard(c', s).leader;
    assert leader in c.migrations[s] && mem.versions[(leader, s)] > 0;
    assert forall r :: VersionOf(mem, r, s) == Reported(mem, r, s);
  }

  lemma {:induction false} TouchedStays(c: Coord, c': Coord, s: string, mem: Members)
    requires Touched(c, c', s, mem) && Shard(c, s).id == s
    requires (s in c.migrations <==> s in c'.migrations) && (s in c.migrations ==> c'.migrations[s] == c.migrations[s])
    ensures Stays(c, c', s, mem)
  {
    CandidatesAgree(Shard(c, s), mem);
    if NeedsLeader(Shard(c, s), mem) && Picks(Shard(c, s), mem, Shard(c', s).leader) {
      assert IsCandidate(Shard(c, s), mem, Shard(c', s).leader);
    }
  }

  /**
   A round ends a migration exactly when every node of its target is alive and
   has reported data, and leaves every other shard where it is. A split shard
   forgets its source exactly when all its replicas are alive with data.
   */
  lemma {:induction false} RoundExactly(
    infos: seq<ShardInfo>, calls: seq<Call>, states: seq<Coord>, i: nat, s: string, mem: Members)
    requires Run(infos, calls, states) && i < |calls| && calls[i] == CheckMigrations(mem)
    requires s in states[i].view.shards
    ensures var c, c' := states[i], states[i + 1];
            && (if s in c.migrations && Populated(mem, s, c.migrations[s]) then Moved(c, c', s, mem)
                else Stays(c, c', s, mem))
            && s in c'.view.shards
            && Shard(c', s).bootstrap ==
               if Populated(mem, s, Shard(c', s).replicas) then "" else Shard(c, s).bootstrap
  {
    var c, c' := states[i], states[i + 1];
    RunKeepsInv(infos, calls, states, i);
    assert CallAt(calls, states, i) && ShardOk(c, s) && Checked(c, c', s, mem);
    ReadyIsPopulated(mem, s, Shard(c', s).replicas);
    if s in c.migrations {
      ReadyIsPopulated(mem, s, c.migrations[s]);
    }
    if Ready(c, s, mem) {
      DoneIsMoved(c, c', s, mem);
    } else {
      TouchedStays(c, c', s, mem);
    }
  }
}
