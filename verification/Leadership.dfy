/** Choosing shard leaders: initial assignment, reassignment when leaders die, and election results from nodes. */
module Leadership {
  import opened Common
  import opened ShardMaps
  import opened CoordinatorModel

  /** What heartbeats have told: the nodes alive and the versions they last reported, by node and shard. */
  datatype Members = Members(alive: set<string>, versions: map<(string, string), nat>)

  function VersionOf(mem: Members, node: string, shard: string): nat {
    if (node, shard) in mem.versions then mem.versions[(node, shard)] else 0
  }

  // ---------------------------------------------------------------- candidates

  predicate IsCandidate(info: ShardInfo, mem: Members, node: string) {
    node in info.replicas && node != info.leader && node in mem.alive
  }

  /** A candidate no other candidate has a higher version than. */
  predicate Picks(info: ShardInfo, mem: Members, node: string) {
    && IsCandidate(info, mem, node)
    && forall r | r in info.replicas ::
         IsCandidate(info, mem, r) ==> VersionOf(mem, r, info.id) <= VersionOf(mem, node, info.id)
  }

  predicate HasCandidate(info: ShardInfo, mem: Members) {
    exists r | r in info.replicas :: IsCandidate(info, mem, r)
  }

  predicate NeedsLeader(info: ShardInfo, mem: Members) {
    info.leader == "" || info.leader !in mem.alive
  }

  /** A shard without a live leader gets the best candidate and the next term; any other is left alone. */
  predicate Reassigned(before: ShardInfo, t: nat, after: ShardInfo, t': nat, mem: Members) {
    if NeedsLeader(before, mem) && HasCandidate(before, mem)
    then Picks(before, mem, after.leader) && after == before.(leader := after.leader) && t' == t + 1
    else after == before && t' == t
  }

  predicate ReassignedIn(a: Coord, b: Coord, s: string, mem: Members)
    requires s in a.view.shards && s in a.terms
  {
    s in b.view.shards && s in b.terms && Reassigned(Shard(a, s), a.terms[s], Shard(b, s), b.terms[s], mem)
  }

  /** After reassignment a shard with a live replica has a live leader. */
  lemma {:induction false} ReassignedIsAlive(
    before: ShardInfo, t: nat, after: ShardInfo, t': nat, mem: Members, r: string)
    requires Reassigned(before, t, after, t', mem) && r in before.replicas && r in mem.alive
    requires before.leader == "" || before.leader in before.replicas
    ensures after.leader in mem.alive && after.leader in after.replicas
  {
    if NeedsLeader(before, mem) {
      assert IsCandidate(before, mem, r) || r == "" == before.leader;
      if r != before.leader {
        assert HasCandidate(before, mem);
      }
    }
  }

  // ---------------------------------------------------------------- configuration

  /** The shards of a configuration, added one after the other, unless a name is taken already. */
  function Configured(c: Coord, infos: seq<ShardInfo>): Option<Coord> {
    if infos == [] then Some(c)
    else
      var n := |infos| - 1;
      var before := Configured(c, infos[..n]);
      if before.None? || infos[n].id in before.value.view.shards then None else Some(Added(before.value, infos[n]))
  }

  /** The number of shards before the first name that is taken already. */
  function Distinct(c: Coord, infos: seq<ShardInfo>): (n: nat)
    ensures n <= |infos|
  {
    if infos == [] then 0
    else
      var k := Distinct(c, infos[..|infos| - 1]);
      if k == |infos| - 1 && Configured(c, infos).Some? then k + 1 else k
  }

  /** `Distinct` is where configuring succeeds for the last time. */
  lemma {:induction false} DistinctExactly(c: Coord, infos: seq<ShardInfo>, n: nat)
    requires n <= |infos| && Configured(c, infos[..n]).Some?
    requires n < |infos| ==> Configured(c, infos[..n + 1]).None?
    ensures Distinct(c, infos) == n
    decreases |infos|
  {
    if n == |infos| {
      assert infos[..n] == infos;
      if n > 0 {
        assert infos[..n - 1][..n - 1] == infos[..n - 1];
        DistinctExactly(c, infos[..n - 1], n - 1);
      }
    } else {
      var init := infos[..|infos| - 1];
      assert init[..n] == infos[..n];
      if n < |init| {
        assert init[..n + 1] == infos[..n + 1];
      }
      DistinctExactly(c, init, n);
      if n == |init| {
        assert infos[..n + 1] == infos;
      }
    }
  }

  class LeaderManager {
    const shards: ShardMap
    var terms: map<string, nat>
    ghost var grants: Grants

    /** The state together with the pending migrations. */
    ghost function State(migrations: map<string, seq<string>>): Coord
      reads this, shards
    {
      Coord(shards.View(), terms, migrations, grants)
    }

    constructor (shards: ShardMap)
      ensures this.shards == shards && terms == map[] && grants == {}
    {
      this.shards := shards;
      terms := map[];
      grants := {};
    }

    /** Adds the shards of the configuration with their initial leaders, those before a duplicate in any case. */
    method InitFromConfig(infos: seq<ShardInfo>, ghost migrations: map<string, seq<string>>) returns (ok: bool)
      modifies this, shards
      ensures ok <==> Distinct(old(State(migrations)), infos) == |infos|
      ensures ok <==> Configured(old(State(migrations)), infos).Some?
      ensures Some(State(migrations)) ==
              Configured(old(State(migrations)), infos[..Distinct(old(State(migrations)), infos)])
    {
      ghost var start := State(migrations);
      for i := 0 to |infos|
        invariant Configured(start, infos[..i]) == Some(State(migrations))
      {
        assert infos[..i + 1][..i] == infos[..i];
        var added := shards.AddShard(infos[i]);
        if !added {
          FailsForGood(start, infos, i + 1);
          DistinctExactly(start, infos, i);
          return false;
        }
        terms := terms[infos[i].id := 1];
        grants := if infos[i].leader == "" then grants else grants + {Grant(infos[i].id, 1, infos[i].leader)};
      }
      assert infos[..|infos|] == infos;
      DistinctExactly(start, infos, |infos|);
      return true;
    }

    /** The first term of a shard created later; a term that is there stays. */
    method InitTerm(id: string)
      modifies this
      ensures terms == (if id in old(terms) then old(terms) else old(terms)[id := 1]) && grants == old(grants)
    {
      if id !in terms {
        terms := terms[id := 1];
      }
    }

    /** The live replica with the highest version, other than the leader, and the next term. */
    method PickCandidate(info: ShardInfo, mem: Members) returns (node: string, term: nat)
      requires "" !in mem.alive
      ensures node == "" <==> !HasCandidate(info, mem)
      ensures node != "" ==> Picks(info, mem, node) && term == (if info.id in terms then terms[info.id] else 0) + 1
    {
      var current := if info.id in terms then terms[info.id] else 0;
      var best, bestVersion := "", 0;
      for i := 0 to |info.replicas|
        invariant best == "" ==> forall r | r in info.replicas[..i] :: !IsCandidate(info, mem, r)
        invariant best != "" ==>
                    && IsCandidate(info, mem, best) && bestVersion == VersionOf(mem, best, info.id)
                    && forall r | r in info.replicas[..i] ::
                         IsCandidate(info, mem, r) ==> VersionOf(mem, r, info.id) <= bestVersion
      {
        var replica := info.replicas[i];
        assert info.replicas[..i + 1] == info.replicas[..i] + [replica];
        if replica == info.leader || replica !in mem.alive {
          continue;
        }
        var v := VersionOf(mem, replica, info.id);
        if best == "" || v > bestVersion {
          best, bestVersion := replica, v;
        }
      }
      assert info.replicas[..|info.replicas|] == info.replicas;
      return best, if best == "" then 0 else current + 1;
    }

    /** A replica becomes leader in a new term. */
    method MakeLeader(id: string, node: string, term: nat, ghost migrations: map<string, seq<string>>)
      requires Inv(State(migrations)) && id in shards.shards && node in shards.shards[id].replicas
      requires id in terms && term > terms[id]
      modifies this, shards
      ensures State(migrations) == Lead(old(State(migrations)), id, node, term)
      ensures Inv(State(migrations)) && Evolves(old(State(migrations)), State(migrations))
    {
      ghost var start := State(migrations);
      var ok := shards.SetLeader(id, node);
      terms := terms[id := term];
      grants := grants + {Grant(id, term, node)};
      assert State(migrations) == Lead(start, id, node, term);
      LeadKeeps(start, id, node, term);
    }

    /** One shard, as it was when the round began. */
    method ReassignOne(
      info: ShardInfo, mem: Members, ghost migrations: map<string, seq<string>>)
      returns (changed: bool)
      requires "" !in mem.alive && Inv(State(migrations))
      requires info.id in shards.shards && shards.shards[info.id] == info
      modifies this, shards
      ensures Inv(State(migrations))
      ensures changed <==> Changes(info, mem)
      ensures OneReassigned(old(State(migrations)), State(migrations), info.id, mem)
    {
      assert ShardOk(State(migrations), info.id);
      if NeedsLeader(info, mem) {
        var candidate, term := PickCandidate(info, mem);
        if candidate != "" {
          MakeLeader(info.id, candidate, term, migrations);
          return true;
        }
      }
      return false;
    }

    /** Gives a leader to every shard that has none alive, in any order. */
    method CheckAndReassign(mem: Members, ghost migrations: map<string, seq<string>>) returns (changed: set<string>)
      requires "" !in mem.alive && Inv(State(migrations))
      modifies this, shards
      ensures Inv(State(migrations)) && Evolves(old(State(migrations)), State(migrations))
      ensures Reassigns(old(State(migrations)), State(migrations), mem)
      ensures changed == Changing(old(State(migrations)), mem)
    {
      ghost var start := State(migrations);
      PartialStarts(start, mem);
      changed := {};
      var all := shards.shards;
      var left := all.Keys;
      while left != {}
        invariant left <= all.Keys
        invariant Inv(State(migrations))
        invariant Partial(start, State(migrations), left, changed, mem)
        decreases left
      {
        var s :| s in left;
        ghost var before := State(migrations);
        assert ShardOk(start, s) && SameShard(start, before, s);
        var done := ReassignOne(all[s], mem, migrations);
        PartialGoesOn(start, before, State(migrations), left, changed, s, mem);
        if done {
          changed := changed + {s};
        }
        left := left - {s};
      }
      PartialEnds(start, State(migrations), changed, mem);
      ReassignsKeeps(start, State(migrations), mem);
    }

    /** An election result is accepted exactly when its term is newer and the winner is a replica. */
    method NotifyLeader(
      id: string, node: string, term: nat, ghost migrations: map<string, seq<string>>)
      returns (ok: bool)
      requires Inv(State(migrations))
      modifies this, shards
      ensures ok <==> Accepts(old(State(migrations)), id, node, term)
      ensures State(migrations) == if ok then Lead(old(State(migrations)), id, node, term) else old(State(migrations))
      ensures Inv(State(migrations)) && Evolves(old(State(migrations)), State(migrations))
    {
      ghost var start := State(migrations);
      EvolvesReflexive(start);
      if id !in terms {
        return false;
      }
      if term <= terms[id] {
        return false;
      }
      ok := shards.SetLeader(id, node);
      if !ok {
        return false;
      }
      terms := terms[id := term];
      grants := grants + {Grant(id, term, node)};
      assert State(migrations) == Lead(start, id, node, term);
      LeadKeeps(start, id, node, term);
    }
  }

  predicate Accepts(c: Coord, id: string, node: string, term: nat) {
    id in c.terms && term > c.terms[id] && id in c.view.shards && node in Shard(c, id).replicas
  }

  lemma {:induction false} FailsForGood(c: Coord, infos: seq<ShardInfo>, n: nat)
    requires n <= |infos| && Configured(c, infos[..n]).None?
    ensures Configured(c, infos).None?
    decreases |infos|
  {
    if n == |infos| {
      assert infos[..n] == infos;
    } else {
      assert infos[..|infos| - 1][..n] == infos[..n];
      FailsForGood(c, infos[..|infos| - 1], n);
    }
  }

  predicate SameShard(a: Coord, b: Coord, s: string) {
    && s in a.view.shards && s in b.view.shards && Shard(a, s) == Shard(b, s)
    && s in a.terms && s in b.terms && a.terms[s] == b.terms[s]
  }

  predicate Changes(info: ShardInfo, mem: Members) {
    NeedsLeader(info, mem) && HasCandidate(info, mem)
  }

  /** The shards a round of reassignment gives a leader to. */
  function Changing(c: Coord, mem: Members): set<string> {
    set s | s in c.view.shards && Changes(c.view.shards[s], mem)
  }

  /** The best candidate leads the shard in its next term, if it needs a leader and has a candidate. */
  predicate OneReassigned(a: Coord, b: Coord, s: string, mem: Members) {
    && s in a.view.shards && s in a.terms
    && if Changes(Shard(a, s), mem)
       then s in b.view.shards && Picks(Shard(a, s), mem, Shard(b, s).leader)
            && b == Lead(a, s, Shard(b, s).leader, a.terms[s] + 1)
       else b == a
  }

  /** Every shard has been looked at. */
  predicate AllReassigned(a: Coord, b: Coord, mem: Members) {
    && a.view.shards.Keys == b.view.shards.Keys
    && forall s | s in a.view.shards :: s in a.terms && ReassignedIn(a, b, s, mem)
  }

  /** The leadership the shard has now. */
  predicate IsCurrent(c: Coord, g: Grant) {
    && g.shard in c.view.shards && g.shard in c.terms
    && g.term == c.terms[g.shard] && g.leader == Shard(c, g.shard).leader
  }

  /** The leaderships given to `changed` are recorded, and no others. */
  ghost predicate GrantsGrow(a: Coord, b: Coord, changed: set<string>) {
    forall g :: g in b.grants <==> g in a.grants || (g.shard in changed && IsCurrent(b, g))
  }

  /**
   A whole round of reassignment, whatever the order of the shards: every shard
   is reassigned on its own, each change raises the version of the map by one
   and is recorded, and nothing else happens.
   */
  ghost predicate Reassigns(a: Coord, b: Coord, mem: Members) {
    && AllReassigned(a, b, mem)
    && b.terms.Keys == a.terms.Keys && b.migrations == a.migrations
    && b.view.version == a.view.version + |Changing(a, mem)|
    && GrantsGrow(a, b, Changing(a, mem))
  }

  // ---------------------------------------------------------------- a round of reassignment

  /** All shards but those left have been looked at; `changed` got a leader. */
  ghost predicate Partial(a: Coord, b: Coord, left: set<string>, changed: set<string>, mem: Members) {
    && RoundSoFar(a, b, left, mem)
    && b.terms.Keys == a.terms.Keys && b.migrations == a.migrations
    && b.view.version == a.view.version + |changed|
    && GrantsGrow(a, b, changed)
    && Reports(changed, a.view.shards, left, mem)
  }

  predicate RoundSoFar(a: Coord, b: Coord, left: set<string>, mem: Members) {
    && a.view.shards.Keys == b.view.shards.Keys
    && (forall s | s in left :: SameShard(a, b, s))
    && forall s | s in a.view.shards && s !in left :: s in a.terms && ReassignedIn(a, b, s, mem)
  }

  /** The shards that got a new leader, among those looked at. */
  ghost predicate Reports(changed: set<string>, shards: map<string, ShardInfo>, left: set<string>, mem: Members) {
    forall s :: s in changed <==> s in shards && s !in left && Changes(shards[s], mem)
  }

  lemma {:induction false} PartialStarts(a: Coord, mem: Members)
    requires Inv(a)
    ensures Partial(a, a, a.view.shards.Keys, {}, mem)
  {
    forall s | s in a.view.shards ensures SameShard(a, a, s) {
      assert ShardOk(a, s);
    }
  }

  lemma {:induction false} RoundGoesOn(a: Coord, b: Coord, c: Coord, left: set<string>, s: string, mem: Members)
    requires s in left && s in a.view.shards && RoundSoFar(a, b, left, mem) && OneReassigned(b, c, s, mem)
    ensures RoundSoFar(a, c, left - {s}, mem)
  {
    assert SameShard(a, b, s);
    forall u | u in left - {s} ensures SameShard(a, c, u) {
      assert SameShard(a, b, u);
    }
    forall u | u in a.view.shards && u !in left - {s} ensures u in a.terms && ReassignedIn(a, c, u, mem) {
      if u != s {
        assert ReassignedIn(a, b, u, mem);
      }
    }
  }

  lemma {:induction false} GrantsGoOn(a: Coord, b: Coord, c: Coord, changed: set<string>, s: string, mem: Members)
    requires s !in changed && GrantsGrow(a, b, changed) && OneReassigned(b, c, s, mem)
    ensures GrantsGrow(a, c, if Changes(Shard(b, s), mem) then changed + {s} else changed)
  {
    if Changes(Shard(b, s), mem) {
      forall g ensures g in c.grants <==> g in a.grants || (g.shard in changed + {s} && IsCurrent(c, g)) {
        if g.shard != s {
          assert IsCurrent(c, g) <==> IsCurrent(b, g);
        }
      }
    }
  }

  lemma {:induction false} PartialGoesOn(
    a: Coord, b: Coord, c: Coord, left: set<string>, changed: set<string>, s: string, mem: Members)
    requires s in left && s in a.view.shards && Partial(a, b, left, changed, mem) && OneReassigned(b, c, s, mem)
    ensures Partial(a, c, left - {s}, if Changes(Shard(a, s), mem) then changed + {s} else changed, mem)
  {
    assert SameShard(a, b, s);
    assert s !in changed;
    RoundGoesOn(a, b, c, left, s, mem);
    GrantsGoOn(a, b, c, changed, s, mem);
  }

  lemma {:induction false} PartialEnds(a: Coord, b: Coord, changed: set<string>, mem: Members)
    requires Partial(a, b, {}, changed, mem)
    ensures Reassigns(a, b, mem) && changed == Changing(a, mem)
  {
    assert changed == Changing(a, mem);
  }

  /** A round of reassignment keeps the invariant: leaders are replicas, and no term gets two of them. */
  lemma {:induction false} ReassignsKeeps(a: Coord, b: Coord, mem: Members)
    requires Inv(a) && Reassigns(a, b, mem)
    ensures Inv(b) && Evolves(a, b)
  {
    forall s | s in a.view.shards ensures ShardOk(b, s) && ShardEvolves(a, b, s) && b.terms[s] >= a.terms[s] {
      assert ShardOk(a, s) && ReassignedIn(a, b, s, mem);
      ReassignedShardOk(a, b, s, mem);
    }
    forall s | s in b.migrations ensures MigrationOk(b, s) {
      assert MigrationOk(a, s) && ReassignedIn(a, b, s, mem);
    }
    GrantsStayOk(a, b, mem);
    if Changing(a, mem) == {} {
      forall s | s in a.view.shards ensures Shard(a, s) == Shard(b, s) {
        assert ReassignedIn(a, b, s, mem) && s !in Changing(a, mem);
      }
      assert a.view.shards == b.view.shards;
    }
  }

  lemma {:induction false} ReassignedShardOk(a: Coord, b: Coord, s: string, mem: Members)
    requires s in a.view.shards && ShardOk(a, s) && ReassignedIn(a, b, s, mem)
    requires GrantsGrow(a, b, Changing(a, mem))
    ensures ShardOk(b, s) && ShardEvolves(a, b, s) && b.terms[s] >= a.terms[s]
    ensures s in Changing(a, mem) ==> b.terms[s] == a.terms[s] + 1
  {
    if s in Changing(a, mem) {
      assert IsCurrent(b, Grant(s, b.terms[s], Shard(b, s).leader));
    } else if Shard(a, s).leader != "" {
      assert Grant(s, a.terms[s], Shard(a, s).leader) in a.grants;
    }
  }

  lemma {:induction false} GrantsStayOk(a: Coord, b: Coord, mem: Members)
    requires Inv(a) && Reassigns(a, b, mem)
    ensures GrantsOk(b) && a.grants <= b.grants
  {
    forall g | g in b.grants
      ensures g.shard in b.terms && g.shard in a.terms && g.term <= b.terms[g.shard]
      ensures g in a.grants ==> g.term <= a.terms[g.shard]
      ensures g !in a.grants ==> IsCurrent(b, g) && g.term > a.terms[g.shard]
    {
      assert g.shard in a.view.shards && ReassignedIn(a, b, g.shard, mem);
    }
    forall g, h | g in b.grants && h in b.grants && g.shard == h.shard && g.term == h.term
      ensures g.leader == h.leader
    {
      assert g in a.grants <==> h in a.grants;
    }
  }
}
