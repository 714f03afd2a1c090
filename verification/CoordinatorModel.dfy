/**
 The coordinator's state as a value: the shard map, the term of every shard,
 the pending migrations and, for the record, every leadership ever given.
 */
module CoordinatorModel {
  import opened ShardMaps

  /** `leader` was made leader of `shard` in `term`. */
  datatype Grant = Grant(shard: string, term: nat, leader: string)

  type Grants = set<Grant>

  datatype Coord = Coord(view: MapView, terms: map<string, nat>, migrations: map<string, seq<string>>, grants: Grants)

  function Shard(c: Coord, s: string): ShardInfo
    requires s in c.view.shards
  {
    c.view.shards[s]
  }

  // ---------------------------------------------------------------- invariant

  predicate Granted(c: Coord, s: string, t: nat, node: string) {
    Grant(s, t, node) in c.grants
  }

  predicate ShardOk(c: Coord, s: string)
    requires s in c.view.shards
  {
    var info := Shard(c, s);
    && info.id == s && s in c.terms
    && (info.leader == "" || (info.leader in info.replicas && Granted(c, s, c.terms[s], info.leader)))
  }

  predicate MigrationOk(c: Coord, s: string)
    requires s in c.migrations
  {
    s in c.view.shards && forall r | r in c.migrations[s] :: r in Shard(c, s).replicas
  }

  predicate GrantsOk(c: Coord) {
    && (forall g | g in c.grants :: g.shard in c.terms && g.term <= c.terms[g.shard])
    && (forall g, h | g in c.grants && h in c.grants :: g.shard == h.shard && g.term == h.term ==> g.leader == h.leader)
  }

  predicate Inv(c: Coord) {
    && (forall s | s in c.terms :: s in c.view.shards)
    && (forall s | s in c.view.shards :: ShardOk(c, s))
    && (forall s | s in c.migrations :: MigrationOk(c, s))
    && GrantsOk(c)
  }

  /** Terms only rise, and no grant is forgotten. */
  predicate TermsRise(a: Coord, b: Coord) {
    && (forall s | s in a.terms :: s in b.terms && a.terms[s] <= b.terms[s])
    && a.grants <= b.grants
  }

  /** Within a term a shard keeps its leader or loses it. */
  predicate ShardEvolves(a: Coord, b: Coord, s: string) {
    && s in a.view.shards && s in b.view.shards && s in a.terms && s in b.terms
    && (a.terms[s] == b.terms[s] ==> Shard(b, s).leader == Shard(a, s).leader || Shard(b, s).leader == "")
  }

  /** What no operation breaks. */
  predicate Evolves(a: Coord, b: Coord) {
    && a.view.version <= b.view.version
    && (a.view.shards != b.view.shards ==> a.view.version < b.view.version)
    && TermsRise(a, b)
    && forall s | s in a.view.shards :: ShardEvolves(a, b, s)
  }

  lemma {:induction false} EvolvesReflexive(a: Coord)
    requires Inv(a)
    ensures Evolves(a, a)
  {
    forall s | s in a.view.shards ensures ShardEvolves(a, a, s) {
      assert ShardOk(a, s);
    }
  }

  lemma {:induction false} EvolvesTransitive(a: Coord, b: Coord, c: Coord)
    requires Evolves(a, b) && Evolves(b, c)
    ensures Evolves(a, c)
  {
    forall s | s in a.view.shards ensures ShardEvolves(a, c, s) {
      assert ShardEvolves(a, b, s) && ShardEvolves(b, c, s);
    }
  }

  // ---------------------------------------------------------------- single changes

  /** The map with one shard replaced. */
  function WithShard(c: Coord, s: string, info: ShardInfo): Coord {
    c.(view := MapView(c.view.version + 1, c.view.shards[s := info]))
  }

  /** `node` leads `s` from term `t` on. */
  function Lead(c: Coord, s: string, node: string, t: nat): Coord
    requires s in c.view.shards
  {
    WithShard(c, s, Shard(c, s).(leader := node)).(terms := c.terms[s := t], grants := c.grants + {Grant(s, t, node)})
  }

  lemma {:induction false} LeadEvolves(c: Coord, s: string, node: string, t: nat)
    requires Inv(c) && s in c.view.shards && node in Shard(c, s).replicas && t > c.terms[s]
    ensures Evolves(c, Lead(c, s, node, t))
    ensures forall u | u in c.view.shards :: ShardOk(Lead(c, s, node, t), u)
  {
    var d := Lead(c, s, node, t);
    assert ShardOk(c, s);
    forall u | u in c.view.shards ensures ShardOk(d, u) && ShardEvolves(c, d, u) {
      assert ShardOk(c, u);
    }
  }

  lemma {:induction false} LeadKeeps(c: Coord, s: string, node: string, t: nat)
    requires Inv(c) && s in c.view.shards && node in Shard(c, s).replicas && t > c.terms[s]
    ensures Inv(Lead(c, s, node, t)) && Evolves(c, Lead(c, s, node, t))
  {
    var d := Lead(c, s, node, t);
    LeadEvolves(c, s, node, t);
    forall u | u in d.migrations ensures MigrationOk(d, u) {
      assert MigrationOk(c, u);
    }
    assert ShardOk(c, s);
    LeadGrants(c, s, node, t);
  }

  /** The new leadership is the only one of its term. */
  lemma {:induction false} LeadGrants(c: Coord, s: string, node: string, t: nat)
    requires GrantsOk(c) && s in c.view.shards && s in c.terms && t > c.terms[s]
    ensures GrantsOk(Lead(c, s, node, t))
  {
  }

  /** A changed shard that keeps its identity and its leader, or loses the leader. */
  predicate Keeps(before: ShardInfo, after: ShardInfo) {
    && after.id == before.id
    && (after.leader == "" || (after.leader == before.leader && after.leader in after.replicas))
  }

  lemma {:induction false} ChangeKeeps(c: Coord, s: string, info: ShardInfo)
    requires Inv(c) && s in c.view.shards && Keeps(Shard(c, s), info)
    requires s in c.migrations ==> forall r | r in c.migrations[s] :: r in info.replicas
    ensures Inv(WithShard(c, s, info)) && Evolves(c, WithShard(c, s, info))
  {
    var d := WithShard(c, s, info);
    assert ShardOk(c, s);
    forall u | u in d.view.shards ensures ShardOk(d, u) {
      if u != s {
        assert ShardOk(c, u);
      }
    }
    forall u | u in d.migrations ensures MigrationOk(d, u) {
      assert MigrationOk(c, u);
    }
    forall u | u in c.view.shards ensures ShardEvolves(c, d, u) {
      assert ShardOk(c, u);
    }
  }

  /** A new shard starts in term 1. */
  function Added(c: Coord, info: ShardInfo): Coord {
    WithShard(c, info.id, info).(
      terms := c.terms[info.id := 1],
      grants := if info.leader == "" then c.grants else c.grants + {Grant(info.id, 1, info.leader)})
  }

  lemma {:induction false} AddedEvolves(c: Coord, info: ShardInfo)
    requires Inv(c) && info.id !in c.view.shards
    ensures Evolves(c, Added(c, info))
    ensures forall u | u in c.view.shards :: ShardOk(Added(c, info), u)
  {
    var d := Added(c, info);
    forall u | u in c.view.shards ensures ShardOk(d, u) && ShardEvolves(c, d, u) {
      assert ShardOk(c, u);
    }
  }

  /** Adding a shard keeps the invariant exactly when its leader is none or one of its replicas. */
  lemma {:induction false} AddedExactly(c: Coord, info: ShardInfo)
    requires Inv(c) && info.id !in c.view.shards
    ensures Inv(Added(c, info)) <==> info.leader == "" || info.leader in info.replicas
    ensures Evolves(c, Added(c, info))
  {
    var d := Added(c, info);
    AddedEvolves(c, info);
    forall u | u in d.migrations ensures MigrationOk(d, u) {
      assert MigrationOk(c, u);
    }
    assert info.id in d.view.shards;
    assert ShardOk(d, info.id) <==> info.leader == "" || info.leader in info.replicas;
  }

  /** Recording or dropping a migration touches nothing else. */
  lemma {:induction false} MigrationsKeep(c: Coord, migrations: map<string, seq<string>>)
    requires Inv(c)
    requires forall s | s in migrations ::
               s in c.view.shards && forall r | r in migrations[s] :: r in Shard(c, s).replicas
    ensures Inv(c.(migrations := migrations)) && Evolves(c, c.(migrations := migrations))
  {
    var d := c.(migrations := migrations);
    forall u | u in d.view.shards ensures ShardOk(d, u) && ShardEvolves(c, d, u) {
      assert ShardOk(c, u);
    }
    forall u | u in d.migrations ensures MigrationOk(d, u) {
    }
  }
}
