/** The shard map: which nodes replicate a shard, who leads it, and a version that every change raises. */
module ShardMaps {
  import opened Common

  /** `bootstrap` and `leader` are empty when there is none. */
  datatype ShardInfo =
    ShardInfo(id: string, replicas: seq<string>, leader: string, bootstrap: string, incoming: seq<string>)

  datatype MapView = MapView(version: nat, shards: map<string, ShardInfo>)

  function Put(m: MapView, info: ShardInfo): MapView {
    MapView(m.version + 1, m.shards[info.id := info])
  }

  // The map after each operation; `None` is an error and leaves the map as it was.

  function AddedShard(m: MapView, info: ShardInfo): Option<MapView> {
    if info.id in m.shards then None else Some(Put(m, info))
  }

  /** Only a replica can lead. */
  function WithLeader(m: MapView, id: string, node: string): Option<MapView> {
    if id !in m.shards || node !in m.shards[id].replicas then None
    else Some(MapView(m.version + 1, m.shards[id := m.shards[id].(leader := node)]))
  }

  /** A leader outside the new replicas is dropped. */
  function Rereplicated(info: ShardInfo, replicas: seq<string>): ShardInfo {
    info.(replicas := replicas, leader := if info.leader in replicas then info.leader else "")
  }

  function WithReplicas(m: MapView, id: string, replicas: seq<string>): Option<MapView> {
    if id !in m.shards then None
    else Some(MapView(m.version + 1, m.shards[id := Rereplicated(m.shards[id], replicas)]))
  }

  function WithIncoming(m: MapView, id: string, incoming: seq<string>): Option<MapView> {
    if id !in m.shards then None
    else Some(MapView(m.version + 1, m.shards[id := m.shards[id].(incoming := incoming)]))
  }

  function WithoutBootstrap(m: MapView, id: string): Option<MapView> {
    if id !in m.shards then None
    else if m.shards[id].bootstrap == "" then Some(m)
    else Some(MapView(m.version + 1, m.shards[id := m.shards[id].(bootstrap := "")]))
  }

  class ShardMap {
    var version: nat
    var shards: map<string, ShardInfo>

    ghost function View(): MapView
      reads this
    {
      MapView(version, shards)
    }

    constructor ()
      ensures View() == MapView(0, map[])
    {
      version := 0;
      shards := map[];
    }

    method Get(id: string) returns (info: Option<ShardInfo>)
      ensures info == if id in shards then Some(shards[id]) else None
    {
      info := if id in shards then Some(shards[id]) else None;
    }

    method AddShard(info: ShardInfo) returns (ok: bool)
      modifies this
      ensures Did(ok, old(View()), View(), AddedShard(old(View()), info))
    {
      if info.id in shards {
        return false;
      }
      shards := shards[info.id := info];
      version := version + 1;
      return true;
    }

    method SetLeader(id: string, node: string) returns (ok: bool)
      modifies this
      ensures Did(ok, old(View()), View(), WithLeader(old(View()), id, node))
    {
      if id !in shards {
        return false;
      }
      var found := Contains(shards[id].replicas, node);
      if !found {
        return false;
      }
      shards := shards[id := shards[id].(leader := node)];
      version := version + 1;
      return true;
    }

    method SetReplicas(id: string, replicas: seq<string>) returns (ok: bool)
      modifies this
      ensures Did(ok, old(View()), View(), WithReplicas(old(View()), id, replicas))
      ensures ok <==> id in old(shards)
      ensures ok ==>
                && version == old(version) + 1 && id in shards && shards == old(shards)[id := shards[id]]
                && shards[id] == old(shards[id]).(replicas := replicas, leader := shards[id].leader)
                && shards[id].leader == if old(shards[id].leader) in replicas then old(shards[id].leader) else ""
    {
      if id !in shards {
        return false;
      }
      var info := shards[id].(replicas := replicas);
      if info.leader != "" {
        var found := Contains(replicas, info.leader);
        if !found {
          info := info.(leader := "");
        }
      }
      shards := shards[id := info];
      version := version + 1;
      return true;
    }

    method SetIncomingReplicas(id: string, incoming: seq<string>) returns (ok: bool)
      modifies this
      ensures Did(ok, old(View()), View(), WithIncoming(old(View()), id, incoming))
    {
      if id !in shards {
        return false;
      }
      shards := shards[id := shards[id].(incoming := incoming)];
      version := version + 1;
      return true;
    }

    method ClearBootstrapSource(id: string) returns (ok: bool)
      modifies this
      ensures Did(ok, old(View()), View(), WithoutBootstrap(old(View()), id))
    {
      if id !in shards {
        return false;
      }
      if shards[id].bootstrap == "" {
        return true;
      }
      shards := shards[id := shards[id].(bootstrap := "")];
      version := version + 1;
      return true;
    }
  }

  /** The operation did what it should, or failed and changed nothing. */
  ghost predicate Did(ok: bool, before: MapView, after: MapView, spec: Option<MapView>) {
    if spec.None? then !ok && after == before else ok && after == spec.value
  }

  method Contains(nodes: seq<string>, node: string) returns (found: bool)
    ensures found <==> node in nodes
  {
    for i := 0 to |nodes|
      invariant node !in nodes[..i]
    {
      if nodes[i] == node {
        return true;
      }
    }
    return false;
  }
}
