/** The in-memory bus and a node's calls on it, without interleaving. */
module Cluster {
  import opened Common
  import opened Routing

  function UnwrapOr<T>(o: Option<T>, d: T): T {
    match o
    case Some(v) => v
    case None => d
  }

  const ROOMS := "lk:rooms"

  function NodeKey(node: Node): string {
    "lk:node:" + node
  }

  class MemoryBus {
    var kv: map<string, string>
    var hashes: map<string, map<string, string>>

    constructor ()
      ensures kv == map[] && hashes == map[]
    {
      kv, hashes := map[], map[];
    }

    function Fields(hash: string): map<string, string>
      reads this
    {
      if hash in hashes then hashes[hash] else map[]
    }

    ghost predicate OthersKept(before: map<string, map<string, string>>, hash: string)
      reads this
    {
      hashes - {hash} == before - {hash}
    }

    method Get(key: string) returns (r: Option<string>)
      ensures r == if key in kv then Some(kv[key]) else None
    {
      r := if key in kv then Some(kv[key]) else None;
    }

    method SetWithTtl(key: string, value: string)
      modifies `kv
      ensures kv == old(kv)[key := value]
    {
      kv := kv[key := value];
    }

    method Del(key: string)
      modifies `kv
      ensures kv == old(kv) - {key}
    {
      kv := kv - {key};
    }

    method Hget(hash: string, field: string) returns (r: Option<string>)
      ensures r == if field in Fields(hash) then Some(Fields(hash)[field]) else None
    {
      var h := if hash in hashes then hashes[hash] else map[];
      r := if field in h then Some(h[field]) else None;
    }

    method Hsetnx(hash: string, field: string, value: string) returns (written: bool)
      modifies `hashes
      ensures written == (field !in old(Fields(hash)))
      ensures Fields(hash) == if written then old(Fields(hash))[field := value] else old(Fields(hash))
      ensures OthersKept(old(hashes), hash)
    {
      var h := if hash in hashes then hashes[hash] else map[];
      hashes := hashes[hash := h];
      if field in h {
        written := false;
      } else {
        hashes := hashes[hash := h[field := value]];
        written := true;
      }
    }

    method Hdel(hash: string, field: string)
      modifies `hashes
      ensures Fields(hash) == old(Fields(hash)) - {field}
      ensures OthersKept(old(hashes), hash)
    {
      if hash in hashes {
        hashes := hashes[hash := hashes[hash] - {field}];
      }
    }
  }

  /** The recorded owner is another node without its heartbeat key. */
  predicate Deserted(registry: Registry, room: Room, node: Node, kv: map<string, string>) {
    room in registry && registry[room] != node && NodeKey(registry[room]) !in kv
  }

  /** What one uninterrupted call does to the registry, and its answer. */
  function Routed(registry: Registry, room: Room, node: Node, kv: map<string, string>): (Registry, Answer) {
    if Deserted(registry, room, node, kv) then (registry, Local) else GetOrClaim(registry, room, node)
  }

  /** An uninterrupted call is get-or-claim exactly when the room is not deserted. */
  lemma RoutedIsGetOrClaimIff(registry: Registry, room: Room, node: Node, kv: map<string, string>)
    ensures Routed(registry, room, node, kv) == GetOrClaim(registry, room, node)
       <==> !Deserted(registry, room, node, kv)
  {
    assert Deserted(registry, room, node, kv) ==> GetOrClaim(registry, room, node).1 == Remote(registry[room]);
  }

  /** A deserted room is answered Local to every node but its owner, and stays deserted. */
  lemma DesertedRoomSplits(registry: Registry, room: Room, a: Node, b: Node, kv: map<string, string>)
    requires room in registry && NodeKey(registry[room]) !in kv
    requires a != b && a != registry[room] && b != registry[room]
    ensures var (after, first) := Routed(registry, room, a, kv);
            first == Local && Routed(after, room, b, kv) == (registry, Local)
  {
  }

  class Member {
    const bus: MemoryBus
    const nodeId: Node
    const enabled: bool

    constructor (bus: MemoryBus, nodeId: Node, enabled: bool)
      ensures this.bus == bus && this.nodeId == nodeId && this.enabled == enabled
    {
      this.bus, this.nodeId, this.enabled := bus, nodeId, enabled;
    }

    /** One turn of the heartbeat loop. */
    method Heartbeat()
      modifies bus
      ensures bus.hashes == old(bus.hashes)
      ensures bus.kv == if enabled then old(bus.kv)[NodeKey(nodeId) := "alive"] else old(bus.kv)
    {
      if enabled {
        bus.SetWithTtl(NodeKey(nodeId), "alive");
      }
    }

    method Deregister()
      modifies bus
      ensures bus.hashes == old(bus.hashes)
      ensures bus.kv == if enabled then old(bus.kv) - {NodeKey(nodeId)} else old(bus.kv)
    {
      if enabled {
        bus.Del(NodeKey(nodeId));
      }
    }

    method NodeAlive(node: Node) returns (alive: bool)
      ensures alive == (NodeKey(node) in bus.kv)
    {
      var v := bus.Get(NodeKey(node));
      alive := v.Some?;
    }

    /** Looks the room up without claiming it. */
    method Lookup(room: Room) returns (known: Option<Answer>)
      ensures var owners := bus.Fields(ROOMS);
              known == if room !in owners || Deserted(owners, room, nodeId, bus.kv) then None
                       else Some(AnswerFor(owners, room, nodeId))
    {
      var owner := bus.Hget(ROOMS, room);
      if owner.Some? {
        if owner.value == nodeId {
          return Some(Local);
        }
        var alive := NodeAlive(owner.value);
        if alive {
          return Some(Remote(owner.value));
        }
      }
      return None;
    }

    method RouteRoom(room: Room) returns (answer: Answer)
      modifies bus
      ensures bus.kv == old(bus.kv) && bus.OthersKept(old(bus.hashes), ROOMS)
      ensures !enabled ==> answer == Local && bus.hashes == old(bus.hashes)
      ensures enabled ==> (bus.Fields(ROOMS), answer) == Routed(old(bus.Fields(ROOMS)), room, nodeId, bus.kv)
    {
      if !enabled {
        return Local;
      }
      for i := 0 to TURNS
        invariant bus.kv == old(bus.kv) && bus.OthersKept(old(bus.hashes), ROOMS)
        invariant bus.Fields(ROOMS) == old(bus.Fields(ROOMS))
        invariant i > 0 ==> Deserted(bus.Fields(ROOMS), room, nodeId, bus.kv)
      {
        var known := Lookup(room);
        if known.Some? {
          return known.value;
        }
        var written := bus.Hsetnx(ROOMS, room, nodeId);
        if written {
          return Local;
        }
      }
      var known := Lookup(room);
      answer := UnwrapOr(known, Local);
    }

    method ReleaseRoom(room: Room)
      modifies bus
      ensures bus.kv == old(bus.kv) && bus.OthersKept(old(bus.hashes), ROOMS)
      ensures var owners := old(bus.Fields(ROOMS));
              bus.Fields(ROOMS)
              == if enabled && room in owners && owners[room] == nodeId then owners - {room} else owners
    {
      if !enabled {
        return;
      }
      var owner := bus.Hget(ROOMS, room);
      if owner == Some(nodeId) {
        bus.Hdel(ROOMS, room);
      }
    }
  }
}
