/** What the gateway knows about each replica. Deriving a gRPC address from a gossip address is a
    parameter; "" stands for no address. */
module ReplicaRegistries {
  import opened Options
  import opened Views
  import opened MembershipTable

  type Weight = w: real | w > 0.0 witness 1.0

  datatype Replica = Replica(
    grpcAddress: string,
    gossipAddress: string,
    gossipState: State,
    weight: Weight,
    active: int,
    reportedActive: int,
    maxCapacity: int,
    modelVersion: string,
    draining: bool)

  const UNHEARD := Replica("", "", Alive, 1.0, 0, 0, 4, "", false)

  /** What one gossip event makes of a registry entry; draining, weight and the local counter stay. */
  function FromGossip(known: Replica, u: Update, grpcOf: string -> string): Replica {
    known.(gossipAddress := u.address,
           gossipState := u.state,
           reportedActive := u.activeRequests,
           maxCapacity := u.maxCapacity,
           modelVersion := if u.modelVersion != "" then u.modelVersion else known.modelVersion,
           grpcAddress := if known.grpcAddress == "" && u.address != "" then grpcOf(u.address) else known.grpcAddress)
  }

  function Heard(replicas: map<Id, Replica>, id: Id, u: Update, grpcOf: string -> string): map<Id, Replica> {
    replicas[id := FromGossip(if id in replicas then replicas[id] else UNHEARD, u, grpcOf)]
  }

  /** Gossip changes one entry, and of that neither the local counter, the weight, the drain nor a gRPC address
      that is known. */
  lemma GossipKeepsLocal(replicas: map<Id, Replica>, id: Id, u: Update, grpcOf: string -> string)
    ensures var after := Heard(replicas, id, u, grpcOf);
      && after.Keys == replicas.Keys + {id}
      && (forall x :: x in replicas && x != id ==> after[x] == replicas[x])
      && (id in replicas ==>
            && after[id].active == replicas[id].active && after[id].weight == replicas[id].weight
            && after[id].draining == replicas[id].draining
            && (replicas[id].grpcAddress != "" ==> after[id].grpcAddress == replicas[id].grpcAddress))
      && (id !in replicas ==> after[id].active == 0 && after[id].weight == 1.0 && !after[id].draining)
  {}

  function Drained(replicas: map<Id, Replica>, id: Id, draining: bool): map<Id, Replica> {
    if id in replicas then replicas[id := replicas[id].(draining := draining)] else replicas
  }

  function Counted(replicas: map<Id, Replica>, id: Id, delta: int): map<Id, Replica> {
    if id in replicas then replicas[id := replicas[id].(active := replicas[id].active + delta)] else replicas
  }

  predicate IsSeed(id: Id) { "seed-" <= id }

  predicate IsGateway(id: Id) { "gateway" <= id }

  predicate Routable(id: Id, i: Replica) {
    i.gossipState != Dead && !i.draining && i.grpcAddress != "" && !IsSeed(id) && !IsGateway(id)
  }

  function AliveIds(replicas: map<Id, Replica>): set<Id> {
    set id | id in replicas && Routable(id, replicas[id])
  }

  class ReplicaRegistry {
    const grpcOf: string -> string
    var replicas: map<Id, Replica>

    constructor (derive: string -> string)
      ensures grpcOf == derive && replicas == map[]
    {
      grpcOf := derive;
      replicas := map[];
    }

    method UpdateFromGossip(id: Id, update: Update)
      modifies this
      ensures replicas == Heard(old(replicas), id, update, grpcOf)
    {
      var info := if id in replicas then replicas[id] else UNHEARD;
      info := info.(gossipAddress := update.address, gossipState := update.state,
                    reportedActive := update.activeRequests, maxCapacity := update.maxCapacity);
      if update.modelVersion != "" {
        info := info.(modelVersion := update.modelVersion);
      }
      if info.grpcAddress == "" && info.gossipAddress != "" {
        info := info.(grpcAddress := grpcOf(info.gossipAddress));
      }
      replicas := replicas[id := info];
    }

    /** Every routable replica once, with its entry, in no particular order. */
    method GetAliveReplicas() returns (result: seq<(Id, Replica)>)
      ensures forall x :: x in result <==> x.0 in AliveIds(replicas) && x.1 == replicas[x.0]
      ensures forall i, j :: 0 <= i < j < |result| ==> result[i].0 != result[j].0
    {
      result := [];
      var left := replicas.Keys;
      while left != {}
        invariant left <= replicas.Keys
        invariant forall x :: x in result <==>
          x.0 in AliveIds(replicas) && x.0 !in left && x.1 == replicas[x.0]
        invariant forall i, j :: 0 <= i < j < |result| ==> result[i].0 != result[j].0
        decreases |left|
      {
        var id :| id in left;
        left := left - {id};
        if Routable(id, replicas[id]) {
          assert forall x :: x in result ==> x.0 != id;
          result := result + [(id, replicas[id])];
        }
      }
    }

    method GetReplica(id: Id) returns (info: Option<Replica>)
      ensures info == if id in replicas then Some(replicas[id]) else None
    {
      info := if id in replicas then Some(replicas[id]) else None;
    }

    method IncrementActive(id: Id)
      modifies this
      ensures replicas == Counted(old(replicas), id, 1)
    {
      if id in replicas {
        replicas := replicas[id := replicas[id].(active := replicas[id].active + 1)];
      }
    }

    method DecrementActive(id: Id)
      modifies this
      ensures replicas == Counted(old(replicas), id, -1)
    {
      if id in replicas {
        replicas := replicas[id := replicas[id].(active := replicas[id].active - 1)];
      }
    }

    method SetDraining(id: Id, draining: bool)
      modifies this
      ensures replicas == Drained(old(replicas), id, draining)
    {
      if id in replicas {
        replicas := replicas[id := replicas[id].(draining := draining)];
      }
    }
  }
}
