/** The gateway's membership callback keeps three views of the cluster together: the gossip table,
    the replica registry and the hash ring. One gossip or drain event is one atomic step. */
module GatewaySync {
  import opened Options
  import opened Views
  import opened MembershipTable
  import opened SwimNode
  import opened HashRing
  import opened ReplicaRegistries
  import Cluster

  datatype Gateway = Gateway(table: Table, replicas: map<Id, Replica>, ring: seq<Point>)

  datatype Happening =
    | Hear(update: Update, now: int)
    | Doubt(member: Id, now: int)
    | Bury(member: Id)
    | Meet(sender: Id, from: string)
    | Bootstrap(address: string)
    | Gossip(max: nat)
    | Drain(replica: Id, draining: bool)
    | Count(replica: Id, delta: int)

  /** The table is now `t` and the callback has run for `e`. The iteration order that decides
      collisions in a rebuilt ring is left open. */
  ghost predicate CalledBack(cfg: Config, grpcOf: string -> string, g: Gateway, t: Table, e: Event, g': Gateway) {
    && g'.table == t
    && match e
       case Quiet => g'.replicas == g.replicas && g'.ring == g.ring
       case Fired(id, before, after) =>
         && g'.replicas == (if id in t.members then Heard(g.replicas, id, Announce(id, t.members[id]), grpcOf)
                            else g.replicas)
         && if before != after then IsRing(cfg, g'.ring, AliveIds(g'.replicas)) else g'.ring == g.ring
  }

  function Ready(t: Table, u: Update): Table {
    if Refutes(t, u) then AfterIncrement(t) else t
  }

  ghost predicate GatewayNext(cfg: Config, grpcOf: string -> string, g: Gateway, h: Happening, g': Gateway) {
    var t := g.table;
    match h
    case Hear(u, now) =>
      CalledBack(cfg, grpcOf, g, AfterUpdate(Ready(t, u), u, now), UpdateEvent(Ready(t, u), u), g')
    case Doubt(m, now) =>
      CalledBack(cfg, grpcOf, g, AfterSuspect(t, m, now),
                 if CanSuspect(t, m) then Fired(m, Alive, Suspect) else Quiet, g')
    case Bury(m) =>
      CalledBack(cfg, grpcOf, g, AfterDead(t, m),
                 if CanKill(t, m) then Fired(m, t.members[m].state, Dead) else Quiet, g')
    case Meet(s, from) => CalledBack(cfg, grpcOf, g, AfterAdd(t, s, from), Quiet, g')
    case Bootstrap(a) => CalledBack(cfg, grpcOf, g, AfterAdd(t, SeedId(a), a), Quiet, g')
    case Gossip(max) => CalledBack(cfg, grpcOf, g, AfterPiggyback(t, max), Quiet, g')
    case Drain(r, on) =>
      g'.table == t && g'.replicas == Drained(g.replicas, r, on) && IsRing(cfg, g'.ring, AliveIds(g'.replicas))
    case Count(r, delta) => g' == g.(replicas := Counted(g.replicas, r, delta))
  }

  // ---- Agreement ----

  predicate Derivable(grpcOf: string -> string, address: string) { address != "" && grpcOf(address) != "" }

  /** The gateway reports no load of its own, so nobody has any to report about it. */
  predicate Bare(i: MemberInfo) { i.activeRequests == 0 && i.maxCapacity == 0 && i.modelVersion == "" }

  ghost predicate Agreement(cfg: Config, grpcOf: string -> string, g: Gateway) {
    && g.table.self in g.table.members && Bare(g.table.members[g.table.self])
    // every peer the registry holds is in the state gossip has for it; one without a gRPC address has a
    // gossip address from which none can be derived
    && (forall id :: id in g.replicas && id != g.table.self ==>
          && id in g.table.members
          && g.replicas[id].gossipState == g.table.members[id].state
          && (g.replicas[id].grpcAddress == "" ==> !Derivable(grpcOf, g.table.members[id].address)))
    // a peer that gossip knows and the registry lacks is dead
    && (forall id :: id in g.table.members && id !in g.replicas && id != g.table.self && !IsSeed(id) ==>
          g.table.members[id].state == Dead)
    && IsRing(cfg, g.ring, AliveIds(g.replicas))
  }

  /** An update gives a replica that has no gRPC address a gossip address to derive one from, without
      changing its state: the callback does not run, and the registry does not hear of the address. */
  predicate Strands(grpcOf: string -> string, t: Table, replicas: map<Id, Replica>, u: Update) {
    && u.id != t.self && u.id in replicas && replicas[u.id].grpcAddress == "" && Derivable(grpcOf, u.address)
    && u.id in t.members && Accepts(t, u) && u.state == t.members[u.id].state
  }

  /** No replica is stranded, nobody reports load of the gateway, a suspected peer is not the gateway
      itself, and a greeting comes from somebody already known. */
  predicate Orderly(grpcOf: string -> string, g: Gateway, h: Happening) {
    match h
    case Hear(u, _) => !Strands(grpcOf, g.table, g.replicas, u) && (u.id == g.table.self ==> CarriesNoLoad(u))
    case Doubt(m, _) => m != g.table.self
    case Bury(m) => m != g.table.self
    case Meet(s, _) => s in g.table.members
    case _ => true
  }

  /** The registry after one update of a message, and after several. */
  function Relayed(grpcOf: string -> string, t: Table, replicas: map<Id, Replica>, u: Update, now: int)
    : map<Id, Replica>
  {
    var after := Received(t, u, now);
    if UpdateEvent(Ready(t, u), u).Fired? && u.id in after.members
    then Heard(replicas, u.id, Announce(u.id, after.members[u.id]), grpcOf) else replicas
  }

  function RelayedAll(grpcOf: string -> string, t: Table, replicas: map<Id, Replica>, updates: seq<Update>, now: int)
    : map<Id, Replica>
  {
    if updates == [] then replicas
    else
      var n := |updates| - 1;
      var before := RelayedAll(grpcOf, t, replicas, updates[..n], now);
      Relayed(grpcOf, Processed(t, updates[..n], now), before, updates[n], now)
  }

  /** Every update of the message is orderly when its turn comes. */
  predicate Steady(grpcOf: string -> string, t: Table, replicas: map<Id, Replica>, updates: seq<Update>, now: int) {
    forall k | 0 <= k < |updates| ::
      && !Strands(grpcOf, Processed(t, updates[..k], now), RelayedAll(grpcOf, t, replicas, updates[..k], now),
                  updates[k])
      && (updates[k].id == t.self ==> CarriesNoLoad(updates[k]))
  }

  lemma HearRelays(cfg: Config, grpcOf: string -> string, g: Gateway, u: Update, now: int, g': Gateway)
    requires GatewayNext(cfg, grpcOf, g, Hear(u, now), g')
    ensures g'.table == Received(g.table, u, now) && g'.table.self == g.table.self
    ensures g'.replicas == Relayed(grpcOf, g.table, g.replicas, u, now)
  {}

  lemma RingStays(cfg: Config, ring: seq<Point>, before: map<Id, Replica>, after: map<Id, Replica>)
    requires IsRing(cfg, ring, AliveIds(before))
    requires forall id :: id in AliveIds(before) <==> id in AliveIds(after)
    ensures IsRing(cfg, ring, AliveIds(after))
  {
    assert AliveIds(before) == AliveIds(after);
  }

  /** What the event about `id` says fits what became of its entry. */
  ghost predicate Reports(g: Gateway, t: Table, e: Event, id: Id)
    requires id in t.members
  {
    var before := if id in g.table.members then g.table.members[id].state else Dead;
    match e
    case Quiet => t.members[id].state == before || id == t.self
    case Fired(x, from, to) =>
      && x == id && (id != t.self ==> from == before) && to == t.members[id].state
      && (from == to ==>
            id != t.self && id in g.table.members && t.members[id].address == g.table.members[id].address)
  }

  /** The part of Agreement that the callback for `id` has to restore. */
  lemma CallbackRestores(cfg: Config, grpcOf: string -> string, g: Gateway, t: Table, e: Event, g': Gateway, id: Id)
    requires Agreement(cfg, grpcOf, g) && CalledBack(cfg, grpcOf, g, t, e, g')
    requires t.self == g.table.self && id in t.members && t.self in t.members && Bare(t.members[t.self])
    requires forall x :: x in g.table.members ==> x in t.members
    requires forall x :: x in t.members && x != id && x != t.self ==>
      x in g.table.members && t.members[x] == g.table.members[x]
    requires Reports(g, t, e, id)
    requires e.Quiet? && id != t.self && id in g.replicas && g.replicas[id].grpcAddress == "" ==>
      !Derivable(grpcOf, t.members[id].address)
    ensures Agreement(cfg, grpcOf, g')
  {
    forall x | x in g'.replicas && x != t.self
      ensures x in t.members && g'.replicas[x].gossipState == t.members[x].state
      ensures g'.replicas[x].grpcAddress == "" ==> !Derivable(grpcOf, t.members[x].address) {}
    forall x | x in t.members && x !in g'.replicas && x != t.self && !IsSeed(x)
      ensures t.members[x].state == Dead {}
    if e.Quiet? || e.before == e.after {
      forall x ensures x in AliveIds(g.replicas) <==> x in AliveIds(g'.replicas) {}
      RingStays(cfg, g.ring, g.replicas, g'.replicas);
    }
  }

  lemma HearKeepsAgreement(cfg: Config, grpcOf: string -> string, g: Gateway, u: Update, now: int, g': Gateway)
    requires Agreement(cfg, grpcOf, g) && Orderly(grpcOf, g, Hear(u, now))
    requires GatewayNext(cfg, grpcOf, g, Hear(u, now), g')
    ensures Agreement(cfg, grpcOf, g')
  {
    var ready := Ready(g.table, u);
    CallbackRestores(cfg, grpcOf, g, AfterUpdate(ready, u, now), UpdateEvent(ready, u), g', u.id);
  }

  lemma MarksKeepAgreement(cfg: Config, grpcOf: string -> string, g: Gateway, m: Id, now: int, g': Gateway)
    requires Agreement(cfg, grpcOf, g) && m != g.table.self
    ensures GatewayNext(cfg, grpcOf, g, Doubt(m, now), g') ==> Agreement(cfg, grpcOf, g')
    ensures GatewayNext(cfg, grpcOf, g, Bury(m), g') ==> Agreement(cfg, grpcOf, g')
  {
    var t := g.table;
    if CanSuspect(t, m) && GatewayNext(cfg, grpcOf, g, Doubt(m, now), g') {
      CallbackRestores(cfg, grpcOf, g, AfterSuspect(t, m, now), Fired(m, Alive, Suspect), g', m);
    }
    if CanKill(t, m) && GatewayNext(cfg, grpcOf, g, Bury(m), g') {
      CallbackRestores(cfg, grpcOf, g, AfterDead(t, m), Fired(m, t.members[m].state, Dead), g', m);
    }
  }

  lemma CountingKeepsAgreement(cfg: Config, grpcOf: string -> string, g: Gateway, r: Id, delta: int)
    requires Agreement(cfg, grpcOf, g)
    ensures Agreement(cfg, grpcOf, g.(replicas := Counted(g.replicas, r, delta)))
  {
    RingStays(cfg, g.ring, g.replicas, Counted(g.replicas, r, delta));
  }

  /** Every orderly step keeps the registry and the ring in agreement with gossip. */
  lemma NextKeepsAgreement(cfg: Config, grpcOf: string -> string, g: Gateway, h: Happening, g': Gateway)
    requires Agreement(cfg, grpcOf, g) && Orderly(grpcOf, g, h)
    requires GatewayNext(cfg, grpcOf, g, h, g')
    ensures Agreement(cfg, grpcOf, g')
  {
    match h
    case Hear(u, now) => HearKeepsAgreement(cfg, grpcOf, g, u, now, g');
    case Doubt(m, now) => MarksKeepAgreement(cfg, grpcOf, g, m, now, g');
    case Bury(m) => MarksKeepAgreement(cfg, grpcOf, g, m, 0, g');
    case Count(r, delta) => CountingKeepsAgreement(cfg, grpcOf, g, r, delta);
    case _ =>
  }

  function Started(self: Id, address: string): Gateway { Gateway(Newborn(self, address), map[], []) }

  lemma InitialAgreement(cfg: Config, grpcOf: string -> string, self: Id, address: string)
    ensures Agreement(cfg, grpcOf, Started(self, address))
  {}

  ghost predicate IsRun(cfg: Config, grpcOf: string -> string, states: seq<Gateway>, happenings: seq<Happening>) {
    && |states| == |happenings| + 1
    && forall k | 0 <= k < |happenings| ::
         Orderly(grpcOf, states[k], happenings[k]) && GatewayNext(cfg, grpcOf, states[k], happenings[k], states[k + 1])
  }

  /** In every state of every orderly run the registry mirrors gossip, and, when virtual nodes do not
      collide, the ring's owners are exactly the routable replicas. A gateway that is named as one is never
      among them. */
  lemma {:induction false} CachedRoutingAgrees(cfg: Config, grpcOf: string -> string, states: seq<Gateway>,
                                               happenings: seq<Happening>, k: nat)
    requires IsRun(cfg, grpcOf, states, happenings) && Agreement(cfg, grpcOf, states[0])
    requires k < |states|
    ensures Agreement(cfg, grpcOf, states[k])
    ensures CollisionFree(cfg, AliveIds(states[k].replicas)) && cfg.virtualNodes >= 1 ==>
      Owners(states[k].ring) == AliveIds(states[k].replicas)
    ensures IsGateway(states[k].table.self) ==> states[k].table.self !in Owners(states[k].ring)
    decreases k
  {
    if k == 0 {
    } else {
      CachedRoutingAgrees(cfg, grpcOf, states, happenings, k - 1);
      NextKeepsAgreement(cfg, grpcOf, states[k - 1], happenings[k - 1], states[k]);
    }
    OwnersAreExact(cfg, states[k].ring, AliveIds(states[k].replicas));
  }

  /** An update that strands a replica breaks agreement, and no other that carries no load of the gateway does. */
  lemma StrandingBreaksAgreement(cfg: Config, grpcOf: string -> string, g: Gateway, u: Update, now: int, g': Gateway)
    requires Agreement(cfg, grpcOf, g) && GatewayNext(cfg, grpcOf, g, Hear(u, now), g')
    requires u.id == g.table.self ==> CarriesNoLoad(u)
    ensures Agreement(cfg, grpcOf, g') <==> !Strands(grpcOf, g.table, g.replicas, u)
  {
    if !Strands(grpcOf, g.table, g.replicas, u) {
      HearKeepsAgreement(cfg, grpcOf, g, u, now, g');
    } else {
      assert g'.replicas[u.id].grpcAddress == "" && g'.table.members[u.id].address == u.address;
    }
  }

  /** A replica first heard of under an address without a port, then under a proper one, and then with a
      new capacity: it has become routable, and the ring does not know it. */
  lemma StrandedReplicaMissesTheRing(cfg: Config, grpcOf: string -> string, address: string, now: int,
                                     g1: Gateway, g2: Gateway, g3: Gateway)
    requires grpcOf("r") == "" && grpcOf("r:17001") != ""
    requires GatewayNext(cfg, grpcOf, Started("gateway", address), Hear(Update("r", "r", Alive, 0, "", 0, 4), now), g1)
    requires GatewayNext(cfg, grpcOf, g1, Hear(Update("r", "r:17001", Alive, 1, "", 0, 4), now), g2)
    requires GatewayNext(cfg, grpcOf, g2, Hear(Update("r", "r:17001", Alive, 1, "", 0, 8), now), g3)
    ensures "r" in AliveIds(g3.replicas) && "r" !in Owners(g3.ring)
  {
    assert "r" != "gateway" && !IsSeed("r") && !IsGateway("r");
    assert AliveIds(g1.replicas) == {};
    OwnersAreExact(cfg, g1.ring, {});
    assert g2.ring == g1.ring && g2.replicas == g1.replicas;
  }

  /** What a gateway's name is for: one that restarts and hears an old suspicion about itself enters its own
      ring, exactly if its name does not keep it out. */
  lemma NameKeepsOut(cfg: Config, grpcOf: string -> string, self: Id, address: string, now: int, g: Gateway)
    requires cfg.virtualNodes >= 1 && Derivable(grpcOf, address)
    requires GatewayNext(cfg, grpcOf, Started(self, address), Hear(Update(self, address, Suspect, 1, "", 0, 0), now), g)
    ensures self in Owners(g.ring) <==> !IsGateway(self) && !IsSeed(self)
  {
    assert g.replicas.Keys == {self};
    assert AliveIds(g.replicas) == if IsGateway(self) || IsSeed(self) then {} else {self};
    if !IsGateway(self) && !IsSeed(self) {
      var h := cfg.hash(VirtualKey(self, 0));
      assert Places(cfg, self, h);
      var p :| p in g.ring && p.hash == h;
      assert p.owner == self;
    }
  }

  /** Draining takes a replica, and no other, off the ring. */
  lemma DrainTakesOffTheRing(cfg: Config, grpcOf: string -> string, g: Gateway, r: Id, g': Gateway)
    requires GatewayNext(cfg, grpcOf, g, Drain(r, true), g')
    ensures r !in Owners(g'.ring) && (r in g.replicas ==> r in g'.replicas && g'.replicas[r].draining)
    ensures forall x :: x != r ==> (x in AliveIds(g'.replicas) <==> x in AliveIds(g.replicas))
  {
    OwnersAreExact(cfg, g'.ring, AliveIds(g'.replicas));
  }

  /** Ending the drain puts it back if nothing else keeps it out. */
  lemma EndOfDrainPutsBack(cfg: Config, grpcOf: string -> string, g: Gateway, r: Id, g': Gateway)
    requires GatewayNext(cfg, grpcOf, g, Drain(r, false), g') && r in g.replicas
    requires g.replicas[r].gossipState != Dead && g.replicas[r].grpcAddress != "" && !IsSeed(r) && !IsGateway(r)
    ensures r in AliveIds(g'.replicas)
    ensures CollisionFree(cfg, AliveIds(g'.replicas)) && cfg.virtualNodes >= 1 ==> r in Owners(g'.ring)
  {
    OwnersAreExact(cfg, g'.ring, AliveIds(g'.replicas));
  }

  /** A greeting keeps agreement exactly when its sender is known already, or is a seed. */
  lemma GreetingStrangersBreaksAgreement(cfg: Config, grpcOf: string -> string, g: Gateway, s: Id, from: string,
                                         g': Gateway)
    requires Agreement(cfg, grpcOf, g) && GatewayNext(cfg, grpcOf, g, Meet(s, from), g')
    ensures Agreement(cfg, grpcOf, g') <==> s in g.table.members || IsSeed(s)
  {
    var t' := AfterAdd(g.table, s, from);
    if s !in g.table.members {
      assert s !in g.replicas;
      assert t'.members[s].state == Alive;
    }
  }

  /** No message of a cluster in which the gateway reports no load of its own carries any about it. */
  lemma ClusterMessagesEchoNoLoad(c: Cluster.Cluster, steps: seq<Cluster.Step>, gateway: Id, m: Message, u: Update)
    requires Cluster.Initial(c) && m in Cluster.Exec(c, steps).network && u in m.updates && u.id == gateway
    requires forall s :: s in steps && s.Send? && s.node == gateway ==> s.load == Load(0, 0, "")
    ensures CarriesNoLoad(u)
  {
    Cluster.SilentNodesStaySilent(c, steps, gateway);
  }

  /** No message of a cluster greets a stranger: its own updates have introduced the sender by the
      time the greeting is handled, so the greeting changes nothing. */
  lemma {:induction false} ClusterMessagesGreetNoStrangers(c: Cluster.Cluster, steps: seq<Cluster.Step>, t: Table,
                                                           m: Message, from: string, now: int)
    requires Cluster.Initial(c) && m in Cluster.Exec(c, steps).network
    ensures m.sender in Processed(t, m.updates, now).members
    ensures Greeted(Processed(t, m.updates, now), m, from) == Processed(t, m.updates, now)
  {
    Cluster.MessagesIntroduceTheirSender(c, steps, m);
    ProcessedKnows(t, m.updates, now, |m.updates| - 1);
  }

  /** The registry holds the load and the model version that gossip has. */
  predicate Mirrors(r: Replica, i: MemberInfo) {
    r.maxCapacity == i.maxCapacity && r.reportedActive == i.activeRequests && r.modelVersion == i.modelVersion
  }

  /** Load is mirrored less faithfully than state: the registry falls behind exactly when an update is
      accepted for its higher incarnation, changes the load or the model version, and leaves the state as it was. */
  lemma LoadMirror(cfg: Config, grpcOf: string -> string, g: Gateway, u: Update, now: int, g': Gateway)
    requires GatewayNext(cfg, grpcOf, g, Hear(u, now), g')
    requires u.id != g.table.self && u.id in g.table.members && u.id in g.replicas
    requires Mirrors(g.replicas[u.id], g.table.members[u.id])
    ensures var known := g.table.members[u.id];
      u.id in g'.replicas && u.id in g'.table.members &&
      (Mirrors(g'.replicas[u.id], g'.table.members[u.id]) <==>
       !(u.incarnation > known.incarnation && u.state == known.state && LoadChanged(known, u)))
  {}

  /** A new gateway hears of a replica at incarnation 0, and then that it is alive at 1 with twice the
      capacity: gossip knows the new capacity and the registry keeps the old one. */
  lemma LoadFallsBehind(cfg: Config, grpcOf: string -> string, address: string, now: int, g: Gateway, g': Gateway)
    requires GatewayNext(cfg, grpcOf, Started("gateway", address),
                         Hear(Update("r", "r:17001", Alive, 0, "", 0, 4), now), g)
    requires GatewayNext(cfg, grpcOf, g, Hear(Update("r", "r:17001", Alive, 1, "", 0, 8), now), g')
    ensures "r" in g'.table.members && g'.table.members["r"].maxCapacity == 8
    ensures "r" in g'.replicas && g'.replicas["r"].maxCapacity == 4
  {
    assert "r" != "gateway";
  }
}
