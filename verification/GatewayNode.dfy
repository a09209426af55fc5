/** The gateway process: its protocol node, registry and load balancer, joined by the membership callback. */
module GatewayNodes {
  import opened Options
  import opened Views
  import opened PiggybackBuffer
  import opened MembershipTable
  import opened MembershipLists
  import opened SwimNode
  import opened SwimProtocols
  import opened HashRing
  import opened ReplicaRegistries
  import opened LoadBalancers
  import opened GatewaySync

  class GatewayNode {
    const swim: SwimProtocol
    const registry: ReplicaRegistry
    const lb: LoadBalancer

    constructor (swim: SwimProtocol, registry: ReplicaRegistry, lb: LoadBalancer)
      requires lb.registry == registry
      ensures this.swim == swim && this.registry == registry && this.lb == lb
    {
      this.swim := swim;
      this.registry := registry;
      this.lb := lb;
    }

    predicate Wired() { lb.registry == registry }

    function State(): Gateway
      reads swim.list, registry, lb
    {
      Gateway(swim.list.Contents(), registry.replicas, lb.ring)
    }

    method OnMembershipChange(id: Id, before: State, after: State)
      requires Wired()
      modifies registry, lb
      ensures CalledBack(lb.cfg, registry.grpcOf, old(State()), old(swim.list.Contents()),
                         Fired(id, before, after), State())
    {
      if id in swim.list.members {
        var info := swim.list.members[id];
        var update := Update(id, info.address, info.state, info.incarnation, info.modelVersion,
                             info.activeRequests, info.maxCapacity);
        registry.UpdateFromGossip(id, update);
      }
      if before != after {
        lb.RebuildRing();
      }
    }

    method RunCallback(event: Event)
      requires Wired()
      modifies registry, lb
      ensures CalledBack(lb.cfg, registry.grpcOf, old(State()), old(swim.list.Contents()), event, State())
    {
      match event
      case Fired(id, before, after) => OnMembershipChange(id, before, after);
      case Quiet =>
    }

    method HearUpdate(update: Update, now: int)
      requires Wired()
      modifies swim.list, registry, lb
      ensures GatewayNext(lb.cfg, registry.grpcOf, old(State()), Hear(update, now), State())
    {
      swim.CheckSelfRefutation(update);
      var changed, event := swim.list.ApplyUpdate(update, now);
      RunCallback(event);
    }

    /** Process the updates of a message in order; agreement holds after each. */
    method HearAll(updates: seq<Update>, now: int)
      requires Wired() && Agreement(lb.cfg, registry.grpcOf, State())
      requires Steady(registry.grpcOf, swim.list.Contents(), registry.replicas, updates, now)
      modifies swim.list, registry, lb
      ensures Agreement(lb.cfg, registry.grpcOf, State())
      ensures swim.list.Contents() == Processed(old(swim.list.Contents()), updates, now)
      ensures registry.replicas ==
        RelayedAll(registry.grpcOf, old(swim.list.Contents()), old(registry.replicas), updates, now)
    {
      ghost var t, r := swim.list.Contents(), registry.replicas;
      for i := 0 to |updates|
        invariant Agreement(lb.cfg, registry.grpcOf, State()) && swim.list.myId == t.self
        invariant swim.list.Contents() == Processed(t, updates[..i], now)
        invariant registry.replicas == RelayedAll(registry.grpcOf, t, r, updates[..i], now)
      {
        ghost var before := State();
        assert updates[..i + 1][..i] == updates[..i];
        HearUpdate(updates[i], now);
        HearRelays(lb.cfg, registry.grpcOf, before, updates[i], now, State());
        HearKeepsAgreement(lb.cfg, registry.grpcOf, before, updates[i], now, State());
      }
      assert updates[..|updates|] == updates;
    }

    /** Process a whole message and greet its sender, whom one of its updates has introduced. */
    method HandleUpdates(message: Message, from: string, now: int)
      requires Wired() && Agreement(lb.cfg, registry.grpcOf, State())
      requires Steady(registry.grpcOf, swim.list.Contents(), registry.replicas, message.updates, now)
      requires exists u :: u in message.updates && u.id == message.sender
      modifies swim.list, registry, lb
      ensures Agreement(lb.cfg, registry.grpcOf, State())
      ensures swim.list.Contents() == Greeted(Processed(old(swim.list.Contents()), message.updates, now), message, from)
      ensures registry.replicas ==
        RelayedAll(registry.grpcOf, old(swim.list.Contents()), old(registry.replicas), message.updates, now)
    {
      ghost var t := swim.list.Contents();
      HearAll(message.updates, now);
      ghost var k :| 0 <= k < |message.updates| && message.updates[k].id == message.sender;
      ProcessedKnows(t, message.updates, now, k);
      if message.kind == Ping && message.sender != "" {
        swim.list.AddMember(message.sender, from);
      }
    }

    method SuspectPeer(id: Id, now: int)
      requires Wired()
      modifies swim.list, registry, lb
      ensures GatewayNext(lb.cfg, registry.grpcOf, old(State()), Doubt(id, now), State())
    {
      var changed, event := swim.list.MarkSuspect(id, now);
      RunCallback(event);
    }

    method BuryPeer(id: Id)
      requires Wired()
      modifies swim.list, registry, lb
      ensures GatewayNext(lb.cfg, registry.grpcOf, old(State()), Bury(id), State())
    {
      var changed, event := swim.list.MarkDead(id);
      RunCallback(event);
    }

    /** The pair of calls with which the rolling updater starts and ends a drain. */
    method SetDraining(id: Id, draining: bool)
      requires Wired()
      modifies registry, lb
      ensures GatewayNext(lb.cfg, registry.grpcOf, old(State()), Drain(id, draining), State())
    {
      registry.SetDraining(id, draining);
      lb.RebuildRing();
    }
  }
}
