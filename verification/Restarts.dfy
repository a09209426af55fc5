/** The cluster when nodes may also restart: a restarted node has forgotten everything and is back at
    incarnation 0, while claims about its earlier lives are still in other tables and in flight. */
module Restarts {
  import opened Options
  import opened Views
  import opened MembershipTable
  import opened SwimNode
  import Cluster

  datatype Event = Ordinary(step: Cluster.Step) | Restart(node: Id, address: string)

  function After(c: Cluster.Cluster, e: Event): Cluster.Cluster {
    match e
    case Ordinary(s) => Cluster.Next(c, s)
    case Restart(n, a) =>
      if n in c.nodes then c.(nodes := c.nodes[n := Newborn(n, a)], gone := c.gone - {n}) else c
  }

  function AfterAll(c: Cluster.Cluster, events: seq<Event>): Cluster.Cluster {
    if events == [] then c
    else var n := |events| - 1; After(AfterAll(c, events[..n]), events[n])
  }

  /** The highest incarnation that `m` itself announces in this state, its farewell included. */
  function Announced(c: Cluster.Cluster, m: Id): nat {
    if m !in c.nodes then 0 else c.nodes[m].incarnation + if m in c.gone then 1 else 0
  }

  /** The highest incarnation that `m` announced in any of its lives. */
  function Peak(c: Cluster.Cluster, events: seq<Event>, m: Id): nat {
    var now := Announced(AfterAll(c, events), m);
    if events == [] then now
    else
      var before := Peak(c, events[..|events| - 1], m);
      if before < now then now else before
  }

  /** Every table is kept under its own node's name. */
  predicate Named(c: Cluster.Cluster) { forall n :: n in c.nodes ==> c.nodes[n].self == n }

  lemma {:induction false} NamesStay(c: Cluster.Cluster, events: seq<Event>)
    requires Named(c)
    ensures Named(AfterAll(c, events)) && AfterAll(c, events).nodes.Keys == c.nodes.Keys
  {
    if events == [] {
    } else {
      var n := |events| - 1;
      NamesStay(c, events[..n]);
      var before := AfterAll(c, events[..n]);
      if events[n].Ordinary? && Cluster.Enabled(before, events[n].step) {
        StepKeepsName(before, events[n].step);
      }
    }
  }

  lemma StepKeepsName(c: Cluster.Cluster, s: Cluster.Step)
    requires Named(c) && Cluster.Enabled(c, s)
    ensures Named(Cluster.Next(c, s)) && Cluster.Next(c, s).nodes.Keys == c.nodes.Keys
  {
    Cluster.StepEffect(c, s);
  }

  lemma NewbornClaims(n: Id, address: string, m: Id, v: View)
    requires Asserts(Newborn(n, address), m, v)
    ensures v == View(0, Alive)
  {
    NewClaimsAreContributions(Table(n, 0, map[], []), Add(n, address), m, v);
  }

  lemma RestartClaims(c: Cluster.Cluster, n: Id, address: string, m: Id, v: View)
    requires Cluster.Claimed(After(c, Restart(n, address)), m, v)
    ensures Cluster.Claimed(c, m, v) || v == View(0, Alive)
  {
    var c' := After(c, Restart(n, address));
    if x :| x in c'.nodes && Asserts(c'.nodes[x], m, v) {
      if x == n {
        NewbornClaims(n, address, m, v);
      }
    }
  }

  /** What a step originates is a claim already made, a first sight, or announced by the member itself. */
  lemma OriginIsAnnounced(c: Cluster.Cluster, s: Cluster.Step, m: Id, v: View)
    requires Named(c) && Cluster.Originates(c, s, m, v)
    ensures v.incarnation <= Announced(c, m) || v.incarnation <= Announced(Cluster.Next(c, s), m) ||
            exists w :: Cluster.Claimed(c, m, w) && w.incarnation == v.incarnation
  {
    var t := c.nodes[s.node];
    if s.Suspect? || s.Expire? {
      assert Asserts(t, m, ViewOf(t.members[m]));
      assert Cluster.Claimed(c, m, ViewOf(t.members[m]));
    } else if s.Receive? {
      Cluster.IncarnationMoves(c, s, m);
    } else if s.Leave? {
      Cluster.IncarnationMoves(c, s, m);
    }
  }

  /** Through any number of restarts and leaves, nobody claims an incarnation that its member never
      announced in any of its lives. */
  lemma {:induction false} ClaimsStayBelowPeak(c: Cluster.Cluster, events: seq<Event>, m: Id, v: View)
    requires Cluster.Initial(c) && Cluster.Claimed(AfterAll(c, events), m, v)
    ensures v.incarnation <= Peak(c, events, m)
  {
    Cluster.InitialOwnership(c);
    if events == [] {
    } else {
      var n := |events| - 1;
      var before := AfterAll(c, events[..n]);
      NamesStay(c, events[..n]);
      AnnouncedBelowPeak(c, events[..n], m);
      if Cluster.Claimed(before, m, v) {
        ClaimsStayBelowPeak(c, events[..n], m, v);
      } else {
        match events[n]
        case Restart(x, a) => RestartClaims(before, x, a, m, v);
        case Ordinary(s) =>
          Cluster.ClaimsHaveOrigins(before, s, m, v);
          OriginIsAnnounced(before, s, m, v);
          if w :| Cluster.Claimed(before, m, w) && w.incarnation == v.incarnation {
            ClaimsStayBelowPeak(c, events[..n], m, w);
          }
      }
    }
  }

  lemma AnnouncedBelowPeak(c: Cluster.Cluster, events: seq<Event>, m: Id)
    ensures Announced(AfterAll(c, events), m) <= Peak(c, events, m)
  {}

  lemma PeerViewRises(c: Cluster.Cluster, e: Event, n: Id, m: Id)
    requires Named(c) && n in c.nodes && n != m && !(e.Restart? && e.node == n)
    ensures n in After(c, e).nodes && Below(c.nodes[n].Look(m), After(c, e).nodes[n].Look(m))
  {
    if e.Ordinary? && Cluster.Enabled(c, e.step) && e.step.node == n {
      var s, t := e.step, c.nodes[n];
      Cluster.StepEffect(c, s);
      if s.Receive? {
        var u := s.message.updates[s.index];
        StepIsJoin(t, Increment, m);
        StepIsJoin(if Refutes(t, u) then AfterIncrement(t) else t, Apply(u, s.now), m);
      } else if !s.Leave? {
        StepIsJoin(t, Cluster.OpsOf(t, s)[0], m);
      }
    }
  }

  /** A node's view of any other member never decreases while it runs itself, whoever else restarts or
      leaves and whatever is on the network. */
  lemma {:induction false} PeerViewsOnlyRise(c: Cluster.Cluster, events: seq<Event>, j: nat, k: nat, n: Id, m: Id)
    requires Named(c) && n in c.nodes && n != m && j <= k <= |events|
    requires forall i | j <= i < k :: !(events[i].Restart? && events[i].node == n)
    ensures n in AfterAll(c, events[..j]).nodes && n in AfterAll(c, events[..k]).nodes
    ensures Below(AfterAll(c, events[..j]).nodes[n].Look(m), AfterAll(c, events[..k]).nodes[n].Look(m))
    decreases k
  {
    NamesStay(c, events[..j]);
    if j == k {
    } else {
      PeerViewsOnlyRise(c, events, j, k - 1, n, m);
      NamesStay(c, events[..k - 1]);
      PeerViewRises(AfterAll(c, events[..k - 1]), events[k - 1], n, m);
      assert events[..k][..k - 1] == events[..k - 1];
    }
  }

  lemma {:induction false} StrangersPeakAtZero(c: Cluster.Cluster, events: seq<Event>, m: Id)
    requires Named(c) && m !in c.nodes
    ensures Peak(c, events, m) == 0
  {
    NamesStay(c, events);
    if events == [] {
    } else {
      StrangersPeakAtZero(c, events[..|events| - 1], m);
    }
  }

  /** Once every restarted node holds itself alive at an incarnation no lower than any it announced before,
      the cluster is under ownership again, and all that follows from it holds from there on. */
  lemma OwnershipResumes(c: Cluster.Cluster, events: seq<Event>)
    requires Cluster.Initial(c)
    requires var end := AfterAll(c, events);
      end.gone == {} && forall n :: n in end.nodes ==>
        SelfExact(end.nodes[n]) && end.nodes[n].incarnation >= Peak(c, events, n)
    ensures Cluster.Ownership(AfterAll(c, events))
  {
    var end := AfterAll(c, events);
    Cluster.InitialOwnership(c);
    NamesStay(c, events);
    forall m, v | Cluster.Claimed(end, m, v) ensures Cluster.Owned(end, m, v) {
      ClaimsStayBelowPeak(c, events, m, v);
      if m !in end.nodes {
        StrangersPeakAtZero(c, events, m);
      }
    }
  }
}
