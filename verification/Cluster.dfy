/** Any number of nodes and a network that may lose, repeat and reorder what was sent: the network
    is the set of all messages ever sent, and a receiver may take any update from any of them, any
    number of times or never. Every sequence of steps is a run; a step that is not enabled does nothing.
    A node that leaves gracefully takes no step after that. */
module Cluster {
  import opened Options
  import opened Views
  import opened PiggybackBuffer
  import opened MembershipTable
  import opened SwimNode

  datatype Cluster = Cluster(nodes: map<Id, Table>, network: set<Message>, gone: set<Id>)

  datatype Step =
    | Seed(node: Id, address: string)
    | Receive(node: Id, message: Message, index: nat, now: int)
    | Greet(node: Id, message: Message, from: string)
    | Suspect(node: Id, member: Id, now: int)
    | Expire(node: Id, member: Id)
    | Send(node: Id, kind: Kind, target: Id, address: string, load: Load, max: nat)
    | Leave(node: Id, address: string)

  /** A node never probes itself, so it marks only others; both marks may come at any time. */
  predicate Enabled(c: Cluster, s: Step) {
    && s.node in c.nodes && s.node !in c.gone
    && match s
       case Receive(_, g, i, _) => g in c.network && i < |g.updates|
       case Greet(_, g, _) => g in c.network
       case Suspect(n, m, _) => m != n
       case Expire(n, m) => m != n
       case _ => true
  }

  function OpsOf(t: Table, s: Step): seq<Op> {
    match s
    case Seed(_, a) => [Add(SeedId(a), a)]
    case Receive(_, g, i, now) => if i < |g.updates| then ReceiveOps(t, g.updates[i], now) else []
    case Greet(_, g, from) => [Add(g.sender, from)]
    case Suspect(_, m, now) => [MarkSuspect(m, now)]
    case Expire(_, m) => [MarkDead(m)]
    case Send(_, _, _, _, _, max) => [Piggyback(max)]
    case Leave(_, _) => []
  }

  function Sent(t: Table, s: Step): set<Message> {
    match s
    case Send(_, kind, target, address, load, max) => {Composed(t, kind, target, address, load, max)}
    case Leave(_, address) => {Farewell(t, address)}
    case _ => {}
  }

  function Next(c: Cluster, s: Step): Cluster {
    if !Enabled(c, s) then c
    else
      var t := c.nodes[s.node];
      Cluster(c.nodes[s.node := Run(t, OpsOf(t, s))], c.network + Sent(t, s),
              if s.Leave? then c.gone + {s.node} else c.gone)
  }

  function Exec(c: Cluster, steps: seq<Step>): Cluster {
    if steps == [] then c
    else var n := |steps| - 1; Next(Exec(c, steps[..n]), steps[n])
  }

  /** Every node has just been constructed and nothing has been sent. */
  ghost predicate Initial(c: Cluster) {
    && c.network == {} && c.gone == {}
    && forall n :: n in c.nodes ==>
         exists a :: c.nodes[n] == Newborn(n, a)
  }

  lemma {:induction false} ExecConcat(c: Cluster, a: seq<Step>, b: seq<Step>)
    ensures Exec(c, a + b) == Exec(Exec(c, a), b)
    decreases |b|
  {
    if b == [] {
      assert a + b == a;
    } else {
      var n := |b| - 1;
      assert (a + b)[..|a + b| - 1] == a + b[..n];
      ExecConcat(c, a, b[..n]);
    }
  }

  lemma ExecPrefix(c: Cluster, steps: seq<Step>, k: nat)
    requires k < |steps|
    ensures Exec(c, steps[..k + 1]) == Next(Exec(c, steps[..k]), steps[k])
  {
    assert steps[..k + 1][..k] == steps[..k];
  }

  lemma {:induction false} ExecKeepsNodes(c: Cluster, steps: seq<Step>)
    ensures Exec(c, steps).nodes.Keys == c.nodes.Keys
  {
    if steps == [] {
    } else {
      ExecKeepsNodes(c, steps[..|steps| - 1]);
    }
  }

  // ---- Claims and their origins ----

  ghost predicate Carries(g: Message, m: Id, v: View) {
    exists u :: u in g.updates && u.id == m && Claim(u) == v
  }

  /** Some table, buffer or message asserts `v` about `m`. */
  ghost predicate Claimed(c: Cluster, m: Id, v: View) {
    || (exists n :: n in c.nodes && Asserts(c.nodes[n], m, v))
    || (exists g :: g in c.network && Carries(g, m, v))
  }

  /** The step itself is the origin of the claim. */
  predicate Originates(c: Cluster, s: Step, m: Id, v: View) {
    && Enabled(c, s)
    && var t := c.nodes[s.node];
       match s
       case Seed(_, _) => v == View(0, Alive)
       case Greet(_, _, _) => v == View(0, Alive)
       case Suspect(_, x, _) => x == m && CanSuspect(t, m) && v == View(t.members[m].incarnation, State.Suspect)
       case Expire(_, x) => x == m && CanKill(t, m) && v == View(t.members[m].incarnation, Dead)
       case Receive(_, g, i, _) => m == t.self && Refutes(t, g.updates[i]) && v == View(t.incarnation + 1, Alive)
       case Send(_, _, _, _, _, _) => m == t.self && v == View(t.incarnation, Alive)
       case Leave(_, _) => m == t.self && v == View(t.incarnation + 1, Dead)
  }

  /** A node's table after an enabled step. */
  lemma StepEffect(c: Cluster, s: Step)
    requires Enabled(c, s)
    ensures var t := c.nodes[s.node];
      && (OpsOf(t, s) == [] <==> s.Leave?)
      && Next(c, s).nodes.Keys == c.nodes.Keys
      && Next(c, s).nodes[s.node] ==
         if s.Receive? then Received(t, s.message.updates[s.index], s.now)
         else if s.Leave? then t
         else MembershipTable.Step(t, OpsOf(t, s)[0])
  {
    if !s.Receive? && !s.Leave? {
      OneOp(c.nodes[s.node], OpsOf(c.nodes[s.node], s)[0]);
    }
  }

  lemma TableClaimsHaveOrigins(c: Cluster, s: Step, m: Id, v: View)
    requires Enabled(c, s)
    requires Asserts(Next(c, s).nodes[s.node], m, v)
    ensures Claimed(c, m, v) || Originates(c, s, m, v)
  {
    var t := c.nodes[s.node];
    StepEffect(c, s);
    if Asserts(t, m, v) {
    } else if s.Receive? {
      var u := s.message.updates[s.index];
      var ready := if Refutes(t, u) then AfterIncrement(t) else t;
      if Asserts(ready, m, v) {
        NewClaimsAreContributions(t, Increment, m, v);
      } else {
        NewClaimsAreContributions(ready, Apply(u, s.now), m, v);
        assert Carries(s.message, m, v);
      }
    } else {
      NewClaimsAreContributions(t, OpsOf(t, s)[0], m, v);
    }
  }

  /** No claim appears from nowhere. */
  lemma ClaimsHaveOrigins(c: Cluster, s: Step, m: Id, v: View)
    requires Claimed(Next(c, s), m, v)
    ensures Claimed(c, m, v) || Originates(c, s, m, v)
  {
    if Enabled(c, s) {
      var c' := Next(c, s);
      var t := c.nodes[s.node];
      if n :| n in c'.nodes && Asserts(c'.nodes[n], m, v) {
        if n == s.node {
          TableClaimsHaveOrigins(c, s, m, v);
        }
      } else {
        var g :| g in c'.network && Carries(g, m, v);
        if g !in c.network {
          var u :| u in g.updates && u.id == m && Claim(u) == v;
          if s.Send? {
            UpdatesAfterTake(t.buffer, s.max);
            if u in Taken(t.buffer, s.max) {
              assert Asserts(t, m, v);
            }
          }
        }
      }
    }
  }

  // ---- Who may create incarnations ----

  /** The one claim that outruns its member: the farewell of a node that has left. */
  predicate IsFarewell(c: Cluster, m: Id, v: View) {
    m in c.gone && m in c.nodes && v == View(c.nodes[m].incarnation + 1, Dead)
  }

  predicate Owned(c: Cluster, m: Id, v: View) {
    IsFarewell(c, m, v) || if m in c.nodes then v.incarnation <= c.nodes[m].incarnation else v.incarnation == 0
  }

  /** Every node's self entry is exactly its own incarnation, alive; nobody claims an incarnation the
      member has not reached, farewells excepted; members that are no nodes (seeds) stay at incarnation 0. */
  ghost predicate Ownership(c: Cluster) {
    && (forall n :: n in c.nodes ==> c.nodes[n].self == n && SelfExact(c.nodes[n]))
    && (forall m, v :: Claimed(c, m, v) ==> Owned(c, m, v))
  }

  lemma InitialOwnership(c: Cluster)
    requires Initial(c)
    ensures Ownership(c)
    ensures forall m, v :: Claimed(c, m, v) ==> v == View(0, Alive)
  {
    forall n, m, v | n in c.nodes && Asserts(c.nodes[n], m, v) ensures v == View(0, Alive) {
      var a :| c.nodes[n] == Newborn(n, a);
      NewClaimsAreContributions(Table(n, 0, map[], []), Add(n, a), m, v);
    }
  }

  lemma CarriedIsOwned(c: Cluster, s: Step)
    requires Ownership(c) && Enabled(c, s) && s.Receive?
    ensures var u := s.message.updates[s.index];
      Claimed(c, u.id, Claim(u)) && Owned(c, u.id, Claim(u))
  {
    var u := s.message.updates[s.index];
    assert Carries(s.message, u.id, Claim(u));
    assert Claimed(c, u.id, Claim(u));
  }

  lemma SelfStaysExact(c: Cluster, s: Step)
    requires Ownership(c) && Enabled(c, s)
    ensures var t := Next(c, s).nodes[s.node];
      t.self == s.node && SelfExact(t) && c.nodes[s.node].incarnation <= t.incarnation
  {
    var t := c.nodes[s.node];
    StepEffect(c, s);
    if s.Receive? {
      CarriedIsOwned(c, s);
      ReceiptKeepsExact(t, s.message.updates[s.index], s.now);
    } else if !s.Leave? {
      OwnStepKeepsExact(t, OpsOf(t, s)[0]);
    }
  }

  lemma OriginsAreOwned(c: Cluster, s: Step, m: Id, v: View)
    requires Ownership(c) && Originates(c, s, m, v)
    ensures Owned(Next(c, s), m, v)
  {
    var t := c.nodes[s.node];
    StepEffect(c, s);
    SelfStaysExact(c, s);
    if s.Suspect? || s.Expire? {
      assert Asserts(t, m, ViewOf(t.members[m]));
      assert Claimed(c, m, ViewOf(t.members[m]));
    }
  }

  lemma NextKeepsOwnership(c: Cluster, s: Step)
    requires Ownership(c)
    ensures Ownership(Next(c, s))
  {
    if Enabled(c, s) {
      var c' := Next(c, s);
      SelfStaysExact(c, s);
      forall m, v | Claimed(c', m, v) ensures Owned(c', m, v) {
        ClaimsHaveOrigins(c, s, m, v);
        if Originates(c, s, m, v) {
          OriginsAreOwned(c, s, m, v);
        } else {
          assert Owned(c, m, v);
        }
      }
    }
  }

  lemma {:induction false} OwnershipForever(c: Cluster, steps: seq<Step>)
    requires Ownership(c)
    ensures Ownership(Exec(c, steps))
  {
    if steps == [] {
    } else {
      OwnershipForever(c, steps[..|steps| - 1]);
      NextKeepsOwnership(Exec(c, steps[..|steps| - 1]), steps[|steps| - 1]);
    }
  }

  /** In every state of every run from the start: ownership, for nodes and seeds alike. */
  lemma IncarnationsAreOwned(c: Cluster, steps: seq<Step>, m: Id, v: View)
    requires Initial(c) && Claimed(Exec(c, steps), m, v)
    ensures var end := Exec(c, steps);
      if m in c.nodes then
        && m in end.nodes && end.nodes[m].Look(m) == Some(View(end.nodes[m].incarnation, Alive))
        && (v.incarnation <= end.nodes[m].incarnation ||
            (m in end.gone && v == View(end.nodes[m].incarnation + 1, Dead)))
      else v.incarnation == 0
  {
    InitialOwnership(c);
    OwnershipForever(c, steps);
    ExecKeepsNodes(c, steps);
  }

  // ---- Views only rise ----

  lemma NextNeverLowers(c: Cluster, s: Step, n: Id, m: Id)
    requires Ownership(c) && n in c.nodes
    ensures Below(c.nodes[n].Look(m), Next(c, s).nodes[n].Look(m))
  {
    if Enabled(c, s) && n == s.node {
      var t := c.nodes[n];
      StepEffect(c, s);
      if s.Receive? {
        var u := s.message.updates[s.index];
        StepIsJoin(t, Increment, m);
        StepIsJoin(if Refutes(t, u) then AfterIncrement(t) else t, Apply(u, s.now), m);
      } else if !s.Leave? {
        StepIsJoin(t, OpsOf(t, s)[0], m);
      }
    }
  }

  /** Between two states node `n` lowers neither its view of `m` nor its own incarnation. */
  ghost predicate Risen(early: Cluster, late: Cluster, n: Id, m: Id) {
    && n in early.nodes && n in late.nodes
    && Below(early.nodes[n].Look(m), late.nodes[n].Look(m))
    && early.nodes[n].incarnation <= late.nodes[n].incarnation
  }

  lemma NextRaises(c: Cluster, s: Step, n: Id, m: Id)
    requires Ownership(c) && n in c.nodes
    ensures Risen(c, Next(c, s), n, m)
  {
    NextNeverLowers(c, s, n, m);
    if Enabled(c, s) {
      SelfStaysExact(c, s);
    }
  }

  lemma RisenTransitive(a: Cluster, b: Cluster, c: Cluster, n: Id, m: Id)
    requires Risen(a, b, n, m) && Risen(b, c, n, m)
    ensures Risen(a, c, n, m)
  {}

  /** No node's view of any member, itself included, ever decreases, in spite of the blind overwrite. */
  lemma {:induction false} ViewsOnlyRise(c: Cluster, steps: seq<Step>, j: nat, k: nat, n: Id, m: Id)
    requires Ownership(c) && n in c.nodes && j <= k <= |steps|
    ensures Risen(Exec(c, steps[..j]), Exec(c, steps[..k]), n, m)
    decreases k
  {
    ExecKeepsNodes(c, steps[..j]);
    if j == k {
    } else {
      var early, mid, late := Exec(c, steps[..j]), Exec(c, steps[..k - 1]), Exec(c, steps[..k]);
      ViewsOnlyRise(c, steps, j, k - 1, n, m);
      OwnershipForever(c, steps[..k - 1]);
      NextRaises(mid, steps[k - 1], n, m);
      ExecPrefix(c, steps, k - 1);
      RisenTransitive(early, mid, late, n, m);
    }
  }

  // ---- Refutation, end to end ----

  lemma RefutedBeyond(c: Cluster, s: Step)
    requires Ownership(c) && Enabled(c, s) && s.Receive?
    requires var u := s.message.updates[s.index]; u.id == s.node && u.state != Alive
    ensures Next(c, s).nodes[s.node].incarnation > s.message.updates[s.index].incarnation
  {
    StepEffect(c, s);
    CarriedIsOwned(c, s);
    ReceiptKeepsExact(c.nodes[s.node], s.message.updates[s.index], s.now);
  }

  /** Whoever processes an update holds at least its claim afterwards. */
  lemma ReceiptRaises(c: Cluster, s: Step)
    requires Ownership(c) && Enabled(c, s) && s.Receive?
    ensures var u := s.message.updates[s.index];
      Below(Some(Claim(u)), Next(c, s).nodes[s.node].Look(u.id))
  {
    var t, u := c.nodes[s.node], s.message.updates[s.index];
    StepEffect(c, s);
    StepIsJoin(if Refutes(t, u) then AfterIncrement(t) else t, Apply(u, s.now), u.id);
  }

  /** The step makes `m` process a rumour about itself at incarnation `i`. */
  predicate HearsRumour(c: Cluster, s: Step, m: Id, i: nat) {
    && Enabled(c, s) && s.Receive? && s.node == m
    && var u := s.message.updates[s.index];
       u.id == m && u.state != Alive && u.incarnation == i
  }

  /** The step makes `r` process the update at index `p` of `g`. */
  predicate HearsUpdate(c: Cluster, s: Step, r: Id, g: Message, p: nat) {
    Enabled(c, s) && s.Receive? && s.node == r && s.message == g && s.index == p
  }

  /** The step makes `r` process the last update of `g`, the sender's update about itself. */
  predicate HearsSelfUpdate(c: Cluster, s: Step, r: Id, g: Message) {
    Enabled(c, s) && s.Receive? && s.node == r && s.message == g && s.index + 1 == |g.updates|
  }

  lemma RumourRaisesForGood(c: Cluster, steps: seq<Step>, a: nat, b: nat, m: Id, i: nat)
    requires Ownership(c) && a < b <= |steps|
    requires HearsRumour(Exec(c, steps[..a]), steps[a], m, i)
    ensures m in Exec(c, steps[..b]).nodes && Exec(c, steps[..b]).nodes[m].incarnation > i
  {
    ExecKeepsNodes(c, steps[..a]);
    OwnershipForever(c, steps[..a]);
    RefutedBeyond(Exec(c, steps[..a]), steps[a]);
    ExecPrefix(c, steps, a);
    ViewsOnlyRise(c, steps, a + 1, b, m, m);
  }

  lemma UpdateRaisesForGood(c: Cluster, steps: seq<Step>, d: nat, e: nat, r: Id, g: Message, p: nat)
    requires Ownership(c) && d < e <= |steps|
    requires HearsUpdate(Exec(c, steps[..d]), steps[d], r, g, p)
    ensures r in Exec(c, steps[..e]).nodes && p < |g.updates|
    ensures Below(Some(Claim(g.updates[p])), Exec(c, steps[..e]).nodes[r].Look(g.updates[p].id))
  {
    ExecKeepsNodes(c, steps[..d]);
    OwnershipForever(c, steps[..d]);
    ReceiptRaises(Exec(c, steps[..d]), steps[d]);
    ExecPrefix(c, steps, d);
    ViewsOnlyRise(c, steps, d + 1, e, r, g.updates[p].id);
  }

  lemma ReceiptRaisesForGood(c: Cluster, steps: seq<Step>, d: nat, e: nat, r: Id, g: Message)
    requires Ownership(c) && d < e <= |steps|
    requires HearsSelfUpdate(Exec(c, steps[..d]), steps[d], r, g)
    ensures r in Exec(c, steps[..e]).nodes
    ensures var u := g.updates[|g.updates| - 1];
      Below(Some(Claim(u)), Exec(c, steps[..e]).nodes[r].Look(u.id))
  {
    UpdateRaisesForGood(c, steps, d, e, r, g, |g.updates| - 1);
  }

  /** Once `m` has processed a rumour about itself at incarnation i (step a), whoever processes the
      self update of any message `m` sends later (sent at step b, processed at step d) sees `m` at
      incarnation i + 1 or more ever after, and accepts neither that rumour nor any weaker one. */
  lemma RefutationEndToEnd(c: Cluster, steps: seq<Step>, a: nat, b: nat, d: nat, e: nat,
                           m: Id, r: Id, i: nat, g: Message, w: Update)
    requires Ownership(c) && a < b < d < e <= |steps|
    requires HearsRumour(Exec(c, steps[..a]), steps[a], m, i)
    requires steps[b].Send? && steps[b].node == m && Enabled(Exec(c, steps[..b]), steps[b])
    requires g in Sent(Exec(c, steps[..b]).nodes[m], steps[b])
    requires HearsSelfUpdate(Exec(c, steps[..d]), steps[d], r, g)
    requires w.id == m && Le(Claim(w), View(i, Dead))
    ensures r in Exec(c, steps[..e]).nodes
    ensures Below(Some(View(i + 1, Alive)), Exec(c, steps[..e]).nodes[r].Look(m))
    ensures !Accepts(Exec(c, steps[..e]).nodes[r], w)
  {
    RumourRaisesForGood(c, steps, a, b, m, i);
    OwnershipForever(c, steps[..b]);
    ReceiptRaisesForGood(c, steps, d, e, r, g);
    StaleIsRefused(Exec(c, steps[..e]).nodes[r], m, i, w);
  }

  lemma StaleIsRefused(t: Table, m: Id, i: nat, w: Update)
    requires Below(Some(View(i + 1, Alive)), t.Look(m))
    requires w.id == m && Le(Claim(w), View(i, Dead))
    ensures !Accepts(t, w)
  {}

  // ---- News travels ----

  /** A message carries the oldest queued updates and the sender's own; an entry is counted as sent exactly
      when it is on the message. */
  lemma SentNewsIsCounted(c: Cluster, s: Step, g: Message)
    requires s.Send? && Enabled(c, s) && g in Sent(c.nodes[s.node], s)
    ensures var t := c.nodes[s.node];
      && CarriesNews(g.updates, t.buffer, s.max)
      && (forall p: nat | p < |t.buffer| ::
            OnMessage(t.buffer, p, Operation<Update>.Send(s.max)) <==>
            p < |g.updates| - 1 && g.updates[p] == t.buffer[p].update)
  {}

  /** Whoever processes the update at index `p` of a message that `n` sent holds at least what `n` had queued
      there, ever after. */
  lemma NewsTravels(c: Cluster, steps: seq<Step>, b: nat, d: nat, e: nat, n: Id, r: Id, g: Message, p: nat)
    requires Ownership(c) && b < d < e <= |steps|
    requires steps[b].Send? && steps[b].node == n && Enabled(Exec(c, steps[..b]), steps[b])
    requires g in Sent(Exec(c, steps[..b]).nodes[n], steps[b])
    requires HearsUpdate(Exec(c, steps[..d]), steps[d], r, g, p)
    requires p < steps[b].max && p < |Exec(c, steps[..b]).nodes[n].buffer|
    ensures r in Exec(c, steps[..e]).nodes
    ensures var u := Exec(c, steps[..b]).nodes[n].buffer[p].update;
      Below(Some(Claim(u)), Exec(c, steps[..e]).nodes[r].Look(u.id))
  {
    SentNewsIsCounted(Exec(c, steps[..b]), steps[b], g);
    UpdateRaisesForGood(c, steps, d, e, r, g, p);
  }

  // ---- A graceful leave is final ----

  lemma {:induction false} GoneStaysPut(c: Cluster, steps: seq<Step>, j: nat, k: nat, m: Id)
    requires j <= k <= |steps| && m in c.nodes && m in Exec(c, steps[..j]).gone
    ensures m in Exec(c, steps[..k]).gone
    ensures m in Exec(c, steps[..j]).nodes && m in Exec(c, steps[..k]).nodes
    ensures Exec(c, steps[..k]).nodes[m] == Exec(c, steps[..j]).nodes[m]
    decreases k
  {
    ExecKeepsNodes(c, steps[..j]);
    if j == k {
    } else {
      GoneStaysPut(c, steps, j, k - 1, m);
      ExecPrefix(c, steps, k - 1);
    }
  }

  /** Nothing claimed about a node that has left goes beyond its farewell. */
  lemma FarewellIsTop(c: Cluster, m: Id, r: Id)
    requires Ownership(c) && m in c.gone && m in c.nodes && r in c.nodes
    requires Below(Some(View(c.nodes[m].incarnation + 1, Dead)), c.nodes[r].Look(m))
    ensures c.nodes[r].Look(m) == Some(View(c.nodes[m].incarnation + 1, Dead))
  {
    var v := c.nodes[r].Look(m).value;
    assert Asserts(c.nodes[r], m, v);
    assert Claimed(c, m, v);
    assert Owned(c, m, v);
  }

  /** Once `m` has left (step a) and `r` has processed its farewell (step d), `r` holds `m` dead at one
      above its last incarnation ever after, whatever else is in flight. */
  lemma LeaveIsFinal(c: Cluster, steps: seq<Step>, a: nat, d: nat, e: nat, m: Id, r: Id, g: Message)
    requires Ownership(c) && a < d < e <= |steps|
    requires steps[a].Leave? && steps[a].node == m && Enabled(Exec(c, steps[..a]), steps[a])
    requires g in Sent(Exec(c, steps[..a]).nodes[m], steps[a])
    requires HearsSelfUpdate(Exec(c, steps[..d]), steps[d], r, g)
    ensures r in Exec(c, steps[..e]).nodes
    ensures Exec(c, steps[..e]).nodes[r].Look(m) == Some(View(Exec(c, steps[..a]).nodes[m].incarnation + 1, Dead))
  {
    ExecKeepsNodes(c, steps[..a]);
    OwnershipForever(c, steps[..a]);
    StepEffect(Exec(c, steps[..a]), steps[a]);
    ExecPrefix(c, steps, a);
    GoneStaysPut(c, steps, a + 1, e, m);
    ReceiptRaisesForGood(c, steps, d, e, r, g);
    OwnershipForever(c, steps[..e]);
    FarewellIsTop(Exec(c, steps[..e]), m, r);
  }

  // ---- No suspicion from thin air ----

  /** The incarnation of `m` that a step marks suspect or dead, if it does. */
  function Marked(c: Cluster, s: Step, m: Id): seq<nat> {
    if !Enabled(c, s) then []
    else
      var t := c.nodes[s.node];
      if s.Suspect? && s.member == m && CanSuspect(t, m) then [t.members[m].incarnation]
      else if s.Expire? && s.member == m && CanKill(t, m) then [t.members[m].incarnation]
      else []
  }

  /** All marks about `m` in a run, in order. */
  function Marks(c: Cluster, steps: seq<Step>, m: Id): seq<nat> {
    if steps == [] then []
    else
      var n := |steps| - 1;
      Marks(c, steps[..n], m) + Marked(Exec(c, steps[..n]), steps[n], m)
  }

  ghost predicate Traced(c: Cluster, marks: seq<nat>, m: Id) {
    && (forall v :: Claimed(c, m, v) && v.state != Alive ==> v.incarnation in marks || IsFarewell(c, m, v))
    && (m in c.nodes ==> forall i: nat :: i < c.nodes[m].incarnation ==> i in marks)
  }

  lemma OriginsAreMarked(c: Cluster, s: Step, marks: seq<nat>, m: Id, v: View)
    requires Ownership(c) && Traced(c, marks, m) && Originates(c, s, m, v) && v.state != Alive
    ensures v.incarnation in marks + Marked(c, s, m) || IsFarewell(Next(c, s), m, v)
  {
    StepEffect(c, s);
  }

  lemma RefutedClaimIsMarked(c: Cluster, s: Step, marks: seq<nat>)
    requires Ownership(c) && Traced(c, marks, s.node) && Enabled(c, s) && s.Receive?
    requires Refutes(c.nodes[s.node], s.message.updates[s.index])
    ensures c.nodes[s.node].incarnation in marks
  {
    CarriedIsOwned(c, s);
  }

  lemma IncarnationMoves(c: Cluster, s: Step, m: Id)
    requires Enabled(c, s) && m in c.nodes
    ensures m in Next(c, s).nodes
    ensures Next(c, s).nodes[m].incarnation == c.nodes[m].incarnation +
      if m == s.node && s.Receive? && Refutes(c.nodes[m], s.message.updates[s.index]) then 1 else 0
  {
    StepEffect(c, s);
    if s.Receive? {
      ReceiptClimbs(c.nodes[s.node], s.message.updates[s.index], s.now);
    }
  }

  /** A node only climbs past an incarnation at which it was marked. */
  lemma ClimbsAreMarked(c: Cluster, s: Step, marks: seq<nat>, m: Id, i: nat)
    requires Ownership(c) && Traced(c, marks, m) && Enabled(c, s) && m in c.nodes
    requires m in Next(c, s).nodes && i < Next(c, s).nodes[m].incarnation
    ensures i in marks
  {
    IncarnationMoves(c, s, m);
    if i >= c.nodes[m].incarnation {
      RefutedClaimIsMarked(c, s, marks);
    }
  }

  /** The step's marks, if it makes any, are among `marks` and `raised`. */
  lemma NextTracedBy(c: Cluster, s: Step, marks: seq<nat>, raised: seq<nat>, m: Id)
    requires Ownership(c) && Traced(c, marks, m)
    requires forall i :: i in Marked(c, s, m) ==> i in marks + raised
    ensures Traced(Next(c, s), marks + raised, m)
  {
    var c' := Next(c, s);
    if Enabled(c, s) {
      StepEffect(c, s);
      forall v | Claimed(c', m, v) && v.state != Alive
        ensures v.incarnation in marks + raised || IsFarewell(c', m, v) {
        ClaimsHaveOrigins(c, s, m, v);
        if Originates(c, s, m, v) {
          OriginsAreMarked(c, s, marks, m, v);
          assert v.incarnation in marks + Marked(c, s, m) ==> v.incarnation in marks + raised;
        }
      }
      if m in c'.nodes {
        forall i: nat | i < c'.nodes[m].incarnation ensures i in marks + raised {
          ClimbsAreMarked(c, s, marks, m, i);
        }
      }
    }
  }

  lemma NextTraced(c: Cluster, s: Step, marks: seq<nat>, m: Id)
    requires Ownership(c) && Traced(c, marks, m)
    ensures Traced(Next(c, s), marks + Marked(c, s, m), m)
  {
    NextTracedBy(c, s, marks, Marked(c, s, m), m);
  }

  /** Every SUSPECT or DEAD claim about `m`, anywhere, at incarnation i, was preceded by a mark made
      at i (or is `m`'s own farewell), and `m` climbed past every incarnation below its own because of a mark
      made there. */
  lemma {:induction false} NoSuspicionFromThinAir(c: Cluster, steps: seq<Step>, m: Id)
    requires Initial(c)
    ensures Traced(Exec(c, steps), Marks(c, steps, m), m)
  {
    InitialOwnership(c);
    if steps == [] {
      forall n, a | n in c.nodes && c.nodes[n] == Newborn(n, a)
        ensures c.nodes[n].incarnation == 0 {}
    } else {
      var n := |steps| - 1;
      NoSuspicionFromThinAir(c, steps[..n], m);
      OwnershipForever(c, steps[..n]);
      NextTraced(Exec(c, steps[..n]), steps[n], Marks(c, steps[..n], m), m);
    }
  }

  // ---- No death without suspicion ----

  /** The timeout scan marks only suspects. */
  ghost predicate Patient(c: Cluster, steps: seq<Step>) {
    forall k | 0 <= k < |steps| && steps[k].Expire? ::
      var before := Exec(c, steps[..k]);
      Enabled(before, steps[k]) ==>
        before.nodes[steps[k].node].Look(steps[k].member).Some? &&
        before.nodes[steps[k].node].Look(steps[k].member).value.state == State.Suspect
  }

  /** The incarnation of `m` that a step newly suspects, if it does. */
  function Suspected(c: Cluster, s: Step, m: Id): seq<nat> { if s.Suspect? then Marked(c, s, m) else [] }

  function Suspicions(c: Cluster, steps: seq<Step>, m: Id): seq<nat> {
    if steps == [] then []
    else
      var n := |steps| - 1;
      Suspicions(c, steps[..n], m) + Suspected(Exec(c, steps[..n]), steps[n], m)
  }

  lemma PatientBefore(c: Cluster, steps: seq<Step>)
    requires Patient(c, steps) && steps != []
    ensures Patient(c, steps[..|steps| - 1])
  {
    var n := |steps| - 1;
    forall k | 0 <= k < n ensures steps[..n][..k] == steps[..k] {}
  }

  /** A death marked on a suspect was suspected before. */
  lemma DeathsWereSuspected(c: Cluster, s: Step, marks: seq<nat>, m: Id)
    requires Ownership(c) && Traced(c, marks, m)
    requires s.Expire? && Enabled(c, s) ==>
      c.nodes[s.node].Look(s.member).Some? && c.nodes[s.node].Look(s.member).value.state == State.Suspect
    ensures forall i :: i in Marked(c, s, m) ==> i in marks + Suspected(c, s, m)
  {
    if s.Expire? && Enabled(c, s) && s.member == m {
      var v := c.nodes[s.node].Look(m).value;
      assert Asserts(c.nodes[s.node], m, v);
      assert Claimed(c, m, v);
    }
  }

  /** When only suspects are buried, every DEAD or SUSPECT claim at i that is no farewell was preceded by a
      suspicion raised at i, and `m` climbed past every incarnation because of a suspicion raised there. */
  lemma {:induction false} NoDeathWithoutSuspicion(c: Cluster, steps: seq<Step>, m: Id)
    requires Initial(c) && Patient(c, steps)
    ensures Traced(Exec(c, steps), Suspicions(c, steps, m), m)
  {
    InitialOwnership(c);
    if steps == [] {
      forall n, a | n in c.nodes && c.nodes[n] == Newborn(n, a) ensures c.nodes[n].incarnation == 0 {}
    } else {
      var n := |steps| - 1;
      var before, marks := Exec(c, steps[..n]), Suspicions(c, steps[..n], m);
      PatientBefore(c, steps);
      NoDeathWithoutSuspicion(c, steps[..n], m);
      OwnershipForever(c, steps[..n]);
      DeathsWereSuspected(before, steps[n], marks, m);
      NextTracedBy(before, steps[n], marks, Suspected(before, steps[n], m), m);
    }
  }

  /** Distinct incarnations need distinct marks. */
  lemma {:induction false} CoveredIncarnations(marks: seq<nat>, n: nat)
    requires forall i: nat :: i < n ==> i in marks
    ensures n <= |marks|
    decreases n
  {
    if n == 0 {
    } else {
      var rest := Without(marks, n - 1);
      WithoutKeepsOthers(marks, n - 1);
      CoveredIncarnations(rest, n - 1);
    }
  }

  lemma {:induction false} WithoutKeepsOthers(s: seq<nat>, x: nat)
    ensures forall y :: y in Without(s, x) <==> y in s && y != x
    ensures x in s ==> |Without(s, x)| < |s|
    ensures |Without(s, x)| <= |s|
  {
    if s == [] {
    } else {
      WithoutKeepsOthers(s[1..], x);
      assert s == [s[0]] + s[1..];
    }
  }

  function Without(s: seq<nat>, x: nat): seq<nat> {
    if s == [] then [] else (if s[0] == x then [] else [s[0]]) + Without(s[1..], x)
  }

  lemma TracedIncarnations(c: Cluster, marks: seq<nat>, m: Id, v: View)
    requires Ownership(c) && Traced(c, marks, m) && Claimed(c, m, v)
    ensures m in c.nodes ==> c.nodes[m].incarnation <= |marks|
    ensures v.incarnation <= |marks| || IsFarewell(c, m, v)
    ensures |marks| == 0 ==> v == View(0, Alive) || IsFarewell(c, m, v)
  {
    assert Owned(c, m, v);
    if m in c.nodes {
      CoveredIncarnations(marks, c.nodes[m].incarnation);
    }
  }

  /** A member's incarnation, in its own table and in every claim, is at most the number of marks
      about it (a farewell adds one); a counter of any width is safe for as many marks as it can count. */
  lemma IncarnationAtMostMarks(c: Cluster, steps: seq<Step>, m: Id, v: View)
    requires Initial(c) && Claimed(Exec(c, steps), m, v)
    ensures var end, marks := Exec(c, steps), |Marks(c, steps, m)|;
      && end.nodes.Keys == c.nodes.Keys
      && (m in c.nodes ==> end.nodes[m].incarnation <= marks)
      && (v.incarnation <= marks || (m in end.gone && v.state == Dead && v.incarnation <= marks + 1))
      && (marks == 0 ==> v == View(0, Alive) || (m in end.gone && v == View(1, Dead)))
  {
    InitialOwnership(c);
    OwnershipForever(c, steps);
    ExecKeepsNodes(c, steps);
    NoSuspicionFromThinAir(c, steps, m);
    TracedIncarnations(Exec(c, steps), Marks(c, steps, m), m, v);
  }

  // ---- Dissemination cost over a run ----

  /** How often node `n` queued news about `m`, counting what its table had queued at the start. */
  function EnqueuedBy(c: Cluster, steps: seq<Step>, n: Id, m: Id): nat {
    if steps == [] then (if n == m then 1 else 0)
    else
      var k := |steps| - 1;
      var before := Exec(c, steps[..k]);
      EnqueuedBy(c, steps[..k], n, m) +
      if Enabled(before, steps[k]) && steps[k].node == n
      then Enqueues(before.nodes[n], OpsOf(before.nodes[n], steps[k]), m) else 0
  }

  lemma StepEnqueuesClimb(c: Cluster, s: Step, m: Id)
    requires Ownership(c) && Enabled(c, s)
    ensures var t := c.nodes[s.node];
      Height(t.Look(m)) + Enqueues(t, OpsOf(t, s), m) <= Height(Next(c, s).nodes[s.node].Look(m))
  {
    var t := c.nodes[s.node];
    var ops := OpsOf(t, s);
    assert SelfExact(t) && (Increment in ops ==> ops[0] == Increment && |ops| == 2);
    if |ops| == 1 {
      OneOpClimbs(t, ops[0], m);
    } else if |ops| == 2 {
      TwoOpsClimb(t, ops[0], ops[1], m);
    }
  }

  lemma {:induction false} EnqueuesClimb(c: Cluster, steps: seq<Step>, n: Id, m: Id)
    requires Initial(c) && n in c.nodes
    ensures n in Exec(c, steps).nodes
    ensures EnqueuedBy(c, steps, n, m) <= Height(Exec(c, steps).nodes[n].Look(m))
  {
    InitialOwnership(c);
    if steps == [] {
    } else {
      var k := |steps| - 1;
      var before := Exec(c, steps[..k]);
      EnqueuesClimb(c, steps[..k], n, m);
      OwnershipForever(c, steps[..k]);
      if Enabled(before, steps[k]) && steps[k].node == n {
        StepEnqueuesClimb(before, steps[k], m);
      }
    }
  }

  /** Over any run, no node queues more than three updates about `m` for each mark ever made about
      `m`, plus three, plus three if `m` has left; this includes what `m` queues about itself. */
  lemma DisseminationIsPaidByMarks(c: Cluster, steps: seq<Step>, n: Id, m: Id)
    requires Initial(c) && n in c.nodes
    ensures EnqueuedBy(c, steps, n, m) <= 3 * (|Marks(c, steps, m)| + if m in Exec(c, steps).gone then 2 else 1)
  {
    EnqueuesClimb(c, steps, n, m);
    var t := Exec(c, steps).nodes[n];
    if m in t.members {
      assert Asserts(t, m, ViewOf(t.members[m]));
      assert Claimed(Exec(c, steps), m, ViewOf(t.members[m]));
      IncarnationAtMostMarks(c, steps, m, ViewOf(t.members[m]));
    }
  }

  // ---- What becomes of a queued update ----

  /** What an operation does to the buffer. */
  function BufferOp(t: Table, op: Op): seq<Operation<Update>> {
    match op
    case Piggyback(max) => [Operation<Update>.Send(max)]
    case _ =>
      match Queued(t, op)
      case None => []
      case Some(m) =>
        var t' := MembershipTable.Step(t, op);
        if m in t'.members then [Enqueue(Announce(m, t'.members[m]))] else []
  }

  function BufferOps(t: Table, ops: seq<Op>): seq<Operation<Update>>
    decreases |ops|
  {
    if ops == [] then [] else BufferOp(t, ops[0]) + BufferOps(MembershipTable.Step(t, ops[0]), ops[1..])
  }

  lemma {:induction false} BufferFollows(t: Table, ops: seq<Op>)
    ensures Run(t, ops).buffer == AfterAll(t.buffer, BufferOps(t, ops))
    decreases |ops|
  {
    if ops == [] {
    } else {
      var t' := MembershipTable.Step(t, ops[0]);
      BufferFollows(t', ops[1..]);
      AfterAllConcat(t.buffer, BufferOp(t, ops[0]), BufferOps(t', ops[1..]));
      OneBufferOp(t, ops[0]);
    }
  }

  lemma OneBufferOp(t: Table, op: Op)
    ensures AfterAll(t.buffer, BufferOp(t, op)) == MembershipTable.Step(t, op).buffer
  {
    if BufferOp(t, op) != [] {
      assert BufferOp(t, op)[1..] == [];
    }
  }

  /** What the run does to the buffer of `n`. */
  function OpsOnBuffer(c: Cluster, steps: seq<Step>, n: Id): seq<Operation<Update>> {
    if steps == [] then []
    else
      var k := |steps| - 1;
      var before := Exec(c, steps[..k]);
      OpsOnBuffer(c, steps[..k], n) +
      if Enabled(before, steps[k]) && steps[k].node == n
      then BufferOps(before.nodes[n], OpsOf(before.nodes[n], steps[k])) else []
  }

  /** The step sends a message of `n` that carries `u` ahead of the sender's own update. */
  predicate Carrying(c: Cluster, s: Step, n: Id, u: Update) {
    Enabled(c, s) && s.Send? && s.node == n &&
    exists g :: g in Sent(c.nodes[n], s) && u in g.updates[..|g.updates| - 1]
  }

  /** How many messages of `n` carried `u`. */
  function TimesCarried(c: Cluster, steps: seq<Step>, n: Id, u: Update): nat {
    if steps == [] then 0
    else
      var k := |steps| - 1;
      TimesCarried(c, steps[..k], n, u) + if Carrying(Exec(c, steps[..k]), steps[k], n, u) then 1 else 0
  }

  lemma {:induction false} BufferIsFollowed(c: Cluster, steps: seq<Step>, n: Id)
    requires n in c.nodes
    ensures n in Exec(c, steps).nodes
    ensures Exec(c, steps).nodes[n].buffer == AfterAll(c.nodes[n].buffer, OpsOnBuffer(c, steps, n))
  {
    if steps == [] {
    } else {
      var k := |steps| - 1;
      var before := Exec(c, steps[..k]);
      BufferIsFollowed(c, steps[..k], n);
      if Enabled(before, steps[k]) && steps[k].node == n {
        var ops := OpsOf(before.nodes[n], steps[k]);
        BufferFollows(before.nodes[n], ops);
        AfterAllConcat(c.nodes[n].buffer, OpsOnBuffer(c, steps[..k], n), BufferOps(before.nodes[n], ops));
      } else {
        assert OpsOnBuffer(c, steps, n) == OpsOnBuffer(c, steps[..k], n);
      }
    }
  }

  /** One step puts an entry on at most one message, and that message is sent. */
  lemma StepCarries(c: Cluster, s: Step, n: Id, b: seq<Entry<Update>>, q: nat)
    requires Enabled(c, s) && s.node == n && b == c.nodes[n].buffer && q < |b|
    ensures TimesSent(b, q, BufferOps(c.nodes[n], OpsOf(c.nodes[n], s))) <=
      if Carrying(c, s, n, b[q].update) then 1 else 0
  {
    var t := c.nodes[n];
    var ops := OpsOf(t, s);
    if s.Send? {
      assert ops[1..] == [];
      var g := Composed(t, s.kind, s.target, s.address, s.load, s.max);
      assert g in Sent(t, s);
      if OnMessage(b, q, Operation<Update>.Send(s.max)) {
        assert g.updates[..|g.updates| - 1][q] == b[q].update;
      }
      assert BufferOps(t, ops) == [Operation<Update>.Send(s.max)];
      assert BufferOps(t, ops)[1..] == [];
    } else {
      NoSendNoCount(t, ops);
      EnqueuesSendNothing(b, q, BufferOps(t, ops));
    }
  }

  lemma {:induction false} NoSendNoCount(t: Table, ops: seq<Op>)
    requires forall op :: op in ops ==> !op.Piggyback?
    ensures forall op :: op in BufferOps(t, ops) ==> op.Enqueue?
    decreases |ops|
  {
    if ops == [] {
    } else {
      assert ops[0] in ops && forall op :: op in ops[1..] ==> op in ops;
      NoSendNoCount(MembershipTable.Step(t, ops[0]), ops[1..]);
    }
  }

  /** Over a run: an update queued at index `p` of the buffer of `n` is on at least as many messages that `n`
      sent as the buffer counts; so it is on ten of them, counted from none, if it leaves the buffer exhausted. */
  lemma {:induction false} ExhaustedWasCarried(c: Cluster, steps: seq<Step>, n: Id, p: nat)
    requires n in c.nodes && Healthy(c.nodes[n].buffer) && p < |c.nodes[n].buffer|
    ensures var b, ops := c.nodes[n].buffer, OpsOnBuffer(c, steps, n);
      && TimesSent(b, p, ops) <= TimesCarried(c, steps, n, b[p].update)
      && (FateOf(b, p, ops) == Finished ==> b[p].sends + TimesCarried(c, steps, n, b[p].update) >= MAX_SENDS)
  {
    var b := c.nodes[n].buffer;
    EntryLifetime(b, p, OpsOnBuffer(c, steps, n));
    if steps == [] {
    } else {
      var k := |steps| - 1;
      var before := Exec(c, steps[..k]);
      ExhaustedWasCarried(c, steps[..k], n, p);
      if Enabled(before, steps[k]) && steps[k].node == n {
        var early, ops := OpsOnBuffer(c, steps[..k], n), BufferOps(before.nodes[n], OpsOf(before.nodes[n], steps[k]));
        BufferIsFollowed(c, steps[..k], n);
        EntryLifetime(b, p, early);
        TimesSentConcat(b, p, early, ops);
        if FateOf(b, p, early).Waiting? {
          StepCarries(before, steps[k], n, before.nodes[n].buffer, FateOf(b, p, early).index);
        }
      } else {
        assert OpsOnBuffer(c, steps, n) == OpsOnBuffer(c, steps[..k], n);
      }
    }
  }

  // ---- Nodes that report no load ----

  /** The table and its buffer report no load of `m`. */
  ghost predicate Silent(t: Table, m: Id) {
    && (m in t.members ==> CarriesNoLoad(Announce(m, t.members[m])))
    && (forall u :: u in Updates(t.buffer) && u.id == m ==> CarriesNoLoad(u))
  }

  ghost predicate SilentAbout(c: Cluster, m: Id) {
    && (forall n :: n in c.nodes ==> Silent(c.nodes[n], m))
    && (forall g, u :: g in c.network && u in g.updates && u.id == m ==> CarriesNoLoad(u))
  }

  lemma OpKeepsSilent(t: Table, op: Op, m: Id)
    requires Silent(t, m) && (op.Apply? && op.update.id == m ==> CarriesNoLoad(op.update))
    ensures Silent(MembershipTable.Step(t, op), m)
  {
    match op
    case Piggyback(n) => UpdatesAfterTake(t.buffer, n);
    case _ =>
      var t' := MembershipTable.Step(t, op);
      if t'.buffer != t.buffer {
        var x := Queued(t, op).value;
        UpdatesAfterPush(t.buffer, Announce(x, t'.members[x]));
      }
  }

  lemma StepKeepsSilent(c: Cluster, s: Step, m: Id)
    requires SilentAbout(c, m) && Enabled(c, s)
    ensures Silent(Next(c, s).nodes[s.node], m)
  {
    var t := c.nodes[s.node];
    StepEffect(c, s);
    if s.Receive? {
      var u := s.message.updates[s.index];
      if Refutes(t, u) { OpKeepsSilent(t, Increment, m); }
      OpKeepsSilent(if Refutes(t, u) then AfterIncrement(t) else t, Apply(u, s.now), m);
    } else if !s.Leave? {
      OpKeepsSilent(t, OpsOf(t, s)[0], m);
    }
  }

  lemma SentIsSilent(c: Cluster, s: Step, m: Id, g: Message, u: Update)
    requires SilentAbout(c, m) && Enabled(c, s) && c.nodes[s.node].self == s.node
    requires s.Send? && s.node == m ==> s.load == Load(0, 0, "")
    requires g in Sent(c.nodes[s.node], s) && u in g.updates && u.id == m
    ensures CarriesNoLoad(u)
  {
    if s.Send? {
      UpdatesAfterTake(c.nodes[s.node].buffer, s.max);
    }
  }

  /** If `m` reports no load of its own, nobody ever holds or sends an update about it that does. */
  lemma {:induction false} SilentNodesStaySilent(c: Cluster, steps: seq<Step>, m: Id)
    requires Initial(c)
    requires forall s :: s in steps && s.Send? && s.node == m ==> s.load == Load(0, 0, "")
    ensures SilentAbout(Exec(c, steps), m)
  {
    InitialOwnership(c);
    if steps == [] {
      forall n | n in c.nodes ensures Silent(c.nodes[n], m) {
        var a :| c.nodes[n] == Newborn(n, a);
        OpKeepsSilent(Table(n, 0, map[], []), Add(n, a), m);
      }
    } else {
      var n := |steps| - 1;
      var before, s := Exec(c, steps[..n]), steps[n];
      assert s in steps;
      SilentNodesStaySilent(c, steps[..n], m);
      OwnershipForever(c, steps[..n]);
      if Enabled(before, s) {
        StepKeepsSilent(before, s, m);
        forall g, u | g in Next(before, s).network && u in g.updates && u.id == m ensures CarriesNoLoad(u) {
          if g !in before.network { SentIsSilent(before, s, m, g, u); }
        }
      }
    }
  }

  // ---- Whole messages ----

  function ReceiveAll(n: Id, g: Message, k: nat, now: int): seq<Step> {
    seq(k, i requires 0 <= i < k => Receive(n, g, i, now))
  }

  function GreetingSteps(n: Id, g: Message, from: string): seq<Step> {
    if g.kind == Ping && g.sender != "" then [Greet(n, g, from)] else []
  }

  function ReplySteps(t: Table, n: Id, g: Message, address: string, load: Load, max: nat): seq<Step> {
    match Reply(t, g, address, load, max)
    case Some(r) => [Step.Send(n, r.kind, r.target, address, load, max)]
    case None => []
  }

  /** The steps that handling a whole message at `n` amounts to. */
  function HandlingSteps(t: Table, n: Id, g: Message, from: string, address: string, load: Load, max: nat, now: int)
    : seq<Step>
  {
    ReceiveAll(n, g, |g.updates|, now) + GreetingSteps(n, g, from) +
    ReplySteps(Greeted(Processed(t, g.updates, now), g, from), n, g, address, load, max)
  }

  lemma OneMoreReceived(c: Cluster, n: Id, g: Message, k: nat, now: int, t: Table)
    requires n in c.nodes && n !in c.gone && g in c.network && k < |g.updates|
    requires t == c.nodes[n]
    ensures Next(c, Receive(n, g, k, now)) == c.(nodes := c.nodes[n := Received(t, g.updates[k], now)])
  {
    StepEffect(c, Receive(n, g, k, now));
  }

  lemma {:induction false} ReceiveAllProcesses(c: Cluster, n: Id, g: Message, k: nat, now: int)
    requires n in c.nodes && n !in c.gone && g in c.network && k <= |g.updates|
    ensures Exec(c, ReceiveAll(n, g, k, now)) == c.(nodes := c.nodes[n := Processed(c.nodes[n], g.updates[..k], now)])
  {
    if k == 0 {
    } else {
      ReceiveAllProcesses(c, n, g, k - 1, now);
      assert ReceiveAll(n, g, k, now)[..k - 1] == ReceiveAll(n, g, k - 1, now);
      assert g.updates[..k][..k - 1] == g.updates[..k - 1];
      var before := Processed(c.nodes[n], g.updates[..k - 1], now);
      OneMoreReceived(c.(nodes := c.nodes[n := before]), n, g, k - 1, now, before);
    }
  }

  lemma OneStep(c: Cluster, s: Step)
    ensures Exec(c, [s]) == Next(c, s)
  {
    assert [s][..0] == [];
  }

  lemma GreetingStep(c: Cluster, n: Id, g: Message, from: string)
    requires n in c.nodes && n !in c.gone && g in c.network
    ensures Exec(c, GreetingSteps(n, g, from)) == c.(nodes := c.nodes[n := Greeted(c.nodes[n], g, from)])
  {
    if GreetingSteps(n, g, from) != [] {
      OneStep(c, Greet(n, g, from));
      OneOp(c.nodes[n], Add(g.sender, from));
    }
  }

  lemma ReplyStep(c: Cluster, n: Id, g: Message, address: string, load: Load, max: nat)
    requires n in c.nodes && n !in c.gone && g in c.network
    ensures var t := c.nodes[n]; var r := Reply(t, g, address, load, max);
      Exec(c, ReplySteps(t, n, g, address, load, max)) ==
      if r.Some? then c.(nodes := c.nodes[n := AfterPiggyback(t, max)], network := c.network + {r.value}) else c
  {
    var r := Reply(c.nodes[n], g, address, load, max);
    if r.Some? {
      OneStep(c, Step.Send(n, r.value.kind, r.value.target, address, load, max));
      OneOp(c.nodes[n], Piggyback(max));
    }
  }

  lemma LearningIsARun(c: Cluster, n: Id, g: Message, from: string, now: int)
    requires n in c.nodes && n !in c.gone && g in c.network
    ensures Exec(c, ReceiveAll(n, g, |g.updates|, now) + GreetingSteps(n, g, from)) ==
      c.(nodes := c.nodes[n := Greeted(Processed(c.nodes[n], g.updates, now), g, from)])
  {
    var a := ReceiveAll(n, g, |g.updates|, now);
    ReceiveAllProcesses(c, n, g, |g.updates|, now);
    assert g.updates[..|g.updates|] == g.updates;
    ExecConcat(c, a, GreetingSteps(n, g, from));
    GreetingStep(Exec(c, a), n, g, from);
  }

  /** Handling a whole message is a run of the steps above, so every theorem of this module holds of it. */
  lemma HandlingIsARun(c: Cluster, n: Id, g: Message, from: string, address: string, load: Load, max: nat, now: int)
    requires n in c.nodes && n !in c.gone && g in c.network
    ensures var t := c.nodes[n];
      var r := Reply(Greeted(Processed(t, g.updates, now), g, from), g, address, load, max);
      Exec(c, HandlingSteps(t, n, g, from, address, load, max, now)) ==
      c.(nodes := c.nodes[n := Handled(t, g, from, address, load, max, now)],
         network := c.network + if r.Some? then {r.value} else {})
  {
    var learning := ReceiveAll(n, g, |g.updates|, now) + GreetingSteps(n, g, from);
    LearningIsARun(c, n, g, from, now);
    var c1 := Exec(c, learning);
    ExecConcat(c, learning, ReplySteps(c1.nodes[n], n, g, address, load, max));
    ReplyStep(c1, n, g, address, load, max);
  }

  /** So whoever handles a whole message holds at least each of its claims afterwards. */
  lemma HandlingTeaches(c: Cluster, n: Id, g: Message, from: string, address: string, load: Load, max: nat, now: int,
                        p: nat)
    requires Ownership(c) && n in c.nodes && n !in c.gone && g in c.network && p < |g.updates|
    ensures var end := Exec(c, HandlingSteps(c.nodes[n], n, g, from, address, load, max, now));
      n in end.nodes && Below(Some(Claim(g.updates[p])), end.nodes[n].Look(g.updates[p].id))
  {
    var steps := HandlingSteps(c.nodes[n], n, g, from, address, load, max, now);
    assert steps[..p] == ReceiveAll(n, g, p, now);
    ReceiveAllProcesses(c, n, g, p, now);
    assert steps[p] == Receive(n, g, p, now);
    assert steps[..|steps|] == steps;
    UpdateRaisesForGood(c, steps, p, |steps|, n, g, p);
  }

  /** Every message in the network carries an update about its own sender. */
  lemma {:induction false} MessagesIntroduceTheirSender(c: Cluster, steps: seq<Step>, g: Message)
    requires Initial(c) && g in Exec(c, steps).network
    ensures g.sender in c.nodes && g.updates != [] && g.updates[|g.updates| - 1].id == g.sender
  {
    var n := |steps| - 1;
    var before := Exec(c, steps[..n]);
    if g in before.network {
      MessagesIntroduceTheirSender(c, steps[..n], g);
    } else {
      InitialOwnership(c);
      OwnershipForever(c, steps[..n]);
      ExecKeepsNodes(c, steps[..n]);
    }
  }
}
