/** One node's side of the protocol: what a message carries and what receiving it does. */
module SwimNode {
  import opened Clock
  import opened Options
  import opened Sequences
  import opened Views
  import opened PiggybackBuffer
  import opened MembershipTable

  datatype Kind = Ping | PingReq | Ack

  datatype Message = Message(kind: Kind, sender: Id, target: Id, updates: seq<Update>)

  datatype Load = Load(activeRequests: int, maxCapacity: int, modelVersion: string)

  /** A rumour about the node itself that its current incarnation does not already beat. */
  predicate Refutes(t: Table, u: Update) {
    u.id == t.self && u.state != Alive && u.incarnation >= t.incarnation
  }

  function ReceiveOps(t: Table, u: Update, now: int): seq<Op> {
    (if Refutes(t, u) then [Increment] else []) + [Apply(u, now)]
  }

  function Received(t: Table, u: Update, now: int): (r: Table)
    ensures r == Run(t, ReceiveOps(t, u, now))
  {
    var ready := if Refutes(t, u) then AfterIncrement(t) else t;
    assert Run(ready, [Apply(u, now)]) == AfterUpdate(ready, u, now);
    assert Refutes(t, u) ==> ReceiveOps(t, u, now)[1..] == [Apply(u, now)];
    AfterUpdate(ready, u, now)
  }

  function Processed(t: Table, updates: seq<Update>, now: int): Table {
    if updates == [] then t
    else
      var n := |updates| - 1;
      Received(Processed(t, updates[..n], now), updates[n], now)
  }

  function SelfUpdate(t: Table, address: string, load: Load): Update {
    Update(t.self, address, Alive, t.incarnation, load.modelVersion, load.activeRequests, load.maxCapacity)
  }

  /** An outgoing message carries the oldest queued updates and a fresh update about the sender. */
  function Composed(t: Table, kind: Kind, target: Id, address: string, load: Load, max: nat): Message {
    Message(kind, t.self, target, Taken(t.buffer, max) + [SelfUpdate(t, address, load)])
  }

  /** A leaving node claims to be dead, at an incarnation that it never reaches itself. */
  function Farewell(t: Table, address: string): Message {
    Message(Ping, t.self, "", [Update(t.self, address, Dead, t.incarnation + 1, "", 0, 0)])
  }

  /** All but the last of the updates are the `max` oldest of the buffer, in order, or all of them. */
  ghost predicate CarriesNews(updates: seq<Update>, buffer: seq<Entry<Update>>, max: nat) {
    && |updates| == (if max < |buffer| then max else |buffer|) + 1
    && forall p | 0 <= p < |updates| - 1 :: updates[p] == buffer[p].update
  }

  /** A ping is acknowledged and a request to probe a known member is passed on to it as a ping; nothing else
      is answered at once. Each answer carries news like any other message. */
  lemma AnswersCarryNews(t: Table, message: Message, address: string, load: Load, max: nat)
    ensures match Reply(t, message, address, load, max)
      case None => message.kind == Ack || (message.kind == PingReq && message.target !in t.members)
      case Some(r) =>
        && ((message.kind == Ping && r.kind == Ack) ||
            (message.kind == PingReq && message.target in t.members && r.kind == Ping))
        && r.sender == t.self && CarriesNews(r.updates, t.buffer, max)
        && r.updates[|r.updates| - 1] ==
           Update(t.self, address, Alive, t.incarnation, load.modelVersion, load.activeRequests, load.maxCapacity)
  {}

  function Greeted(t: Table, message: Message, from: string): Table {
    if message.kind == Ping && message.sender != "" then AfterAdd(t, message.sender, from) else t
  }

  /** The message a received one is answered with at once, if any. */
  function Reply(t: Table, message: Message, address: string, load: Load, max: nat): Option<Message> {
    match message.kind
    case Ping => Some(Composed(t, Ack, "", address, load, max))
    case PingReq =>
      if message.target in t.members then Some(Composed(t, Ping, "", address, load, max)) else None
    case Ack => None
  }

  /** The table after a whole message: its updates, then its handler. */
  function Handled(t: Table, message: Message, from: string, address: string, load: Load, max: nat, now: int): Table {
    var learned := Greeted(Processed(t, message.updates, now), message, from);
    if Reply(learned, message, address, load, max).Some? then AfterPiggyback(learned, max) else learned
  }

  function SeedId(address: string): Id { "seed-" + address }

  function AfterJoin(t: Table, own: string, seeds: seq<string>): Table {
    if seeds == [] then t
    else
      var n := |seeds| - 1;
      var before := AfterJoin(t, own, seeds[..n]);
      if seeds[n] == own then before else AfterAdd(before, SeedId(seeds[n]), seeds[n])
  }

  /** Joining makes exactly the foreign seeds known, and touches no view already held. */
  lemma {:induction false} JoinLearnsSeeds(t: Table, own: string, seeds: seq<string>, m: Id)
    ensures AfterJoin(t, own, seeds).Look(m) ==
      if m !in t.members && exists a :: a in seeds && a != own && m == SeedId(a)
      then Some(View(0, Alive)) else t.Look(m)
  {
    if seeds == [] {
    } else {
      var n := |seeds| - 1;
      JoinLearnsSeeds(t, own, seeds[..n], m);
      assert seeds == seeds[..n] + [seeds[n]];
      var before := AfterJoin(t, own, seeds[..n]);
      if m == SeedId(seeds[n]) && seeds[n] != own {
        assert seeds[n] in seeds;
      } else if exists a :: a in seeds && a != own && m == SeedId(a) {
        var a :| a in seeds && a != own && m == SeedId(a);
        assert a in seeds[..n];
      }
    }
  }

  /** Once a message that introduces its sender is processed, the handler's AddMember changes nothing. */
  lemma SenderIsKnown(t: Table, message: Message, from: string, now: int, i: nat)
    requires i < |message.updates| && message.updates[i].id == message.sender
    ensures var done := Processed(t, message.updates, now); Greeted(done, message, from) == done
  {
    ProcessedKnows(t, message.updates, now, i);
  }

  lemma {:induction false} ProcessedKnows(t: Table, updates: seq<Update>, now: int, i: nat)
    requires i < |updates|
    ensures updates[i].id in Processed(t, updates, now).members
  {
    var n := |updates| - 1;
    if i == n {
    } else {
      ProcessedKnows(t, updates[..n], now, i);
    }
  }

  // ---- Suspicion timeouts ----

  predicate Expired(t: Table, m: Id, now: int, timeoutMs: int) {
    && m in t.members && m != t.self && t.members[m].state == Suspect
    && ElapsedMs(t.members[m].suspectTime, now) >= timeoutMs
  }

  /** Bury the members one after the other. */
  function Buried(t: Table, order: seq<Id>): Table {
    if order == [] then t else var n := |order| - 1; AfterDead(Buried(t, order[..n]), order[n])
  }

  /** `after` is what burying exactly the expired suspects makes of `before`, each once, in some order. */
  ghost predicate TimedOut(before: Table, after: Table, now: int, timeoutMs: int) {
    exists order ::
      && Distinct(order) && (forall m :: m in order <==> Expired(before, m, now, timeoutMs))
      && after == Buried(before, order)
  }

  lemma {:induction false} BuriedViews(t: Table, order: seq<Id>, m: Id)
    ensures Buried(t, order).self == t.self && Buried(t, order).incarnation == t.incarnation
    ensures Buried(t, order).Look(m) ==
      if m in order && m in t.members then Some(View(t.members[m].incarnation, Dead)) else t.Look(m)
    ensures m in t.members ==>
      m in Buried(t, order).members &&
      Buried(t, order).members[m] == if m in order then t.members[m].(state := Dead) else t.members[m]
  {
    if order == [] {
    } else {
      var n := |order| - 1;
      BuriedViews(t, order[..n], m);
      BuriedViews(t, order[..n], order[n]);
      assert order == order[..n] + [order[n]];
    }
  }

  /** Exactly the expired suspects are dead afterwards, at the incarnation they were suspected at; nothing
      else is known of them or of anybody that was not known before. */
  lemma TimeoutsAreExact(before: Table, after: Table, m: Id, now: int, timeoutMs: int)
    requires TimedOut(before, after, now, timeoutMs)
    ensures after.self == before.self && after.incarnation == before.incarnation
    ensures after.Look(m) ==
      if Expired(before, m, now, timeoutMs) then Some(View(before.members[m].incarnation, Dead)) else before.Look(m)
    ensures m in before.members ==>
      m in after.members &&
      after.members[m] ==
      if Expired(before, m, now, timeoutMs) then before.members[m].(state := Dead) else before.members[m]
  {
    var order :| Distinct(order) && (forall x :: x in order <==> Expired(before, x, now, timeoutMs)) &&
                 after == Buried(before, order);
    BuriedViews(before, order, m);
  }

  /** The operation makes `m` a suspect at time `s`: the node's own mark, or an update that it accepts. */
  predicate Suspects(t: Table, op: Op, m: Id, s: int) {
    || (op == MarkSuspect(m, s) && CanSuspect(t, m))
    || (op.Apply? && op.update.id == m && op.update.state == Suspect && op.now == s && Accepts(t, op.update))
  }

  /** A suspect has its time: a scan that finds the entry as it was left when suspicion fell on it at `s` makes
      it dead exactly when the timeout has passed since, and leaves it alone before. */
  lemma SuspectHasItsTime(t: Table, op: Op, m: Id, s: int, mid: Table, after: Table, now: int, timeoutMs: int)
    requires Suspects(t, op, m, s) && m != t.self && s <= now
    requires m in Step(t, op).members && m in mid.members && mid.members[m] == Step(t, op).members[m]
    requires mid.self == t.self && TimedOut(mid, after, now, timeoutMs)
    ensures m in after.members && mid.members[m].state == Suspect
    ensures after.members[m].state == Dead <==> now - s >= timeoutMs * 1_000_000
    ensures now - s < timeoutMs * 1_000_000 ==> after.members[m] == mid.members[m]
    ensures after.members[m].incarnation == mid.members[m].incarnation
  {
    TimeoutsAreExact(mid, after, m, now, timeoutMs);
    assert mid.members[m].suspectTime == s;
  }

  /** Burying one more queues the news of its death. */
  lemma BurialIsNews(t: Table, order: seq<Id>, id: Id)
    requires id !in order && CanKill(t, id)
    ensures var before, after := Buried(t, order), Buried(t, order + [id]);
      && after == AfterDead(before, id)
      && id in after.members && after.buffer == Push(before.buffer, Announce(id, after.members[id]))
      && after.members[id].state == Dead
  {
    assert (order + [id])[..|order|] == order;
    BuriedViews(t, order, id);
  }

  // ---- A node that restarts and meets rumours about its earlier life ----

  /** The self entry says exactly what the node says. */
  predicate SelfExact(t: Table) {
    t.Look(t.self) == Some(View(t.incarnation, Alive))
  }

  /** A node's own operations other than an increment leave an exact self entry alone. */
  lemma OwnStepKeepsExact(t: Table, op: Op)
    requires SelfExact(t) && !op.Apply? && op != Increment && !IsMark(op, t.self)
    ensures SelfExact(Step(t, op)) && Step(t, op).self == t.self && Step(t, op).incarnation == t.incarnation
  {}

  /** So does receiving an update that does not outrun the node; a rumour is left behind. */
  lemma ReceiptKeepsExact(t: Table, u: Update, now: int)
    requires SelfExact(t) && (u.id == t.self ==> u.incarnation <= t.incarnation)
    ensures var r := Received(t, u, now);
      && SelfExact(r) && r.self == t.self && t.incarnation <= r.incarnation
      && (u.id == t.self && u.state != Alive ==> r.incarnation > u.incarnation)
  {}

  lemma ReceiptClimbs(t: Table, u: Update, now: int)
    ensures Received(t, u, now).incarnation == t.incarnation + if Refutes(t, u) then 1 else 0
  {}

  /** One receipt refutes a rumour exactly when the rumour does not come from a later incarnation. */
  lemma OneReceiptRefutes(t: Table, u: Update, now: int)
    requires SelfExact(t) && u.id == t.self && u.state != Alive
    ensures SelfExact(Received(t, u, now)) <==> u.incarnation <= t.incarnation
  {}

  /** Documented promise, false for a rumour from a later incarnation: the node ends up calling itself dead. */
  lemma OneReceiptMayNotRefute(address: string, now: int)
    ensures var t := Newborn("r", address);
      var u := Update("r", address, Dead, 1, "", 0, 0);
      SelfExact(t) && Received(t, u, now).Look("r") == Some(View(1, Dead))
  {}

  /** A node that leaves and yet keeps running undoes its own leave: when its farewell comes back it raises
      its incarnation to the farewell's and calls itself dead, and the second receipt outruns the farewell. */
  lemma LeaverOutrunsItsFarewell(t: Table, address: string, now: int)
    requires SelfExact(t)
    ensures var u := Farewell(t, address).updates[0];
      var once := Received(t, u, now); var twice := Received(once, u, now);
      && once.incarnation == u.incarnation && once.Look(t.self) == Some(Claim(u))
      && SelfExact(twice) && twice.incarnation == u.incarnation + 1
      && !Le(View(twice.incarnation, Alive), Claim(u))
  {
    var u := Farewell(t, address).updates[0];
    assert Refutes(t, u) && Refutes(Received(t, u, now), u);
  }

  function Copies(u: Update, n: nat): seq<Update> { seq(n, _ => u) }

  /** A node at incarnation a that keeps hearing one rumour at incarnation k >= a outruns it with
      receipt k + 1 - a and not before; until then its own table repeats the rumour. */
  lemma {:induction false} OutrunsExactly(t: Table, u: Update, n: nat, now: int)
    requires u.id == t.self && u.state != Alive && t.incarnation <= u.incarnation
    ensures var r := Processed(t, Copies(u, n), now);
      && r.self == t.self
      && r.incarnation == (if t.incarnation + n <= u.incarnation then t.incarnation + n else u.incarnation + 1)
      && (n > 0 && t.incarnation + n <= u.incarnation ==> r.Look(t.self) == Some(Claim(u)))
      && (t.incarnation + n > u.incarnation ==> SelfExact(r))
  {
    if n == 0 {
    } else {
      assert Copies(u, n)[..n - 1] == Copies(u, n - 1);
      OutrunsExactly(t, u, n - 1, now);
    }
  }

  /** How many of the updates make the node raise its incarnation. */
  function Refutations(t: Table, updates: seq<Update>, now: int): nat {
    if updates == [] then 0
    else
      var n := |updates| - 1;
      Refutations(t, updates[..n], now) +
      if Refutes(Processed(t, updates[..n], now), updates[n]) then 1 else 0
  }

  lemma RefutationStep(t: Table, u: Update, k: nat, now: int)
    requires t.incarnation <= k + 1 && (u.id == t.self ==> u.incarnation <= k)
    ensures var r := Received(t, u, now);
      && r.self == t.self && r.incarnation <= k + 1
      && r.incarnation == t.incarnation + (if Refutes(t, u) then 1 else 0)
      && (r.incarnation == k + 1 && (t.incarnation <= k || SelfExact(t)) ==> SelfExact(r))
  {}

  /** Against any mix of updates whose rumours about the node stay at or below incarnation `k`,
      each refutation uses up one unit of k + 1 - incarnation, which never runs below zero; a node
      that used them all holds the exact self entry. */
  lemma {:induction false} RefutationsAreBounded(t: Table, updates: seq<Update>, k: nat, now: int)
    requires t.incarnation <= k + 1
    requires forall u :: u in updates && u.id == t.self ==> u.incarnation <= k
    ensures var r := Processed(t, updates, now);
      && r.self == t.self
      && (k + 1) - r.incarnation == (k + 1) - t.incarnation - Refutations(t, updates, now)
      && r.incarnation <= k + 1
      && (r.incarnation == k + 1 && (t.incarnation <= k || SelfExact(t)) ==> SelfExact(r))
  {
    if updates == [] {
    } else {
      var n := |updates| - 1;
      RefutationsAreBounded(t, updates[..n], k, now);
      assert updates[n] in updates;
      RefutationStep(Processed(t, updates[..n], now), updates[n], k, now);
    }
  }
}
