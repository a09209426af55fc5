/** What a node's membership table holds and what each operation makes of it.
    The class MembershipList is proved against these functions. */
module MembershipTable {
  import opened Options
  import opened Views
  import opened PiggybackBuffer

  datatype MemberInfo = MemberInfo(
    address: string,
    state: State,
    incarnation: nat,
    modelVersion: string,
    activeRequests: int,
    maxCapacity: int,
    suspectTime: int)

  datatype Update = Update(
    id: Id,
    address: string,
    state: State,
    incarnation: nat,
    modelVersion: string,
    activeRequests: int,
    maxCapacity: int)

  const UNSET := MemberInfo("", Alive, 0, "", 0, 0, 0)

  function ViewOf(i: MemberInfo): View { View(i.incarnation, i.state) }

  function Claim(u: Update): View { View(u.incarnation, u.state) }

  function Announce(id: Id, i: MemberInfo): Update {
    Update(id, i.address, i.state, i.incarnation, i.modelVersion, i.activeRequests, i.maxCapacity)
  }

  /** A call of the membership callback, if any. */
  datatype Event = Quiet | Fired(id: Id, before: State, after: State)

  datatype Table = Table(
    self: Id,
    incarnation: nat,
    members: map<Id, MemberInfo>,
    buffer: seq<Entry<Update>>)
  {
    function Look(m: Id): Option<View> {
      if m in members then Some(ViewOf(members[m])) else None
    }

    /** Store `i` for `id` and queue it for dissemination. */
    function Store(id: Id, i: MemberInfo): Table {
      this.(members := members[id := i], buffer := Push(buffer, Announce(id, i)))
    }
  }

  // ---- Conflict resolution ----

  predicate HasLoad(u: Update) { u.activeRequests != 0 || u.maxCapacity != 0 }

  predicate CarriesNoLoad(u: Update) { !HasLoad(u) && u.modelVersion == "" }

  function Refreshed(i: MemberInfo, u: Update): MemberInfo {
    i.(activeRequests := if HasLoad(u) then u.activeRequests else i.activeRequests,
       maxCapacity := if HasLoad(u) then u.maxCapacity else i.maxCapacity,
       modelVersion := if u.modelVersion != "" then u.modelVersion else i.modelVersion)
  }

  predicate LoadChanged(i: MemberInfo, u: Update) {
    Refreshed(i, u) != i
  }

  predicate Stale(t: Table, u: Update) {
    u.id in t.members && u.incarnation < t.members[u.id].incarnation
  }

  predicate NotStronger(t: Table, u: Update) {
    && u.id in t.members
    && u.incarnation == t.members[u.id].incarnation
    && Rank(u.state) <= Rank(t.members[u.id].state)
  }

  predicate Accepts(t: Table, u: Update) { !Stale(t, u) && !NotStronger(t, u) }

  function Installed(t: Table, u: Update, now: int): MemberInfo {
    var known := if u.id in t.members then t.members[u.id] else UNSET;
    Refreshed(known, u).(
      address := u.address,
      state := u.state,
      incarnation := u.incarnation,
      suspectTime := if u.state == Suspect then now else known.suspectTime)
  }

  function AfterUpdate(t: Table, u: Update, now: int): Table {
    if Stale(t, u) then t
    else if NotStronger(t, u) then t.(members := t.members[u.id := Refreshed(t.members[u.id], u)])
    else t.Store(u.id, Installed(t, u, now))
  }

  function UpdateEvent(t: Table, u: Update): Event {
    if Stale(t, u) then Quiet
    else if NotStronger(t, u) then
      var i := t.members[u.id];
      if LoadChanged(i, u) then Fired(u.id, i.state, i.state) else Quiet
    else
      var before := if u.id in t.members then t.members[u.id].state else Dead;
      if u.state != before then Fired(u.id, before, u.state) else Quiet
  }

  // ---- Local decisions ----

  predicate CanSuspect(t: Table, m: Id) { m in t.members && t.members[m].state == Alive }

  predicate CanKill(t: Table, m: Id) { m in t.members && t.members[m].state != Dead }

  function AfterSuspect(t: Table, m: Id, now: int): Table {
    if CanSuspect(t, m) then t.Store(m, t.members[m].(state := Suspect, suspectTime := now)) else t
  }

  function AfterDead(t: Table, m: Id): Table {
    if CanKill(t, m) then t.Store(m, t.members[m].(state := Dead)) else t
  }

  function AfterAdd(t: Table, m: Id, address: string): Table {
    if m in t.members then t else t.Store(m, UNSET.(address := address))
  }

  /** The table of a node that has just been constructed: it knows itself. */
  function Newborn(m: Id, address: string): Table { AfterAdd(Table(m, 0, map[], []), m, address) }

  /** The self entry is overwritten whatever it says. */
  function AfterIncrement(t: Table): Table {
    var mine := if t.self in t.members then t.members[t.self] else UNSET;
    t.(incarnation := t.incarnation + 1)
     .Store(t.self, mine.(state := Alive, incarnation := t.incarnation + 1))
  }

  function AfterPiggyback(t: Table, max: nat): Table { t.(buffer := AfterTake(t.buffer, max)) }

  // ---- Any operation ----

  datatype Op =
    | Apply(update: Update, now: int)
    | MarkSuspect(member: Id, now: int)
    | MarkDead(member: Id)
    | Add(member: Id, address: string)
    | Increment
    | Piggyback(max: nat)

  function Step(t: Table, op: Op): Table {
    match op
    case Apply(u, now) => AfterUpdate(t, u, now)
    case MarkSuspect(m, now) => AfterSuspect(t, m, now)
    case MarkDead(m) => AfterDead(t, m)
    case Add(m, a) => AfterAdd(t, m, a)
    case Increment => AfterIncrement(t)
    case Piggyback(n) => AfterPiggyback(t, n)
  }

  function Run(t: Table, ops: seq<Op>): Table
    decreases |ops|
  {
    if ops == [] then t else Run(Step(t, ops[0]), ops[1..])
  }

  lemma OneOp(t: Table, op: Op)
    ensures Run(t, [op]) == Step(t, op)
  {
    assert [op][1..] == [];
  }

  lemma {:induction false} RunConcat(t: Table, a: seq<Op>, b: seq<Op>)
    ensures Run(t, a + b) == Run(Run(t, a), b)
    decreases |a|
  {
    if a == [] {
      assert a + b == b;
    } else {
      assert (a + b)[1..] == a[1..] + b;
      RunConcat(Step(t, a[0]), a[1..], b);
    }
  }

  /** What an operation claims about `m`, given the table it meets. */
  function Contribution(t: Table, op: Op, m: Id): Option<View> {
    match op
    case Apply(u, _) => if u.id == m then Some(Claim(u)) else None
    case MarkSuspect(x, _) =>
      if x == m && CanSuspect(t, m) then Some(View(t.members[m].incarnation, Suspect)) else None
    case MarkDead(x) =>
      if x == m && CanKill(t, m) then Some(View(t.members[m].incarnation, Dead)) else None
    case Add(x, _) => if x == m then Some(View(0, Alive)) else None
    case Increment => if m == t.self then Some(View(t.incarnation + 1, Alive)) else None
    case Piggyback(_) => None
  }

  /** Every operation on an entry is a join with what it claims; only the blind overwrite of the
      self entry needs to know that the entry does not outrun the node's own incarnation. */
  lemma StepIsJoin(t: Table, op: Op, m: Id)
    requires op == Increment && m == t.self && m in t.members ==> t.members[m].incarnation <= t.incarnation
    ensures Step(t, op).Look(m) == Join(t.Look(m), Contribution(t, op, m))
    ensures Step(t, op).self == t.self
  {}

  /** A mark of suspicion falls on an alive member only, one of death on any that is known; each is announced, and
      leaves the incarnation, the load and everybody else as they were. */
  lemma MarksAreExact(t: Table, m: Id, now: int)
    ensures m in t.members ==>
      var i := t.members[m];
      var suspected, buried := AfterSuspect(t, m, now), AfterDead(t, m);
      && suspected.members == (if i.state == Alive then t.members[m := i.(state := Suspect, suspectTime := now)]
                               else t.members)
      && buried.members == t.members[m := i.(state := Dead)]
      && (i.state == Alive ==>
            suspected.buffer == Push(t.buffer, Announce(m, i.(state := Suspect, suspectTime := now))))
      && (i.state != Dead ==> buried.buffer == Push(t.buffer, Announce(m, i.(state := Dead))))
    ensures m !in t.members ==> AfterSuspect(t, m, now) == t && AfterDead(t, m) == t
  {}

  /** What an update that is not stale does to a member's load and address: a load that is reported replaces the
      known one, as does a model version, and an accepted update brings its address. */
  lemma LoadFollowsUpdates(t: Table, u: Update, now: int)
    requires u.id in t.members
    ensures var before, after := t.members[u.id], AfterUpdate(t, u, now).members;
      && u.id in after
      && (u.incarnation < before.incarnation ==> after[u.id] == before)
      && (u.incarnation >= before.incarnation ==>
            && (u.activeRequests != 0 || u.maxCapacity != 0 ==>
                  after[u.id].activeRequests == u.activeRequests && after[u.id].maxCapacity == u.maxCapacity)
            && (u.activeRequests == 0 && u.maxCapacity == 0 ==>
                  after[u.id].activeRequests == before.activeRequests && after[u.id].maxCapacity == before.maxCapacity)
            && after[u.id].modelVersion == (if u.modelVersion != "" then u.modelVersion else before.modelVersion))
      && after[u.id].address ==
         (if after[u.id].incarnation != before.incarnation || after[u.id].state != before.state
          then u.address else before.address)
      && (forall x :: x != u.id ==> (x in after <==> x in t.members) && (x in after ==> after[x] == t.members[x]))
  {}

  /** The callback runs exactly when the member's state, or that of an unknown member taken for dead, changes,
      or when a repeated claim changes its load or model version; it reports the state before and after. */
  lemma FiresExactly(t: Table, u: Update, now: int)
    ensures var before := if u.id in t.members then t.members[u.id].state else Dead;
      var after := AfterUpdate(t, u, now).members;
      && u.id in after
      && (UpdateEvent(t, u).Fired? <==>
          after[u.id].state != before ||
          (u.id in t.members && u.incarnation == t.members[u.id].incarnation && after[u.id] != t.members[u.id]))
      && (UpdateEvent(t, u).Fired? ==> UpdateEvent(t, u) == Fired(u.id, before, after[u.id].state))
  {}

  predicate IsMark(op: Op, m: Id) {
    (op.MarkSuspect? || op.MarkDead?) && op.member == m
  }

  /** The claim an operation brings along, whatever table it meets. */
  ghost function Brought(op: Op, m: Id): set<View> {
    if op.Apply? && op.update.id == m then {Claim(op.update)}
    else if op.Add? && op.member == m then {View(0, Alive)}
    else {}
  }

  /** The claims about `m` that a node learns, when it never marks `m` itself. */
  ghost function Learned(ops: seq<Op>, m: Id): set<View> {
    set op, v | op in ops && v in Brought(op, m) :: v
  }

  lemma LearnedStep(ops: seq<Op>, m: Id)
    requires ops != []
    ensures Learned(ops, m) == Brought(ops[0], m) + Learned(ops[1..], m)
  {
    assert ops == [ops[0]] + ops[1..];
    forall v | v in Learned(ops, m) ensures v in Brought(ops[0], m) + Learned(ops[1..], m) {
      var op :| op in ops && v in Brought(op, m);
    }
    forall v | v in Brought(ops[0], m) + Learned(ops[1..], m) ensures v in Learned(ops, m) {
      if v in Brought(ops[0], m) {
        assert ops[0] in ops;
      } else {
        var op :| op in ops[1..] && v in Brought(op, m);
        assert op in ops;
      }
    }
  }

  lemma BroughtIsContribution(t: Table, op: Op, m: Id)
    requires m != t.self && !IsMark(op, m)
    ensures Brought(op, m) == match Contribution(t, op, m) case Some(v) => {v} case None => {}
  {}

  /** Joining one claim and then reaching the least upper bound of the rest reaches that of all. */
  lemma SupAfterJoin(bottom: Option<View>, first: Option<View>, claims: set<View>, rest: set<View>, top: Option<View>)
    requires claims == (match first case Some(v) => {v} case None => {}) + rest
    requires IsSup(Join(bottom, first), rest, top)
    ensures IsSup(bottom, claims, top)
  {}

  lemma {:induction false} RunIsSup(t: Table, ops: seq<Op>, m: Id)
    requires m != t.self
    requires forall op :: op in ops ==> !IsMark(op, m)
    ensures IsSup(t.Look(m), Learned(ops, m), Run(t, ops).Look(m))
    decreases |ops|
  {
    if ops == [] {
      assert Learned(ops, m) == {};
    } else {
      var op, rest := ops[0], ops[1..];
      StepIsJoin(t, op, m);
      RunIsSup(Step(t, op), rest, m);
      LearnedStep(ops, m);
      BroughtIsContribution(t, op, m);
      SupAfterJoin(t.Look(m), Contribution(t, op, m), Learned(ops, m), Learned(rest, m), Run(t, ops).Look(m));
    }
  }

  /** Two nodes that start from the same view of `m` and learn the same claims about it, in any
      order and with any repeats, among any other operations, end with the same view. */
  lemma {:induction false} Convergence(a: Table, b: Table, opsA: seq<Op>, opsB: seq<Op>, m: Id)
    requires m != a.self && m != b.self
    requires a.Look(m) == b.Look(m)
    requires forall op :: op in opsA || op in opsB ==> !IsMark(op, m)
    requires Learned(opsA, m) == Learned(opsB, m)
    ensures Run(a, opsA).Look(m) == Run(b, opsB).Look(m)
  {
    RunIsSup(a, opsA, m);
    RunIsSup(b, opsB, m);
    SupIsUnique(a.Look(m), Learned(opsA, m), Run(a, opsA).Look(m), Run(b, opsB).Look(m));
  }

  // ---- Dissemination cost ----

  /** The member whose news an operation queues, if it queues any. */
  function Queued(t: Table, op: Op): Option<Id> {
    match op
    case Apply(u, _) => if Accepts(t, u) then Some(u.id) else None
    case MarkSuspect(m, _) => if CanSuspect(t, m) then Some(m) else None
    case MarkDead(m) => if CanKill(t, m) then Some(m) else None
    case Add(m, _) => if m in t.members then None else Some(m)
    case Increment => Some(t.self)
    case Piggyback(_) => None
  }

  /** A queued entry announces the member's new view, which lies strictly above the old one. */
  lemma QueueIsClimb(t: Table, op: Op)
    requires op == Increment && t.self in t.members ==> t.members[t.self].incarnation <= t.incarnation
    ensures match Queued(t, op)
      case Some(m) =>
        && m in Step(t, op).members
        && Step(t, op).buffer == Push(t.buffer, Announce(m, Step(t, op).members[m]))
        && Height(t.Look(m)) < Height(Step(t, op).Look(m))
      case None =>
        && (!op.Piggyback? ==> Step(t, op).buffer == t.buffer)
        && forall m :: Step(t, op).Look(m) == t.Look(m)
  {}

  function Enqueues(t: Table, ops: seq<Op>, m: Id): nat
    decreases |ops|
  {
    if ops == [] then 0
    else (if Queued(t, ops[0]) == Some(m) then 1 else 0) + Enqueues(Step(t, ops[0]), ops[1..], m)
  }

  lemma {:induction false} EnqueuesConcat(t: Table, a: seq<Op>, b: seq<Op>, m: Id)
    ensures Enqueues(t, a + b, m) == Enqueues(t, a, m) + Enqueues(Run(t, a), b, m)
    decreases |a|
  {
    if a == [] {
      assert a + b == b;
    } else {
      assert (a + b)[1..] == a[1..] + b;
      EnqueuesConcat(Step(t, a[0]), a[1..], b, m);
    }
  }

  /** Each enqueue about `m` pays with at least one step up in the view of `m`. */
  lemma {:induction false} EnqueuesBoundedByClimb(t: Table, ops: seq<Op>, m: Id)
    requires m != t.self
    ensures Enqueues(t, ops, m) <= Height(Run(t, ops).Look(m)) - Height(t.Look(m))
    decreases |ops|
  {
    if ops == [] {
    } else {
      var op := ops[0];
      StepIsJoin(t, op, m);
      if op != Increment { QueueIsClimb(t, op); }
      EnqueuesBoundedByClimb(Step(t, op), ops[1..], m);
    }
  }

  lemma OneOpClimbs(t: Table, op: Op, m: Id)
    requires op == Increment && t.self in t.members ==> t.members[t.self].incarnation <= t.incarnation
    ensures Height(t.Look(m)) + Enqueues(t, [op], m) <= Height(Run(t, [op]).Look(m))
  {
    QueueIsClimb(t, op);
    StepIsJoin(t, op, m);
    OneOp(t, op);
    assert [op][1..] == [];
  }

  lemma TwoOpsClimb(t: Table, a: Op, b: Op, m: Id)
    requires a == Increment && t.self in t.members ==> t.members[t.self].incarnation <= t.incarnation
    requires b != Increment
    ensures Height(t.Look(m)) + Enqueues(t, [a, b], m) <= Height(Run(t, [a, b]).Look(m))
  {
    OneOpClimbs(t, a, m);
    OneOpClimbs(Step(t, a), b, m);
    RunConcat(t, [a], [b]);
    EnqueuesConcat(t, [a], [b], m);
    OneOp(t, a);
    assert [a] + [b] == [a, b];
  }

  lemma EnqueueBudget(t: Table, ops: seq<Op>, m: Id, k: nat)
    requires m != t.self
    requires Run(t, ops).Look(m).Some? ==> Run(t, ops).Look(m).value.incarnation <= k
    ensures Enqueues(t, ops, m) <= 3 * (k + 1)
  {
    EnqueuesBoundedByClimb(t, ops, m);
  }

  // ---- Where claims come from ----

  /** The table or its buffer asserts `v` about `m`. */
  ghost predicate Asserts(t: Table, m: Id, v: View) {
    t.Look(m) == Some(v) || exists u :: u in Updates(t.buffer) && u.id == m && Claim(u) == v
  }

  /** No operation makes a table assert anything but what it contributes. */
  lemma NewClaimsAreContributions(t: Table, op: Op, m: Id, v: View)
    requires Asserts(Step(t, op), m, v)
    requires !Asserts(t, m, v)
    ensures Contribution(t, op, m) == Some(v)
  {
    var t' := Step(t, op);
    match op
    case Piggyback(n) => UpdatesAfterTake(t.buffer, n);
    case _ =>
      if t'.buffer != t.buffer {
        var x := Queued(t, op).value;
        UpdatesAfterPush(t.buffer, Announce(x, t'.members[x]));
      }
  }
}
