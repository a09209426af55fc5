/** The request handlers as an interleaved system. Each handler is at a program point of the plain or
    the hedged path and moves by one call on shared state: the registry's counters, the queue and the breakers.
    The verdicts of the queue and the breakers decide which way a handler goes. */
module Handlers {
  import opened Options
  import opened Views
  import opened MembershipTable
  import opened ReplicaRegistries
  import CircuitBreakers
  import RequestQueues

  datatype Call =
    | Pick(replica: Id)                 // the load balancer chose a replica
    | Starve                            // it found none
    | Wake(served: bool)                // the wait for capacity is over
    | Grant(replica: Id)                // the breaker let the request through
    | Refuse(replica: Id)               // it did not
    | Inc(replica: Id)
    | Stream(replica: Id, ok: bool)     // a stream from the replica ended
    | Race(first: Option<bool>, loserOk: bool)  // both first reads are over: which one won, if any
    | Dec(replica: Id)
    | Notify
    | Record(replica: Id, ok: bool)
    | Return

  /** Program points. The plain path loops through Choosing; the hedged path starts at Hedging. */
  datatype Point =
    | Choosing
    | Starved
    | Woken
    | Picked(r: Id)
    | Granted(r: Id)
    | Busy(r: Id)
    | Streamed(r: Id, ok: bool)
    | Freed(r: Id, ok: bool)
    | Notified(r: Id, ok: bool)
    | Hedging
    | HedgedOne(a: Id)
    | Solo(r: Id)
    | SoloBusy(r: Id)
    | SoloStreamed(r: Id, ok: bool)
    | SoloFreed(r: Id, ok: bool)
    | SoloNotified(r: Id, ok: bool)
    | Pair(a: Id, b: Id)
    | PairOne(a: Id, b: Id)
    | Racing(a: Id, b: Id)
    | Lost(a: Id, b: Id)
    | LostOne(b: Id)
    | LostBoth
    | Won(w: Id, l: Id, loserOk: bool)
    | WonFreed(w: Id, l: Id, loserOk: bool)
    | WonNotified(w: Id, l: Id, loserOk: bool)
    | WonRecorded(w: Id, l: Id)
    | Pumping(w: Id)
    | LastNotice
    | Ending
    | Done

  /** Where a call takes a handler; no result means that the code makes no such call there. */
  function Move(p: Point, c: Call): Option<Point> {
    match (p, c)
    // one attempt of the retry loop
    case (Choosing, Pick(r)) => Some(Picked(r))
    case (Choosing, Starve) => Some(Starved)
    case (Choosing, Return) => Some(Done)
    case (Starved, Wake(served)) => Some(if served then Woken else Ending)
    case (Woken, Pick(r)) => Some(Picked(r))
    case (Woken, Starve) => Some(Choosing)
    case (Picked(r), Refuse(x)) => if x == r then Some(Choosing) else None
    case (Picked(r), Grant(x)) => if x == r then Some(Granted(r)) else None
    case (Granted(r), Inc(x)) => if x == r then Some(Busy(r)) else None
    case (Busy(r), Stream(x, ok)) => if x == r then Some(Streamed(r, ok)) else None
    case (Streamed(r, ok), Dec(x)) => if x == r then Some(Freed(r, ok)) else None
    case (Freed(r, ok), Notify) => Some(Notified(r, ok))
    case (Notified(r, ok), Record(x, o)) => if x == r && o == ok then Some(Choosing) else None
    // hedging falls back to a single stream, past the breaker
    case (Hedging, Starve) => Some(Ending)
    case (Hedging, Pick(a)) => Some(HedgedOne(a))
    case (HedgedOne(a), Starve) => Some(Solo(a))
    case (HedgedOne(a), Pick(b)) => Some(if b == a then Solo(a) else Pair(a, b))
    case (Solo(r), Inc(x)) => if x == r then Some(SoloBusy(r)) else None
    case (SoloBusy(r), Stream(x, ok)) => if x == r then Some(SoloStreamed(r, ok)) else None
    case (SoloStreamed(r, ok), Dec(x)) => if x == r then Some(SoloFreed(r, ok)) else None
    case (SoloFreed(r, ok), Notify) => Some(SoloNotified(r, ok))
    case (SoloNotified(r, ok), Record(x, o)) => if x == r && o == ok then Some(Ending) else None
    // hedging races two
    case (Pair(a, b), Inc(x)) => if x == a then Some(PairOne(a, b)) else None
    case (PairOne(a, b), Inc(x)) => if x == b then Some(Racing(a, b)) else None
    case (Racing(a, b), Race(first, loserOk)) =>
      Some(match first
           case None => Lost(a, b)
           case Some(one) => if one then Won(a, b, loserOk) else Won(b, a, loserOk))
    case (Lost(a, b), Dec(x)) => if x == a then Some(LostOne(b)) else None
    case (LostOne(b), Dec(x)) => if x == b then Some(LostBoth) else None
    case (LostBoth, Notify) => Some(LastNotice)
    case (Won(w, l, ok), Dec(x)) => if x == l then Some(WonFreed(w, l, ok)) else None
    case (WonFreed(w, l, ok), Notify) => Some(WonNotified(w, l, ok))
    case (WonNotified(w, l, ok), Record(x, o)) =>
      if x == w && o then Some(if ok then WonRecorded(w, l) else Pumping(w)) else None
    case (WonRecorded(w, l), Record(x, o)) => if x == l && o then Some(Pumping(w)) else None
    case (Pumping(w), Dec(x)) => if x == w then Some(LastNotice) else None
    case (LastNotice, Notify) => Some(Ending)
    case (Ending, Return) => Some(Done)
    case _ => None
  }

  /** A whole sequence of calls from a program point. */
  function Follow(p: Point, calls: seq<Call>): Option<Point> {
    if calls == [] then Some(p)
    else
      var n := |calls| - 1;
      match Follow(p, calls[..n])
      case None => None
      case Some(q) => Move(q, calls[n])
  }

  lemma FollowOne(p: Point, calls: seq<Call>, c: Call)
    requires Follow(p, calls).Some?
    ensures Follow(p, calls + [c]) == Move(Follow(p, calls).value, c)
  {
    assert (calls + [c])[..|calls|] == calls;
  }

  /** The outcomes that the calls report to breakers, in order. */
  function Reported(calls: seq<Call>): seq<(Id, bool)> {
    if calls == [] then []
    else
      var n := |calls| - 1;
      if calls[n].Record? then Reported(calls[..n]) + [(calls[n].replica, calls[n].ok)] else Reported(calls[..n])
  }

  lemma ReportedNext(calls: seq<Call>, c: Call)
    ensures Reported(calls + [c]) ==
      if c.Record? then Reported(calls) + [(c.replica, c.ok)] else Reported(calls)
  {
    assert (calls + [c])[..|calls|] == calls;
  }

  /** The calls take a handler from `start` to `p`. */
  ghost predicate Reaches(start: Point, calls: seq<Call>, p: Point) { Follow(start, calls) == Some(p) }

  lemma ReachesNext(start: Point, calls: seq<Call>, p: Point, c: Call, q: Point)
    requires Reaches(start, calls, p) && Move(p, c) == Some(q)
    ensures Reaches(start, calls + [c], q)
  {
    FollowOne(start, calls, c);
  }

  lemma ReachesTwice(start: Point, calls: seq<Call>, p: Point, c: Call, q: Point, d: Call, r: Point)
    requires Reaches(start, calls, p) && Move(p, c) == Some(q) && Move(q, d) == Some(r)
    ensures Reaches(start, calls + [c] + [d], r)
  {
    ReachesNext(start, calls, p, c, q);
    ReachesNext(start, calls + [c], q, d, r);
  }

  // ---- What a handler at a program point holds and owes ----

  /** What is counted: a replica counted in and not yet out; notifications due for released replicas;
      grants of a replica's breaker whose outcome is yet to be recorded. */
  datatype Measure = Held(replica: Id) | Notices | Records(replica: Id)

  function One(b: bool): nat { if b then 1 else 0 }

  function Holding(p: Point, r: Id): nat {
    match p
    case Busy(x) => One(x == r)
    case Streamed(x, _) => One(x == r)
    case SoloBusy(x) => One(x == r)
    case SoloStreamed(x, _) => One(x == r)
    case PairOne(a, _) => One(a == r)
    case Racing(a, b) => One(a == r) + One(b == r)
    case Lost(a, b) => One(a == r) + One(b == r)
    case LostOne(b) => One(b == r)
    case Won(w, l, _) => One(w == r) + One(l == r)
    case WonFreed(w, _, _) => One(w == r)
    case WonNotified(w, _, _) => One(w == r)
    case WonRecorded(w, _) => One(w == r)
    case Pumping(w) => One(w == r)
    case _ => 0
  }

  function OwedNotices(p: Point): nat {
    match p
    case Freed(_, _) => 1
    case SoloFreed(_, _) => 1
    case LostOne(_) => 1
    case LostBoth => 2
    case WonFreed(_, _, _) => 1
    case LastNotice => 1
    case _ => 0
  }

  function OwedRecords(p: Point, r: Id): nat {
    match p
    case Granted(x) => One(x == r)
    case Busy(x) => One(x == r)
    case Streamed(x, _) => One(x == r)
    case Freed(x, _) => One(x == r)
    case Notified(x, _) => One(x == r)
    case _ => 0
  }

  function Amount(m: Measure, p: Point): nat {
    match m
    case Held(r) => Holding(p, r)
    case Notices => OwedNotices(p)
    case Records(r) => OwedRecords(p, r)
  }

  /** The effect of a call made at `p` on the shared state, measured alike. */
  function Effect(m: Measure, p: Point, c: Call): int {
    match m
    case Held(r) => One(c == Inc(r)) - One(c == Dec(r))
    case Notices => One(c.Dec?) - One(c == Notify)
    case Records(r) => One(c == Grant(r)) - One(p.Notified? && c.Record? && c.replica == r)
  }

  /** Replicas the handler may still count in or out. */
  function Named(p: Point): set<Id> {
    match p
    case Picked(r) => {r}
    case Granted(r) => {r}
    case HedgedOne(a) => {a}
    case Solo(r) => {r}
    case Pair(a, b) => {a, b}
    case PairOne(a, b) => {a, b}
    case Busy(r) => {r}
    case Streamed(r, _) => {r}
    case SoloBusy(r) => {r}
    case SoloStreamed(r, _) => {r}
    case Racing(a, b) => {a, b}
    case Lost(a, b) => {a, b}
    case LostOne(b) => {b}
    case Won(w, l, _) => {w, l}
    case WonFreed(w, _, _) => {w}
    case WonNotified(w, _, _) => {w}
    case WonRecorded(w, _) => {w}
    case Pumping(w) => {w}
    case _ => {}
  }

  // ---- The system ----

  /** The ticket queue, the tickets of the handlers that wait in it, and the tickets whose wait succeeded. */
  datatype Line = Line(queue: RequestQueues.Queue, tickets: map<nat, nat>, served: seq<nat>)

  datatype System = System(
    config: CircuitBreakers.Config,
    handlers: seq<Point>,
    replicas: map<Id, Replica>,
    breakers: map<Id, CircuitBreakers.Breaker>,
    line: Line,
    releases: nat,
    notices: nat,
    grants: multiset<Id>,
    settled: multiset<Id>)

  function Idle(config: CircuitBreakers.Config, maxSize: nat): System {
    System(config, [], map[], map[], Line(RequestQueues.Queue(maxSize, 0, 0, {}), map[], []), 0, 0,
           multiset{}, multiset{})
  }

  /** A replica's breaker is created closed when it is first asked for. */
  function BreakerOf(s: System, r: Id): CircuitBreakers.Breaker {
    if r in s.breakers then s.breakers[r] else CircuitBreakers.FRESH
  }

  datatype Step =
    | Arrive(hedged: bool)
    | Act(handler: nat, call: Call, now: int)
    | Gossip(replica: Id, update: Update, grpcOf: string -> string)
    | Drain(replica: Id, draining: bool)

  /** The load balancer only names replicas of the registry; the replica's breaker decides on a grant; a
      wait succeeds exactly when its ticket is being served as it ends, and a full queue lets nobody wait. */
  predicate Enabled(s: System, step: Step) {
    step.Act? ==>
      && step.handler < |s.handlers|
      && Move(s.handlers[step.handler], step.call).Some?
      && (step.call.Pick? ==> step.call.replica in s.replicas)
      && (step.call.Grant? || step.call.Refuse? ==>
            (step.call.Grant? <==> CircuitBreakers.Allows(s.config, BreakerOf(s, step.call.replica), step.now)))
      && (step.call.Wake? ==>
            (step.call.served <==> step.handler in s.line.tickets &&
                                   RequestQueues.Enabled(s.line.queue, s.line.tickets[step.handler])))
  }

  /** What a call makes of the breakers. */
  function Switched(s: System, c: Call, now: int): map<Id, CircuitBreakers.Breaker> {
    match c
    case Grant(r) => s.breakers[r := CircuitBreakers.AfterAllow(s.config, BreakerOf(s, r), now)]
    case Refuse(r) => s.breakers[r := CircuitBreakers.AfterAllow(s.config, BreakerOf(s, r), now)]
    case Record(r, ok) => s.breakers[r := CircuitBreakers.AfterRecord(s.config, BreakerOf(s, r), ok, now)]
    case _ => s.breakers
  }

  /** What a call of handler `i` at `p` makes of the line. */
  function Lined(l: Line, p: Point, i: nat, c: Call): Line {
    match c
    case Starve =>
      if p.Choosing? && !RequestQueues.Full(l.queue)
      then Line(RequestQueues.AfterEnter(l.queue), l.tickets[i := l.queue.next], l.served) else l
    case Wake(ok) =>
      if i in l.tickets
      then Line(RequestQueues.AfterLeave(l.queue, l.tickets[i]), l.tickets - {i},
                if ok then l.served + [l.tickets[i]] else l.served) else l
    case Notify => l.(queue := RequestQueues.AfterNotify(l.queue))
    case _ => l
  }

  function Next(s: System, step: Step): System {
    if !Enabled(s, step) then s
    else
      match step
      case Arrive(hedged) => s.(handlers := s.handlers + [if hedged then Hedging else Choosing])
      case Gossip(r, u, grpcOf) => s.(replicas := Heard(s.replicas, r, u, grpcOf))
      case Drain(r, on) => s.(replicas := Drained(s.replicas, r, on))
      case Act(i, c, now) =>
        var p := s.handlers[i];
        var moved := s.(handlers := s.handlers[i := Move(p, c).value], breakers := Switched(s, c, now),
                        line := Lined(s.line, p, i, c));
        match c
        case Inc(r) => moved.(replicas := Counted(s.replicas, r, 1))
        case Dec(r) => moved.(replicas := Counted(s.replicas, r, -1), releases := s.releases + 1)
        case Notify => moved.(notices := s.notices + 1)
        case Grant(r) => moved.(grants := s.grants + multiset{r})
        case Record(r, _) => if p.Notified? then moved.(settled := s.settled + multiset{r}) else moved
        case _ => moved
  }

  function Exec(s: System, steps: seq<Step>): System {
    if steps == [] then s
    else var n := |steps| - 1; Next(Exec(s, steps[..n]), steps[n])
  }

  function Total(m: Measure, hs: seq<Point>): nat {
    if hs == [] then 0 else Total(m, hs[..|hs| - 1]) + Amount(m, hs[|hs| - 1])
  }

  lemma {:induction false} ChangeOne(m: Measure, hs: seq<Point>, i: nat, p: Point)
    requires i < |hs|
    ensures Total(m, hs[i := p]) == Total(m, hs) - Amount(m, hs[i]) + Amount(m, p)
  {
    var n := |hs| - 1;
    if i < n {
      ChangeOne(m, hs[..n], i, p);
      assert hs[i := p][..n] == hs[..n][i := p];
    } else {
      assert hs[i := p][..n] == hs[..n];
    }
  }

  lemma AddOne(m: Measure, hs: seq<Point>, p: Point)
    ensures Total(m, hs + [p]) == Total(m, hs) + Amount(m, p)
  {
    assert (hs + [p])[..|hs|] == hs;
  }

  lemma ChoosingKeepsHolding(r: Id, p: Point, c: Call)
    requires Move(p, c).Some?
    requires c.Pick? || c.Starve? || c.Wake? || c.Grant? || c.Refuse? || c.Return?
    ensures Holding(Move(p, c).value, r) == Holding(p, r)
  {}

  lemma StreamingKeepsHolding(r: Id, p: Point, c: Call)
    requires Move(p, c).Some? && (c.Stream? || c.Race?)
    ensures Holding(Move(p, c).value, r) == Holding(p, r)
  {}

  lemma ReportingKeepsHolding(r: Id, p: Point, c: Call)
    requires Move(p, c).Some? && (c.Notify? || c.Record?)
    ensures Holding(Move(p, c).value, r) == Holding(p, r)
  {}

  lemma IncHolds(r: Id, p: Point, x: Id)
    requires Move(p, Inc(x)).Some?
    ensures Holding(Move(p, Inc(x)).value, r) == Holding(p, r) + One(x == r)
  {}

  lemma DecReleases(r: Id, p: Point, x: Id)
    requires Move(p, Dec(x)).Some?
    ensures Holding(Move(p, Dec(x)).value, r) == Holding(p, r) - One(x == r)
  {}

  lemma HoldingBalances(r: Id, p: Point, c: Call)
    requires Move(p, c).Some?
    ensures Holding(Move(p, c).value, r) == Holding(p, r) + Effect(Held(r), p, c)
  {
    match c
    case Inc(x) => IncHolds(r, p, x);
    case Dec(x) => DecReleases(r, p, x);
    case _ =>
      if c.Stream? || c.Race? {
        StreamingKeepsHolding(r, p, c);
      } else if c.Notify? || c.Record? {
        ReportingKeepsHolding(r, p, c);
      } else {
        ChoosingKeepsHolding(r, p, c);
      }
  }

  lemma NoticesBalance(p: Point, c: Call)
    requires Move(p, c).Some?
    ensures OwedNotices(Move(p, c).value) == OwedNotices(p) + Effect(Notices, p, c)
  {}

  lemma RecordsBalance(r: Id, p: Point, c: Call)
    requires Move(p, c).Some?
    ensures OwedRecords(Move(p, c).value, r) == OwedRecords(p, r) + Effect(Records(r), p, c)
  {}

  /** Every call changes what the handler holds and owes by exactly its effect on the shared state. */
  lemma MoveBalances(m: Measure, p: Point, c: Call)
    requires Move(p, c).Some?
    ensures Amount(m, Move(p, c).value) == Amount(m, p) + Effect(m, p, c)
  {
    match m
    case Held(r) => HoldingBalances(r, p, c);
    case Notices => NoticesBalance(p, c);
    case Records(r) => RecordsBalance(r, p, c);
  }

  lemma MoveKeepsNames(p: Point, c: Call)
    requires Move(p, c).Some?
    ensures Named(Move(p, c).value) <= Named(p) + (if c.Pick? then {c.replica} else {})
    ensures c.Inc? || c.Dec? ==> c.replica in Named(p)
  {}

  /** The same measures, read off the shared state. */
  function Shared(m: Measure, s: System): int {
    match m
    case Held(r) => if r in s.replicas then s.replicas[r].active else 0
    case Notices => s.releases - s.notices
    case Records(r) => s.grants[r] as int - s.settled[r] as int
  }

  ghost predicate Balanced(s: System) {
    && (forall m :: Shared(m, s) == Total(m, s.handlers))
    && (forall i | 0 <= i < |s.handlers| :: Named(s.handlers[i]) <= s.replicas.Keys)
  }

  lemma SharedMoves(s: System, i: nat, c: Call, now: int, m: Measure)
    requires Enabled(s, Act(i, c, now))
    requires c.Inc? || c.Dec? ==> c.replica in s.replicas
    ensures Shared(m, Next(s, Act(i, c, now))) == Shared(m, s) + Effect(m, s.handlers[i], c)
  {}

  lemma HandlersMove(s: System, i: nat, c: Call, now: int, m: Measure)
    requires Enabled(s, Act(i, c, now))
    ensures Total(m, Next(s, Act(i, c, now)).handlers) == Total(m, s.handlers) + Effect(m, s.handlers[i], c)
  {
    MoveBalances(m, s.handlers[i], c);
    ChangeOne(m, s.handlers, i, Move(s.handlers[i], c).value);
  }

  lemma ActKeepsNames(s: System, i: nat, c: Call, now: int)
    requires Balanced(s) && Enabled(s, Act(i, c, now))
    ensures var s' := Next(s, Act(i, c, now));
      forall j | 0 <= j < |s'.handlers| :: Named(s'.handlers[j]) <= s'.replicas.Keys
    ensures c.Inc? || c.Dec? ==> c.replica in s.replicas
  {
    MoveKeepsNames(s.handlers[i], c);
    assert Named(s.handlers[i]) <= s.replicas.Keys;
    assert Next(s, Act(i, c, now)).replicas.Keys == s.replicas.Keys;
  }

  lemma ActKeepsBalance(s: System, i: nat, c: Call, now: int)
    requires Balanced(s) && Enabled(s, Act(i, c, now))
    ensures Balanced(Next(s, Act(i, c, now)))
  {
    var s' := Next(s, Act(i, c, now));
    ActKeepsNames(s, i, c, now);
    forall m ensures Shared(m, s') == Total(m, s'.handlers) {
      SharedMoves(s, i, c, now, m);
      HandlersMove(s, i, c, now, m);
    }
  }

  lemma ArriveKeepsBalance(s: System, hedged: bool)
    requires Balanced(s)
    ensures Balanced(Next(s, Arrive(hedged)))
  {
    var p := if hedged then Hedging else Choosing;
    var s' := Next(s, Arrive(hedged));
    forall m ensures Shared(m, s') == Total(m, s'.handlers) {
      AddOne(m, s.handlers, p);
    }
  }

  lemma {:induction false} NextKeepsBalance(s: System, step: Step)
    requires Balanced(s)
    ensures Balanced(Next(s, step))
  {
    match step
    case Arrive(hedged) => ArriveKeepsBalance(s, hedged);
    case Act(i, c, now) => if Enabled(s, step) { ActKeepsBalance(s, i, c, now); }
    case _ =>
      forall m ensures Shared(m, Next(s, step)) == Total(m, s.handlers) {}
  }

  /** Over every interleaving of any number of handlers with gossip and draining: a replica's counter
      is the number of times handlers hold it, hence never negative; notifications and those still owed
      add up to the releases; every breaker grant is settled by one record, or still owed one. */
  lemma {:induction false} Conservation(config: CircuitBreakers.Config, maxSize: nat, steps: seq<Step>)
    ensures Balanced(Exec(Idle(config, maxSize), steps))
    ensures var s := Exec(Idle(config, maxSize), steps);
      && (forall r :: r in s.replicas ==> s.replicas[r].active == Total(Held(r), s.handlers))
      && s.notices + Total(Notices, s.handlers) == s.releases
      && (forall r :: s.settled[r] + Total(Records(r), s.handlers) == s.grants[r])
  {
    if steps == [] {
    } else {
      Conservation(config, maxSize, steps[..|steps| - 1]);
      NextKeepsBalance(Exec(Idle(config, maxSize), steps[..|steps| - 1]), steps[|steps| - 1]);
    }
    var s := Exec(Idle(config, maxSize), steps);
    assert Shared(Notices, s) == Total(Notices, s.handlers);
    forall r ensures r in s.replicas ==> s.replicas[r].active == Total(Held(r), s.handlers) {
      assert Shared(Held(r), s) == Total(Held(r), s.handlers);
    }
    forall r ensures s.settled[r] + Total(Records(r), s.handlers) == s.grants[r] {
      assert Shared(Records(r), s) == Total(Records(r), s.handlers);
    }
  }

  // ---- No breaker wedges ----

  /** Whenever a breaker is in HALF_OPEN some handler that it let through still owes it a record. */
  ghost predicate Unwedged(s: System) {
    forall r :: BreakerOf(s, r).state == CircuitBreakers.HalfOpen ==> Total(Records(r), s.handlers) >= 1
  }

  lemma SwitchTells(s: System, i: nat, c: Call, now: int, r: Id)
    requires Enabled(s, Act(i, c, now))
    requires BreakerOf(Next(s, Act(i, c, now)), r).state == CircuitBreakers.HalfOpen
    ensures c == Grant(r) ||
      (BreakerOf(s, r).state == CircuitBreakers.HalfOpen && Effect(Records(r), s.handlers[i], c) == 0)
  {
    assert Next(s, Act(i, c, now)).breakers == Switched(s, c, now);
  }

  lemma NextKeepsUnwedged(s: System, step: Step)
    requires Unwedged(s)
    ensures Unwedged(Next(s, step))
  {
    var s' := Next(s, step);
    forall r | BreakerOf(s', r).state == CircuitBreakers.HalfOpen ensures Total(Records(r), s'.handlers) >= 1 {
      match step
      case Act(i, c, now) =>
        if Enabled(s, step) {
          SwitchTells(s, i, c, now, r);
          HandlersMove(s, i, c, now, Records(r));
        }
      case Arrive(hedged) => AddOne(Records(r), s.handlers, if hedged then Hedging else Choosing);
      case _ =>
    }
  }

  /** Over every interleaving, with plain and hedged requests alike: a breaker in HALF_OPEN waits for the
      record of some request in flight, so once all requests have returned every breaker is closed or open. */
  lemma {:induction false} NoBreakerWedges(config: CircuitBreakers.Config, maxSize: nat, steps: seq<Step>)
    ensures var s := Exec(Idle(config, maxSize), steps);
      && Unwedged(s)
      && ((forall i | 0 <= i < |s.handlers| :: s.handlers[i] == Done) ==>
            forall r :: BreakerOf(s, r).state != CircuitBreakers.HalfOpen)
  {
    var s := Exec(Idle(config, maxSize), steps);
    if steps == [] {
    } else {
      NoBreakerWedges(config, maxSize, steps[..|steps| - 1]);
      NextKeepsUnwedged(Exec(Idle(config, maxSize), steps[..|steps| - 1]), steps[|steps| - 1]);
    }
    if forall i | 0 <= i < |s.handlers| :: s.handlers[i] == Done {
      forall r ensures BreakerOf(s, r).state != CircuitBreakers.HalfOpen {
        NothingLeft(Records(r), s.handlers);
      }
    }
  }

  lemma {:induction false} NothingLeft(m: Measure, hs: seq<Point>)
    requires forall i | 0 <= i < |hs| :: hs[i] == Done
    ensures Total(m, hs) == 0
  {
    if hs == [] {
    } else {
      NothingLeft(m, hs[..|hs| - 1]);
    }
  }

  /** When every request has returned, nothing is counted in, no notification is missing, and grants
      and records match replica by replica. */
  lemma NothingLeaks(config: CircuitBreakers.Config, maxSize: nat, steps: seq<Step>)
    requires var s := Exec(Idle(config, maxSize), steps); forall i | 0 <= i < |s.handlers| :: s.handlers[i] == Done
    ensures var s := Exec(Idle(config, maxSize), steps);
      && (forall r :: r in s.replicas ==> s.replicas[r].active == 0)
      && s.notices == s.releases && s.settled == s.grants
  {
    var s := Exec(Idle(config, maxSize), steps);
    Conservation(config, maxSize, steps);
    forall m ensures Shared(m, s) == 0 {
      NothingLeft(m, s.handlers);
    }
    assert Shared(Notices, s) == 0;
    forall r ensures (r in s.replicas ==> s.replicas[r].active == 0) && s.settled[r] == s.grants[r] {
      assert Shared(Held(r), s) == 0 && Shared(Records(r), s) == 0;
    }
  }

  // ---- Waits are paid for ----

  ghost predicate Injective(tickets: map<nat, nat>) {
    forall i, j :: i in tickets && j in tickets && i != j ==> tickets[i] != tickets[j]
  }

  /** Tickets are held by waiting handlers only, and each by one. */
  ghost predicate Ticketed(l: Line, hs: seq<Point>) {
    && (forall i :: i in l.tickets ==> i < |hs| && hs[i] == Starved && l.tickets[i] in l.queue.waiting)
    && Injective(l.tickets)
  }

  ghost predicate InLine(s: System) {
    RequestQueues.Lawful(s.line.queue, s.line.served, s.notices) && Ticketed(s.line, s.handlers)
  }

  lemma LinedIsLawful(l: Line, p: Point, i: nat, c: Call, notices: nat)
    requires RequestQueues.Lawful(l.queue, l.served, notices)
    requires i in l.tickets ==> l.tickets[i] in l.queue.waiting
    requires c.Wake? ==> (c.served <==> i in l.tickets && RequestQueues.Enabled(l.queue, l.tickets[i]))
    ensures var l' := Lined(l, p, i, c);
      RequestQueues.Lawful(l'.queue, l'.served, if c == Notify then notices + 1 else notices)
  {
    match c
    case Starve => RequestQueues.CallIsLawful(l.queue, l.served, notices, RequestQueues.Enter);
    case Wake(ok) =>
      if i in l.tickets {
        RequestQueues.CallIsLawful(l.queue, l.served, notices, RequestQueues.Leave(l.tickets[i]));
      }
    case Notify => RequestQueues.CallIsLawful(l.queue, l.served, notices, RequestQueues.Notify);
    case _ =>
  }

  lemma StarvedMoves(p: Point, c: Call)
    requires Move(p, c).Some?
    ensures p == Starved ==> c.Wake?
    ensures p == Choosing && c == Starve ==> Move(p, c) == Some(Starved)
  {}

  lemma LinedKeepsTickets(l: Line, hs: seq<Point>, i: nat, c: Call, notices: nat)
    requires RequestQueues.Lawful(l.queue, l.served, notices) && Ticketed(l, hs)
    requires i < |hs| && Move(hs[i], c).Some?
    ensures Ticketed(Lined(l, hs[i], i, c), hs[i := Move(hs[i], c).value])
  {
    StarvedMoves(hs[i], c);
  }

  lemma NextKeepsLine(s: System, step: Step)
    requires InLine(s)
    ensures InLine(Next(s, step))
  {
    if step.Act? && Enabled(s, step) {
      var i, c := step.handler, step.call;
      LinedIsLawful(s.line, s.handlers[i], i, c, s.notices);
      LinedKeepsTickets(s.line, s.handlers, i, c, s.notices);
      ActMovesLine(s, step);
    }
  }

  lemma ActMovesLine(s: System, step: Step)
    requires step.Act? && Enabled(s, step)
    ensures var i, c, s' := step.handler, step.call, Next(s, step);
      && s'.line == Lined(s.line, s.handlers[i], i, c) && s'.handlers == s.handlers[i := Move(s.handlers[i], c).value]
      && s'.notices == if c == Notify then s.notices + 1 else s.notices
  {}

  predicate WaitEndsWell(s: System, step: Step) { step.Act? && step.call == Wake(true) && Enabled(s, step) }

  /** How many waits ended well. */
  function Waits(s: System, steps: seq<Step>): nat {
    if steps == [] then 0
    else
      var n := |steps| - 1;
      Waits(s, steps[..n]) + One(WaitEndsWell(Exec(s, steps[..n]), steps[n]))
  }

  lemma LineCounts(s: System, step: Step)
    ensures Next(s, step).line.queue.maxSize == s.line.queue.maxSize
    ensures |Next(s, step).line.served| == |s.line.served| + One(WaitEndsWell(s, step))
  {
    if step.Act? && Enabled(s, step) {
      ActMovesLine(s, step);
    }
  }

  lemma {:induction false} LineHolds(config: CircuitBreakers.Config, maxSize: nat, steps: seq<Step>)
    ensures var s := Exec(Idle(config, maxSize), steps);
      InLine(s) && s.line.queue.maxSize == maxSize && |s.line.served| == Waits(Idle(config, maxSize), steps)
  {
    if steps == [] {
    } else {
      var n := |steps| - 1;
      LineHolds(config, maxSize, steps[..n]);
      NextKeepsLine(Exec(Idle(config, maxSize), steps[..n]), steps[n]);
      LineCounts(Exec(Idle(config, maxSize), steps[..n]), steps[n]);
    }
  }

  /** Over every interleaving: no more waits end well than replicas were released, and no more handlers wait
      at a time than the queue admits. */
  lemma WaitsArePaid(config: CircuitBreakers.Config, maxSize: nat, steps: seq<Step>)
    ensures var s := Exec(Idle(config, maxSize), steps);
      && Waits(Idle(config, maxSize), steps) <= s.notices <= s.releases
      && |s.line.tickets| <= maxSize
  {
    var s := Exec(Idle(config, maxSize), steps);
    LineHolds(config, maxSize, steps);
    Conservation(config, maxSize, steps);
    RequestQueues.DistinctBelow(s.line.served, s.notices);
    TicketsWait(s.line.tickets, s.line.queue.waiting);
  }

  lemma {:induction false} TicketsWait(tickets: map<nat, nat>, waiting: set<nat>)
    requires forall i :: i in tickets ==> tickets[i] in waiting
    requires Injective(tickets)
    ensures |tickets| <= |waiting|
    decreases |waiting|
  {
    if tickets == map[] {
    } else {
      var i :| i in tickets;
      TicketsWait(tickets - {i}, waiting - {tickets[i]});
      assert tickets.Keys == (tickets - {i}).Keys + {i};
    }
  }

  // ---- The breakers and the queue within the system ----

  /** What one step is to the breaker of `r`. */
  function BreakerCall(s: System, step: Step, r: Id): seq<CircuitBreakers.Call> {
    if !step.Act? || !Enabled(s, step) then []
    else
      match step.call
      case Grant(x) => if x == r then [CircuitBreakers.Ask(step.handler, step.now)] else []
      case Refuse(x) => if x == r then [CircuitBreakers.Ask(step.handler, step.now)] else []
      case Record(x, ok) => if x == r then [CircuitBreakers.Record(step.handler, ok, step.now)] else []
      case _ => []
  }

  function BreakerCalls(s: System, steps: seq<Step>, r: Id): seq<CircuitBreakers.Call> {
    if steps == [] then []
    else
      var n := |steps| - 1;
      BreakerCalls(s, steps[..n], r) + BreakerCall(Exec(s, steps[..n]), steps[n], r)
  }

  lemma SwitchIsCall(s: System, step: Step, r: Id)
    ensures var calls := BreakerCall(s, step, r);
      && |calls| <= 1
      && BreakerOf(Next(s, step), r) ==
         if calls == [] then BreakerOf(s, r) else CircuitBreakers.After(s.config, BreakerOf(s, r), calls[0])
  {
    if step.Act? && Enabled(s, step) {
      assert Next(s, step).breakers == Switched(s, step.call, step.now);
    }
  }

  lemma BreakerMoves(s: System, step: Step, r: Id, before: seq<CircuitBreakers.Call>)
    requires BreakerOf(s, r) == CircuitBreakers.AfterAll(s.config, CircuitBreakers.FRESH, before)
    ensures Next(s, step).config == s.config
    ensures BreakerOf(Next(s, step), r) ==
      CircuitBreakers.AfterAll(s.config, CircuitBreakers.FRESH, before + BreakerCall(s, step, r))
  {
    var calls := BreakerCall(s, step, r);
    SwitchIsCall(s, step, r);
    if calls == [] {
      assert before + calls == before;
    } else {
      CircuitBreakers.CallAdded(s.config, CircuitBreakers.FRESH, before, calls[0]);
      assert calls == [calls[0]];
    }
  }

  /** Each replica's breaker goes through exactly the questions and outcomes that handlers put to it, in order,
      so all that holds of a breaker after any calls holds of it here. */
  lemma {:induction false} BreakersAnswerHandlers(config: CircuitBreakers.Config, maxSize: nat, steps: seq<Step>, r: Id)
    ensures var s := Exec(Idle(config, maxSize), steps);
      && s.config == config
      && BreakerOf(s, r) == CircuitBreakers.AfterAll(config, CircuitBreakers.FRESH,
                                                     BreakerCalls(Idle(config, maxSize), steps, r))
  {
    if steps == [] {
    } else {
      var n := |steps| - 1;
      BreakersAnswerHandlers(config, maxSize, steps[..n], r);
      BreakerMoves(Exec(Idle(config, maxSize), steps[..n]), steps[n], r,
                   BreakerCalls(Idle(config, maxSize), steps[..n], r));
    }
  }

  /** What one step is to the queue. */
  function QueueCall(s: System, step: Step): seq<RequestQueues.Call> {
    if !step.Act? || !Enabled(s, step) then []
    else
      match step.call
      case Starve => if s.handlers[step.handler].Choosing? then [RequestQueues.Enter] else []
      case Wake(_) =>
        if step.handler in s.line.tickets then [RequestQueues.Leave(s.line.tickets[step.handler])] else []
      case Notify => [RequestQueues.Notify]
      case _ => []
  }

  function QueueCalls(s: System, steps: seq<Step>): seq<RequestQueues.Call> {
    if steps == [] then []
    else var n := |steps| - 1; QueueCalls(s, steps[..n]) + QueueCall(Exec(s, steps[..n]), steps[n])
  }

  lemma LineIsCall(s: System, step: Step)
    requires InLine(s)
    ensures var calls := QueueCall(s, step);
      && |calls| <= 1
      && Next(s, step).line.queue ==
         if calls == [] then s.line.queue else RequestQueues.After(s.line.queue, calls[0])
  {
    if step.Act? && Enabled(s, step) {
      ActMovesLine(s, step);
    }
  }

  lemma QueueMoves(s: System, step: Step, q: RequestQueues.Queue, before: seq<RequestQueues.Call>)
    requires InLine(s) && s.line.queue == RequestQueues.AfterAll(q, before)
    ensures Next(s, step).line.queue == RequestQueues.AfterAll(q, before + QueueCall(s, step))
  {
    var calls := QueueCall(s, step);
    LineIsCall(s, step);
    if calls == [] {
      assert before + calls == before;
    } else {
      RequestQueues.CallAdded(q, before, calls[0]);
      assert calls == [calls[0]];
    }
  }

  /** And the queue goes through exactly what handlers do to it. */
  lemma {:induction false} QueueServesHandlers(config: CircuitBreakers.Config, maxSize: nat, steps: seq<Step>)
    ensures Exec(Idle(config, maxSize), steps).line.queue ==
      RequestQueues.AfterAll(RequestQueues.Queue(maxSize, 0, 0, {}), QueueCalls(Idle(config, maxSize), steps))
  {
    if steps == [] {
    } else {
      var n := |steps| - 1;
      QueueServesHandlers(config, maxSize, steps[..n]);
      LineHolds(config, maxSize, steps[..n]);
      QueueMoves(Exec(Idle(config, maxSize), steps[..n]), steps[n], RequestQueues.Queue(maxSize, 0, 0, {}),
                 QueueCalls(Idle(config, maxSize), steps[..n]));
    }
  }
}
