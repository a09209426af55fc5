/** The ticket queue that holds requests back while every replica is full. A blocked wait is split at
    its blocking point: enter takes a ticket or is refused, leave reads the wait's verdict. */
module RequestQueues {
  import opened Options
  import opened Sequences

  /** `waiting` holds the tickets of the handlers between enter and leave. */
  datatype Queue = Queue(maxSize: int, next: nat, serving: nat, waiting: set<nat>)

  predicate Enabled(q: Queue, ticket: nat) { q.serving > ticket }

  predicate Full(q: Queue) { |q.waiting| >= q.maxSize }

  function AfterEnter(q: Queue): Queue {
    if Full(q) then q else q.(next := q.next + 1, waiting := q.waiting + {q.next})
  }

  function AfterNotify(q: Queue): Queue { q.(serving := q.serving + 1) }

  function AfterLeave(q: Queue, ticket: nat): Queue { q.(waiting := q.waiting - {ticket}) }

  class RequestQueue {
    const maxSize: int
    var waitingCount: int
    var nextTicket: nat
    var servingTicket: nat
    ghost var waiting: set<nat>

    ghost predicate Valid()
      reads this
    {
      waitingCount == |waiting| && forall t :: t in waiting ==> t < nextTicket
    }

    ghost function Contents(): Queue
      reads this
    {
      Queue(maxSize, nextTicket, servingTicket, waiting)
    }

    constructor (maxSize: int)
      ensures Valid() && Contents() == Queue(maxSize, 0, 0, {})
    {
      this.maxSize := maxSize;
      waitingCount := 0;
      nextTicket := 0;
      servingTicket := 0;
      waiting := {};
    }

    /** The part of WaitForCapacity before it blocks. */
    method Enter() returns (ticket: Option<nat>)
      requires Valid()
      modifies this
      ensures Valid() && Contents() == AfterEnter(old(Contents()))
      ensures ticket == if Full(old(Contents())) then None else Some(old(nextTicket))
    {
      if waitingCount >= maxSize {
        return None;
      }
      waitingCount := waitingCount + 1;
      ticket := Some(nextTicket);
      waiting := waiting + {nextTicket};
      nextTicket := nextTicket + 1;
    }

    /** The part of WaitForCapacity after it wakes, served or timed out. */
    method Leave(ticket: nat) returns (served: bool)
      requires Valid() && ticket in waiting
      modifies this
      ensures Valid() && Contents() == AfterLeave(old(Contents()), ticket)
      ensures served == Enabled(old(Contents()), ticket)
    {
      served := servingTicket > ticket;
      waitingCount := waitingCount - 1;
      waiting := waiting - {ticket};
    }

    method NotifyCapacityAvailable()
      requires Valid()
      modifies this
      ensures Valid() && Contents() == AfterNotify(old(Contents()))
    {
      servingTicket := servingTicket + 1;
    }
  }

  // ---- Any interleaving ----

  datatype Call = Enter | Notify | Leave(ticket: nat)

  function After(q: Queue, c: Call): Queue {
    match c
    case Enter => AfterEnter(q)
    case Notify => AfterNotify(q)
    case Leave(t) => if t in q.waiting then AfterLeave(q, t) else q
  }

  function AfterAll(q: Queue, calls: seq<Call>): Queue {
    if calls == [] then q
    else var n := |calls| - 1; After(AfterAll(q, calls[..n]), calls[n])
  }

  predicate Succeeds(q: Queue, c: Call) { c.Leave? && c.ticket in q.waiting && Enabled(q, c.ticket) }

  /** The tickets whose wait succeeded, in order. */
  function Served(q: Queue, calls: seq<Call>): seq<nat> {
    if calls == [] then []
    else
      var n := |calls| - 1;
      Served(q, calls[..n]) + if Succeeds(AfterAll(q, calls[..n]), calls[n]) then [calls[n].ticket] else []
  }

  function Notifies(calls: seq<Call>): nat {
    if calls == [] then 0
    else var n := |calls| - 1; Notifies(calls[..n]) + if calls[n].Notify? then 1 else 0
  }

  ghost predicate Lawful(q: Queue, served: seq<nat>, notifies: nat) {
    && q.serving == notifies
    && (|q.waiting| <= q.maxSize || q.waiting == {})
    && (forall t :: t in q.waiting ==> t < q.next)
    && Distinct(served)
    && (forall t :: t in served ==> t < q.next && t < q.serving && t !in q.waiting)
  }

  lemma CallIsLawful(q: Queue, served: seq<nat>, notifies: nat, c: Call)
    requires Lawful(q, served, notifies)
    ensures Lawful(After(q, c), if Succeeds(q, c) then served + [c.ticket] else served,
                   if c.Notify? then notifies + 1 else notifies)
  {}

  lemma {:induction false} RunsAreLawful(maxSize: int, calls: seq<Call>)
    ensures var q := Queue(maxSize, 0, 0, {});
      AfterAll(q, calls).maxSize == maxSize && Lawful(AfterAll(q, calls), Served(q, calls), Notifies(calls))
  {
    if calls == [] {
    } else {
      var n := |calls| - 1;
      var q := Queue(maxSize, 0, 0, {});
      RunsAreLawful(maxSize, calls[..n]);
      CallIsLawful(AfterAll(q, calls[..n]), Served(q, calls[..n]), Notifies(calls[..n]), calls[n]);
      assert Served(q, calls[..n]) + [] == Served(q, calls[..n]);
    }
  }

  /** Over every run the queue never holds more than its bound, and no more waits succeed than there
      were notifications, however many waits time out and however many notifications find nobody waiting. */
  lemma QueueIsBoundedAndFair(maxSize: nat, calls: seq<Call>)
    ensures var q := Queue(maxSize, 0, 0, {});
      && |AfterAll(q, calls).waiting| <= maxSize
      && Distinct(Served(q, calls))
      && |Served(q, calls)| <= Notifies(calls)
  {
    RunsAreLawful(maxSize, calls);
    DistinctBelow(Served(Queue(maxSize, 0, 0, {}), calls), Notifies(calls));
  }

  lemma {:induction false} DistinctBelow(s: seq<nat>, n: nat)
    requires Distinct(s) && forall t :: t in s ==> t < n
    ensures |s| <= n
    decreases n
  {
    assert s == [] || s[0] in s;
    if n - 1 in s {
      var i :| 0 <= i < |s| && s[i] == n - 1;
      var rest := s[..i] + s[i + 1..];
      forall t | t in rest ensures t < n - 1 {
        var j :| 0 <= j < |rest| && rest[j] == t;
        var k := if j < i then j else j + 1;
        assert rest[j] == s[k] && s[k] in s;
        assert if k < i then s[k] != s[i] else s[i] != s[k];
      }
      DistinctBelow(rest, n - 1);
    } else if n > 0 {
      DistinctBelow(s, n - 1);
    }
  }

  /** The queue admits a request exactly while fewer wait than its bound, with the next ticket. */
  lemma AdmitsExactly(maxSize: nat, calls: seq<Call>)
    ensures var q := AfterAll(Queue(maxSize, 0, 0, {}), calls);
      && (AfterEnter(q) != q <==> |q.waiting| < maxSize)
      && (|q.waiting| < maxSize ==> |AfterEnter(q).waiting| == |q.waiting| + 1 && q.next in AfterEnter(q).waiting)
  {
    RunsAreLawful(maxSize, calls);
  }

  /** A wait ends well exactly when more notifications came than tickets were handed out before its own. */
  lemma ServedInTurn(maxSize: nat, calls: seq<Call>, ticket: nat)
    requires ticket in AfterAll(Queue(maxSize, 0, 0, {}), calls).waiting
    ensures ticket in Served(Queue(maxSize, 0, 0, {}), calls + [Leave(ticket)]) <==> Notifies(calls) > ticket
  {
    var q := Queue(maxSize, 0, 0, {});
    RunsAreLawful(maxSize, calls);
    CallAdded(q, calls, Leave(ticket));
  }

  /** Waits are enabled in ticket order, and one notification newly enables at most one of them: the
      ticket it serves, provided its holder is still waiting. The promise to wake one waiter fails
      exactly when that holder has left. */
  lemma NotifyWakesExactly(q: Queue, a: nat, b: nat)
    requires a in q.waiting && b in q.waiting
    ensures a <= b && Enabled(q, b) ==> Enabled(q, a)
    ensures var q' := AfterNotify(q);
      && (!Enabled(q, a) && Enabled(q', a) && !Enabled(q, b) && Enabled(q', b) ==> a == b)
      && ((exists t :: t in q.waiting && !Enabled(q, t) && Enabled(q', t)) <==> q.serving in q.waiting)
  {
    if q.serving in q.waiting {
      assert !Enabled(q, q.serving) && Enabled(AfterNotify(q), q.serving);
    }
  }

  lemma CallAdded(q: Queue, calls: seq<Call>, c: Call)
    ensures AfterAll(q, calls + [c]) == After(AfterAll(q, calls), c)
    ensures Notifies(calls + [c]) == Notifies(calls) + if c.Notify? then 1 else 0
    ensures Served(q, calls + [c]) == Served(q, calls) + if Succeeds(AfterAll(q, calls), c) then [c.ticket] else []
  {
    assert (calls + [c])[..|calls|] == calls;
  }

  /** A wait that times out swallows a later notification: it finds another waiter and leaves it blocked. */
  lemma TimeoutSwallowsNotification()
    ensures var q := Queue(2, 0, 0, {});
      var calls := [Enter] + [Enter] + [Leave(0)] + [Notify];
      && AfterAll(q, calls).waiting == {1} && !Enabled(AfterAll(q, calls), 1)
      && Notifies(calls) == 1 && Served(q, calls) == []
  {
    var q := Queue(2, 0, 0, {});
    CallAdded(q, [], Enter);
    assert [] + [Enter] == [Enter];
    CallAdded(q, [Enter], Enter);
    CallAdded(q, [Enter] + [Enter], Leave(0));
    CallAdded(q, [Enter] + [Enter] + [Leave(0)], Notify);
  }
}
