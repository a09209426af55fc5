/** The bounded buffer of recent updates that ride on outgoing gossip messages. */
module PiggybackBuffer {
  const MAX_SENDS: nat := 10
  const MAX_BUFFER: nat := 50

  datatype Entry<U> = Entry(update: U, sends: nat)

  /** Append a fresh entry, dropping the oldest one when the buffer is full. */
  function Push<U>(b: seq<Entry<U>>, u: U): seq<Entry<U>> {
    (if |b| >= MAX_BUFFER then b[1..] else b) + [Entry(u, 0)]
  }

  /** Count one more send for each of the `n` oldest entries. */
  function Bumped<U>(b: seq<Entry<U>>, n: nat): seq<Entry<U>> {
    seq(|b|, i requires 0 <= i < |b| => if i < n then Entry(b[i].update, b[i].sends + 1) else b[i])
  }

  function DropSpent<U>(b: seq<Entry<U>>): seq<Entry<U>> {
    if b != [] && b[0].sends >= MAX_SENDS then DropSpent(b[1..]) else b
  }

  function AfterTake<U>(b: seq<Entry<U>>, n: nat): seq<Entry<U>> {
    DropSpent(Bumped(b, n))
  }

  function Taken<U>(b: seq<Entry<U>>, n: nat): seq<U> {
    seq(if n < |b| then n else |b|, i requires 0 <= i < |b| => b[i].update)
  }

  /** What holds between calls: bounded, nothing exhausted, older entries sent at least as often. */
  ghost predicate Healthy<U>(b: seq<Entry<U>>) {
    && |b| <= MAX_BUFFER
    && (forall i | 0 <= i < |b| :: b[i].sends < MAX_SENDS)
    && Descending(b)
  }

  ghost predicate Descending<U>(b: seq<Entry<U>>) {
    forall i, j | 0 <= i <= j < |b| :: b[i].sends >= b[j].sends
  }

  lemma PushKeepsHealthy<U>(b: seq<Entry<U>>, u: U)
    requires Healthy(b)
    ensures Healthy(Push(b, u)) && |Push(b, u)| <= 50
    ensures |b| < 50 ==> Push(b, u) == b + [Entry(u, 0)]
  {}

  lemma TakeKeepsHealthy<U>(b: seq<Entry<U>>, n: nat)
    requires Healthy(b)
    ensures Healthy(AfterTake(b, n))
    ensures forall i | 0 <= i < |Bumped(b, n)| :: Bumped(b, n)[i].sends <= MAX_SENDS <= 10
  {
    DropSpentIsSuffix(Bumped(b, n));
  }

  /** Dropping from the front leaves a suffix whose first entry is not exhausted. */
  lemma {:induction false} DropSpentIsSuffix<U>(b: seq<Entry<U>>)
    ensures |DropSpent(b)| <= |b|
    ensures DropSpent(b) == b[|b| - |DropSpent(b)|..]
    ensures DropSpent(b) != [] ==> DropSpent(b)[0].sends < MAX_SENDS
    ensures forall i | 0 <= i < |b| - |DropSpent(b)| :: b[i].sends >= MAX_SENDS
  {
    if b == [] || b[0].sends < MAX_SENDS {
    } else {
      DropSpentIsSuffix(b[1..]);
      var k := |b[1..]| - |DropSpent(b[1..])|;
      assert b[1..][k..] == b[k + 1..];
      forall i | 0 <= i < k + 1 ensures b[i].sends >= MAX_SENDS {
        if i > 0 { assert b[i] == b[1..][i - 1]; }
      }
    }
  }

  function Unspent<U>(b: seq<Entry<U>>): seq<Entry<U>> {
    if b == [] then []
    else (if b[0].sends < MAX_SENDS then [b[0]] else []) + Unspent(b[1..])
  }

  /** Popping at the front alone removes exactly the exhausted entries. */
  lemma {:induction false} FrontPopIsExact<U>(b: seq<Entry<U>>)
    requires Descending(b)
    ensures DropSpent(b) == Unspent(b)
  {
    if b == [] {
    } else if b[0].sends >= MAX_SENDS {
      FrontPopIsExact(b[1..]);
    } else {
      NothingSpent(b);
    }
  }

  lemma {:induction false} NothingSpent<U>(b: seq<Entry<U>>)
    requires forall i | 0 <= i < |b| :: b[i].sends < MAX_SENDS
    ensures Unspent(b) == b
  {
    if b == [] {
    } else {
      NothingSpent(b[1..]);
    }
  }

  lemma TakeRemovesExactlyTheExhausted<U>(b: seq<Entry<U>>, n: nat)
    requires Healthy(b)
    ensures AfterTake(b, n) == Unspent(Bumped(b, n))
  {
    FrontPopIsExact(Bumped(b, n));
  }

  /** Documented as newest first: of two queued updates the newer one waits. */
  lemma NewestWaits<U>(older: U, newer: U)
    ensures Taken(Push(Push([], older), newer), 1) == [older]
  {
    assert Push(Push([], older), newer) == [Entry(older, 0), Entry(newer, 0)];
  }

  ghost function Updates<U>(b: seq<Entry<U>>): set<U> {
    set e | e in b :: e.update
  }

  lemma UpdatesAfterPush<U>(b: seq<Entry<U>>, u: U)
    ensures Updates(Push(b, u)) <= Updates(b) + {u}
  {
    forall x | x in Updates(Push(b, u)) ensures x in Updates(b) + {u} {
      var e :| e in Push(b, u) && e.update == x;
      assert e in b || e == Entry(u, 0);
    }
  }

  lemma UpdatesAfterTake<U>(b: seq<Entry<U>>, n: nat)
    ensures Updates(AfterTake(b, n)) <= Updates(b)
    ensures forall u :: u in Taken(b, n) ==> u in Updates(b)
  {
    var c := Bumped(b, n);
    DropSpentIsSuffix(c);
    forall x | x in Updates(AfterTake(b, n)) ensures x in Updates(b) {
      var e :| e in DropSpent(c) && e.update == x;
      var j :| 0 <= j < |c| && c[j] == e;
      assert b[j] in b && b[j].update == x;
    }
    forall u | u in Taken(b, n) ensures u in Updates(b) {
      var j :| 0 <= j < |Taken(b, n)| && Taken(b, n)[j] == u;
      assert b[j] in b && b[j].update == u;
    }
  }

  // ---- The life of one entry over any sequence of operations ----

  datatype Operation<U> = Enqueue(update: U) | Send(max: nat)

  function After<U>(b: seq<Entry<U>>, op: Operation<U>): seq<Entry<U>> {
    match op
    case Enqueue(u) => Push(b, u)
    case Send(n) => AfterTake(b, n)
  }

  function AfterAll<U>(b: seq<Entry<U>>, ops: seq<Operation<U>>): seq<Entry<U>>
    decreases |ops|
  {
    if ops == [] then b else AfterAll(After(b, ops[0]), ops[1..])
  }

  datatype Fate = Waiting(index: nat) | Finished | Overflowed

  /** Where one operation leaves the entry at index `p`. */
  function Moved<U>(b: seq<Entry<U>>, p: nat, op: Operation<U>): Fate {
    match op
    case Enqueue(_) =>
      if |b| < MAX_BUFFER then Waiting(p) else if p == 0 then Overflowed else Waiting(p - 1)
    case Send(n) =>
      DropSpentIsSuffix(Bumped(b, n));
      var popped := |b| - |AfterTake(b, n)|;
      if p < popped then Finished else Waiting(p - popped)
  }

  lemma MovedInRange<U>(b: seq<Entry<U>>, p: nat, op: Operation<U>)
    requires p < |b|
    ensures Moved(b, p, op).Waiting? ==> Moved(b, p, op).index < |After(b, op)|
  {}

  function FateOf<U>(b: seq<Entry<U>>, p: nat, ops: seq<Operation<U>>): Fate
    decreases |ops|
  {
    if ops == [] then Waiting(p)
    else
      match Moved(b, p, ops[0])
      case Waiting(q) => FateOf(After(b, ops[0]), q, ops[1..])
      case fate => fate
  }

  /** The operation puts the entry at index `p` on a message. */
  predicate OnMessage<U(==)>(b: seq<Entry<U>>, p: nat, op: Operation<U>)
    requires p < |b|
  {
    op.Send? && p < |Taken(b, op.max)| && Taken(b, op.max)[p] == b[p].update
  }

  /** How many of the operations put the entry that starts at index `p` on a message. */
  function TimesSent<U(==)>(b: seq<Entry<U>>, p: nat, ops: seq<Operation<U>>): nat
    requires p < |b|
    decreases |ops|
  {
    if ops == [] then 0
    else
      MovedInRange(b, p, ops[0]);
      (if OnMessage(b, p, ops[0]) then 1 else 0) +
      match Moved(b, p, ops[0])
      case Waiting(q) => TimesSent(After(b, ops[0]), q, ops[1..])
      case _ => 0
  }

  function SendCalls<U>(ops: seq<Operation<U>>): nat {
    if ops == [] then 0
    else (if ops[0].Send? && ops[0].max >= 1 then 1 else 0) + SendCalls(ops[1..])
  }

  /** Sends still owed to the entries of `b`. */
  ghost function Owed<U>(b: seq<Entry<U>>): int {
    if b == [] then 0 else MAX_SENDS - b[0].sends + Owed(b[1..])
  }

  lemma {:induction false} OwedBounds<U>(b: seq<Entry<U>>)
    requires forall i | 0 <= i < |b| :: b[i].sends < MAX_SENDS
    ensures |b| <= Owed(b) <= MAX_SENDS * |b|
  {
    if b == [] {
    } else {
      OwedBounds(b[1..]);
    }
  }

  lemma {:induction false} OwedSplit<U>(b: seq<Entry<U>>, k: nat)
    requires k <= |b|
    ensures Owed(b) == Owed(b[..k]) + Owed(b[k..])
  {
    if k == 0 {
    } else {
      OwedSplit(b[1..], k - 1);
      assert b[..k][1..] == b[1..][..k - 1];
      assert b[1..][k - 1..] == b[k..];
    }
  }

  lemma {:induction false} OwedNothing<U>(b: seq<Entry<U>>)
    requires forall i | 0 <= i < |b| :: b[i].sends == MAX_SENDS
    ensures Owed(b) == 0
  {
    if b == [] {
    } else {
      OwedNothing(b[1..]);
    }
  }

  lemma {:induction false} OwedAfterBump<U>(b: seq<Entry<U>>, n: nat)
    ensures Owed(Bumped(b, n)) <= Owed(b)
    ensures b != [] && n >= 1 ==> Owed(Bumped(b, n)) < Owed(b)
  {
    if b == [] {
    } else {
      var m: nat := if n >= 1 then n - 1 else 0;
      assert Bumped(b, n)[1..] == Bumped(b[1..], m);
      OwedAfterBump(b[1..], m);
    }
  }

  /** The entries that survive a send owe no more than all up to them owed after the bump. */
  lemma OwedAfterPop<U>(c: seq<Entry<U>>, p: nat)
    requires forall i | 0 <= i < |c| :: c[i].sends <= MAX_SENDS
    requires |c| - |DropSpent(c)| <= p < |c|
    ensures |DropSpent(c)| <= |c|
    ensures Owed(DropSpent(c)[..p - (|c| - |DropSpent(c)|) + 1]) == Owed(c[..p + 1])
  {
    DropSpentIsSuffix(c);
    var k := |c| - |DropSpent(c)|;
    var front := c[..p + 1];
    OwedSplit(front, k);
    forall i | 0 <= i < k ensures front[..k][i].sends == MAX_SENDS {
      assert front[..k][i] == c[i];
    }
    OwedNothing(front[..k]);
    assert front[k..] == DropSpent(c)[..p - k + 1];
  }

  lemma OwedAfterSend<U>(b: seq<Entry<U>>, p: nat, n: nat)
    requires Healthy(b) && p < |b|
    requires |b| - |AfterTake(b, n)| <= p
    ensures |AfterTake(b, n)| <= |b|
    ensures var q := p - (|b| - |AfterTake(b, n)|);
      Owed(AfterTake(b, n)[..q + 1]) + (if n >= 1 then 1 else 0) <= Owed(b[..p + 1])
  {
    TakeKeepsHealthy(b, n);
    OwedAfterPop(Bumped(b, n), p);
    assert Bumped(b, n)[..p + 1] == Bumped(b[..p + 1], n);
    OwedAfterBump(b[..p + 1], n);
  }

  lemma OwedAfterPush<U>(b: seq<Entry<U>>, p: nat, u: U)
    requires Healthy(b) && p < |b| && (|b| < MAX_BUFFER || p > 0)
    ensures var q := if |b| < MAX_BUFFER then p else p - 1;
      Owed(Push(b, u)[..q + 1]) <= Owed(b[..p + 1])
  {
    if |b| < MAX_BUFFER {
      assert Push(b, u)[..p + 1] == b[..p + 1];
    } else {
      assert Push(b, u)[..p] == b[..p + 1][1..];
    }
  }

  /** The buffer counts a send of an entry exactly when the entry is on the message. */
  lemma SendsAreCounted<U>(b: seq<Entry<U>>, p: nat, n: nat)
    requires p < |b|
    ensures Bumped(b, n)[p] == Entry(b[p].update, b[p].sends + if OnMessage(b, p, Send(n)) then 1 else 0)
  {}

  lemma SurvivorStays<U>(b: seq<Entry<U>>, p: nat, n: nat)
    requires Healthy(b) && p < |b|
    ensures var popped := |b| - |AfterTake(b, n)|;
      if p < popped then Bumped(b, n)[p].sends == MAX_SENDS
      else p - popped < |AfterTake(b, n)| && AfterTake(b, n)[p - popped] == Bumped(b, n)[p]
  {
    TakeKeepsHealthy(b, n);
    DropSpentIsSuffix(Bumped(b, n));
  }

  /** One operation: a waiting entry keeps its update, its count is exact, and work shrinks. */
  lemma EntryStep<U>(b: seq<Entry<U>>, p: nat, op: Operation<U>)
    requires Healthy(b) && p < |b|
    ensures var sent := if OnMessage(b, p, op) then 1 else 0;
      match Moved(b, p, op)
      case Waiting(q) =>
        && q < |After(b, op)|
        && After(b, op)[q] == Entry(b[p].update, b[p].sends + sent)
        && Owed(After(b, op)[..q + 1]) + (if op.Send? && op.max >= 1 then 1 else 0) <= Owed(b[..p + 1])
      case Finished => b[p].sends + sent == MAX_SENDS
      case Overflowed => p == 0 && op.Enqueue?
  {
    match op
    case Enqueue(u) =>
      if |b| < MAX_BUFFER || p > 0 {
        OwedAfterPush(b, p, u);
      }
    case Send(n) =>
      SendsAreCounted(b, p, n);
      SurvivorStays(b, p, n);
      if p >= |b| - |AfterTake(b, n)| {
        OwedAfterSend(b, p, n);
      }
  }

  lemma StepKeepsHealthy<U>(b: seq<Entry<U>>, op: Operation<U>)
    requires Healthy(b)
    ensures Healthy(After(b, op))
  {
    match op
    case Enqueue(u) => PushKeepsHealthy(b, u);
    case Send(n) => TakeKeepsHealthy(b, n);
  }

  /** Over any interleaving of enqueues and sends, an entry at index `p` that is not pushed out by
      overflow leaves after exactly MAX_SENDS sends, and cannot outlast MAX_SENDS * (p + 1) calls
      that send at least one update. */
  lemma {:induction false} EntryLifetime<U>(b: seq<Entry<U>>, p: nat, ops: seq<Operation<U>>)
    requires Healthy(b) && p < |b|
    ensures var total := b[p].sends + TimesSent(b, p, ops);
      match FateOf(b, p, ops)
      case Waiting(q) =>
        && q < |AfterAll(b, ops)|
        && AfterAll(b, ops)[q] == Entry(b[p].update, total)
        && total < 10
        && SendCalls(ops) < 10 * (p + 1)
      case Finished => total == 10
      case Overflowed => total < 10
  {
    EntryWork(b, p, ops);
    OwedBounds(b[..p + 1]);
  }

  lemma {:induction false} EntryWork<U>(b: seq<Entry<U>>, p: nat, ops: seq<Operation<U>>)
    requires Healthy(b) && p < |b|
    ensures var total := b[p].sends + TimesSent(b, p, ops);
      match FateOf(b, p, ops)
      case Waiting(q) =>
        && q < |AfterAll(b, ops)|
        && AfterAll(b, ops)[q] == Entry(b[p].update, total)
        && total < MAX_SENDS
        && SendCalls(ops) < Owed(b[..p + 1])
      case Finished => total == MAX_SENDS
      case Overflowed => total < MAX_SENDS
    decreases |ops|
  {
    if ops == [] {
      OwedBounds(b[..p + 1]);
    } else {
      EntryStep(b, p, ops[0]);
      StepKeepsHealthy(b, ops[0]);
      match Moved(b, p, ops[0])
      case Waiting(q) => EntryWork(After(b, ops[0]), q, ops[1..]);
      case _ =>
    }
  }

  /** Oldest first, over any interleaving: whenever an entry is on a message so is every older one, and an
      older entry that overflow does not push out has been on at least as many messages as a newer one. */
  lemma {:induction false} OlderIsSentAsOften<U>(b: seq<Entry<U>>, p: nat, q: nat, ops: seq<Operation<U>>)
    requires Healthy(b) && p < q < |b|
    ensures ops != [] && OnMessage(b, q, ops[0]) ==> OnMessage(b, p, ops[0])
    ensures FateOf(b, p, ops) != Overflowed ==>
      b[p].sends + TimesSent(b, p, ops) >= b[q].sends + TimesSent(b, q, ops)
    decreases |ops|
  {
    if ops == [] {
    } else {
      EntryStep(b, p, ops[0]);
      EntryStep(b, q, ops[0]);
      StepKeepsHealthy(b, ops[0]);
      match Moved(b, p, ops[0])
      case Waiting(p') => OlderIsSentAsOften(After(b, ops[0]), p', Moved(b, q, ops[0]).index, ops[1..]);
      case _ => EntryLifetime(b, q, ops);
    }
  }

  lemma {:induction false} AfterAllConcat<U>(b: seq<Entry<U>>, first: seq<Operation<U>>, rest: seq<Operation<U>>)
    ensures AfterAll(b, first + rest) == AfterAll(AfterAll(b, first), rest)
    decreases |first|
  {
    if first == [] {
      assert first + rest == rest;
    } else {
      assert (first + rest)[1..] == first[1..] + rest;
      AfterAllConcat(After(b, first[0]), first[1..], rest);
    }
  }

  /** An entry's sends add up over consecutive parts of a run. */
  lemma {:induction false} TimesSentConcat<U>(b: seq<Entry<U>>, p: nat, first: seq<Operation<U>>,
                                              rest: seq<Operation<U>>)
    requires Healthy(b) && p < |b|
    ensures match FateOf(b, p, first)
      case Waiting(q) =>
        q < |AfterAll(b, first)| &&
        TimesSent(b, p, first + rest) == TimesSent(b, p, first) + TimesSent(AfterAll(b, first), q, rest)
      case _ => TimesSent(b, p, first + rest) == TimesSent(b, p, first)
    decreases |first|
  {
    if first == [] {
      assert first + rest == rest;
    } else {
      assert (first + rest)[1..] == first[1..] + rest;
      EntryStep(b, p, first[0]);
      StepKeepsHealthy(b, first[0]);
      match Moved(b, p, first[0])
      case Waiting(q) => TimesSentConcat(After(b, first[0]), q, first[1..], rest);
      case _ =>
    }
  }

  lemma {:induction false} EnqueuesSendNothing<U>(b: seq<Entry<U>>, p: nat, ops: seq<Operation<U>>)
    requires p < |b|
    requires forall op :: op in ops ==> op.Enqueue?
    ensures TimesSent(b, p, ops) == 0
    decreases |ops|
  {
    if ops == [] {
    } else {
      assert ops[0] in ops && forall op :: op in ops[1..] ==> op in ops;
      match Moved(b, p, ops[0])
      case Waiting(q) =>
        MovedInRange(b, p, ops[0]);
        EnqueuesSendNothing(After(b, ops[0]), q, ops[1..]);
      case _ =>
    }
  }
}
