/** Serving one request on the plain path: the replica's token loop, the streaming proxy and the retry loop.
    What the rest of the world answers (the load balancer, the queue, the breaker, the replicas, the client)
    is an environment of functions. The loop is proved to go exactly through the turns of `History`; what
    it promises is proved about them in Failover. */
module Inference {
  import opened Options
  import opened Views
  import opened Handlers
  import opened TokenStreams

  datatype Status = Ok | Cancelled | ResourceExhausted | Unavailable

  /** What arrives from a replica's stream, and whether it finished without error. */
  datatype Feed = Feed(tokens: seq<int>, finishOk: bool)

  function Max(a: int, b: int): int { if a < b then b else a }

  /** A replica resumes after the tokens already generated, never goes past the request, and ends well
      only at its end. */
  predicate IsFeed(f: Feed, start: int, end: int) {
    && f.tokens == Range(start, |f.tokens|) && start + |f.tokens| <= Max(start, end)
    && (f.finishOk ==> start + |f.tokens| >= end)
  }

  /** The replica: `cut` says at which index the stream breaks, if it does. The stream holds every index
      before the first cut, and ends well exactly when it reaches the end. */
  method Generate(rejected: bool, start: int, end: int, cut: int -> bool) returns (f: Feed)
    ensures IsFeed(f, start, end)
    ensures rejected ==> f == Feed([], false)
    ensures !rejected ==> forall i | start <= i < start + |f.tokens| :: !cut(i)
    ensures !rejected ==> (f.finishOk <==> start + |f.tokens| >= end)
    ensures !rejected && !f.finishOk ==> cut(start + |f.tokens|)
  {
    if rejected {
      return Feed([], false);
    }
    var tokens: seq<int> := [];
    var i := start;
    while i < end
      invariant start <= i <= Max(start, end)
      invariant tokens == Range(start, i - start)
      invariant forall j | start <= j < i :: !cut(j)
    {
      if cut(i) {
        return Feed(tokens, false);
      }
      tokens := tokens + [i];
      i := i + 1;
    }
    return Feed(tokens, true);
  }

  /** How many of `n` tokens reach a client that is lost at the first index where it has gone or a
      write breaks. */
  function Reach(gone: nat -> bool, broken: nat -> bool, n: nat): (k: nat)
    ensures k <= n && (k < n ==> gone(k) || broken(k))
    ensures forall j: nat | j < k :: !gone(j) && !broken(j)
  {
    if n == 0 then 0
    else
      var k := Reach(gone, broken, n - 1);
      if k < n - 1 || gone(k) || broken(k) then k else n
  }

  /** What one stream puts before the client; it failed if all of it was forwarded and it then broke off. */
  function SegmentOf(r: Id, feed: Feed, gone: nat -> bool, broken: nat -> bool): Segment {
    var k := Reach(gone, broken, |feed.tokens|);
    Segment(r, feed.tokens[..k], k == |feed.tokens| && !feed.finishOk)
  }

  /** Forward a feed to the client. A client that has gone ends the stream without error; otherwise a
      failed stream yields -1, whatever was already forwarded. */
  method StreamFromReplica(feed: Feed, cancelled: nat -> bool, broken: nat -> bool)
    returns (streamed: int, written: seq<int>)
    ensures written == feed.tokens[..Reach(cancelled, broken, |feed.tokens|)]
    ensures streamed == if |written| == |feed.tokens| && !feed.finishOk then -1 else |written|
  {
    written := [];
    var next := 0;
    while next < |feed.tokens|
      invariant 0 <= next <= |feed.tokens| && written == feed.tokens[..next]
      invariant forall k: nat | k < next :: !cancelled(k) && !broken(k)
    {
      if cancelled(next) {
        return next, written;
      }
      if broken(next) {
        return next, written;
      }
      written := written + [feed.tokens[next]];
      next := next + 1;
    }
    if !feed.finishOk {
      return -1, written;
    }
    return next, written;
  }

  // ---- The retry loop ----

  const MAX_RETRIES := 3

  /** Answers by attempt number; the client is lost at a token index. */
  datatype Env = Env(
    cancelled: nat -> bool,
    pick: (nat, set<Id>) -> Option<Id>,
    woken: nat -> bool,
    repick: (nat, set<Id>) -> Option<Id>,
    allows: (nat, Id) -> bool,
    feed: (nat, Id, int) -> Feed,
    clientGone: nat -> nat -> bool,
    writeFails: nat -> nat -> bool)

  /** The client's stream stays as it is once it is lost: a cancelled call stays cancelled, and no write
      succeeds after one that failed. */
  ghost predicate Lasting(env: Env) {
    && (forall k: nat, m: nat | k <= m :: env.cancelled(k) ==> env.cancelled(m))
    && (forall k: nat, i: nat :: env.cancelled(k) ==> env.clientGone(k)(i))
    && (forall k: nat, i: nat, m: nat | k < m :: env.clientGone(k)(i) ==> env.cancelled(m))
    && (forall k: nat, i: nat, j: nat | i <= j :: env.clientGone(k)(i) ==> env.clientGone(k)(j))
    && (forall k: nat, i: nat, j: nat | i <= j :: env.writeFails(k)(i) ==> env.writeFails(k)(j))
    && (forall k: nat, i: nat, m: nat, j: nat | k < m :: env.writeFails(k)(i) ==> env.writeFails(m)(j))
  }

  /** The load balancer never returns an excluded replica; replicas generate as they should; the client's
      stream is lasting. */
  ghost predicate Lawful(env: Env, maxTokens: int) {
    && Lasting(env)
    && (forall k, ex :: env.pick(k, ex).Some? ==> env.pick(k, ex).value !in ex)
    && (forall k, ex :: env.repick(k, ex).Some? ==> env.repick(k, ex).value !in ex)
    && (forall k, r, start :: IsFeed(env.feed(k, r, start), start, maxTokens))
  }

  /** How one iteration of the loop went. */
  datatype Turn =
    | Abandoned                                    // the client had cancelled
    | Exhausted                                    // no replica, and the wait was not served
    | StillStarved                                 // no replica, not even after the wait
    | Refused(replica: Id, waited: bool)           // the breaker said no
    | Attempted(segment: Segment, waited: bool)

  /** Iteration `k` picks nothing and is not served by the queue. */
  predicate Unserved(env: Env, k: nat, excluded: set<Id>) {
    !env.cancelled(k) && env.pick(k, excluded).None? && !env.woken(k)
  }

  function Chosen(env: Env, k: nat, excluded: set<Id>): Option<Id> {
    if env.pick(k, excluded).Some? then env.pick(k, excluded) else env.repick(k, excluded)
  }

  function StreamOf(env: Env, k: nat, r: Id, sent: nat): Segment {
    SegmentOf(r, env.feed(k, r, sent), env.clientGone(k), env.writeFails(k))
  }

  function TurnAt(env: Env, k: nat, excluded: set<Id>, sent: nat): Turn {
    if env.cancelled(k) then Abandoned
    else if Unserved(env, k, excluded) then Exhausted
    else
      var waited := env.pick(k, excluded).None?;
      match Chosen(env, k, excluded)
      case None => StillStarved
      case Some(r) => if env.allows(k, r) then Attempted(StreamOf(env, k, r, sent), waited) else Refused(r, waited)
  }

  function ReplicaOf(t: Turn): Option<Id> {
    match t
    case Refused(r, _) => Some(r)
    case Attempted(s, _) => Some(s.replica)
    case _ => None
  }

  function Excludes(t: Turn): set<Id> { match ReplicaOf(t) case Some(r) => {r} case None => {} }

  /** The replicas that later iterations exclude. */
  function Tried(turns: seq<Turn>): set<Id> {
    if turns == [] then {}
    else
      var n := |turns| - 1;
      Tried(turns[..n]) + Excludes(turns[n])
  }

  function Segments(turns: seq<Turn>): seq<Segment> {
    if turns == [] then []
    else
      var n := |turns| - 1;
      if turns[n].Attempted? then Segments(turns[..n]) + [turns[n].segment] else Segments(turns[..n])
  }

  /** The tokens of attempts that did not fail. */
  function Sent(turns: seq<Turn>): nat { |Kept(Segments(turns))| }

  predicate Stopped(turns: seq<Turn>) {
    turns != [] && (turns[|turns| - 1].Abandoned? || turns[|turns| - 1].Exhausted?)
  }

  predicate Over(turns: seq<Turn>, maxTokens: int) { Stopped(turns) || Sent(turns) >= maxTokens }

  /** The iterations of the loop, `n` of them unless it is over before. */
  function History(env: Env, maxTokens: int, n: nat): (h: seq<Turn>)
    ensures |h| <= n && (!Over(h, maxTokens) ==> |h| == n)
  {
    if n == 0 then []
    else
      var h := History(env, maxTokens, n - 1);
      if Over(h, maxTokens) then h else h + [TurnAt(env, n - 1, Tried(h), Sent(h))]
  }

  function Verdict(turns: seq<Turn>, maxTokens: int): Status {
    if turns != [] && turns[|turns| - 1].Abandoned? then Cancelled
    else if turns != [] && turns[|turns| - 1].Exhausted? then ResourceExhausted
    else if Sent(turns) >= maxTokens || Sent(turns) > 0 then Ok
    else Unavailable
  }

  /** The calls on shared state that choosing a replica takes. */
  function PickLog(calls: seq<Call>, r: Id, waited: bool): seq<Call> {
    (if waited then calls + [Starve] + [Wake(true)] else calls) + [Pick(r)]
  }

  /** The calls of one granted attempt: counted in, streamed, counted out, notified, recorded. */
  function AttemptLog(calls: seq<Call>, r: Id, ok: bool): seq<Call> {
    calls + [Grant(r)] + [Inc(r)] + [Stream(r, ok)] + [Dec(r)] + [Notify] + [Record(r, ok)]
  }

  function Logged(calls: seq<Call>, t: Turn): seq<Call> {
    match t
    case Abandoned => calls
    case Exhausted => calls + [Starve] + [Wake(false)]
    case StillStarved => calls + [Starve] + [Wake(true)] + [Starve]
    case Refused(r, waited) => PickLog(calls, r, waited) + [Refuse(r)]
    case Attempted(s, waited) => AttemptLog(PickLog(calls, s.replica, waited), s.replica, !s.failed)
  }

  function Log(turns: seq<Turn>): seq<Call> {
    if turns == [] then []
    else var n := |turns| - 1; Logged(Log(turns[..n]), turns[n])
  }

  /** Select a replica, waiting once for capacity if there is none. A full queue or a timeout gives up. */
  method ChooseReplica(env: Env, k: nat, excluded: set<Id>, calls: seq<Call>)
    returns (selection: Option<Id>, gaveUp: bool, after: seq<Call>)
    requires !env.cancelled(k)
    ensures gaveUp <==> Unserved(env, k, excluded)
    ensures gaveUp ==> after == Logged(calls, Exhausted)
    ensures !gaveUp ==> selection == Chosen(env, k, excluded)
    ensures !gaveUp && selection.None? ==> after == Logged(calls, StillStarved)
    ensures !gaveUp && selection.Some? ==> after == PickLog(calls, selection.value, env.pick(k, excluded).None?)
  {
    selection := env.pick(k, excluded);
    if selection.Some? {
      return selection, false, calls + [Pick(selection.value)];
    }
    after := calls + [Starve];
    var served := env.woken(k);
    after := after + [Wake(served)];
    if !served {
      return None, true, after;
    }
    selection := env.repick(k, excluded);
    if selection.None? {
      return None, false, after + [Starve];
    }
    return selection, false, after + [Pick(selection.value)];
  }

  lemma {:induction false} OverForGood(env: Env, maxTokens: int, n: nat, m: nat)
    requires n <= m
    ensures Over(History(env, maxTokens, n), maxTokens) || n == m ==>
      History(env, maxTokens, m) == History(env, maxTokens, n)
    decreases m
  {
    if n == m {
    } else {
      OverForGood(env, maxTokens, n, m - 1);
    }
  }

  /** One granted attempt: count the replica in, stream, count it out, notify, record the outcome. */
  method ServeAttempt(env: Env, k: nat, r: Id, sent: nat, calls: seq<Call>)
    returns (streamed: int, tokens: seq<int>, after: seq<Call>)
    ensures var s := StreamOf(env, k, r, sent);
      && tokens == s.tokens && streamed == (if s.failed then -1 else |s.tokens|)
      && after == AttemptLog(calls, r, !s.failed)
  {
    after := calls + [Grant(r)];
    after := after + [Inc(r)];
    streamed, tokens := StreamFromReplica(env.feed(k, r, sent), env.clientGone(k), env.writeFails(k));
    after := after + [Stream(r, streamed >= 0)];
    after := after + [Dec(r)];
    after := after + [Notify];
    if streamed < 0 {
      after := after + [Record(r, false)];
    } else {
      after := after + [Record(r, true)];
    }
  }

  function Gain(t: Turn): nat { if t.Attempted? && !t.segment.failed then |t.segment.tokens| else 0 }

  function Output(t: Turn): seq<int> { if t.Attempted? then t.segment.tokens else [] }

  function Stop(t: Turn): Option<Status> {
    match t
    case Abandoned => Some(Cancelled)
    case Exhausted => Some(ResourceExhausted)
    case _ => None
  }

  /** The body of the retry loop. */
  method Iterate(env: Env, k: nat, sent: nat, excluded: set<Id>, calls: seq<Call>)
    returns (stop: Option<Status>, gained: nat, tokens: seq<int>, tried: set<Id>, after: seq<Call>)
    ensures var t := TurnAt(env, k, excluded, sent);
      && stop == Stop(t) && gained == Gain(t) && tokens == Output(t)
      && tried == excluded + Excludes(t) && after == Logged(calls, t)
  {
    stop, gained, tokens, tried, after := None, 0, [], excluded, calls;
    if env.cancelled(k) {
      stop := Some(Cancelled);
      return;
    }
    var selection, gaveUp;
    selection, gaveUp, after := ChooseReplica(env, k, excluded, calls);
    if gaveUp {
      stop := Some(ResourceExhausted);
      return;
    }
    if selection.None? {
      return;
    }
    var r := selection.value;
    tried := excluded + {r};
    if !env.allows(k, r) {
      after := after + [Refuse(r)];
      return;
    }
    var streamed;
    streamed, tokens, after := ServeAttempt(env, k, r, sent, after);
    if streamed >= 0 {
      gained := streamed;
    }
  }

  /** The loop's variables after `n` iterations that did not end it. */
  ghost predicate Standing(env: Env, maxTokens: int, n: nat, sent: int, excluded: set<Id>, written: seq<int>,
                           calls: seq<Call>) {
    var h := History(env, maxTokens, n);
    && !Stopped(h) && sent == Sent(h) && excluded == Tried(h)
    && written == Delivered(Segments(h)) && calls == Log(h)
  }

  /** The loop's results, after `tries` iterations at most. */
  ghost predicate Ended(env: Env, maxTokens: int, tries: nat, status: Status, written: seq<int>, calls: seq<Call>) {
    var h := History(env, maxTokens, tries);
    status == Verdict(h, maxTokens) && written == Delivered(Segments(h)) && calls == Log(h) + [Return]
  }

  lemma TurnAdded(h: seq<Turn>, t: Turn)
    ensures Tried(h + [t]) == Tried(h) + Excludes(t)
    ensures Segments(h + [t]) == if t.Attempted? then Segments(h) + [t.segment] else Segments(h)
    ensures Log(h + [t]) == Logged(Log(h), t)
    ensures Delivered(Segments(h + [t])) == Delivered(Segments(h)) + Output(t)
    ensures Sent(h + [t]) == Sent(h) + Gain(t)
  {
    assert (h + [t])[..|h|] == h;
    if t.Attempted? {
      SegmentGrows(Segments(h), t.segment);
    }
  }

  lemma SegmentGrows(segments: seq<Segment>, s: Segment)
    ensures Kept(segments + [s]) == Kept(segments) + if s.failed then [] else s.tokens
    ensures Delivered(segments + [s]) == Delivered(segments) + s.tokens
  {
    assert (segments + [s])[..|segments|] == segments;
  }

  lemma HistoryNext(env: Env, maxTokens: int, n: nat, sent: nat, excluded: set<Id>)
    requires !Over(History(env, maxTokens, n), maxTokens)
    requires sent == Sent(History(env, maxTokens, n)) && excluded == Tried(History(env, maxTokens, n))
    ensures History(env, maxTokens, n + 1) == History(env, maxTokens, n) + [TurnAt(env, n, excluded, sent)]
  {}

  /** What one iteration makes of the loop's variables, or how it ends the loop. */
  lemma NextTurn(env: Env, maxTokens: int, tries: nat, n: nat, sent: nat, excluded: set<Id>, written: seq<int>,
                 calls: seq<Call>, t: Turn)
    requires Standing(env, maxTokens, n, sent, excluded, written, calls) && n < tries && sent < maxTokens
    requires t == TurnAt(env, n, excluded, sent)
    ensures match Stop(t)
      case Some(status) => Ended(env, maxTokens, tries, status, written, Logged(calls, t) + [Return])
      case None => Standing(env, maxTokens, n + 1, sent + Gain(t), excluded + Excludes(t), written + Output(t),
                            Logged(calls, t))
  {
    HistoryNext(env, maxTokens, n, sent, excluded);
    TurnAdded(History(env, maxTokens, n), t);
    OverForGood(env, maxTokens, n + 1, tries);
  }

  lemma LastTurn(env: Env, maxTokens: int, tries: nat, n: nat, sent: int, excluded: set<Id>, written: seq<int>,
                 calls: seq<Call>)
    requires Standing(env, maxTokens, n, sent, excluded, written, calls)
    requires n == tries || (n <= tries && sent >= maxTokens)
    ensures Ended(env, maxTokens, tries, if sent >= maxTokens || sent > 0 then Ok else Unavailable, written,
                  calls + [Return])
  {
    OverForGood(env, maxTokens, n, tries);
  }

  /** The plain path. */
  method Infer(env: Env, maxTokens: int) returns (status: Status, written: seq<int>, calls: seq<Call>)
    ensures Ended(env, maxTokens, MAX_RETRIES, status, written, calls)
  {
    written, calls := [], [];
    var tokensSent := 0;
    var excluded: set<Id> := {};
    var attempt := 0;
    while attempt < MAX_RETRIES && tokensSent < maxTokens
      invariant 0 <= attempt <= MAX_RETRIES && 0 <= tokensSent
      invariant Standing(env, maxTokens, attempt, tokensSent, excluded, written, calls)
      decreases MAX_RETRIES - attempt
    {
      ghost var turn := TurnAt(env, attempt, excluded, tokensSent);
      NextTurn(env, maxTokens, MAX_RETRIES, attempt, tokensSent, excluded, written, calls, turn);
      var stop, gained, tokens;
      stop, gained, tokens, excluded, calls := Iterate(env, attempt, tokensSent, excluded, calls);
      if stop.Some? {
        return stop.value, written, calls + [Return];
      }
      attempt, tokensSent, written := attempt + 1, tokensSent + gained, written + tokens;
    }
    LastTurn(env, maxTokens, MAX_RETRIES, attempt, tokensSent, excluded, written, calls);
    status := if tokensSent >= maxTokens then Ok else if tokensSent > 0 then Ok else Unavailable;
    return status, written, calls + [Return];
  }
}
