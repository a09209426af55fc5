/** The three-state breaker that guards one replica. */
module CircuitBreakers {
  import opened Clock

  datatype BreakerState = Closed | Open | HalfOpen

  datatype Config = Config(windowSize: int, errorThreshold: real, cooldownMs: int)

  datatype Breaker = Breaker(state: BreakerState, outcomes: seq<bool>, openedAt: int, probeInFlight: bool)

  const FRESH := Breaker(Closed, [], 0, false)

  // ---- What each call does ----

  function Failures(outcomes: seq<bool>): nat {
    if outcomes == [] then 0
    else var n := |outcomes| - 1; Failures(outcomes[..n]) + if outcomes[n] then 0 else 1
  }

  /** An empty window has no rate: the comparison with 0/0 is false. */
  predicate Excessive(cfg: Config, outcomes: seq<bool>) {
    outcomes != [] && Failures(outcomes) as real / |outcomes| as real > cfg.errorThreshold
  }

  function Evaluated(cfg: Config, b: Breaker, now: int): Breaker {
    if b.state == Closed && |b.outcomes| >= cfg.windowSize && Excessive(cfg, b.outcomes)
    then b.(state := Open, openedAt := now) else b
  }

  function Slid(cfg: Config, outcomes: seq<bool>, ok: bool): seq<bool> {
    var longer := outcomes + [ok];
    if |longer| > cfg.windowSize then longer[1..] else longer
  }

  predicate Allows(cfg: Config, b: Breaker, now: int) {
    match b.state
    case Closed => true
    case Open => ElapsedMs(b.openedAt, now) >= cfg.cooldownMs
    case HalfOpen => !b.probeInFlight
  }

  function AfterAllow(cfg: Config, b: Breaker, now: int): Breaker {
    if b.state != Closed && Allows(cfg, b, now) then b.(state := HalfOpen, probeInFlight := true) else b
  }

  function AfterRecord(cfg: Config, b: Breaker, ok: bool, now: int): Breaker {
    var slid := b.(outcomes := Slid(cfg, b.outcomes, ok));
    if b.state == HalfOpen then
      if ok then Evaluated(cfg, Breaker(Closed, [], b.openedAt, false), now)
      else slid.(state := Open, openedAt := now, probeInFlight := false)
    else Evaluated(cfg, slid, now)
  }

  // ---- The object ----

  class CircuitBreaker {
    const config: Config
    var state: BreakerState
    var outcomes: seq<bool>
    var openedAt: int
    var probeInFlight: bool

    constructor (config: Config)
      ensures this.config == config && Contents() == FRESH
    {
      this.config := config;
      state := Closed;
      outcomes := [];
      openedAt := 0;
      probeInFlight := false;
    }

    function Contents(): Breaker
      reads this
    {
      Breaker(state, outcomes, openedAt, probeInFlight)
    }

    method AllowRequest(now: int) returns (allowed: bool)
      modifies this
      ensures allowed == Allows(config, old(Contents()), now)
      ensures Contents() == AfterAllow(config, old(Contents()), now)
    {
      match state
      case Closed =>
        return true;
      case Open =>
        if ElapsedMs(openedAt, now) >= config.cooldownMs {
          state := HalfOpen;
          probeInFlight := true;
          return true;
        }
        return false;
      case HalfOpen =>
        if !probeInFlight {
          probeInFlight := true;
          return true;
        }
        return false;
    }

    method EvaluateState(now: int)
      modifies this
      ensures Contents() == Evaluated(config, old(Contents()), now)
    {
      if state != Closed || |outcomes| < config.windowSize {
        return;
      }
      var failures := 0;
      for i := 0 to |outcomes|
        invariant failures == Failures(outcomes[..i])
      {
        assert outcomes[..i + 1][..i] == outcomes[..i];
        if !outcomes[i] {
          failures := failures + 1;
        }
      }
      assert outcomes[..|outcomes|] == outcomes;
      if |outcomes| > 0 && failures as real / |outcomes| as real > config.errorThreshold {
        state := Open;
        openedAt := now;
      }
    }

    method RecordSuccess(now: int)
      modifies this
      ensures Contents() == AfterRecord(config, old(Contents()), true, now)
    {
      outcomes := outcomes + [true];
      if |outcomes| > config.windowSize {
        outcomes := outcomes[1..];
      }
      if state == HalfOpen {
        state := Closed;
        probeInFlight := false;
        outcomes := [];
      }
      EvaluateState(now);
    }

    method RecordFailure(now: int)
      modifies this
      ensures Contents() == AfterRecord(config, old(Contents()), false, now)
    {
      outcomes := outcomes + [false];
      if |outcomes| > config.windowSize {
        outcomes := outcomes[1..];
      }
      if state == HalfOpen {
        state := Open;
        openedAt := now;
        probeInFlight := false;
        return;
      }
      EvaluateState(now);
    }
  }

  // ---- Any sequence of calls, stragglers included ----

  /** What a request does at the breaker. A hedged request joins the replica without asking, and quits
      without a record if its stream lost the race empty-handed. */
  datatype Call =
    | Ask(request: nat, now: int)
    | Join(request: nat, now: int)
    | Quit(request: nat, now: int)
    | Record(request: nat, ok: bool, now: int)

  function After(cfg: Config, b: Breaker, c: Call): Breaker {
    match c
    case Ask(_, now) => AfterAllow(cfg, b, now)
    case Record(_, ok, now) => AfterRecord(cfg, b, ok, now)
    case _ => b
  }

  function AfterAll(cfg: Config, b: Breaker, calls: seq<Call>): Breaker {
    if calls == [] then b
    else var n := |calls| - 1; After(cfg, AfterAll(cfg, b, calls[..n]), calls[n])
  }

  predicate Consistent(b: Breaker) { b.probeInFlight <==> b.state == HalfOpen }

  /** A probe is in flight exactly in HALF_OPEN, after any calls. */
  lemma {:induction false} ProbeExactlyInHalfOpen(cfg: Config, b: Breaker, calls: seq<Call>)
    requires Consistent(b)
    ensures Consistent(AfterAll(cfg, b, calls))
  {
    if calls == [] {
    } else {
      ProbeExactlyInHalfOpen(cfg, b, calls[..|calls| - 1]);
    }
  }

  /** The times at which requests were let through. */
  function Grants(cfg: Config, b: Breaker, calls: seq<Call>): seq<int> {
    if calls == [] then []
    else
      var n := |calls| - 1;
      Grants(cfg, b, calls[..n]) +
      if calls[n].Ask? && Allows(cfg, AfterAll(cfg, b, calls[..n]), calls[n].now) then [calls[n].now] else []
  }

  ghost predicate Monotone(start: int, calls: seq<Call>) {
    && (forall i | 0 <= i < |calls| :: start <= calls[i].now)
    && (forall i, j | 0 <= i < j < |calls| :: calls[i].now <= calls[j].now)
  }

  ghost predicate NeverCloses(cfg: Config, b: Breaker, calls: seq<Call>) {
    forall k | 0 <= k <= |calls| :: AfterAll(cfg, b, calls[..k]).state != Closed
  }

  lemma NeverClosesBefore(cfg: Config, b: Breaker, calls: seq<Call>)
    requires NeverCloses(cfg, b, calls) && calls != []
    ensures NeverCloses(cfg, b, calls[..|calls| - 1])
    ensures AfterAll(cfg, b, calls[..|calls| - 1]).state != Closed && AfterAll(cfg, b, calls).state != Closed
  {
    var n := |calls| - 1;
    forall k | 0 <= k <= n ensures AfterAll(cfg, b, calls[..n][..k]).state != Closed {
      assert calls[..n][..k] == calls[..k];
    }
    assert calls[..n][..n] == calls[..n] && calls[..n + 1] == calls;
  }

  /** The earliest time for the next grant, in nanoseconds. */
  function Due(cfg: Config, trip: int, grants: nat): int {
    trip + grants * cfg.cooldownMs * NS_PER_MS
  }

  lemma DueNext(cfg: Config, trip: int, grants: nat)
    ensures Due(cfg, trip, 0) == trip
    ensures Due(cfg, trip, grants + 1) == Due(cfg, trip, grants) + cfg.cooldownMs * NS_PER_MS
  {
    assert 0 * cfg.cooldownMs == 0;
    assert (grants + 1) * cfg.cooldownMs == grants * cfg.cooldownMs + cfg.cooldownMs;
  }

  lemma CooldownElapsed(cfg: Config, openedAt: int, now: int)
    requires ElapsedMs(openedAt, now) >= cfg.cooldownMs && now >= openedAt
    ensures now >= openedAt + cfg.cooldownMs * NS_PER_MS
  {}

  /** After `grants` requests were let through, as of `latest`. */
  ghost predicate Spaced(cfg: Config, trip: int, b: Breaker, grants: nat, latest: int) {
    && Consistent(b) && b.state != Closed && b.openedAt <= latest
    && (b.state == Open ==> b.openedAt >= Due(cfg, trip, grants))
    && (b.state == HalfOpen ==> latest >= Due(cfg, trip, grants))
  }

  lemma CallIsSpaced(cfg: Config, trip: int, b: Breaker, grants: nat, latest: int, c: Call)
    requires Spaced(cfg, trip, b, grants, latest) && latest <= c.now && After(cfg, b, c).state != Closed
    ensures var granted := c.Ask? && Allows(cfg, b, c.now);
      && Spaced(cfg, trip, After(cfg, b, c), if granted then grants + 1 else grants, c.now)
      && (granted ==> c.now >= Due(cfg, trip, grants + 1))
  {
    DueNext(cfg, trip, grants);
    if c.Ask? && b.state == Open && Allows(cfg, b, c.now) {
      CooldownElapsed(cfg, b.openedAt, c.now);
    }
  }

  lemma TripIsSpaced(cfg: Config, b: Breaker, trip: int)
    requires b.state == Open && b.openedAt == trip && !b.probeInFlight
    ensures Spaced(cfg, trip, b, 0, trip)
  {
    DueNext(cfg, trip, 0);
  }

  lemma {:induction false} CallsAreSpaced(cfg: Config, b: Breaker, trip: int, calls: seq<Call>)
    requires b.state == Open && b.openedAt == trip && !b.probeInFlight
    requires Monotone(trip, calls) && NeverCloses(cfg, b, calls)
    ensures Spaced(cfg, trip, AfterAll(cfg, b, calls), |Grants(cfg, b, calls)|,
                   if calls == [] then trip else calls[|calls| - 1].now)
  {
    if calls == [] {
      TripIsSpaced(cfg, b, trip);
    } else {
      var n := |calls| - 1;
      NeverClosesBefore(cfg, b, calls);
      CallsAreSpaced(cfg, b, trip, calls[..n]);
      var latest := if n == 0 then trip else calls[n - 1].now;
      CallIsSpaced(cfg, trip, AfterAll(cfg, b, calls[..n]), |Grants(cfg, b, calls[..n])|, latest, calls[n]);
    }
  }

  /** A breaker that tripped at `trip` and does not close again, on a monotone clock: the n-th request
      let through comes no earlier than n cooldowns after the trip. */
  lemma {:induction false} CooldownSpacing(cfg: Config, b: Breaker, trip: int, calls: seq<Call>, k: nat)
    requires b.state == Open && b.openedAt == trip && !b.probeInFlight
    requires Monotone(trip, calls) && NeverCloses(cfg, b, calls)
    requires k < |Grants(cfg, b, calls)|
    ensures Grants(cfg, b, calls)[k] >= Due(cfg, trip, k + 1)
  {
    var n := |calls| - 1;
    NeverClosesBefore(cfg, b, calls);
    if k < |Grants(cfg, b, calls[..n])| {
      CooldownSpacing(cfg, b, trip, calls[..n], k);
    } else {
      CallsAreSpaced(cfg, b, trip, calls[..n]);
      var latest := if n == 0 then trip else calls[n - 1].now;
      CallIsSpaced(cfg, trip, AfterAll(cfg, b, calls[..n]), k, latest, calls[n]);
    }
  }

  lemma ElapsedExactly(since: int, now: int, ms: int)
    requires since <= now
    ensures ElapsedMs(since, now) >= ms <==> now - since >= ms * 1_000_000
  {}

  /** An open breaker lets a request through, as its probe, exactly when the cooldown is over. */
  lemma OpenLetsThroughExactly(cfg: Config, b: Breaker, now: int)
    requires b.state == Open && b.openedAt <= now
    ensures Allows(cfg, b, now) <==> now >= b.openedAt + cfg.cooldownMs * 1_000_000
    ensures AfterAllow(cfg, b, now) ==
      if now >= b.openedAt + cfg.cooldownMs * 1_000_000 then b.(state := HalfOpen, probeInFlight := true) else b
  {
    ElapsedExactly(b.openedAt, now, cfg.cooldownMs);
  }

  /** The outcome that opens a breaker starts its cooldown. */
  lemma OpeningIsStamped(cfg: Config, b: Breaker, request: nat, ok: bool, now: int)
    requires Consistent(b) && b.state != Open && After(cfg, b, Record(request, ok, now)).state == Open
    ensures After(cfg, b, Record(request, ok, now)).openedAt == now
    ensures !After(cfg, b, Record(request, ok, now)).probeInFlight
  {}

  /** Without outcomes an open breaker stays as it is until the cooldown is over, and the first request after
      that turns it to HALF_OPEN for good. */
  lemma {:induction false} OpenUntilCool(cfg: Config, b: Breaker, calls: seq<Call>)
    requires b.state == Open && Monotone(b.openedAt, calls) && forall c :: c in calls ==> !c.Record?
    ensures AfterAll(cfg, b, calls) ==
      if exists j :: 0 <= j < |calls| && calls[j].Ask? && calls[j].now >= b.openedAt + cfg.cooldownMs * 1_000_000
      then b.(state := HalfOpen, probeInFlight := true) else b
  {
    if calls == [] {
    } else {
      var n := |calls| - 1;
      assert calls[n] in calls;
      OpenUntilCool(cfg, b, calls[..n]);
      OpenLetsThroughExactly(cfg, b, calls[n].now);
      if j :| 0 <= j < n && calls[j].Ask? && calls[j].now >= b.openedAt + cfg.cooldownMs * 1_000_000 {
        assert calls[..n][j] == calls[j];
      }
    }
  }

  /** A breaker recovers exactly on time: once an outcome has opened it at `trip`, and until another is recorded,
      it lets through the first request that comes when the cooldown is over, and no other. */
  lemma RecoversExactly(cfg: Config, b: Breaker, request: nat, ok: bool, trip: int, calls: seq<Call>, k: nat)
    requires Consistent(b) && b.state != Open && After(cfg, b, Record(request, ok, trip)).state == Open
    requires Monotone(trip, calls) && (forall c :: c in calls ==> !c.Record?) && k < |calls| && calls[k].Ask?
    ensures var tripped := After(cfg, b, Record(request, ok, trip));
      Allows(cfg, AfterAll(cfg, tripped, calls[..k]), calls[k].now) <==>
      && calls[k].now >= trip + cfg.cooldownMs * 1_000_000
      && forall j | 0 <= j < k && calls[j].Ask? :: calls[j].now < trip + cfg.cooldownMs * 1_000_000
  {
    var tripped := After(cfg, b, Record(request, ok, trip));
    OpeningIsStamped(cfg, b, request, ok, trip);
    OpenUntilCool(cfg, tripped, calls[..k]);
    OpenLetsThroughExactly(cfg, tripped, calls[k].now);
    if j :| 0 <= j < k && calls[j].Ask? && calls[j].now >= trip + cfg.cooldownMs * 1_000_000 {
      assert calls[..k][j] == calls[j];
    }
  }

  /** Failures recorded in HALF_OPEN, each of which reopens the breaker. */
  function Reopenings(cfg: Config, b: Breaker, calls: seq<Call>): nat {
    if calls == [] then 0
    else
      var n := |calls| - 1;
      Reopenings(cfg, b, calls[..n]) +
      if calls[n].Record? && !calls[n].ok && AfterAll(cfg, b, calls[..n]).state == HalfOpen then 1 else 0
  }

  /** While the breaker does not close, one request gets through for each reopening, plus the pending probe. */
  lemma {:induction false} OneProbeAtATime(cfg: Config, b: Breaker, calls: seq<Call>)
    requires b.state == Open && !b.probeInFlight && NeverCloses(cfg, b, calls)
    ensures |Grants(cfg, b, calls)| ==
      Reopenings(cfg, b, calls) + if AfterAll(cfg, b, calls).state == HalfOpen then 1 else 0
  {
    if calls == [] {
    } else {
      NeverClosesBefore(cfg, b, calls);
      OneProbeAtATime(cfg, b, calls[..|calls| - 1]);
      ProbeExactlyInHalfOpen(cfg, b, calls[..|calls| - 1]);
    }
  }

  // ---- The window ----

  /** The outcomes recorded since the last HALF_OPEN to CLOSED. */
  function SinceClose(cfg: Config, calls: seq<Call>): seq<bool> {
    if calls == [] then []
    else
      var n := |calls| - 1;
      match calls[n]
      case Record(_, ok, _) =>
        if AfterAll(cfg, FRESH, calls[..n]).state == HalfOpen && ok then []
        else SinceClose(cfg, calls[..n]) + [ok]
      case _ => SinceClose(cfg, calls[..n])
  }

  function Last<T>(s: seq<T>, n: int): seq<T> {
    if n <= 0 then [] else if |s| <= n then s else s[|s| - n..]
  }

  lemma SlideKeepsLast(cfg: Config, s: seq<bool>, ok: bool)
    ensures Slid(cfg, Last(s, cfg.windowSize), ok) == Last(s + [ok], cfg.windowSize)
  {}

  /** The window always holds the most recent outcomes since the last close, as many as fit. */
  lemma {:induction false} WindowIsRecent(cfg: Config, calls: seq<Call>)
    ensures AfterAll(cfg, FRESH, calls).outcomes == Last(SinceClose(cfg, calls), cfg.windowSize)
  {
    if calls == [] {
    } else {
      var n := |calls| - 1;
      WindowIsRecent(cfg, calls[..n]);
      if calls[n].Record? {
        SlideKeepsLast(cfg, SinceClose(cfg, calls[..n]), calls[n].ok);
      }
    }
  }

  /** A closed breaker never sits on a full window that exceeds the threshold. */
  lemma {:induction false} ClosedIsHealthy(cfg: Config, calls: seq<Call>)
    ensures var b := AfterAll(cfg, FRESH, calls);
      b.state == Closed && |b.outcomes| >= cfg.windowSize ==> !Excessive(cfg, b.outcomes)
  {
    if calls == [] {
    } else {
      ClosedIsHealthy(cfg, calls[..|calls| - 1]);
    }
  }

  lemma {:induction false} FailuresAreCounted(outcomes: seq<bool>)
    ensures Failures(outcomes) == |set i | 0 <= i < |outcomes| && !outcomes[i]|
  {
    var n := |outcomes| - 1;
    var all := set i | 0 <= i < |outcomes| && !outcomes[i];
    if outcomes == [] {
      assert all == {};
    } else {
      FailuresAreCounted(outcomes[..n]);
      var before := set i | 0 <= i < |outcomes[..n]| && !outcomes[..n][i];
      assert all == if outcomes[n] then before else before + {n};
    }
  }

  lemma RateExceeds(part: real, whole: real, rate: real)
    requires whole > 0.0
    ensures part / whole > rate <==> part > rate * whole
  {
    assert part == (part / whole) * whole;
  }

  /** A window is excessive when more of its outcomes are failures than the threshold allows. */
  lemma ExcessiveExactly(cfg: Config, outcomes: seq<bool>)
    requires outcomes != []
    ensures Excessive(cfg, outcomes) <==>
      |set i | 0 <= i < |outcomes| && !outcomes[i]| as real > cfg.errorThreshold * |outcomes| as real
  {
    FailuresAreCounted(outcomes);
    RateExceeds(Failures(outcomes) as real, |outcomes| as real, cfg.errorThreshold);
  }

  lemma ClosedTrips(cfg: Config, b: Breaker, request: nat, ok: bool, now: int)
    requires b.state == Closed
    ensures var slid := Slid(cfg, b.outcomes, ok);
      After(cfg, b, Record(request, ok, now)).state == Open <==> |slid| >= cfg.windowSize && Excessive(cfg, slid)
  {}

  lemma TripsOnExcess(cfg: Config, calls: seq<Call>, request: nat, ok: bool, now: int)
    requires cfg.windowSize >= 1
    requires AfterAll(cfg, FRESH, calls).state == Closed
    ensures var recent := SinceClose(cfg, calls) + [ok];
      AfterAll(cfg, FRESH, calls + [Record(request, ok, now)]).state == Open <==>
      |recent| >= cfg.windowSize && Excessive(cfg, Last(recent, cfg.windowSize))
  {
    CallAdded(cfg, FRESH, calls, Record(request, ok, now));
    WindowIsRecent(cfg, calls);
    SlideKeepsLast(cfg, SinceClose(cfg, calls), ok);
    ClosedTrips(cfg, AfterAll(cfg, FRESH, calls), request, ok, now);
  }

  /** More of the last `w` outcomes are failures than the threshold allows. */
  predicate TooManyFail(cfg: Config, outcomes: seq<bool>, w: int) {
    && 1 <= w <= |outcomes|
    && var window := outcomes[|outcomes| - w..];
       |set i | 0 <= i < |window| && !window[i]| as real > cfg.errorThreshold * w as real
  }

  lemma ExcessIsTooMany(cfg: Config, outcomes: seq<bool>)
    requires 1 <= cfg.windowSize <= |outcomes|
    ensures Excessive(cfg, Last(outcomes, cfg.windowSize)) <==> TooManyFail(cfg, outcomes, cfg.windowSize)
  {
    var window := outcomes[|outcomes| - cfg.windowSize..];
    assert Last(outcomes, cfg.windowSize) == window;
    ExcessiveExactly(cfg, window);
  }

  /** A closed breaker trips with an outcome exactly when the outcomes since the last close, this one
      included, fill a window and more of the last window of them are failures than the threshold allows.
      In particular it takes at least a window of new outcomes after a close. */
  lemma TripsExactly(cfg: Config, calls: seq<Call>, request: nat, ok: bool, now: int)
    requires cfg.windowSize >= 1
    requires AfterAll(cfg, FRESH, calls).state == Closed
    ensures AfterAll(cfg, FRESH, calls + [Record(request, ok, now)]).state == Open <==>
            TooManyFail(cfg, SinceClose(cfg, calls) + [ok], cfg.windowSize)
  {
    var recent := SinceClose(cfg, calls) + [ok];
    TripsOnExcess(cfg, calls, request, ok, now);
    if |recent| >= cfg.windowSize {
      ExcessIsTooMany(cfg, recent);
    }
  }

  // ---- Whose outcome decides in HALF_OPEN ----

  /** The breaker with the requests that may still record an outcome: those it let through, and those
      that joined past it. */
  datatype Traffic = Traffic(breaker: Breaker, granted: set<nat>, hedged: set<nat>)

  /** A request asks or joins once; it records only while pending. */
  predicate Possible(t: Traffic, c: Call) {
    match c
    case Ask(r, _) => r !in t.granted + t.hedged
    case Join(r, _) => r !in t.granted + t.hedged
    case Quit(r, _) => r in t.hedged
    case Record(r, _, _) => r in t.granted + t.hedged
  }

  function Passed(cfg: Config, t: Traffic, c: Call): Traffic {
    Traffic(
      After(cfg, t.breaker, c),
      match c
      case Ask(r, now) => if Allows(cfg, t.breaker, now) then t.granted + {r} else t.granted
      case Record(r, _, _) => t.granted - {r}
      case _ => t.granted,
      match c
      case Join(r, _) => t.hedged + {r}
      case Quit(r, _) => t.hedged - {r}
      case Record(r, _, _) => t.hedged - {r}
      case _ => t.hedged)
  }

  function PassedAll(cfg: Config, t: Traffic, calls: seq<Call>): Traffic {
    if calls == [] then t
    else var n := |calls| - 1; Passed(cfg, PassedAll(cfg, t, calls[..n]), calls[n])
  }

  ghost predicate IsRun(cfg: Config, t: Traffic, calls: seq<Call>) {
    forall k | 0 <= k < |calls| :: Possible(PassedAll(cfg, t, calls[..k]), calls[k])
  }

  lemma {:induction false} PassedBreaker(cfg: Config, t: Traffic, calls: seq<Call>)
    ensures PassedAll(cfg, t, calls).breaker == AfterAll(cfg, t.breaker, calls)
  {
    if calls == [] {
    } else {
      PassedBreaker(cfg, t, calls[..|calls| - 1]);
    }
  }

  lemma RunPrefix(cfg: Config, t: Traffic, calls: seq<Call>, k: nat)
    requires IsRun(cfg, t, calls) && k <= |calls|
    ensures IsRun(cfg, t, calls[..k])
  {
    forall j | 0 <= j < k ensures Possible(PassedAll(cfg, t, calls[..k][..j]), calls[..k][j]) {
      assert calls[..k][..j] == calls[..j];
    }
  }

  /** A breaker never wedges in HALF_OPEN: over any run, some request that it let through has yet to
      record an outcome, and the first that does moves it on. */
  lemma {:induction false} NeverWedges(cfg: Config, calls: seq<Call>)
    requires IsRun(cfg, Traffic(FRESH, {}, {}), calls)
    ensures AfterAll(cfg, FRESH, calls).state == HalfOpen ==>
      PassedAll(cfg, Traffic(FRESH, {}, {}), calls).granted != {}
  {
    PassedBreaker(cfg, Traffic(FRESH, {}, {}), calls);
    if calls == [] {
    } else {
      var n := |calls| - 1;
      RunPrefix(cfg, Traffic(FRESH, {}, {}), calls, n);
      NeverWedges(cfg, calls[..n]);
      PassedBreaker(cfg, Traffic(FRESH, {}, {}), calls[..n]);
      var t := PassedAll(cfg, Traffic(FRESH, {}, {}), calls[..n]);
      if calls[n].Ask? && Allows(cfg, t.breaker, calls[n].now) {
        assert calls[n].request in PassedAll(cfg, Traffic(FRESH, {}, {}), calls).granted;
      }
    }
  }

  /** The call at `k` takes the breaker out of HALF_OPEN, in which it has been since the start. */
  ghost predicate Decides(cfg: Config, b: Breaker, calls: seq<Call>, k: nat) {
    && k < |calls|
    && (forall j | 0 <= j <= k :: AfterAll(cfg, b, calls[..j]).state == HalfOpen)
    && AfterAll(cfg, b, calls[..k + 1]).state != HalfOpen
  }

  lemma {:induction false} UndecidedStays(cfg: Config, b: Breaker, calls: seq<Call>)
    requires b.state == HalfOpen && b.probeInFlight
    requires forall c :: c in calls ==> !c.Record?
    ensures AfterAll(cfg, b, calls) == b
  {
    if calls == [] {
    } else {
      UndecidedStays(cfg, b, calls[..|calls| - 1]);
    }
  }

  /** In HALF_OPEN a record moves the breaker on, and nothing else does. */
  lemma OnlyRecordsLeave(cfg: Config, b: Breaker, calls: seq<Call>, k: nat)
    requires k < |calls| && AfterAll(cfg, b, calls[..k]).state == HalfOpen
    ensures AfterAll(cfg, b, calls[..k + 1]).state ==
      if !calls[k].Record? then HalfOpen else if calls[k].ok then Closed else Open
  {
    assert calls[..k + 1][..k] == calls[..k];
  }

  /** The first outcome recorded, and nothing else, decides: success closes, failure reopens. */
  lemma FirstRecordDecides(cfg: Config, b: Breaker, calls: seq<Call>, k: nat)
    requires b.state == HalfOpen && b.probeInFlight && k < |calls|
    ensures Decides(cfg, b, calls, k) <==> calls[k].Record? && forall j | 0 <= j < k :: !calls[j].Record?
    ensures Decides(cfg, b, calls, k) ==>
      AfterAll(cfg, b, calls[..k + 1]).state == if calls[k].ok then Closed else Open
  {
    if Decides(cfg, b, calls, k) {
      OnlyRecordsLeave(cfg, b, calls, k);
      forall j | 0 <= j < k ensures !calls[j].Record? {
        OnlyRecordsLeave(cfg, b, calls, j);
      }
    }
    if calls[k].Record? && forall j | 0 <= j < k :: !calls[j].Record? {
      forall j | 0 <= j <= k ensures AfterAll(cfg, b, calls[..j]).state == HalfOpen {
        UndecidedStays(cfg, b, calls[..j]);
      }
      OnlyRecordsLeave(cfg, b, calls, k);
    }
  }

  /** A continuation, with or without further hedged requests. */
  ghost predicate Follows(cfg: Config, t: Traffic, calls: seq<Call>, hedging: bool) {
    IsRun(cfg, t, calls) && (hedging || forall c :: c in calls ==> !c.Join?)
  }

  /** As long as nothing is recorded and nobody joins, the probe is the only request pending. */
  lemma {:induction false} ProbeStaysAlone(cfg: Config, t: Traffic, p: nat, calls: seq<Call>)
    requires t.breaker.state == HalfOpen && t.breaker.probeInFlight && t.granted == {p} && t.hedged == {}
    requires IsRun(cfg, t, calls)
    requires forall c :: c in calls ==> !c.Record? && !c.Join?
    ensures PassedAll(cfg, t, calls) == t
  {
    if calls == [] {
    } else {
      var n := |calls| - 1;
      RunPrefix(cfg, t, calls, n);
      ProbeStaysAlone(cfg, t, p, calls[..n]);
      assert Possible(t, calls[n]) && calls[n] in calls;
    }
  }

  lemma FreshRequest(s: set<nat>) returns (q: nat)
    ensures q !in s
  {
    q := 0;
    ghost var rest := s;
    while q in s
      invariant rest == set x | x in s && x >= q
      decreases |rest|
    {
      rest := rest - {q};
      q := q + 1;
    }
  }

  lemma OneRecordRuns(cfg: Config, t: Traffic, q: nat, now: int)
    requires t.breaker.state == HalfOpen && t.breaker.probeInFlight && q in t.granted + t.hedged
    ensures Follows(cfg, t, [Record(q, true, now)], false) && Decides(cfg, t.breaker, [Record(q, true, now)], 0)
  {
    var calls := [Record(q, true, now)];
    assert calls[..0] == [];
    FirstRecordDecides(cfg, t.breaker, calls, 0);
  }

  lemma JoinAndRecordRuns(cfg: Config, t: Traffic, q: nat, now: int)
    requires t.breaker.state == HalfOpen && t.breaker.probeInFlight && q !in t.granted + t.hedged
    ensures var calls := [Join(q, now), Record(q, true, now)];
      Follows(cfg, t, calls, true) && Decides(cfg, t.breaker, calls, 1)
  {
    var calls := [Join(q, now), Record(q, true, now)];
    assert calls[..0] == [] && calls[..1] == [Join(q, now)] && calls[..1][..0] == [];
    assert PassedAll(cfg, t, calls[..1]) == Passed(cfg, t, Join(q, now));
    FirstRecordDecides(cfg, t.breaker, calls, 1);
  }

  /** Documented as the probe's verdict: whatever happens next, the outcome that decides is the probe's own,
      if and only if no other request is pending when the probe is let through and none may join past the
      breaker before it is done. */
  lemma ProbeDecidesExactly(cfg: Config, t: Traffic, p: nat, now: int, hedging: bool)
    requires Consistent(t.breaker) && t.breaker.state != Closed
    requires Possible(t, Ask(p, now)) && Allows(cfg, t.breaker, now)
    ensures var probing := Passed(cfg, t, Ask(p, now));
      (forall calls: seq<Call>, k: nat ::
         Follows(cfg, probing, calls, hedging) && Decides(cfg, probing.breaker, calls, k) ==>
           calls[k].request == p) <==>
      t.granted == {} && t.hedged == {} && !hedging
  {
    var probing := Passed(cfg, t, Ask(p, now));
    if t.granted == {} && t.hedged == {} && !hedging {
      forall calls: seq<Call>, k: nat | Follows(cfg, probing, calls, hedging) && Decides(cfg, probing.breaker, calls, k)
        ensures calls[k].request == p {
        FirstRecordDecides(cfg, probing.breaker, calls, k);
        RunPrefix(cfg, probing, calls, k);
        ProbeStaysAlone(cfg, probing, p, calls[..k]);
      }
    } else if hedging {
      var q := FreshRequest(probing.granted + probing.hedged);
      JoinAndRecordRuns(cfg, probing, q, now);
    } else {
      var q :| q in t.granted + t.hedged;
      OneRecordRuns(cfg, probing, q, now);
      assert q != p;
    }
  }

  lemma CallAdded(cfg: Config, b: Breaker, calls: seq<Call>, c: Call)
    ensures AfterAll(cfg, b, calls + [c]) == After(cfg, AfterAll(cfg, b, calls), c)
    ensures Grants(cfg, b, calls + [c]) == Grants(cfg, b, calls) +
      if c.Ask? && Allows(cfg, AfterAll(cfg, b, calls), c.now) then [c.now] else []
  {
    assert (calls + [c])[..|calls|] == calls;
  }

  lemma OneFailureTrips(now: int)
    ensures AfterRecord(Config(1, 0.5, 5), FRESH, false, now) == Breaker(Open, [false], now, false)
  {
    assert [false][..0] == [];
    assert Failures([false]) == 1;
  }

  /** The promise failing: request 1, let through before the trip, succeeds late and closes the breaker
      over the pending probe of request 2. */
  lemma StragglerDecides(trip: int)
    ensures var cfg := Config(1, 0.5, 5);
      var probe := trip + 5 * NS_PER_MS;
      var calls := [Ask(0, trip)] + [Ask(1, trip)] + [Record(0, false, trip)] + [Ask(2, probe)];
      && Grants(cfg, FRESH, calls) == [trip, trip, probe]
      && AfterAll(cfg, FRESH, calls).state == HalfOpen
      && AfterAll(cfg, FRESH, calls + [Record(1, true, probe)]).state == Closed
  {
    var cfg := Config(1, 0.5, 5);
    var probe := trip + 5 * NS_PER_MS;
    var c1 := [Ask(0, trip)];
    var c2 := c1 + [Ask(1, trip)];
    var c3 := c2 + [Record(0, false, trip)];
    var c4 := c3 + [Ask(2, probe)];
    CallAdded(cfg, FRESH, [], Ask(0, trip));
    assert [] + [Ask(0, trip)] == c1;
    CallAdded(cfg, FRESH, c1, Ask(1, trip));
    assert AfterAll(cfg, FRESH, c2) == FRESH && Grants(cfg, FRESH, c2) == [trip, trip];
    CallAdded(cfg, FRESH, c2, Record(0, false, trip));
    OneFailureTrips(trip);
    assert Grants(cfg, FRESH, c3) == [trip, trip];
    CallAdded(cfg, FRESH, c3, Ask(2, probe));
    assert AfterAll(cfg, FRESH, c4) == Breaker(HalfOpen, [false], trip, true);
    CallAdded(cfg, FRESH, c4, Record(1, true, probe));
  }
}
