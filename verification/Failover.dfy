/** What the retry loop promises, for every environment: how it ends and why, what the client has then, and
    that every call it makes is one that Handlers allows. The number of tries is arbitrary here. */
module Failover {
  import opened Options
  import opened Views
  import opened Handlers
  import opened TokenStreams
  import opened Inference

  /** Iteration `k` picks a replica that the breaker lets through. */
  predicate Attempts(env: Env, k: nat, excluded: set<Id>) {
    && !env.cancelled(k) && !Unserved(env, k, excluded)
    && Chosen(env, k, excluded).Some? && env.allows(k, Chosen(env, k, excluded).value)
  }

  /** Its stream does not fail. */
  predicate Succeeds(env: Env, k: nat, excluded: set<Id>, sent: nat) {
    Attempts(env, k, excluded) && !StreamOf(env, k, Chosen(env, k, excluded).value, sent).failed
  }

  /** The tokens that iteration `k` delivers and that count. */
  function Gained(env: Env, k: nat, excluded: set<Id>, sent: nat): nat {
    if Succeeds(env, k, excluded, sent) then |StreamOf(env, k, Chosen(env, k, excluded).value, sent).tokens| else 0
  }

  /** It ends nothing: it stays without a replica, is refused, fails, or ends early. */
  predicate Spent(env: Env, k: nat, excluded: set<Id>, sent: nat, maxTokens: int) {
    !env.cancelled(k) && !Unserved(env, k, excluded) && sent + Gained(env, k, excluded, sent) < maxTokens
  }

  lemma TurnTells(env: Env, k: nat, excluded: set<Id>, sent: nat)
    ensures var t := TurnAt(env, k, excluded, sent);
      && (t.Abandoned? <==> env.cancelled(k)) && (t.Exhausted? <==> Unserved(env, k, excluded))
      && (t.Attempted? <==> Attempts(env, k, excluded))
      && (t.Attempted? ==> t.segment == StreamOf(env, k, Chosen(env, k, excluded).value, sent))
  {}

  /** Iteration `k` is begun; `History(env, maxTokens, k)` is then what came before it. */
  predicate Begins(env: Env, maxTokens: int, k: nat) {
    !Over(History(env, maxTokens, k), maxTokens)
  }

  predicate UnservedAt(env: Env, maxTokens: int, k: nat) {
    Begins(env, maxTokens, k) && Unserved(env, k, Tried(History(env, maxTokens, k)))
  }

  predicate SpentAt(env: Env, maxTokens: int, k: nat) {
    var h := History(env, maxTokens, k);
    Begins(env, maxTokens, k) && Spent(env, k, Tried(h), Sent(h), maxTokens)
  }

  function GainedAt(env: Env, maxTokens: int, k: nat): nat {
    var h := History(env, maxTokens, k);
    if Begins(env, maxTokens, k) then Gained(env, k, Tried(h), Sent(h)) else 0
  }

  /** One iteration, and what it makes of the history. */
  lemma TurnTaken(env: Env, maxTokens: int, k: nat)
    requires Begins(env, maxTokens, k)
    ensures var h := History(env, maxTokens, k); var h' := History(env, maxTokens, k + 1);
      && Sent(h') == Sent(h) + GainedAt(env, maxTokens, k)
      && (Over(h', maxTokens) <==> !SpentAt(env, maxTokens, k))
      && |h| == k && |h'| == k + 1
      && (h'[k].Abandoned? <==> env.cancelled(k)) && (h'[k].Exhausted? <==> UnservedAt(env, maxTokens, k))
  {
    var h := History(env, maxTokens, k);
    TurnTells(env, k, Tried(h), Sent(h));
    TurnAdded(h, TurnAt(env, k, Tried(h), Sent(h)));
  }

  /** The first iteration is begun if anything is asked for, and every other if the one before was spent. */
  lemma NextBegins(env: Env, maxTokens: int, k: nat)
    ensures Begins(env, maxTokens, 0) <==> maxTokens > 0
    ensures Begins(env, maxTokens, k + 1) <==> SpentAt(env, maxTokens, k)
    ensures SpentAt(env, maxTokens, k) ==> Begins(env, maxTokens, k)
  {
    if Begins(env, maxTokens, k) {
      TurnTaken(env, maxTokens, k);
    } else {
      OverForGood(env, maxTokens, k, k + 1);
    }
  }

  lemma {:induction false} BegunAfterSpent(env: Env, maxTokens: int, j: nat, k: nat)
    requires Begins(env, maxTokens, k) && j < k
    ensures SpentAt(env, maxTokens, j)
  {
    NextBegins(env, maxTokens, k - 1);
    if j == k - 1 {
    } else {
      BegunAfterSpent(env, maxTokens, j, k - 1);
    }
  }

  lemma AttemptResumes(env: Env, maxTokens: int, k: nat, excluded: set<Id>, sent: nat)
    requires Lawful(env, maxTokens)
    ensures var t := TurnAt(env, k, excluded, sent);
      t.Attempted? ==>
        && t.segment.tokens == Range(sent, |t.segment.tokens|)
        && sent + |t.segment.tokens| <= Max(sent, maxTokens)
  {
    if Attempts(env, k, excluded) {
      assert IsFeed(env.feed(k, Chosen(env, k, excluded).value, sent), sent, maxTokens);
    }
  }

  lemma ChainGrows(h: seq<Turn>, t: Turn, maxTokens: int)
    requires Chained(Segments(h)) && Sent(h) <= Max(0, maxTokens)
    requires t.Attempted? ==>
      && t.segment.tokens == Range(Sent(h), |t.segment.tokens|)
      && Sent(h) + |t.segment.tokens| <= Max(Sent(h), maxTokens)
    ensures Chained(Segments(h + [t])) && Sent(h + [t]) <= Max(0, maxTokens)
  {
    TurnAdded(h, t);
    if t.Attempted? {
      SegmentAdded(Segments(h), t.segment);
    }
  }

  /** Every attempt resumes after the tokens kept so far, and no more are kept than were asked for. */
  lemma {:induction false} AttemptsChain(env: Env, maxTokens: int, n: nat)
    requires Lawful(env, maxTokens)
    ensures var h := History(env, maxTokens, n); Chained(Segments(h)) && Sent(h) <= Max(0, maxTokens)
  {
    if n == 0 {
    } else {
      AttemptsChain(env, maxTokens, n - 1);
      var h := History(env, maxTokens, n - 1);
      AttemptResumes(env, maxTokens, n - 1, Tried(h), Sent(h));
      ChainGrows(h, TurnAt(env, n - 1, Tried(h), Sent(h)), maxTokens);
    }
  }

  lemma {:induction false} TriedAreTried(turns: seq<Turn>, i: nat)
    requires i < |turns| && ReplicaOf(turns[i]).Some?
    ensures ReplicaOf(turns[i]).value in Tried(turns)
  {
    if i == |turns| - 1 {
    } else {
      TriedAreTried(turns[..|turns| - 1], i);
    }
  }

  /** No replica is refused or streamed from twice in one request. */
  lemma {:induction false} NoReplicaTwice(env: Env, maxTokens: int, n: nat, i: nat, j: nat)
    requires Lawful(env, maxTokens) && i < j < |History(env, maxTokens, n)|
    ensures var h := History(env, maxTokens, n); ReplicaOf(h[i]).Some? ==> ReplicaOf(h[i]) != ReplicaOf(h[j])
  {
    var h := History(env, maxTokens, n - 1);
    if j < |h| {
      NoReplicaTwice(env, maxTokens, n - 1, i, j);
    } else if ReplicaOf(h[i]).Some? {
      TriedAreTried(h, i);
    }
  }

  lemma WaitIsPermitted(calls: seq<Call>, served: bool)
    requires Reaches(Choosing, calls, Choosing)
    ensures Reaches(Choosing, calls + [Starve] + [Wake(served)], if served then Woken else Ending)
  {
    ReachesTwice(Choosing, calls, Choosing, Starve, Starved, Wake(served), if served then Woken else Ending);
  }

  lemma ChoiceIsPermitted(calls: seq<Call>, r: Id, waited: bool)
    requires Reaches(Choosing, calls, Choosing)
    ensures Reaches(Choosing, PickLog(calls, r, waited), Picked(r))
  {
    if waited {
      WaitIsPermitted(calls, true);
      ReachesNext(Choosing, calls + [Starve] + [Wake(true)], Woken, Pick(r), Picked(r));
    } else {
      ReachesNext(Choosing, calls, Choosing, Pick(r), Picked(r));
    }
  }

  lemma AttemptIsPermitted(calls: seq<Call>, r: Id, ok: bool)
    requires Reaches(Choosing, calls, Picked(r))
    ensures Reaches(Choosing, AttemptLog(calls, r, ok), Choosing)
  {
    var c2 := calls + [Grant(r)] + [Inc(r)];
    ReachesTwice(Choosing, calls, Picked(r), Grant(r), Granted(r), Inc(r), Busy(r));
    var c4 := c2 + [Stream(r, ok)] + [Dec(r)];
    ReachesTwice(Choosing, c2, Busy(r), Stream(r, ok), Streamed(r, ok), Dec(r), Freed(r, ok));
    ReachesTwice(Choosing, c4, Freed(r, ok), Notify, Notified(r, ok), Record(r, ok), Choosing);
  }

  lemma AttemptedIsPermitted(calls: seq<Call>, s: Segment, waited: bool)
    requires Reaches(Choosing, calls, Choosing)
    ensures Reaches(Choosing, Logged(calls, Attempted(s, waited)), Choosing)
  {
    ChoiceIsPermitted(calls, s.replica, waited);
    AttemptIsPermitted(PickLog(calls, s.replica, waited), s.replica, !s.failed);
  }

  lemma RefusedIsPermitted(calls: seq<Call>, r: Id, waited: bool)
    requires Reaches(Choosing, calls, Choosing)
    ensures Reaches(Choosing, Logged(calls, Refused(r, waited)), Choosing)
  {
    ChoiceIsPermitted(calls, r, waited);
    ReachesNext(Choosing, PickLog(calls, r, waited), Picked(r), Refuse(r), Choosing);
  }

  lemma StarvingIsPermitted(calls: seq<Call>)
    requires Reaches(Choosing, calls, Choosing)
    ensures Reaches(Choosing, Logged(calls, StillStarved), Choosing)
  {
    WaitIsPermitted(calls, true);
    ReachesNext(Choosing, calls + [Starve] + [Wake(true)], Woken, Starve, Choosing);
  }

  predicate Unserving(turns: seq<Turn>) { turns != [] && turns[|turns| - 1].Exhausted? }

  lemma TurnIsPermitted(calls: seq<Call>, t: Turn)
    requires Reaches(Choosing, calls, Choosing)
    ensures Reaches(Choosing, Logged(calls, t), if t.Exhausted? then Ending else Choosing)
  {
    match t
    case Abandoned =>
    case Exhausted => WaitIsPermitted(calls, false);
    case StillStarved => StarvingIsPermitted(calls);
    case Refused(r, waited) => RefusedIsPermitted(calls, r, waited);
    case Attempted(s, waited) => AttemptedIsPermitted(calls, s, waited);
  }

  lemma AddedIsPermitted(h: seq<Turn>, t: Turn)
    requires Reaches(Choosing, Log(h), Choosing)
    ensures Reaches(Choosing, Log(h + [t]), if t.Exhausted? then Ending else Choosing)
  {
    TurnAdded(h, t);
    TurnIsPermitted(Log(h), t);
  }

  lemma {:induction false} LogIsPermitted(env: Env, maxTokens: int, n: nat)
    ensures var h := History(env, maxTokens, n);
      Reaches(Choosing, Log(h), if Unserving(h) then Ending else Choosing)
  {
    if n == 0 {
    } else {
      LogIsPermitted(env, maxTokens, n - 1);
      var h := History(env, maxTokens, n - 1);
      if !Over(h, maxTokens) {
        AddedIsPermitted(h, TurnAt(env, n - 1, Tried(h), Sent(h)));
      }
    }
  }

  lemma ReturnIsPermitted(calls: seq<Call>, p: Point)
    requires Reaches(Choosing, calls, p) && (p == Choosing || p == Ending)
    ensures Follow(Choosing, calls + [Return]) == Some(Done)
  {
    ReachesNext(Choosing, calls, p, Return, Done);
  }

  function Outcomes(segments: seq<Segment>): seq<(Id, bool)> {
    seq(|segments|, i requires 0 <= i < |segments| => (segments[i].replica, !segments[i].failed))
  }

  lemma ChoiceReportsNothing(calls: seq<Call>, r: Id, waited: bool)
    ensures Reported(PickLog(calls, r, waited)) == Reported(calls)
  {
    ReportedNext(calls, Starve);
    ReportedNext(calls + [Starve], Wake(true));
    ReportedNext(if waited then calls + [Starve] + [Wake(true)] else calls, Pick(r));
  }

  lemma AttemptReports(calls: seq<Call>, r: Id, ok: bool)
    ensures Reported(AttemptLog(calls, r, ok)) == Reported(calls) + [(r, ok)]
  {
    ReportedNext(calls, Grant(r));
    ReportedNext(calls + [Grant(r)], Inc(r));
    var c3 := calls + [Grant(r)] + [Inc(r)];
    ReportedNext(c3, Stream(r, ok));
    ReportedNext(c3 + [Stream(r, ok)], Dec(r));
    ReportedNext(c3 + [Stream(r, ok)] + [Dec(r)], Notify);
    ReportedNext(c3 + [Stream(r, ok)] + [Dec(r)] + [Notify], Record(r, ok));
  }

  lemma TurnReports(calls: seq<Call>, t: Turn)
    ensures Reported(Logged(calls, t)) ==
      if t.Attempted? then Reported(calls) + [(t.segment.replica, !t.segment.failed)] else Reported(calls)
  {
    match t
    case Abandoned =>
    case Exhausted =>
      ReportedNext(calls, Starve);
      ReportedNext(calls + [Starve], Wake(false));
    case StillStarved =>
      ReportedNext(calls, Starve);
      ReportedNext(calls + [Starve], Wake(true));
      ReportedNext(calls + [Starve] + [Wake(true)], Starve);
    case Refused(r, waited) =>
      ChoiceReportsNothing(calls, r, waited);
      ReportedNext(PickLog(calls, r, waited), Refuse(r));
    case Attempted(s, waited) =>
      ChoiceReportsNothing(calls, s.replica, waited);
      AttemptReports(PickLog(calls, s.replica, waited), s.replica, !s.failed);
  }

  /** The breakers are told exactly how each attempt ended, in order, and nothing else. */
  lemma {:induction false} OutcomesAreReported(turns: seq<Turn>)
    ensures Reported(Log(turns)) == Outcomes(Segments(turns))
  {
    if turns == [] {
    } else {
      var n := |turns| - 1;
      OutcomesAreReported(turns[..n]);
      TurnReports(Log(turns[..n]), turns[n]);
    }
  }

  /** Every call a plain request makes is one that the protocol of Handlers allows, to its end. */
  lemma RequestIsPermitted(env: Env, maxTokens: int, n: nat)
    ensures Follow(Choosing, Log(History(env, maxTokens, n)) + [Return]) == Some(Done)
  {
    LogIsPermitted(env, maxTokens, n);
    var h := History(env, maxTokens, n);
    ReturnIsPermitted(Log(h), if Unserving(h) then Ending else Choosing);
  }

  /** An iteration that is not spent is the last. */
  lemma UnspentIsLast(env: Env, maxTokens: int, k: nat, n: nat)
    requires Begins(env, maxTokens, k) && !SpentAt(env, maxTokens, k) && k < n
    ensures History(env, maxTokens, n) == History(env, maxTokens, k + 1)
  {
    TurnTaken(env, maxTokens, k);
    OverForGood(env, maxTokens, k + 1, n);
  }

  /** A finished loop ends with its last iteration begun. */
  lemma {:induction false} LastBegins(env: Env, maxTokens: int, n: nat)
    ensures var h := History(env, maxTokens, n);
      && h == History(env, maxTokens, |h|)
      && (h != [] ==> Begins(env, maxTokens, |h| - 1))
  {
    if n == 0 {
    } else {
      LastBegins(env, maxTokens, n - 1);
      if Begins(env, maxTokens, n - 1) {
        TurnTaken(env, maxTokens, n - 1);
      }
    }
  }

  /** CANCELLED exactly when some iteration is begun with the client cancelled. */
  lemma CancelledExactly(env: Env, maxTokens: int, n: nat)
    ensures Verdict(History(env, maxTokens, n), maxTokens) == Cancelled <==>
            exists k: nat :: k < n && Begins(env, maxTokens, k) && env.cancelled(k)
  {
    var h := History(env, maxTokens, n);
    LastBegins(env, maxTokens, n);
    if h != [] {
      TurnTaken(env, maxTokens, |h| - 1);
    }
    if k: nat :| k < n && Begins(env, maxTokens, k) && env.cancelled(k) {
      UnspentIsLast(env, maxTokens, k, n);
      TurnTaken(env, maxTokens, k);
    }
  }

  lemma ExhaustedUnserved(env: Env, maxTokens: int, n: nat)
    ensures Verdict(History(env, maxTokens, n), maxTokens) == ResourceExhausted <==>
            exists k: nat :: k < n && UnservedAt(env, maxTokens, k)
  {
    var h := History(env, maxTokens, n);
    LastBegins(env, maxTokens, n);
    if h != [] {
      TurnTaken(env, maxTokens, |h| - 1);
    }
    if k: nat :| k < n && UnservedAt(env, maxTokens, k) {
      UnspentIsLast(env, maxTokens, k, n);
      TurnTaken(env, maxTokens, k);
    }
  }

  /** RESOURCE_EXHAUSTED exactly when some iteration finds no replica and is not served by the queue. */
  lemma ExhaustedExactly(env: Env, maxTokens: int, n: nat)
    ensures Verdict(History(env, maxTokens, n), maxTokens) == ResourceExhausted <==>
            exists k: nat :: k < n && Begins(env, maxTokens, k) && !env.cancelled(k) && !env.woken(k) &&
                             env.pick(k, Tried(History(env, maxTokens, k))).None?
  {
    ExhaustedUnserved(env, maxTokens, n);
    if k: nat :| k < n && UnservedAt(env, maxTokens, k) {
      assert !env.woken(k) && env.pick(k, Tried(History(env, maxTokens, k))).None?;
    }
    if k: nat :| k < n && Begins(env, maxTokens, k) && !env.cancelled(k) && !env.woken(k) &&
                 env.pick(k, Tried(History(env, maxTokens, k))).None? {
      assert UnservedAt(env, maxTokens, k);
    }
  }

  /** An iteration goes where the load balancer sends it, at once or after a served wait: to a replica that it
      attempts if the breaker lets it through and leaves alone if not. What it is not sent anywhere for is a
      cancelled client, an unserved wait, or a second selection that finds nothing. */
  lemma TurnsFollowTheEnvironment(env: Env, maxTokens: int, k: nat, r: Id)
    requires Begins(env, maxTokens, k)
    ensures var h, t := History(env, maxTokens, k), History(env, maxTokens, k + 1)[k]; var ex := Tried(h);
      && |History(env, maxTokens, k + 1)| == k + 1
      && (t.Attempted? && t.segment.replica == r <==>
          !env.cancelled(k) && env.allows(k, r) &&
          (env.pick(k, ex) == Some(r) || (env.pick(k, ex) == None && env.woken(k) && env.repick(k, ex) == Some(r))))
      && (t.Refused? && t.replica == r <==>
          !env.cancelled(k) && !env.allows(k, r) &&
          (env.pick(k, ex) == Some(r) || (env.pick(k, ex) == None && env.woken(k) && env.repick(k, ex) == Some(r))))
      && (t.Attempted? ==>
            var f := env.feed(k, t.segment.replica, Sent(h));
            var n := |t.segment.tokens|;
            && t.segment.tokens <= f.tokens && (t.segment.failed <==> n == |f.tokens| && !f.finishOk)
            && (n < |f.tokens| ==> env.clientGone(k)(n) || env.writeFails(k)(n))
            && forall i: nat | i < n :: !env.clientGone(k)(i) && !env.writeFails(k)(i))
      && (t.StillStarved? <==>
          !env.cancelled(k) && env.pick(k, ex) == None && env.woken(k) && env.repick(k, ex) == None)
  {
    TurnTaken(env, maxTokens, k);
  }

  /** The request is given up, with UNAVAILABLE or a partial OK, exactly when every one of its
      iterations was begun and spent. */
  lemma GivesUpExactly(env: Env, maxTokens: int, n: nat)
    ensures var h := History(env, maxTokens, n); var v := Verdict(h, maxTokens);
      (v == Unavailable || (v == Ok && Sent(h) < maxTokens)) <==>
      maxTokens > 0 && forall k: nat | k < n :: SpentAt(env, maxTokens, k)
  {
    if Begins(env, maxTokens, n) {
      BegunFromStart(env, maxTokens, n);
      forall k: nat | k < n ensures SpentAt(env, maxTokens, k) {
        BegunAfterSpent(env, maxTokens, k, n);
      }
    } else if n == 0 {
      NextBegins(env, maxTokens, 0);
    } else {
      NextBegins(env, maxTokens, n - 1);
    }
  }

  /** UNAVAILABLE exactly when every iteration was spent and nothing that counts was delivered. */
  lemma UnavailableExactly(env: Env, maxTokens: int, n: nat)
    ensures var h := History(env, maxTokens, n);
      Verdict(h, maxTokens) == Unavailable <==>
      maxTokens > 0 && Kept(Segments(h)) == [] && forall k: nat | k < n :: SpentAt(env, maxTokens, k)
  {
    GivesUpExactly(env, maxTokens, n);
  }

  lemma {:induction false} BegunFromStart(env: Env, maxTokens: int, n: nat)
    requires Begins(env, maxTokens, n)
    ensures maxTokens > 0
  {
    if n == 0 {
      NextBegins(env, maxTokens, 0);
    } else {
      NextBegins(env, maxTokens, n - 1);
      BegunFromStart(env, maxTokens, n - 1);
    }
  }

  /** Iteration `k` brings the tokens kept to what was asked for. */
  predicate CompletesAt(env: Env, maxTokens: int, k: nat) {
    && Begins(env, maxTokens, k)
    && Sent(History(env, maxTokens, k)) + GainedAt(env, maxTokens, k) >= maxTokens
  }

  lemma LastCompletes(env: Env, maxTokens: int, n: nat)
    requires maxTokens > 0 && Sent(History(env, maxTokens, n)) >= maxTokens
    ensures var h := History(env, maxTokens, n); h != [] && |h| <= n && CompletesAt(env, maxTokens, |h| - 1)
  {
    var h := History(env, maxTokens, n);
    LastBegins(env, maxTokens, n);
    if h != [] {
      TurnTaken(env, maxTokens, |h| - 1);
    }
  }

  lemma CompletionLasts(env: Env, maxTokens: int, k: nat, n: nat)
    requires CompletesAt(env, maxTokens, k) && k < n
    ensures Sent(History(env, maxTokens, n)) >= maxTokens
  {
    TurnTaken(env, maxTokens, k);
    SentGrows(env, maxTokens, k + 1, n);
  }

  /** Enough tokens make the request OK, and what it kept is exactly the indices asked for. */
  lemma CompletedIsWhole(env: Env, maxTokens: int, n: nat)
    requires Lawful(env, maxTokens) && Sent(History(env, maxTokens, n)) >= maxTokens
    ensures var h := History(env, maxTokens, n);
      Verdict(h, maxTokens) == Ok && Kept(Segments(h)) == Range(0, Max(0, maxTokens))
  {
    var h := History(env, maxTokens, n);
    AttemptsChain(env, maxTokens, n);
    KeptIsGapless(Segments(h));
    LastBegins(env, maxTokens, n);
    if h != [] {
      TurnTaken(env, maxTokens, |h| - 1);
    }
  }

  /** The client has every token it asked for exactly when some iteration brings the count there;
      the request is then OK and kept exactly the indices below `maxTokens`. */
  lemma CompletedExactly(env: Env, maxTokens: int, n: nat)
    requires Lawful(env, maxTokens)
    ensures var h := History(env, maxTokens, n);
      && (Sent(h) >= maxTokens <==> maxTokens <= 0 || exists k: nat :: k < n && CompletesAt(env, maxTokens, k))
      && (Sent(h) >= maxTokens ==> Verdict(h, maxTokens) == Ok && Kept(Segments(h)) == Range(0, Max(0, maxTokens)))
  {
    if Sent(History(env, maxTokens, n)) >= maxTokens {
      CompletedIsWhole(env, maxTokens, n);
      if maxTokens > 0 {
        LastCompletes(env, maxTokens, n);
      }
    }
    if k: nat :| k < n && CompletesAt(env, maxTokens, k) {
      CompletionLasts(env, maxTokens, k, n);
    }
  }

  lemma WholeFeedIsGained(env: Env, maxTokens: int, k: nat, r: Id)
    requires Begins(env, maxTokens, k) && !env.cancelled(k) && env.allows(k, r)
    requires var ex := Tried(History(env, maxTokens, k));
      env.pick(k, ex) == Some(r) || (env.pick(k, ex) == None && env.woken(k) && env.repick(k, ex) == Some(r))
    requires var f := env.feed(k, r, Sent(History(env, maxTokens, k)));
      f.finishOk && forall i: nat | i < |f.tokens| :: !env.clientGone(k)(i) && !env.writeFails(k)(i)
    ensures GainedAt(env, maxTokens, k) == |env.feed(k, r, Sent(History(env, maxTokens, k))).tokens|
  {
    var f := env.feed(k, r, Sent(History(env, maxTokens, k)));
    assert Reach(env.clientGone(k), env.writeFails(k), |f.tokens|) == |f.tokens|;
  }

  /** Failover works: an iteration that is sent to a replica, at once or after a served wait, which the breaker
      lets through and which streams to the end before a client that stays, completes the request whatever
      happened before. */
  lemma FailoverWorks(env: Env, maxTokens: int, k: nat, n: nat, r: Id)
    requires Lawful(env, maxTokens) && k < n && Begins(env, maxTokens, k) && !env.cancelled(k) && env.allows(k, r)
    requires var ex := Tried(History(env, maxTokens, k));
      env.pick(k, ex) == Some(r) || (env.pick(k, ex) == None && env.woken(k) && env.repick(k, ex) == Some(r))
    requires var f := env.feed(k, r, Sent(History(env, maxTokens, k)));
      f.finishOk && forall i: nat | i < |f.tokens| :: !env.clientGone(k)(i) && !env.writeFails(k)(i)
    ensures var h := History(env, maxTokens, n);
      Verdict(h, maxTokens) == Ok && Kept(Segments(h)) == Range(0, Max(0, maxTokens))
  {
    WholeFeedIsGained(env, maxTokens, k, r);
    assert IsFeed(env.feed(k, r, Sent(History(env, maxTokens, k))), Sent(History(env, maxTokens, k)), maxTokens);
    CompletionLasts(env, maxTokens, k, n);
    CompletedIsWhole(env, maxTokens, n);
  }

  lemma SentStep(env: Env, maxTokens: int, n: nat)
    ensures Sent(History(env, maxTokens, n + 1)) == Sent(History(env, maxTokens, n)) + GainedAt(env, maxTokens, n)
  {
    if Begins(env, maxTokens, n) {
      TurnTaken(env, maxTokens, n);
    }
  }

  lemma {:induction false} SentGrows(env: Env, maxTokens: int, m: nat, n: nat)
    requires m <= n
    ensures Sent(History(env, maxTokens, m)) <= Sent(History(env, maxTokens, n))
  {
    if m == n {
    } else {
      SentGrows(env, maxTokens, m, n - 1);
      SentStep(env, maxTokens, n - 1);
    }
  }

  /** Iteration `k` is begun with a cancelled client, or finds no replica and is not served by the queue. */
  predicate HaltsAt(env: Env, maxTokens: int, k: nat) {
    && Begins(env, maxTokens, k)
    && (env.cancelled(k) || (env.pick(k, Tried(History(env, maxTokens, k))).None? && !env.woken(k)))
  }

  lemma HaltStatus(env: Env, maxTokens: int, n: nat)
    ensures (Verdict(History(env, maxTokens, n), maxTokens) == Cancelled ||
             Verdict(History(env, maxTokens, n), maxTokens) == ResourceExhausted) <==>
            exists k: nat :: k < n && HaltsAt(env, maxTokens, k)
  {
    CancelledExactly(env, maxTokens, n);
    ExhaustedUnserved(env, maxTokens, n);
    if k: nat :| k < n && HaltsAt(env, maxTokens, k) {
      assert (Begins(env, maxTokens, k) && env.cancelled(k)) || UnservedAt(env, maxTokens, k);
    }
    if k: nat :| k < n && UnservedAt(env, maxTokens, k) {
      assert HaltsAt(env, maxTokens, k);
    }
    if k: nat :| k < n && Begins(env, maxTokens, k) && env.cancelled(k) {
      assert HaltsAt(env, maxTokens, k);
    }
  }

  /** Documented as OK once tokens were delivered: a request that delivered some ends OK exactly when some
      of them came from an attempt that did not fail, no iteration met a cancelled client and none was
      left unserved. When it ends UNAVAILABLE all it delivered came from failed attempts. */
  lemma DeliveredThenOk(env: Env, maxTokens: int, n: nat)
    requires Lawful(env, maxTokens) && Delivered(Segments(History(env, maxTokens, n))) != []
    ensures Verdict(History(env, maxTokens, n), maxTokens) == Ok <==>
      && Useful(Segments(History(env, maxTokens, n)))
      && forall k: nat | k < n :: !HaltsAt(env, maxTokens, k)
    ensures Verdict(History(env, maxTokens, n), maxTokens) == Unavailable ==>
      Wasted(Segments(History(env, maxTokens, n)))
  {
    var h := History(env, maxTokens, n);
    HaltStatus(env, maxTokens, n);
    KeptIsUseful(Segments(h));
    AttemptsChain(env, maxTokens, n);
    KeptWithinDelivered(Segments(h));
    if maxTokens <= 0 {
      OverForGood(env, maxTokens, 0, n);
    }
  }

  // ---- What a client that stays may rely on ----

  /** A client that is lost in one attempt is sent nothing by any later one. */
  lemma LostClientGetsNothing(env: Env, maxTokens: int, k: nat, i: nat, m: nat, r: Id, sent: nat)
    requires Lawful(env, maxTokens) && k < m && (env.clientGone(k)(i) || env.writeFails(k)(i))
    ensures env.cancelled(m) || StreamOf(env, m, r, sent).tokens == []
  {
    if !env.cancelled(m) {
      assert env.writeFails(m)(0);
    }
  }

  ghost predicate Stays(env: Env, n: nat) {
    forall k: nat, i: nat | k < n :: !env.clientGone(k)(i) && !env.writeFails(k)(i)
  }

  /** Iteration `k` leaves the count as it is or brings it to the end. */
  predicate WholeStep(env: Env, maxTokens: int, k: nat) {
    var before, after := Sent(History(env, maxTokens, k)), Sent(History(env, maxTokens, k + 1));
    after == before || after >= maxTokens
  }

  lemma GainIsWhole(env: Env, maxTokens: int, k: nat)
    requires Lawful(env, maxTokens) && Stays(env, k + 1)
    ensures WholeStep(env, maxTokens, k)
  {
    SentStep(env, maxTokens, k);
    var h := History(env, maxTokens, k);
    if Begins(env, maxTokens, k) && Succeeds(env, k, Tried(h), Sent(h)) {
      var r := Chosen(env, k, Tried(h)).value;
      var f := env.feed(k, r, Sent(h));
      assert IsFeed(f, Sent(h), maxTokens);
      assert Reach(env.clientGone(k), env.writeFails(k), |f.tokens|) == |f.tokens|;
    }
  }

  lemma {:induction false} WholeSteps(env: Env, maxTokens: int, n: nat)
    requires forall k: nat | k < n :: WholeStep(env, maxTokens, k)
    ensures Sent(History(env, maxTokens, n)) == 0 || Sent(History(env, maxTokens, n)) >= maxTokens
  {
    if n == 0 {
    } else {
      WholeSteps(env, maxTokens, n - 1);
      assert WholeStep(env, maxTokens, n - 1);
    }
  }

  /** A client that stays is served all or nothing, as far as tokens that count go. */
  lemma AllOrNothing(env: Env, maxTokens: int, n: nat)
    requires Lawful(env, maxTokens) && Stays(env, n)
    ensures Sent(History(env, maxTokens, n)) == 0 || Sent(History(env, maxTokens, n)) >= maxTokens
  {
    forall k: nat | k < n ensures WholeStep(env, maxTokens, k) {
      GainIsWhole(env, maxTokens, k);
    }
    WholeSteps(env, maxTokens, n);
  }

  /** So for a client that stays OK means the whole request, and it is never cancelled. */
  lemma OkIsWhole(env: Env, maxTokens: int, n: nat)
    requires Lawful(env, maxTokens) && Stays(env, n)
    ensures var h := History(env, maxTokens, n);
      && (Verdict(h, maxTokens) == Ok <==> Kept(Segments(h)) == Range(0, Max(0, maxTokens)))
      && Verdict(h, maxTokens) != Cancelled
  {
    var h := History(env, maxTokens, n);
    AllOrNothing(env, maxTokens, n);
    CancelledExactly(env, maxTokens, n);
    forall k: nat | k < n ensures !env.cancelled(k) {
      assert !env.clientGone(k)(0);
    }
    if Sent(h) >= maxTokens {
      CompletedIsWhole(env, maxTokens, n);
    }
  }

  // ---- Runs that break what is documented ----

  function Never(): nat -> bool { k => false }

  function From(first: nat): nat -> bool { k => k >= first }

  /** Two replicas whose breakers let everything through; both may be gone after a served wait. */
  function TwoReplicas(cancelled: nat -> bool, woken: bool, feed: (nat, Id, int) -> Feed,
                       writeFails: nat -> nat -> bool): Env {
    Env(cancelled, (k: nat, ex: set<Id>) => if "a" !in ex then Some("a") else if "b" !in ex then Some("b") else None,
        k => woken, (k: nat, ex: set<Id>) => None, (k: nat, r: Id) => true, feed, k => i => cancelled(k), writeFails)
  }

  /** Two tokens are asked for; a replica streams all that is left of them, or breaks off after one. */
  function Whole(a: bool, b: bool): (nat, Id, int) -> Feed {
    (k: nat, r: Id, start: int) =>
      if start >= 2 then Feed([], true)
      else if (r == "a" && a) || (r == "b" && b) then Feed(Range(start, 2 - start), true)
      else Feed(Range(start, 1), false)
  }

  /** The client's stream takes one token of the first attempt and then breaks for good, if it breaks. */
  function BreaksEarly(broken: bool): nat -> nat -> bool { k => i => broken && (k >= 1 || i >= 1) }

  lemma Continues(env: Env, maxTokens: int, h: seq<Turn>, t: Turn)
    requires h == History(env, maxTokens, |h|) && !Over(h, maxTokens)
    requires t == TurnAt(env, |h|, Tried(h), Sent(h))
    ensures h + [t] == History(env, maxTokens, |h| + 1)
    ensures Tried(h + [t]) == Tried(h) + Excludes(t)
    ensures Sent(h + [t]) == Sent(h) + Gain(t)
    ensures Delivered(Segments(h + [t])) == Delivered(Segments(h)) + Output(t)
  {
    TurnAdded(h, t);
  }

  lemma TwoReplicasAreLawful(cancelled: nat -> bool, woken: bool, a: bool, b: bool, broken: bool)
    requires forall k: nat, m: nat | k <= m :: cancelled(k) ==> cancelled(m)
    ensures Lawful(TwoReplicas(cancelled, woken, Whole(a, b), BreaksEarly(broken)), 2)
  {
    forall k: nat, r, start ensures IsFeed(Whole(a, b)(k, r, start), start, 2) {
      if start >= 2 {
      } else if (r == "a" && a) || (r == "b" && b) {
        assert Whole(a, b)(k, r, start).tokens == Range(start, 2 - start);
      } else {
        assert Whole(a, b)(k, r, start).tokens == Range(start, 1);
      }
    }
  }

  /** How the first iteration goes there: "a" streams to the end, or breaks off, or loses the client. */
  lemma FirstOfTwo(cancelled: nat -> bool, woken: bool, a: bool, b: bool, broken: bool)
    requires !cancelled(0)
    ensures var env := TwoReplicas(cancelled, woken, Whole(a, b), BreaksEarly(broken));
      var tokens := if a && !broken then [0, 1] else [0];
      TurnAt(env, 0, {}, 0) == Attempted(Segment("a", tokens, !a), false)
  {
    var env := TwoReplicas(cancelled, woken, Whole(a, b), BreaksEarly(broken));
    var f := Whole(a, b)(0, "a", 0);
    assert Range(0, 2) == [0, 1] && Range(0, 1) == [0];
    assert Reach(env.clientGone(0), env.writeFails(0), |f.tokens|) == if a && !broken then 2 else 1;
  }

  /** And the second: "b" resumes after the tokens kept, for a client that may be lost by then. */
  lemma SecondOfTwo(woken: bool, a: bool, b: bool, broken: bool, sent: nat)
    requires sent < 2
    ensures var env := TwoReplicas(Never(), woken, Whole(a, b), BreaksEarly(broken));
      var tokens := if broken then [] else if b then Range(sent, 2 - sent) else [sent];
      TurnAt(env, 1, {"a"}, sent) == Attempted(Segment("b", tokens, !broken && !b), false)
  {
    var env := TwoReplicas(Never(), woken, Whole(a, b), BreaksEarly(broken));
    var f := Whole(a, b)(1, "b", sent);
    assert "a" != "b";
    assert f.tokens == if b then Range(sent, 2 - sent) else [sent];
    assert Reach(env.clientGone(1), env.writeFails(1), |f.tokens|) == if broken then 0 else |f.tokens|;
  }

  /** The third finds neither. */
  lemma ThirdOfTwo(woken: bool, a: bool, b: bool, broken: bool, sent: nat)
    ensures var env := TwoReplicas(Never(), woken, Whole(a, b), BreaksEarly(broken));
      TurnAt(env, 2, {"a", "b"}, sent) == if woken then StillStarved else Exhausted
  {}

  function Counted(s: Segment): nat { if s.failed then 0 else |s.tokens| }

  lemma OneAttempt(env: Env, maxTokens: int, s: Segment)
    requires TurnAt(env, 0, {}, 0) == Attempted(s, false) && maxTokens > 0
    ensures var h := History(env, maxTokens, 1);
      && |h| == 1 && h[0] == Attempted(s, false) && Tried(h) == {s.replica}
      && Sent(h) == Counted(s) && Delivered(Segments(h)) == s.tokens
  {
    NextBegins(env, maxTokens, 0);
    Continues(env, maxTokens, History(env, maxTokens, 0), Attempted(s, false));
  }

  lemma TwoAttempts(env: Env, maxTokens: int, s: Segment, t: Segment)
    requires TurnAt(env, 0, {}, 0) == Attempted(s, false) && Counted(s) < maxTokens
    requires TurnAt(env, 1, {s.replica}, Counted(s)) == Attempted(t, false)
    ensures var h := History(env, maxTokens, 2);
      && |h| == 2 && !Stopped(h) && Tried(h) == {s.replica, t.replica}
      && (Over(h, maxTokens) <==> Counted(s) + Counted(t) >= maxTokens)
      && (Over(h, maxTokens) ==> Verdict(h, maxTokens) == Ok)
      && Sent(h) == Counted(s) + Counted(t) && Delivered(Segments(h)) == s.tokens + t.tokens
  {
    OneAttempt(env, maxTokens, s);
    Continues(env, maxTokens, History(env, maxTokens, 1), Attempted(t, false));
  }

  /** An attempt after which the client cancels. */
  lemma AttemptThenCancel(env: Env, maxTokens: int, s: Segment)
    requires TurnAt(env, 0, {}, 0) == Attempted(s, false) && Counted(s) < maxTokens && env.cancelled(1)
    ensures var h := History(env, maxTokens, MAX_RETRIES);
      Verdict(h, maxTokens) == Cancelled && Sent(h) == Counted(s) && Delivered(Segments(h)) == s.tokens
  {
    OneAttempt(env, maxTokens, s);
    Continues(env, maxTokens, History(env, maxTokens, 1), Abandoned);
    OverForGood(env, maxTokens, 2, MAX_RETRIES);
  }

  /** Two attempts that complete the request. */
  lemma AttemptsComplete(env: Env, maxTokens: int, s: Segment, t: Segment)
    requires TurnAt(env, 0, {}, 0) == Attempted(s, false) && Counted(s) < maxTokens
    requires TurnAt(env, 1, {s.replica}, Counted(s)) == Attempted(t, false) && Counted(s) + Counted(t) >= maxTokens
    ensures var h := History(env, maxTokens, MAX_RETRIES);
      Verdict(h, maxTokens) == Ok && Delivered(Segments(h)) == s.tokens + t.tokens
  {
    TwoAttempts(env, maxTokens, s, t);
    OverForGood(env, maxTokens, 2, MAX_RETRIES);
  }

  /** A turn without a replica, after turns that did not end the loop. */
  lemma EndsWithout(env: Env, maxTokens: int, h: seq<Turn>, n: nat, last: Turn)
    requires h == History(env, maxTokens, |h|) && !Over(h, maxTokens) && n == |h| + 1
    requires last == TurnAt(env, |h|, Tried(h), Sent(h)) && (last == StillStarved || last == Exhausted)
    ensures var h' := History(env, maxTokens, n);
      && Delivered(Segments(h')) == Delivered(Segments(h)) && Sent(h') == Sent(h)
      && Verdict(h', maxTokens) ==
         if last.Exhausted? then ResourceExhausted else if Sent(h) > 0 then Ok else Unavailable
  {
    Continues(env, maxTokens, h, last);
    assert Delivered(Segments(h)) + [] == Delivered(Segments(h));
  }

  /** Two attempts that do not, and a turn without a replica. */
  lemma AttemptsThenNone(env: Env, maxTokens: int, s: Segment, t: Segment, last: Turn)
    requires TurnAt(env, 0, {}, 0) == Attempted(s, false) && Counted(s) < maxTokens
    requires TurnAt(env, 1, {s.replica}, Counted(s)) == Attempted(t, false) && Counted(s) + Counted(t) < maxTokens
    requires TurnAt(env, 2, {s.replica, t.replica}, Counted(s) + Counted(t)) == last
    requires last == StillStarved || last == Exhausted
    ensures var h := History(env, maxTokens, MAX_RETRIES);
      && Delivered(Segments(h)) == s.tokens + t.tokens && Sent(h) == Counted(s) + Counted(t)
      && Verdict(h, maxTokens) ==
         if last.Exhausted? then ResourceExhausted else if Counted(s) + Counted(t) > 0 then Ok else Unavailable
  {
    TwoAttempts(env, maxTokens, s, t);
    EndsWithout(env, maxTokens, History(env, maxTokens, 2), MAX_RETRIES, last);
  }

  /** A client that cancels after the first turn or never, and the turns it sees. */
  lemma Story(cancels: bool, woken: bool, a: bool, b: bool, broken: bool) returns (env: Env)
    ensures Lawful(env, 2) && (cancels ==> env.cancelled(1))
    ensures TurnAt(env, 0, {}, 0) == Attempted(Segment("a", if a && !broken then [0, 1] else [0], !a), false)
    ensures !cancels ==> forall sent: nat | sent < 2 ::
      TurnAt(env, 1, {"a"}, sent) ==
      Attempted(Segment("b", if broken then [] else if b then Range(sent, 2 - sent) else [sent], !broken && !b), false)
    ensures !cancels ==> forall sent: nat ::
      TurnAt(env, 2, {"a", "b"}, sent) == if woken then StillStarved else Exhausted
  {
    var cancelled := if cancels then From(1) else Never();
    env := TwoReplicas(cancelled, woken, Whole(a, b), BreaksEarly(broken));
    TwoReplicasAreLawful(cancelled, woken, a, b, broken);
    FirstOfTwo(cancelled, woken, a, b, broken);
    if !cancels {
      forall sent: nat | sent < 2
        ensures var tokens := if broken then [] else if b then Range(sent, 2 - sent) else [sent];
          TurnAt(env, 1, {"a"}, sent) == Attempted(Segment("b", tokens, !broken && !b), false) {
        SecondOfTwo(woken, a, b, broken, sent);
      }
      forall sent: nat ensures TurnAt(env, 2, {"a", "b"}, sent) == if woken then StillStarved else Exhausted {
        ThirdOfTwo(woken, a, b, broken, sent);
      }
    }
  }

  /** Mid-stream failover is documented to continue the stream; here "a" breaks off after token 0, and the
      client receives that token again from "b". */
  lemma FailoverMayRepeat() returns (env: Env)
    ensures Lawful(env, 2)
    ensures var h := History(env, 2, MAX_RETRIES); Verdict(h, 2) == Ok && Delivered(Segments(h)) == [0, 0, 1]
  {
    env := Story(false, true, false, true, false);
    AttemptsComplete(env, 2, Segment("a", [0], true), Segment("b", Range(0, 2), false));
    assert [0] + Range(0, 2) == [0, 0, 1];
  }

  /** A request that finds no replica at first, is woken from the queue and is then served in whole. */
  lemma ServedAfterWaiting(a: Id) returns (env: Env)
    ensures Lawful(env, 2) && env.pick(0, {}) == None && env.woken(0) && env.repick(0, {}) == Some(a)
    ensures var h := History(env, 2, MAX_RETRIES); Verdict(h, 2) == Ok && Delivered(Segments(h)) == [0, 1]
  {
    env := LateReplica(a);
    LateReplicaIsLawful(a);
    assert TurnAt(env, 0, {}, 0) == Attempted(Segment(a, [0, 1], false), true) by {
      assert Range(0, 2) == [0, 1];
      assert Reach(env.clientGone(0), env.writeFails(0), 2) == 2;
    }
    LateAttempt(env, 2, Segment(a, [0, 1], false));
  }

  lemma LateAttempt(env: Env, maxTokens: int, s: Segment)
    requires TurnAt(env, 0, {}, 0) == Attempted(s, true) && 0 < maxTokens <= Counted(s)
    ensures var h := History(env, maxTokens, MAX_RETRIES);
      Verdict(h, maxTokens) == Ok && Delivered(Segments(h)) == s.tokens
  {
    NextBegins(env, maxTokens, 0);
    Continues(env, maxTokens, History(env, maxTokens, 0), Attempted(s, true));
    OverForGood(env, maxTokens, 1, MAX_RETRIES);
  }

  /** A replica that the load balancer finds only after a wait. */
  function LateReplica(a: Id): Env {
    Env(Never(), (k: nat, ex: set<Id>) => None, k => true, (k: nat, ex: set<Id>) => if a in ex then None else Some(a),
        (k: nat, r: Id) => true,
        (k: nat, r: Id, start: int) => if start >= 2 then Feed([], true) else Feed(Range(start, 2 - start), true),
        k => i => false, k => i => false)
  }

  lemma LateReplicaIsLawful(a: Id)
    ensures Lawful(LateReplica(a), 2)
  {
    forall k: nat, r: Id, start: int ensures IsFeed(LateReplica(a).feed(k, r, start), start, 2) {
      if start < 2 {
        assert LateReplica(a).feed(k, r, start).tokens == Range(start, 2 - start);
      }
    }
  }

  /** OK is documented once tokens were delivered; here two replicas break off after token 0. */
  lemma UnavailableAfterTokens() returns (env: Env)
    ensures Lawful(env, 2)
    ensures var h := History(env, 2, MAX_RETRIES); Verdict(h, 2) == Unavailable && Delivered(Segments(h)) == [0, 0]
  {
    env := Story(false, true, false, false, false);
    AttemptsThenNone(env, 2, Segment("a", [0], true), Segment("b", [0], true), StillStarved);
    assert [0] + [0] == [0, 0];
  }

  /** RESOURCE_EXHAUSTED is documented only before any retry; here the client's stream breaks after token 0,
      which counts, and the third turn finds no replica. */
  lemma ExhaustedAfterTokens() returns (env: Env)
    ensures Lawful(env, 2)
    ensures var h := History(env, 2, MAX_RETRIES);
      Verdict(h, 2) == ResourceExhausted && Sent(h) == 1 && Delivered(Segments(h)) == [0]
  {
    env := Story(false, false, true, false, true);
    AttemptsThenNone(env, 2, Segment("a", [0], false), Segment("b", [], false), Exhausted);
    assert [0] + [] == [0];
  }

  /** And CANCELLED may follow a token that counts. */
  lemma CancelledAfterTokens() returns (env: Env)
    ensures Lawful(env, 2)
    ensures var h := History(env, 2, MAX_RETRIES);
      Verdict(h, 2) == Cancelled && Sent(h) == 1 && Delivered(Segments(h)) == [0]
  {
    env := Story(true, true, true, true, true);
    AttemptThenCancel(env, 2, Segment("a", [0], false));
  }
}
