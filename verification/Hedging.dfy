/** The hedged path: two replicas race for the first token and the winner streams on. The path is proved
    equal to functions of its environment. */
module Hedging {
  import opened Options
  import opened Views
  import opened Handlers
  import opened TokenStreams
  import opened Inference

  /** `race` says which of two threads signalled a first token before the deadline (0 for none). `firstFails`
      is the write of the winner's first token, which the code does not look at; later tokens are counted
      from there. A single stream is counted from its first token. */
  datatype HedgeEnv = HedgeEnv(
    pick1: Option<Id>,
    pick2: set<Id> -> Option<Id>,
    stream: Id -> Feed,
    race: (Id, Id) -> nat,
    firstFails: bool,
    clientGone: nat -> bool,
    writeFails: nat -> bool)

  /** The replica's stream yields a first token. */
  predicate Success(env: HedgeEnv, r: Id) { env.stream(r).tokens != [] }

  /** Replicas generate as they should, only a thread with a token signals, and the client's stream stays as
      it is once it is lost: no write succeeds after one that failed. */
  ghost predicate LawfulHedge(env: HedgeEnv, maxTokens: int) {
    && (forall r :: IsFeed(env.stream(r), 0, maxTokens))
    && (forall a, b :: (env.race(a, b) == 1 ==> Success(env, a)) && (env.race(a, b) > 1 ==> Success(env, b)))
    && (env.firstFails ==> env.writeFails(0))
    && (forall i: nat, j: nat | i <= j :: env.writeFails(i) ==> env.writeFails(j))
    && (forall i: nat, j: nat | i <= j :: env.clientGone(i) ==> env.clientGone(j))
  }

  /** The winner of the race, if it is decided. */
  function Winner(env: HedgeEnv, a: Id, b: Id): Option<Id> {
    var w := if env.race(a, b) == 1 then a else b;
    if env.race(a, b) == 0 || !Success(env, w) then None else Some(w)
  }

  /** Count the only replica in, stream, count it out. It was never granted, and is recorded all the same. */
  function SoloLog(calls: seq<Call>, a: Id, ok: bool): seq<Call> {
    calls + [Inc(a)] + [Stream(a, ok)] + [Dec(a)] + [Notify] + [Record(a, ok)] + [Return]
  }

  /** Neither replica produced a token in time: count both out, notify twice, record nothing. */
  function LostLog(calls: seq<Call>, a: Id, b: Id): seq<Call> {
    calls + [Race(None, false)] + [Dec(a)] + [Dec(b)] + [Notify] + [Notify] + [Return]
  }

  /** Settle the loser as soon as the race is decided; a loser that produced a token counts as a success. */
  function WonLog(calls: seq<Call>, one: bool, w: Id, l: Id, loserOk: bool): seq<Call> {
    var settled := calls + [Race(Some(one), loserOk)] + [Dec(l)] + [Notify] + [Record(w, true)];
    (if loserOk then settled + [Record(l, true)] else settled) + [Dec(w)] + [Notify] + [Return]
  }

  function RaceLog(env: HedgeEnv, calls: seq<Call>, a: Id, b: Id): seq<Call> {
    var racing := calls + [Inc(a)] + [Inc(b)];
    if Winner(env, a, b).None? then LostLog(racing, a, b)
    else if env.race(a, b) == 1 then WonLog(racing, true, a, b, Success(env, b))
    else WonLog(racing, false, b, a, Success(env, a))
  }

  /** The two replicas that race; none unless the second pick finds another one. */
  function Rivals(env: HedgeEnv): Option<(Id, Id)> {
    match env.pick1
    case None => None
    case Some(a) =>
      match env.pick2({a})
      case None => None
      case Some(b) => if b == a then None else Some((a, b))
  }

  /** The replica whose stream the client is shown. */
  function Source(env: HedgeEnv): Option<Id> {
    match Rivals(env)
    case None => env.pick1
    case Some((a, b)) => Winner(env, a, b)
  }

  function SoloOf(env: HedgeEnv, a: Id): Segment { SegmentOf(a, env.stream(a), env.clientGone, env.writeFails) }

  /** The winner's first token, and what follows it before the client is lost. */
  function WonOutput(env: HedgeEnv, w: Id): seq<int>
    requires Success(env, w)
  {
    var tokens := env.stream(w).tokens;
    var k := Reach(env.clientGone, env.writeFails, |tokens| - 1);
    (if env.firstFails then [] else [tokens[0]]) + tokens[1..1 + k]
  }

  function HedgeStatus(env: HedgeEnv): Status {
    match Source(env)
    case None => if env.pick1.None? then ResourceExhausted else Unavailable
    case Some(r) => if Rivals(env).None? && SoloOf(env, r).failed then Unavailable else Ok
  }

  function HedgeWritten(env: HedgeEnv): seq<int> {
    match Source(env)
    case None => []
    case Some(r) => if Rivals(env).None? then SoloOf(env, r).tokens else WonOutput(env, r)
  }

  function HedgeLog(env: HedgeEnv): seq<Call> {
    match env.pick1
    case None => [] + [Starve] + [Return]
    case Some(a) =>
      var one := [] + [Pick(a)];
      match env.pick2({a})
      case None => SoloLog(one + [Starve], a, !SoloOf(env, a).failed)
      case Some(b) =>
        if b == a then SoloLog(one + [Pick(b)], a, !SoloOf(env, a).failed)
        else RaceLog(env, one + [Pick(b)], a, b)
  }

  /** Only one replica can be had: a single stream. */
  method ServeAlone(env: HedgeEnv, a: Id, calls: seq<Call>)
    returns (status: Status, written: seq<int>, after: seq<Call>)
    ensures var s := SoloOf(env, a);
      && status == (if s.failed then Unavailable else Ok)
      && written == s.tokens && after == SoloLog(calls, a, !s.failed)
  {
    after := calls + [Inc(a)];
    var streamed;
    streamed, written := StreamFromReplica(env.stream(a), env.clientGone, env.writeFails);
    after := after + [Stream(a, streamed >= 0)];
    after := after + [Dec(a)];
    after := after + [Notify];
    if streamed >= 0 {
      return Ok, written, after + [Record(a, true)] + [Return];
    }
    return Unavailable, written, after + [Record(a, false)] + [Return];
  }

  /** The winner's first token, whatever becomes of it, and then the rest until the client is lost. */
  method PumpWinner(env: HedgeEnv, winner: Id) returns (written: seq<int>)
    requires Success(env, winner)
    ensures written == WonOutput(env, winner)
  {
    var tokens := env.stream(winner).tokens;
    written := if env.firstFails then [] else [tokens[0]];
    ghost var first := written;
    var rest := tokens[1..];
    var next := 0;
    while next < |rest|
      invariant 0 <= next <= |rest| && written == first + rest[..next]
      invariant forall k: nat | k < next :: !env.clientGone(k) && !env.writeFails(k)
    {
      if env.clientGone(next) {
        break;
      }
      if env.writeFails(next) {
        break;
      }
      written := written + [rest[next]];
      next := next + 1;
    }
    assert next == Reach(env.clientGone, env.writeFails, |rest|);
    assert rest[..next] == tokens[1..1 + next];
  }

  /** Race two replicas and stream the winner. */
  method ServeRace(env: HedgeEnv, a: Id, b: Id, calls: seq<Call>)
    returns (status: Status, written: seq<int>, after: seq<Call>)
    ensures after == RaceLog(env, calls, a, b)
    ensures match Winner(env, a, b)
      case None => status == Unavailable && written == []
      case Some(w) => status == Ok && written == WonOutput(env, w)
  {
    after := calls + [Inc(a)];
    after := after + [Inc(b)];
    var one := env.race(a, b) == 1;
    var winner, loser := if one then a else b, if one then b else a;
    written := [];
    if env.race(a, b) == 0 || env.stream(winner).tokens == [] {
      after := after + [Race(None, false)] + [Dec(a)] + [Dec(b)];
      after := after + [Notify] + [Notify];
      return Unavailable, written, after + [Return];
    }
    var loserOk := env.stream(loser).tokens != [];
    after := after + [Race(Some(one), loserOk)] + [Dec(loser)];
    after := after + [Notify];
    after := after + [Record(winner, true)];
    if loserOk {
      after := after + [Record(loser, true)];
    }
    written := PumpWinner(env, winner);
    after := after + [Dec(winner)];
    after := after + [Notify];
    return Ok, written, after + [Return];
  }

  /** The hedged path. */
  method InferHedged(env: HedgeEnv) returns (status: Status, written: seq<int>, calls: seq<Call>)
    ensures status == HedgeStatus(env) && written == HedgeWritten(env) && calls == HedgeLog(env)
  {
    if env.pick1.None? {
      return ResourceExhausted, [], [] + [Starve] + [Return];
    }
    var a := env.pick1.value;
    calls := [] + [Pick(a)];
    var second := env.pick2({a});
    if second.None? || second.value == a {
      calls := calls + [if second.None? then Starve else Pick(a)];
      status, written, calls := ServeAlone(env, a, calls);
    } else {
      status, written, calls := ServeRace(env, a, second.value, calls + [Pick(second.value)]);
    }
  }

  /** Whatever happens the hedged path's client sees one gapless stream, although the first write is not
      looked at: a first write that fails is followed by no other that succeeds. */
  lemma HedgedIsGapless(env: HedgeEnv, maxTokens: int)
    requires LawfulHedge(env, maxTokens)
    ensures HedgeWritten(env) == Range(0, |HedgeWritten(env)|)
  {
    if Source(env).Some? {
      assert IsFeed(env.stream(Source(env).value), 0, maxTokens);
    }
  }

  /** The client is never lost while the source streams: `n` tokens after the first, if it won a race. */
  ghost predicate ClientStays(env: HedgeEnv, n: int) {
    && (Rivals(env).Some? ==> !env.firstFails)
    && forall i: nat | i < (if Rivals(env).Some? then n - 1 else n) :: !env.clientGone(i) && !env.writeFails(i)
  }

  /** A hedged OK is the whole request exactly when the replica shown streams to the end before a client that
      stays, and, if it is alone, ends well; nothing makes up for a winner that breaks off. */
  lemma HedgedOkIsWholeExactly(env: HedgeEnv, maxTokens: int)
    requires LawfulHedge(env, maxTokens)
    ensures HedgeStatus(env) == Ok && HedgeWritten(env) == Range(0, Max(0, maxTokens)) <==>
      && Source(env).Some?
      && var f := env.stream(Source(env).value);
         |f.tokens| >= maxTokens && ClientStays(env, |f.tokens|) && (Rivals(env).None? ==> f.finishOk)
  {
    match Source(env)
    case None =>
    case Some(r) =>
      if Rivals(env).None? {
        SoloIsWholeExactly(env, r, maxTokens);
      } else {
        WinnerIsWholeExactly(env, r, maxTokens);
      }
  }

  lemma SoloIsWholeExactly(env: HedgeEnv, r: Id, maxTokens: int)
    requires LawfulHedge(env, maxTokens)
    ensures var s, f := SoloOf(env, r), env.stream(r);
      !s.failed && s.tokens == Range(0, Max(0, maxTokens)) <==>
      && |f.tokens| >= maxTokens && f.finishOk
      && forall i: nat | i < |f.tokens| :: !env.clientGone(i) && !env.writeFails(i)
  {
    var f := env.stream(r);
    assert IsFeed(f, 0, maxTokens);
    assert |Range(0, Max(0, maxTokens))| == Max(0, maxTokens);
    var k := Reach(env.clientGone, env.writeFails, |f.tokens|);
    assert f.tokens[..|f.tokens|] == f.tokens;
  }

  lemma WinnerIsWholeExactly(env: HedgeEnv, r: Id, maxTokens: int)
    requires LawfulHedge(env, maxTokens) && Success(env, r)
    ensures var f := env.stream(r);
      WonOutput(env, r) == Range(0, Max(0, maxTokens)) <==>
      && |f.tokens| >= maxTokens && !env.firstFails
      && forall i: nat | i < |f.tokens| - 1 :: !env.clientGone(i) && !env.writeFails(i)
  {
    var f := env.stream(r);
    assert IsFeed(f, 0, maxTokens);
    assert |Range(0, Max(0, maxTokens))| == Max(0, maxTokens);
    var k := Reach(env.clientGone, env.writeFails, |f.tokens| - 1);
    if k == |f.tokens| - 1 && !env.firstFails {
      assert WonOutput(env, r) == f.tokens;
    }
  }

  /** The race is documented together with mid-stream failover; here the winner breaks off after token 0, the
      loser could have streamed both tokens, and the client is told OK with one. */
  lemma HedgedOkMayBeCut(a: Id, b: Id) returns (env: HedgeEnv)
    requires a != b
    ensures LawfulHedge(env, 2) && HedgeStatus(env) == Ok && HedgeWritten(env) == [0]
    ensures Rivals(env) == Some((a, b)) && env.stream(b) == Feed([0, 1], true) && ClientStays(env, 2)
  {
    env := HedgeEnv(Some(a), ex => Some(b), (r: Id) => if r == b then Feed([0, 1], true) else Feed([0], false),
                    (x: Id, y: Id) => 1, false, i => false, i => false);
    assert [0] == Range(0, 1) && [0, 1] == Range(0, 2);
  }

  /** How a hedged request ends and what is shown, read off the picks, the race and the streams. */
  lemma HedgeEndsExactly(env: HedgeEnv, a: Id)
    requires env.pick1 == Some(a)
    ensures var second := env.pick2({a});
      if second == None || second == Some(a) then
        && Source(env) == Some(a)
        && (HedgeStatus(env) == Unavailable <==>
            !env.stream(a).finishOk && HedgeWritten(env) == env.stream(a).tokens)
        && (HedgeStatus(env) != Unavailable ==> HedgeStatus(env) == Ok)
        && HedgeWritten(env) <= env.stream(a).tokens
      else
        var b := second.value;
        var w := if env.race(a, b) == 1 then a else b;
        if env.race(a, b) == 0 || env.stream(w).tokens == [] then
          Source(env) == None && HedgeStatus(env) == Unavailable && HedgeWritten(env) == []
        else
          && Source(env) == Some(w) && HedgeStatus(env) == Ok
          && (!env.firstFails ==> HedgeWritten(env) != [] && HedgeWritten(env) <= env.stream(w).tokens)
  {
    var s := SoloOf(env, a);
    assert |s.tokens| == |env.stream(a).tokens| ==> s.tokens == env.stream(a).tokens;
  }

  lemma UnpickedIsExhausted(env: HedgeEnv)
    ensures HedgeStatus(env) == ResourceExhausted <==> env.pick1 == None
    ensures env.pick1 == None ==> HedgeWritten(env) == [] && HedgeLog(env) == [Starve, Return]
  {
    if env.pick1 == None {
      assert [] + [Starve] + [Return] == [Starve, Return];
    }
  }

  lemma SoloReports(calls: seq<Call>, a: Id, ok: bool)
    ensures Reported(SoloLog(calls, a, ok)) == Reported(calls) + [(a, ok)]
  {
    ReportedNext(calls, Inc(a));
    var c2 := calls + [Inc(a)] + [Stream(a, ok)];
    ReportedNext(calls + [Inc(a)], Stream(a, ok));
    ReportedNext(c2, Dec(a));
    ReportedNext(c2 + [Dec(a)], Notify);
    ReportedNext(c2 + [Dec(a)] + [Notify], Record(a, ok));
    ReportedNext(c2 + [Dec(a)] + [Notify] + [Record(a, ok)], Return);
  }

  lemma LostReports(calls: seq<Call>, a: Id, b: Id)
    ensures Reported(LostLog(calls, a, b)) == Reported(calls)
  {
    ReportedNext(calls, Race(None, false));
    var c2 := calls + [Race(None, false)] + [Dec(a)];
    ReportedNext(calls + [Race(None, false)], Dec(a));
    ReportedNext(c2, Dec(b));
    ReportedNext(c2 + [Dec(b)], Notify);
    ReportedNext(c2 + [Dec(b)] + [Notify], Notify);
    ReportedNext(c2 + [Dec(b)] + [Notify] + [Notify], Return);
  }

  lemma WonReports(calls: seq<Call>, one: bool, w: Id, l: Id, loserOk: bool)
    ensures Reported(WonLog(calls, one, w, l, loserOk)) ==
      Reported(calls) + [(w, true)] + if loserOk then [(l, true)] else []
  {
    ReportedNext(calls, Race(Some(one), loserOk));
    var c2 := calls + [Race(Some(one), loserOk)] + [Dec(l)];
    ReportedNext(calls + [Race(Some(one), loserOk)], Dec(l));
    ReportedNext(c2, Notify);
    var settled := c2 + [Notify] + [Record(w, true)];
    ReportedNext(c2 + [Notify], Record(w, true));
    ReportedNext(settled, Record(l, true));
    var all := if loserOk then settled + [Record(l, true)] else settled;
    ReportedNext(all, Dec(w));
    ReportedNext(all + [Dec(w)], Notify);
    ReportedNext(all + [Dec(w)] + [Notify], Return);
  }

  /** The breakers are told how the only stream ended; or of a race that is won, that the winner did well, and
      the loser too if it had a token; of a race that is lost they are told nothing. */
  lemma HedgeReports(env: HedgeEnv, a: Id)
    requires env.pick1 == Some(a)
    ensures var second := env.pick2({a});
      Reported(HedgeLog(env)) ==
      if second == None || second == Some(a) then [(a, HedgeStatus(env) == Ok)]
      else
        var b := second.value;
        var one := env.race(a, b) == 1;
        var w, l := if one then a else b, if one then b else a;
        if env.race(a, b) == 0 || env.stream(w).tokens == [] then []
        else [(w, true)] + if env.stream(l).tokens != [] then [(l, true)] else []
  {
    ReportedNext([], Pick(a));
    var one := [] + [Pick(a)];
    match env.pick2({a})
    case None =>
      ReportedNext(one, Starve);
      SoloReports(one + [Starve], a, !SoloOf(env, a).failed);
    case Some(b) =>
      ReportedNext(one, Pick(b));
      if b == a {
        SoloReports(one + [Pick(b)], a, !SoloOf(env, a).failed);
      } else {
        RaceReports(env, one + [Pick(b)], a, b);
      }
  }

  lemma RaceReports(env: HedgeEnv, calls: seq<Call>, a: Id, b: Id)
    ensures var one := env.race(a, b) == 1;
      var w, l := if one then a else b, if one then b else a;
      Reported(RaceLog(env, calls, a, b)) ==
      if env.race(a, b) == 0 || env.stream(w).tokens == [] then Reported(calls)
      else Reported(calls) + [(w, true)] + if env.stream(l).tokens != [] then [(l, true)] else []
  {
    ReportedNext(calls, Inc(a));
    ReportedNext(calls + [Inc(a)], Inc(b));
    var racing := calls + [Inc(a)] + [Inc(b)];
    LostReports(racing, a, b);
    WonReports(racing, true, a, b, Success(env, b));
    WonReports(racing, false, b, a, Success(env, a));
  }

  lemma SoloStreams(calls: seq<Call>, a: Id, ok: bool)
    requires Reaches(Hedging, calls, Solo(a))
    ensures Reaches(Hedging, calls + [Inc(a)] + [Stream(a, ok)] + [Dec(a)] + [Notify], SoloNotified(a, ok))
  {
    var c2 := calls + [Inc(a)] + [Stream(a, ok)];
    ReachesTwice(Hedging, calls, Solo(a), Inc(a), SoloBusy(a), Stream(a, ok), SoloStreamed(a, ok));
    ReachesTwice(Hedging, c2, SoloStreamed(a, ok), Dec(a), SoloFreed(a, ok), Notify, SoloNotified(a, ok));
  }

  lemma SoloIsPermitted(calls: seq<Call>, a: Id, ok: bool)
    requires Reaches(Hedging, calls, Solo(a))
    ensures Reaches(Hedging, SoloLog(calls, a, ok), Done)
  {
    SoloStreams(calls, a, ok);
    var c4 := calls + [Inc(a)] + [Stream(a, ok)] + [Dec(a)] + [Notify];
    ReachesTwice(Hedging, c4, SoloNotified(a, ok), Record(a, ok), Ending, Return, Done);
  }

  lemma LosersAreFreed(calls: seq<Call>, a: Id, b: Id)
    requires Reaches(Hedging, calls, Racing(a, b))
    ensures Reaches(Hedging, calls + [Race(None, false)] + [Dec(a)] + [Dec(b)] + [Notify], LastNotice)
  {
    var c2 := calls + [Race(None, false)] + [Dec(a)];
    ReachesTwice(Hedging, calls, Racing(a, b), Race(None, false), Lost(a, b), Dec(a), LostOne(b));
    ReachesTwice(Hedging, c2, LostOne(b), Dec(b), LostBoth, Notify, LastNotice);
  }

  lemma LostIsPermitted(calls: seq<Call>, a: Id, b: Id)
    requires Reaches(Hedging, calls, Racing(a, b))
    ensures Reaches(Hedging, LostLog(calls, a, b), Done)
  {
    LosersAreFreed(calls, a, b);
    var c4 := calls + [Race(None, false)] + [Dec(a)] + [Dec(b)] + [Notify];
    ReachesTwice(Hedging, c4, LastNotice, Notify, Ending, Return, Done);
  }

  /** The loser is settled and both outcomes are recorded. */
  lemma SettlingIsPermitted(calls: seq<Call>, w: Id, l: Id, loserOk: bool)
    requires Reaches(Hedging, calls, Won(w, l, loserOk))
    ensures var settled := calls + [Dec(l)] + [Notify] + [Record(w, true)];
      Reaches(Hedging, if loserOk then settled + [Record(l, true)] else settled, Pumping(w))
  {
    var c2 := calls + [Dec(l)] + [Notify];
    ReachesTwice(Hedging, calls, Won(w, l, loserOk), Dec(l), WonFreed(w, l, loserOk),
                 Notify, WonNotified(w, l, loserOk));
    if loserOk {
      ReachesTwice(Hedging, c2, WonNotified(w, l, true), Record(w, true), WonRecorded(w, l),
                   Record(l, true), Pumping(w));
    } else {
      ReachesNext(Hedging, c2, WonNotified(w, l, false), Record(w, true), Pumping(w));
    }
  }

  lemma WinnerIsSettled(calls: seq<Call>, w: Id)
    requires Reaches(Hedging, calls, Pumping(w))
    ensures Reaches(Hedging, calls + [Dec(w)] + [Notify] + [Return], Done)
  {
    ReachesTwice(Hedging, calls, Pumping(w), Dec(w), LastNotice, Notify, Ending);
    ReachesNext(Hedging, calls + [Dec(w)] + [Notify], Ending, Return, Done);
  }

  lemma WonIsPermitted(calls: seq<Call>, a: Id, b: Id, one: bool, loserOk: bool)
    requires Reaches(Hedging, calls, Racing(a, b))
    ensures Reaches(Hedging, WonLog(calls, one, if one then a else b, if one then b else a, loserOk), Done)
  {
    var w, l := if one then a else b, if one then b else a;
    var c1 := calls + [Race(Some(one), loserOk)];
    ReachesNext(Hedging, calls, Racing(a, b), Race(Some(one), loserOk), Won(w, l, loserOk));
    SettlingIsPermitted(c1, w, l, loserOk);
    var settled := c1 + [Dec(l)] + [Notify] + [Record(w, true)];
    WinnerIsSettled(if loserOk then settled + [Record(l, true)] else settled, w);
  }

  lemma RaceIsPermitted(env: HedgeEnv, calls: seq<Call>, a: Id, b: Id)
    requires Reaches(Hedging, calls, Pair(a, b))
    ensures Reaches(Hedging, RaceLog(env, calls, a, b), Done)
  {
    ReachesTwice(Hedging, calls, Pair(a, b), Inc(a), PairOne(a, b), Inc(b), Racing(a, b));
    var racing := calls + [Inc(a)] + [Inc(b)];
    var one := env.race(a, b) == 1;
    if Winner(env, a, b).None? {
      LostIsPermitted(racing, a, b);
    } else {
      WonIsPermitted(racing, a, b, one, Success(env, if one then b else a));
    }
  }

  /** Every call a hedged request makes is one that the protocol of Handlers allows, to its end. None of
      them asks the breaker. */
  lemma HedgeIsPermitted(env: HedgeEnv)
    ensures Follow(Hedging, HedgeLog(env)) == Some(Done)
  {
    assert Reaches(Hedging, [], Hedging);
    match env.pick1
    case None =>
      ReachesTwice(Hedging, [], Hedging, Starve, Ending, Return, Done);
    case Some(a) =>
      var one := [] + [Pick(a)];
      ReachesNext(Hedging, [], Hedging, Pick(a), HedgedOne(a));
      match env.pick2({a})
      case None =>
        ReachesNext(Hedging, one, HedgedOne(a), Starve, Solo(a));
        SoloIsPermitted(one + [Starve], a, !SoloOf(env, a).failed);
      case Some(b) =>
        ReachesNext(Hedging, one, HedgedOne(a), Pick(b), if b == a then Solo(a) else Pair(a, b));
        if b == a {
          SoloIsPermitted(one + [Pick(b)], a, !SoloOf(env, a).failed);
        } else {
          RaceIsPermitted(env, one + [Pick(b)], a, b);
        }
  }
}
