/** Two-tier selection: the clockwise walk over the ring, then weighted least connections. */
module LoadBalancers {
  import opened Options
  import opened Views
  import opened HashRing
  import opened ReplicaRegistries

  datatype Selection = Selection(replicaId: Id, grpcAddress: string)

  const PREFIX := 64

  function PromptHash(cfg: Config, prompt: string): nat {
    cfg.hash(if |prompt| > PREFIX then prompt[..PREFIX] else prompt)
  }

  // ---- Who may be chosen ----

  predicate HasRoom(i: Replica) { i.maxCapacity == 0 || i.active < i.maxCapacity }

  /** The fallback's own test for room. */
  predicate NotFull(i: Replica) { !(i.maxCapacity > 0 && i.active >= i.maxCapacity) }

  /** The two tiers test capacity alike exactly when the capacity is not negative or leaves room anyway. */
  lemma CapacityTestsAgree(i: Replica)
    ensures HasRoom(i) == NotFull(i) <==> i.maxCapacity >= 0 || i.active < i.maxCapacity
  {}

  /** A new replica that reports a negative capacity: the walk passes it over, the fallback takes it. */
  lemma CapacityTestsDiffer()
    ensures var i := UNHEARD.(maxCapacity := -1); !HasRoom(i) && NotFull(i)
  {}

  /** What the walk accepts at a ring point. */
  function Walkable(replicas: map<Id, Replica>, excluded: set<Id>): set<Id> {
    set id | id in replicas && id !in excluded && !replicas[id].draining &&
             replicas[id].gossipState != Dead && HasRoom(replicas[id])
  }

  /** What the fallback considers. */
  function Candidates(replicas: map<Id, Replica>, excluded: set<Id>): set<Id> {
    set id | id in AliveIds(replicas) && id !in excluded && NotFull(replicas[id])
  }

  /** A replica a request may go to. */
  function Eligible(replicas: map<Id, Replica>, excluded: set<Id>): set<Id> {
    set id | id in AliveIds(replicas) && id !in excluded && HasRoom(replicas[id])
  }

  function Score(i: Replica): real { i.active as real / i.weight }

  ghost predicate LeastLoaded(replicas: map<Id, Replica>, among: set<Id>, id: Id) {
    && among <= replicas.Keys && id in among
    && forall x :: x in among ==> Score(replicas[id]) <= Score(replicas[x])
  }

  /** Capacities are not negative and no replica has an empty name. */
  ghost predicate Sane(replicas: map<Id, Replica>) {
    "" !in replicas && forall id :: id in replicas ==> replicas[id].maxCapacity >= 0
  }

  /** However stale, the ring only names replicas that were addressable when it was built; entries
      are never removed and addresses never cleared, so they still are. */
  ghost predicate RingFits(ring: seq<Point>, replicas: map<Id, Replica>) {
    forall p :: p in ring ==>
      && p.owner in replicas && replicas[p.owner].grpcAddress != ""
      && !IsSeed(p.owner) && !IsGateway(p.owner)
  }

  lemma FreshRingFits(cfg: Config, ring: seq<Point>, replicas: map<Id, Replica>)
    requires IsRing(cfg, ring, AliveIds(replicas))
    ensures RingFits(ring, replicas)
  {}

  /** What may happen to the registry between two rebuilds of the ring. */
  datatype Change =
    | Refresh(id: Id, update: MembershipTable.Update)
    | Draining(id: Id, draining: bool)
    | Counting(id: Id, delta: int)

  function Changed(replicas: map<Id, Replica>, c: Change, grpcOf: string -> string): map<Id, Replica> {
    match c
    case Refresh(id, u) => Heard(replicas, id, u, grpcOf)
    case Draining(id, on) => Drained(replicas, id, on)
    case Counting(id, delta) => Counted(replicas, id, delta)
  }

  function ChangedAll(replicas: map<Id, Replica>, changes: seq<Change>, grpcOf: string -> string): map<Id, Replica> {
    if changes == [] then replicas
    else var n := |changes| - 1; Changed(ChangedAll(replicas, changes[..n], grpcOf), changes[n], grpcOf)
  }

  lemma ChangeKeepsFit(ring: seq<Point>, replicas: map<Id, Replica>, c: Change, grpcOf: string -> string)
    requires RingFits(ring, replicas)
    ensures RingFits(ring, Changed(replicas, c, grpcOf))
  {}

  /** A ring fits the registry it was built from, and whatever becomes of the registry after that. */
  lemma {:induction false} StaleRingFits(cfg: Config, ring: seq<Point>, replicas: map<Id, Replica>,
                                         changes: seq<Change>, grpcOf: string -> string)
    requires IsRing(cfg, ring, AliveIds(replicas))
    ensures RingFits(ring, ChangedAll(replicas, changes, grpcOf))
  {
    if changes == [] {
      FreshRingFits(cfg, ring, replicas);
    } else {
      var n := |changes| - 1;
      StaleRingFits(cfg, ring, replicas, changes[..n], grpcOf);
      ChangeKeepsFit(ring, ChangedAll(replicas, changes[..n], grpcOf), changes[n], grpcOf);
    }
  }

  predicate IsEntry(replicas: map<Id, Replica>, id: Id, s: Option<Selection>) {
    id in replicas && s == Some(Selection(id, replicas[id].grpcAddress))
  }

  /** A request of a prompt is served by the ring's choice, or by a least loaded eligible replica. */
  ghost predicate IsSelection(cfg: Config, ring: seq<Point>, replicas: map<Id, Replica>, prompt: string,
                              excluded: set<Id>, s: Option<Selection>)
    requires Sorted(ring)
  {
    match Choice(ring, PromptHash(cfg, prompt), Walkable(replicas, excluded))
    case Some(p) => IsEntry(replicas, p.owner, s)
    case None => IsFallback(replicas, excluded, s)
  }

  /** A least loaded candidate; none only if there is no candidate, or the winner has the empty name. */
  ghost predicate IsFallback(replicas: map<Id, Replica>, excluded: set<Id>, s: Option<Selection>) {
    match s
    case Some(x) =>
      && LeastLoaded(replicas, Candidates(replicas, excluded), x.replicaId)
      && x.grpcAddress == replicas[x.replicaId].grpcAddress
    case None => Candidates(replicas, excluded) == {} || "" in Candidates(replicas, excluded)
  }

  /** The replica may serve: it is known, addressable, neither dead nor draining, no seed and no gateway, not
      excluded, and its capacity is unlimited or leaves room. */
  predicate MayServe(replicas: map<Id, Replica>, excluded: set<Id>, id: Id) {
    && id in replicas && id !in excluded
    && var i := replicas[id];
       && i.gossipState != Dead && !i.draining && i.grpcAddress != "" && !("seed-" <= id) && !("gateway" <= id)
       && (i.maxCapacity <= 0 || i.active < i.maxCapacity)
  }

  /** A selection, wherever it comes from, may serve. */
  ghost predicate IsSound(replicas: map<Id, Replica>, excluded: set<Id>, s: Option<Selection>) {
    s.Some? ==>
      && MayServe(replicas, excluded, s.value.replicaId)
      && s.value.grpcAddress == replicas[s.value.replicaId].grpcAddress
  }

  /** Nothing is selected exactly when nothing may serve. */
  ghost predicate IsComplete(replicas: map<Id, Replica>, excluded: set<Id>, s: Option<Selection>) {
    s.None? <==> forall id :: !MayServe(replicas, excluded, id)
  }

  /** When the ring has nothing for the prompt, the choice has the least load for its weight among all that
      may serve. */
  ghost predicate IsLeast(cfg: Config, ring: seq<Point>, replicas: map<Id, Replica>, prompt: string,
                          excluded: set<Id>, s: Option<Selection>)
    requires Sorted(ring)
  {
    s.Some? && Choice(ring, PromptHash(cfg, prompt), Walkable(replicas, excluded)).None? ==>
      LeastForWeight(replicas, excluded, s.value.replicaId)
  }

  ghost predicate LeastForWeight(replicas: map<Id, Replica>, excluded: set<Id>, best: Id) {
    && best in replicas
    && forall x :: MayServe(replicas, excluded, x) ==>
         replicas[best].active as real * replicas[x].weight <= replicas[x].active as real * replicas[best].weight
  }

  lemma CrossMultiplied(a: real, v: real, b: real, w: real)
    requires v > 0.0 && w > 0.0 && a / v <= b / w
    ensures a * w <= b * v
  {
    assert a == (a / v) * v && b == (b / w) * w;
    var x, y := a / v, b / w;
    assert x * (v * w) <= y * (v * w);
    assert a * w == x * v * w == x * (v * w) && b * v == y * w * v == y * (v * w);
  }

  lemma EligibleMayServe(replicas: map<Id, Replica>, excluded: set<Id>)
    requires Sane(replicas)
    ensures forall id :: id in Eligible(replicas, excluded) <==> MayServe(replicas, excluded, id)
  {}

  lemma LeastLoadedForWeight(replicas: map<Id, Replica>, among: set<Id>, id: Id, x: Id)
    requires LeastLoaded(replicas, among, id) && x in among
    ensures replicas[id].active as real * replicas[x].weight <= replicas[x].active as real * replicas[id].weight
  {
    CrossMultiplied(replicas[id].active as real, replicas[id].weight, replicas[x].active as real, replicas[x].weight);
  }

  lemma FittingRingIsSound(cfg: Config, ring: seq<Point>, replicas: map<Id, Replica>, prompt: string,
                           excluded: set<Id>, s: Option<Selection>)
    requires Sorted(ring) && RingFits(ring, replicas)
    requires IsSelection(cfg, ring, replicas, prompt, excluded, s)
    ensures IsSound(replicas, excluded, s)
  {
    ChoiceIsNearest(ring, PromptHash(cfg, prompt), Walkable(replicas, excluded));
    match Choice(ring, PromptHash(cfg, prompt), Walkable(replicas, excluded))
    case Some(p) => assert p.owner in AliveIds(replicas);
    case None =>
  }

  lemma FallbackIsLeastLoaded(replicas: map<Id, Replica>, excluded: set<Id>, best: Id)
    requires Sane(replicas) && LeastLoaded(replicas, Candidates(replicas, excluded), best)
    ensures LeastForWeight(replicas, excluded, best)
  {
    assert Candidates(replicas, excluded) == Eligible(replicas, excluded);
    EligibleMayServe(replicas, excluded);
    forall x | MayServe(replicas, excluded, x)
      ensures replicas[best].active as real * replicas[x].weight <= replicas[x].active as real * replicas[best].weight {
      LeastLoadedForWeight(replicas, Eligible(replicas, excluded), best, x);
    }
  }

  lemma FittingRingIsComplete(cfg: Config, ring: seq<Point>, replicas: map<Id, Replica>, prompt: string,
                              excluded: set<Id>, s: Option<Selection>)
    requires Sorted(ring) && RingFits(ring, replicas) && Sane(replicas)
    requires IsSelection(cfg, ring, replicas, prompt, excluded, s)
    ensures IsComplete(replicas, excluded, s)
  {
    EligibleMayServe(replicas, excluded);
    ChoiceIsNearest(ring, PromptHash(cfg, prompt), Walkable(replicas, excluded));
    match Choice(ring, PromptHash(cfg, prompt), Walkable(replicas, excluded))
    case Some(p) => assert p.owner in Eligible(replicas, excluded);
    case None => assert Candidates(replicas, excluded) == Eligible(replicas, excluded);
  }

  lemma FallbackIsLeast(cfg: Config, ring: seq<Point>, replicas: map<Id, Replica>, prompt: string,
                        excluded: set<Id>, s: Option<Selection>)
    requires Sorted(ring) && Sane(replicas) && IsSelection(cfg, ring, replicas, prompt, excluded, s)
    ensures IsLeast(cfg, ring, replicas, prompt, excluded, s)
  {
    if s.Some? && Choice(ring, PromptHash(cfg, prompt), Walkable(replicas, excluded)).None? {
      FallbackIsLeastLoaded(replicas, excluded, s.value.replicaId);
    }
  }

  /** Selection is sound on a ring built at any time, whatever has become of the registry since; it is
      complete as well if capacities and names are sane. */
  lemma SelectionIsSoundAndComplete(cfg: Config, ring: seq<Point>, built: map<Id, Replica>, changes: seq<Change>,
                                    grpcOf: string -> string, prompt: string, excluded: set<Id>, s: Option<Selection>)
    requires IsRing(cfg, ring, AliveIds(built))
    requires IsSelection(cfg, ring, ChangedAll(built, changes, grpcOf), prompt, excluded, s)
    ensures IsSound(ChangedAll(built, changes, grpcOf), excluded, s)
    ensures Sane(ChangedAll(built, changes, grpcOf)) ==>
      && IsComplete(ChangedAll(built, changes, grpcOf), excluded, s)
      && IsLeast(cfg, ring, ChangedAll(built, changes, grpcOf), prompt, excluded, s)
  {
    var replicas := ChangedAll(built, changes, grpcOf);
    StaleRingFits(cfg, ring, built, changes, grpcOf);
    FittingRingIsSound(cfg, ring, replicas, prompt, excluded, s);
    if Sane(replicas) {
      FittingRingIsComplete(cfg, ring, replicas, prompt, excluded, s);
      FallbackIsLeast(cfg, ring, replicas, prompt, excluded, s);
    }
  }

  /** Whom a prompt's walk over the ring may stop at: replicas that are known and not excluded, dead or draining,
      suspects included, whose capacity is unlimited or leaves room. */
  function Stops(replicas: map<Id, Replica>, excluded: set<Id>): set<Id> {
    set id | id in replicas && id !in excluded && replicas[id].gossipState != Dead && !replicas[id].draining &&
             (replicas[id].maxCapacity == 0 || replicas[id].active < replicas[id].maxCapacity)
  }

  /** The prompt decides: as long as the ring has a replica for it, the selection is the one clockwise nearest to
      the hash of the prompt, or of its first 64 characters if it is longer. */
  lemma NearestToPrompt(cfg: Config, ring: seq<Point>, replicas: map<Id, Replica>, prompt: string,
                        excluded: set<Id>, s: Option<Selection>)
    requires Sorted(ring) && IsSelection(cfg, ring, replicas, prompt, excluded, s)
    requires exists x :: x in ring && x.owner in Stops(replicas, excluded)
    ensures var h := if |prompt| <= 64 then cfg.hash(prompt) else cfg.hash(prompt[..64]);
      exists p :: Nearest(ring, h, Stops(replicas, excluded), p) && p.owner in replicas &&
                  s == Some(Selection(p.owner, replicas[p.owner].grpcAddress))
  {
    assert Stops(replicas, excluded) == Walkable(replicas, excluded);
    ChoiceIsNearest(ring, PromptHash(cfg, prompt), Walkable(replicas, excluded));
  }

  const TWO_POINTS := [Point(10, "a"), Point(20, "b")]

  const TWO_REPLICAS := map["a" := UNHEARD.(grpcAddress := "a:7001"), "b" := UNHEARD.(grpcAddress := "b:7001")]

  lemma PromptOnTwoPoints(cfg: Config, prompt: string, s: Option<Selection>)
    requires |prompt| <= 64 && cfg.hash(prompt) <= 20
    requires Sorted(TWO_POINTS) && IsSelection(cfg, TWO_POINTS, TWO_REPLICAS, prompt, {}, s)
    ensures s == Some(if cfg.hash(prompt) <= 10 then Selection("a", "a:7001") else Selection("b", "b:7001"))
  {
    assert TWO_POINTS[0] in TWO_POINTS && TWO_POINTS[1] in TWO_POINTS;
    assert "a" in Stops(TWO_REPLICAS, {}) && "b" in Stops(TWO_REPLICAS, {});
    NearestToPrompt(cfg, TWO_POINTS, TWO_REPLICAS, prompt, {}, s);
  }

  /** Prompts with different prefixes may go to different replicas. */
  lemma PromptsSpread(cfg: Config, s: Option<Selection>, t: Option<Selection>)
    requires cfg.hash("hi") == 15 && cfg.hash("yo") == 5 && Sorted(TWO_POINTS)
    requires IsSelection(cfg, TWO_POINTS, TWO_REPLICAS, "yo", {}, s)
    requires IsSelection(cfg, TWO_POINTS, TWO_REPLICAS, "hi", {}, t)
    ensures s == Some(Selection("a", "a:7001")) && t == Some(Selection("b", "b:7001"))
  {
    PromptOnTwoPoints(cfg, "yo", s);
    PromptOnTwoPoints(cfg, "hi", t);
  }

  /** Prompts that share their first 64 characters go to the same replica, as long as the ring has one
      for either. */
  lemma PrefixAffinity(cfg: Config, ring: seq<Point>, replicas: map<Id, Replica>, excluded: set<Id>,
                       p: string, q: string, s: Option<Selection>, t: Option<Selection>)
    requires Sorted(ring) && |p| >= PREFIX && |q| >= PREFIX && p[..PREFIX] == q[..PREFIX]
    requires IsSelection(cfg, ring, replicas, p, excluded, s) && IsSelection(cfg, ring, replicas, q, excluded, t)
    ensures (exists x :: x in ring && x.owner in Walkable(replicas, excluded)) ==> s == t && s.Some?
  {
    assert |p| == PREFIX ==> p == p[..PREFIX];
    assert |q| == PREFIX ==> q == q[..PREFIX];
    ChoiceIsNearest(ring, PromptHash(cfg, p), Walkable(replicas, excluded));
  }

  lemma EachOnce(replicas: map<Id, Replica>, alive: seq<(Id, Replica)>, ids: set<Id>)
    requires forall x :: x in alive <==> x.0 in AliveIds(replicas) && x.1 == replicas[x.0]
    requires ids == set j | 0 <= j < |alive| :: alive[j].0
    ensures ids == AliveIds(replicas)
  {
    forall id ensures id in ids <==> id in AliveIds(replicas) {
      if id in ids {
        var j :| 0 <= j < |alive| && alive[j].0 == id;
        assert alive[j] in alive;
      }
      if id in AliveIds(replicas) {
        assert (id, replicas[id]) in alive;
      }
    }
  }

  class LoadBalancer {
    const registry: ReplicaRegistry
    const cfg: Config
    var ring: seq<Point>

    constructor (registry: ReplicaRegistry, cfg: Config)
      ensures this.registry == registry && this.cfg == cfg && ring == []
    {
      this.registry := registry;
      this.cfg := cfg;
      ring := [];
    }

    method RebuildRing()
      modifies this
      ensures IsRing(cfg, ring, AliveIds(registry.replicas))
    {
      var alive := registry.GetAliveReplicas();
      ring := [];
      ghost var placed: set<Id> := {};
      for a := 0 to |alive|
        invariant placed == set j | 0 <= j < a :: alive[j].0
        invariant IsRing(cfg, ring, placed)
      {
        var id := alive[a].0;
        var i := 0;
        while i < cfg.virtualNodes
          invariant 0 <= i && PartlyBuilt(cfg, ring, placed, id, i)
        {
          PutVirtualNode(cfg, ring, placed, id, i);
          ring := Put(ring, cfg.hash(VirtualKey(id, i)), id);
          i := i + 1;
        }
        ReplicaPlaced(cfg, ring, placed, id, i);
        placed := placed + {id};
      }
      EachOnce(registry.replicas, alive, placed);
    }

    /** The test the walk makes at a ring point. */
    method Accept(replicaId: Id, excluded: set<Id>) returns (selection: Option<Selection>)
      ensures if replicaId in Walkable(registry.replicas, excluded)
        then IsEntry(registry.replicas, replicaId, selection) else selection == None
    {
      if replicaId !in excluded {
        var info := registry.GetReplica(replicaId);
        if info.Some? && !info.value.draining && info.value.gossipState != Dead &&
           (info.value.maxCapacity == 0 || info.value.active < info.value.maxCapacity) {
          return Some(Selection(replicaId, info.value.grpcAddress));
        }
      }
      return None;
    }

    /** `visited` records the ring points examined, in order. */
    method SelectByConsistentHash(prompt: string, excluded: set<Id>)
      returns (selection: Option<Selection>, ghost visited: seq<Point>)
      requires Sorted(ring)
      ensures var h, eligible := PromptHash(cfg, prompt), Walkable(registry.replicas, excluded);
        IsWalk(ring, h, eligible, visited, Choice(ring, h, eligible))
      ensures match Choice(ring, PromptHash(cfg, prompt), Walkable(registry.replicas, excluded))
        case Some(p) => IsEntry(registry.replicas, p.owner, selection)
        case None => selection == None
    {
      visited := [];
      if ring == [] {
        return None, [];
      }
      var h := cfg.hash(if |prompt| > PREFIX then prompt[..PREFIX] else prompt);
      var it := LowerBound(ring, h);
      if it == |ring| {
        it := 0;
      }
      var startHash := ring[it].hash;
      var wrapped := false;
      ghost var eligible := Walkable(registry.replicas, excluded);
      WalkBegins(ring, h, eligible, it);
      while true
        invariant 0 <= it < |ring| && OnWalk(ring, h, eligible, visited, it, wrapped)
        invariant startHash == ring[Start(ring, h)].hash
        decreases |ring| - |visited|
      {
        var replicaId := ring[it].owner;
        ghost var passed, at, round := visited, it, wrapped;
        visited := visited + [ring[it]];
        var candidate := Accept(replicaId, excluded);
        if candidate.Some? {
          WalkHits(ring, h, eligible, passed, it, wrapped);
          return candidate, visited;
        }
        it := it + 1;
        if it == |ring| {
          it := 0;
          wrapped := true;
        }
        WalkPasses(ring, h, eligible, passed, at, round, visited, it, wrapped);
        if wrapped && ring[it].hash >= startHash {
          break;
        }
      }
      return None, visited;
    }

    method SelectByLeastConnections(excluded: set<Id>) returns (selection: Option<Selection>)
      ensures IsFallback(registry.replicas, excluded, selection)
    {
      var alive := registry.GetAliveReplicas();
      assert forall id :: id in AliveIds(registry.replicas) ==> (id, registry.replicas[id]) in alive;
      if alive == [] {
        return None;
      }
      var bestId, bestAddr := "", "";
      var bestScore: Option<real> := None;  // none yet: every score lies below the initial one
      ghost var seen: set<Id> := {};
      for i := 0 to |alive|
        invariant seen == set j | 0 <= j < i && alive[j].0 in Candidates(registry.replicas, excluded) :: alive[j].0
        invariant bestScore.None? ==> seen == {} && bestId == ""
        invariant bestScore.Some? ==>
          && LeastLoaded(registry.replicas, seen, bestId)
          && bestScore.value == Score(registry.replicas[bestId])
          && bestAddr == registry.replicas[bestId].grpcAddress
      {
        var id, info := alive[i].0, alive[i].1;
        assert alive[i] in alive;
        if id in excluded || (info.maxCapacity > 0 && info.active >= info.maxCapacity) {
          continue;
        }
        seen := seen + {id};
        var score := info.active as real / info.weight;
        if bestScore.None? || score < bestScore.value {
          bestScore, bestId, bestAddr := Some(score), id, info.grpcAddress;
        } else if score == bestScore.value {
          if * {  // reservoir sampling among ties
            bestId, bestAddr := id, info.grpcAddress;
          }
        }
      }
      forall id | id in Candidates(registry.replicas, excluded) ensures id in seen {
        assert (id, registry.replicas[id]) in alive;
      }
      assert seen == Candidates(registry.replicas, excluded);
      if bestId == "" {
        return None;
      }
      return Some(Selection(bestId, bestAddr));
    }

    method SelectReplica(prompt: string, excluded: set<Id>) returns (selection: Option<Selection>)
      requires Sorted(ring)
      ensures IsSelection(cfg, ring, registry.replicas, prompt, excluded, selection)
    {
      ghost var visited;
      selection, visited := SelectByConsistentHash(prompt, excluded);
      if selection.Some? {
        return;
      }
      selection := SelectByLeastConnections(excluded);
    }
  }
}
