/** The consistent-hash ring as an ordered map from hash to owner: a sequence of points in strictly
    ascending order of hash. The hash function is a parameter. */
module HashRing {
  import opened Options
  import opened Views

  datatype Point = Point(hash: nat, owner: Id)

  ghost predicate Sorted(ring: seq<Point>) {
    forall i, j | 0 <= i < j < |ring| :: ring[i].hash < ring[j].hash
  }

  /** Assignment to the ordered map: overwrite the point with this hash, or insert one. */
  function Put(ring: seq<Point>, h: nat, owner: Id): seq<Point> {
    if ring == [] || h < ring[0].hash then [Point(h, owner)] + ring
    else if h == ring[0].hash then [Point(h, owner)] + ring[1..]
    else [ring[0]] + Put(ring[1..], h, owner)
  }

  lemma HigherAhead(first: Point, rest: seq<Point>)
    requires Sorted(rest) && forall p :: p in rest ==> first.hash < p.hash
    ensures Sorted([first] + rest)
    ensures forall p :: p in [first] + rest <==> p == first || p in rest
  {
    forall j | 0 <= j < |rest| ensures first.hash < rest[j].hash {
      assert rest[j] in rest;
    }
  }

  lemma TailAhead(ring: seq<Point>)
    requires Sorted(ring) && ring != []
    ensures Sorted(ring[1..]) && forall p :: p in ring[1..] ==> ring[0].hash < p.hash
    ensures forall p :: p in ring <==> p == ring[0] || p in ring[1..]
  {
    assert ring == [ring[0]] + ring[1..];
  }

  lemma {:induction false} PutIsAssignment(ring: seq<Point>, h: nat, owner: Id)
    requires Sorted(ring)
    ensures Sorted(Put(ring, h, owner))
    ensures forall p :: p in Put(ring, h, owner) <==> p == Point(h, owner) || (p in ring && p.hash != h)
  {
    if ring == [] {
    } else {
      TailAhead(ring);
      if h < ring[0].hash {
        HigherAhead(Point(h, owner), ring);
      } else if h == ring[0].hash {
        HigherAhead(Point(h, owner), ring[1..]);
      } else {
        PutIsAssignment(ring[1..], h, owner);
        HigherAhead(ring[0], Put(ring[1..], h, owner));
      }
    }
  }

  /** The first index whose hash is not below `h`. */
  function LowerBound(ring: seq<Point>, h: nat): (k: nat)
    requires Sorted(ring)
    ensures k <= |ring|
    ensures forall i | 0 <= i < k :: ring[i].hash < h
    ensures forall i | k <= i < |ring| :: ring[i].hash >= h
  {
    if ring == [] || ring[0].hash >= h then 0 else LowerBound(ring[1..], h) + 1
  }

  /** Where the clockwise walk for `h` begins. */
  function Start(ring: seq<Point>, h: nat): (k: nat)
    requires Sorted(ring)
    ensures ring != [] ==> k < |ring|
  {
    if LowerBound(ring, h) == |ring| then 0 else LowerBound(ring, h)
  }

  /** The points in the order the walk meets them. */
  function Rotation(ring: seq<Point>, h: nat): (r: seq<Point>)
    requires Sorted(ring)
    ensures |r| == |ring|
    ensures forall p :: p in r <==> p in ring
  {
    var k := if ring == [] then 0 else Start(ring, h);
    assert ring == ring[..k] + ring[k..];
    ring[k..] + ring[..k]
  }

  function FirstIn(points: seq<Point>, eligible: set<Id>): Option<Point> {
    if points == [] then None
    else if points[0].owner in eligible then Some(points[0])
    else FirstIn(points[1..], eligible)
  }

  function Choice(ring: seq<Point>, h: nat, eligible: set<Id>): Option<Point>
    requires Sorted(ring)
  {
    FirstIn(Rotation(ring, h), eligible)
  }

  /** The walk has passed over `visited` and now stands at index `it`. */
  ghost predicate OnWalk(ring: seq<Point>, h: nat, eligible: set<Id>, visited: seq<Point>, it: nat, wrapped: bool) {
    && Sorted(ring) && it < |ring| && |visited| < |ring|
    && it == (if wrapped then Start(ring, h) + |visited| - |ring| else Start(ring, h) + |visited|)
    && visited == Rotation(ring, h)[..|visited|]
    && forall p :: p in visited ==> p.owner !in eligible
  }

  /** A finished walk: it found the choice and `visited` ends there, or found none and met every point once. */
  ghost predicate IsWalk(ring: seq<Point>, h: nat, eligible: set<Id>, visited: seq<Point>, found: Option<Point>)
    requires Sorted(ring)
  {
    && found == Choice(ring, h, eligible)
    && match found
       case Some(p) => visited <= Rotation(ring, h) && visited != [] && visited[|visited| - 1] == p
       case None => visited == Rotation(ring, h)
  }

  lemma WalkBegins(ring: seq<Point>, h: nat, eligible: set<Id>, it: nat)
    requires Sorted(ring) && ring != []
    requires it == if LowerBound(ring, h) == |ring| then 0 else LowerBound(ring, h)
    ensures it == Start(ring, h) && OnWalk(ring, h, eligible, [], it, false)
  {}

  lemma WalkHits(ring: seq<Point>, h: nat, eligible: set<Id>, visited: seq<Point>, it: nat, wrapped: bool)
    requires OnWalk(ring, h, eligible, visited, it, wrapped) && ring[it].owner in eligible
    ensures IsWalk(ring, h, eligible, visited + [ring[it]], Some(ring[it]))
  {
    var walk := Rotation(ring, h);
    RotationAt(ring, h, |visited|);
    FirstInAfter(walk, eligible, |visited|);
    assert walk[|visited|..][0] == ring[it];
    assert walk[..|visited| + 1] == visited + [ring[it]];
  }

  /** Passing over a point either goes on or has met every point exactly once. */
  lemma WalkPasses(ring: seq<Point>, h: nat, eligible: set<Id>, visited: seq<Point>, it: nat, wrapped: bool,
                   visited': seq<Point>, it': nat, wrapped': bool)
    requires OnWalk(ring, h, eligible, visited, it, wrapped) && ring[it].owner !in eligible
    requires visited' == visited + [ring[it]]
    requires it' == if it + 1 == |ring| then 0 else it + 1
    requires wrapped' == (wrapped || it + 1 == |ring|)
    ensures it' < |ring|
    ensures wrapped' && ring[it'].hash >= ring[Start(ring, h)].hash ==> IsWalk(ring, h, eligible, visited', None)
    ensures !(wrapped' && ring[it'].hash >= ring[Start(ring, h)].hash) ==>
      OnWalk(ring, h, eligible, visited', it', wrapped')
  {
    var walk := Rotation(ring, h);
    RotationAt(ring, h, |visited|);
    assert walk[..|visited'|] == visited';
    if |visited'| == |ring| {
      assert walk == visited';
      FirstInAfter(walk, eligible, |walk|);
    }
  }

  // ---- The walk, described without reference to the walk ----

  /** Clockwise from `h`: first the hashes from `h` up, then those below it. */
  predicate Sooner(h: nat, a: nat, b: nat) {
    if a >= h then b >= h ==> a < b else b < h && a < b
  }

  ghost predicate Nearest(ring: seq<Point>, h: nat, eligible: set<Id>, p: Point) {
    && p in ring && p.owner in eligible
    && forall q :: q in ring && q.owner in eligible && q != p ==> Sooner(h, p.hash, q.hash)
  }

  lemma RotationAt(ring: seq<Point>, h: nat, n: nat)
    requires Sorted(ring) && n < |ring|
    ensures var k := Start(ring, h) + n;
      Rotation(ring, h)[n] == ring[if k < |ring| then k else k - |ring|]
  {}

  lemma {:induction false} FirstInAfter(points: seq<Point>, eligible: set<Id>, n: nat)
    requires n <= |points|
    requires forall p :: p in points[..n] ==> p.owner !in eligible
    ensures FirstIn(points, eligible) == FirstIn(points[n..], eligible)
  {
    if n == 0 {
    } else {
      assert points[0] in points[..n];
      assert points[1..][..n - 1] == points[..n][1..];
      assert points[1..][n - 1..] == points[n..];
      FirstInAfter(points[1..], eligible, n - 1);
    }
  }

  lemma RotationIsClockwise(ring: seq<Point>, h: nat, i: nat, j: nat)
    requires Sorted(ring) && i < j < |ring|
    ensures Sooner(h, Rotation(ring, h)[i].hash, Rotation(ring, h)[j].hash)
  {}

  lemma {:induction false} FirstInIsFirst(points: seq<Point>, eligible: set<Id>)
    ensures match FirstIn(points, eligible)
      case Some(p) => exists i :: 0 <= i < |points| && points[i] == p && p.owner in eligible &&
                                  forall j | 0 <= j < i :: points[j].owner !in eligible
      case None => forall j | 0 <= j < |points| :: points[j].owner !in eligible
  {
    if points == [] || points[0].owner in eligible {
    } else {
      FirstInIsFirst(points[1..], eligible);
      match FirstIn(points[1..], eligible)
      case Some(p) =>
        var i :| 0 <= i < |points[1..]| && points[1..][i] == p &&
                 forall j | 0 <= j < i :: points[1..][j].owner !in eligible;
        forall j | 0 <= j < i + 1 ensures points[j].owner !in eligible {
          if j > 0 { assert points[j] == points[1..][j - 1]; }
        }
        assert points[i + 1] == p;
      case None =>
        forall j | 0 <= j < |points| ensures points[j].owner !in eligible {
          if j > 0 { assert points[j] == points[1..][j - 1]; }
        }
    }
  }

  lemma FirstIsNearest(ring: seq<Point>, h: nat, eligible: set<Id>, i: nat)
    requires Sorted(ring) && i < |ring|
    requires Rotation(ring, h)[i].owner in eligible
    requires forall j | 0 <= j < i :: Rotation(ring, h)[j].owner !in eligible
    ensures Nearest(ring, h, eligible, Rotation(ring, h)[i])
  {
    var r := Rotation(ring, h);
    var p := r[i];
    assert p in r;
    forall q | q in ring && q.owner in eligible && q != p ensures Sooner(h, p.hash, q.hash) {
      assert q in r;
      var j :| 0 <= j < |r| && r[j] == q;
      assert !(j < i) && j != i;
      RotationIsClockwise(ring, h, i, j);
    }
    assert p in ring;
  }

  /** The walk picks the clockwise nearest eligible point, and nothing exactly when there is none. */
  lemma ChoiceIsNearest(ring: seq<Point>, h: nat, eligible: set<Id>)
    requires Sorted(ring)
    ensures match Choice(ring, h, eligible)
      case Some(p) => Nearest(ring, h, eligible, p)
      case None => forall q :: q in ring ==> q.owner !in eligible
  {
    var r := Rotation(ring, h);
    FirstInIsFirst(r, eligible);
    match Choice(ring, h, eligible)
    case Some(p) =>
      var i :| 0 <= i < |r| && r[i] == p && p.owner in eligible && forall j | 0 <= j < i :: r[j].owner !in eligible;
      FirstIsNearest(ring, h, eligible, i);
    case None =>
      forall q | q in ring ensures q.owner !in eligible {
        assert q in r;
      }
  }

  lemma NearestIsUnique(ring: seq<Point>, h: nat, eligible: set<Id>, p: Point, q: Point)
    requires Nearest(ring, h, eligible, p) && Nearest(ring, h, eligible, q)
    ensures p == q
  {}

  // ---- Building the ring ----

  function Decimal(n: nat): string {
    (if n < 10 then "" else Decimal(n / 10)) + ["0123456789"[n % 10]]
  }

  function VirtualKey(id: Id, i: nat): string { id + "#" + Decimal(i) }

  lemma {:induction false} DecimalIsDigits(n: nat)
    ensures Decimal(n) != [] && '#' !in Decimal(n)
  {
    if n >= 10 {
      DecimalIsDigits(n / 10);
    }
    assert forall i | 0 <= i < 10 :: "0123456789"[i] != '#';
  }

  lemma {:induction false} DecimalIsUnique(a: nat, b: nat)
    requires Decimal(a) == Decimal(b)
    ensures a == b
  {
    var s, t := Decimal(a), Decimal(b);
    assert s[|s| - 1] == "0123456789"[a % 10] && t[|t| - 1] == "0123456789"[b % 10];
    assert a % 10 == b % 10;
    assert s[..|s| - 1] == (if a < 10 then "" else Decimal(a / 10));
    assert t[..|t| - 1] == (if b < 10 then "" else Decimal(b / 10));
    if a >= 10 { DecimalIsDigits(a / 10); }
    if b >= 10 { DecimalIsDigits(b / 10); }
    if a >= 10 && b >= 10 {
      DecimalIsUnique(a / 10, b / 10);
    }
  }

  lemma SeparatorAt(a: string, d: string)
    requires '#' !in d
    ensures var s := a + "#" + d;
      |s| == |a| + 1 + |d| && s[..|a|] == a && s[|a|] == '#' && s[|a| + 1..] == d &&
      forall k | |a| < k < |s| :: s[k] != '#'
  {
    var s := a + "#" + d;
    forall k | |a| < k < |s| ensures s[k] != '#' {
      assert s[k] == d[k - |a| - 1];
    }
  }

  /** The separator before the number is the last one in the key. */
  lemma LastSeparator(a: Id, i: nat)
    ensures var s := VirtualKey(a, i);
      |a| < |s| && s[..|a|] == a && s[|a|] == '#' && s[|a| + 1..] == Decimal(i) &&
      forall k | |a| < k < |s| :: s[k] != '#'
  {
    DecimalIsDigits(i);
    SeparatorAt(a, Decimal(i));
  }

  /** No two virtual nodes of any replicas share a key, whatever the replicas are called. */
  lemma VirtualKeysAreDistinct(a: Id, i: nat, b: Id, j: nat)
    requires VirtualKey(a, i) == VirtualKey(b, j)
    ensures a == b && i == j
  {
    LastSeparator(a, i);
    LastSeparator(b, j);
    assert |a| == |b|;
    DecimalIsUnique(i, j);
  }

  lemma DecimalsAreNumerals()
    ensures Decimal(0) == "0" && Decimal(7) == "7" && Decimal(149) == "149"
  {
    assert Decimal(1) == "1" && Decimal(14) == "14";
  }

  datatype Config = Config(hash: string -> nat, virtualNodes: int)

  ghost predicate Places(cfg: Config, id: Id, h: nat) {
    exists i: nat :: i < cfg.virtualNodes && cfg.hash(VirtualKey(id, i)) == h
  }

  /** What rebuilding from `ids` yields, whatever order they come in: each point is a virtual node of
      its owner, and each virtual node's hash has a point. */
  ghost predicate IsRing(cfg: Config, ring: seq<Point>, ids: set<Id>) {
    && Sorted(ring)
    && (forall p :: p in ring ==> p.owner in ids && Places(cfg, p.owner, p.hash))
    && (forall id, h :: id in ids && Places(cfg, id, h) ==> exists p :: p in ring && p.hash == h)
  }

  /** `placed` is on the ring, and so are the first `n` virtual nodes of `id`. */
  ghost predicate PartlyBuilt(cfg: Config, ring: seq<Point>, placed: set<Id>, id: Id, n: nat) {
    && Sorted(ring)
    && (forall p :: p in ring ==> p.owner in placed + {id} && Places(cfg, p.owner, p.hash))
    && (forall x, h :: x in placed && Places(cfg, x, h) ==> exists p :: p in ring && p.hash == h)
    && (forall k: nat :: k < n && k < cfg.virtualNodes ==>
          exists p :: p in ring && p.hash == cfg.hash(VirtualKey(id, k)))
  }

  lemma PutVirtualNode(cfg: Config, ring: seq<Point>, placed: set<Id>, id: Id, n: nat)
    requires PartlyBuilt(cfg, ring, placed, id, n) && n < cfg.virtualNodes
    ensures PartlyBuilt(cfg, Put(ring, cfg.hash(VirtualKey(id, n)), id), placed, id, n + 1)
  {
    var h := cfg.hash(VirtualKey(id, n));
    var ring' := Put(ring, h, id);
    PutIsAssignment(ring, h, id);
    assert Places(cfg, id, h);
    assert Point(h, id) in ring';
    forall q | q in ring ensures exists p :: p in ring' && p.hash == q.hash {
      assert (if q.hash == h then Point(h, id) else q) in ring';
    }
  }

  lemma ReplicaPlaced(cfg: Config, ring: seq<Point>, placed: set<Id>, id: Id, n: nat)
    requires PartlyBuilt(cfg, ring, placed, id, n) && n >= cfg.virtualNodes
    ensures IsRing(cfg, ring, placed + {id})
  {
    forall x, h | x in placed + {id} && Places(cfg, x, h) ensures exists p :: p in ring && p.hash == h {
      if x !in placed {
        var i: nat :| i < cfg.virtualNodes && cfg.hash(VirtualKey(id, i)) == h;
      }
    }
  }

  /** Every replica the ring was built from has a point at the hash of its name and each of its numbers. */
  lemma EveryVirtualNodeHasItsPoint(cfg: Config, ring: seq<Point>, ids: set<Id>, id: Id, i: nat)
    requires IsRing(cfg, ring, ids) && id in ids && i < cfg.virtualNodes
    ensures exists p :: p in ring && p.hash == cfg.hash(id + "#" + Decimal(i))
    ensures CollisionFree(cfg, ids) ==> Point(cfg.hash(id + "#" + Decimal(i)), id) in ring
  {
    var h := cfg.hash(VirtualKey(id, i));
    assert Places(cfg, id, h);
    if CollisionFree(cfg, ids) {
      RingIsDetermined(cfg, ring, ids, Point(h, id));
    }
  }

  ghost predicate CollisionFree(cfg: Config, ids: set<Id>) {
    forall a, b, h :: a in ids && b in ids && Places(cfg, a, h) && Places(cfg, b, h) ==> a == b
  }

  /** So a hash that is injective on keys makes every set of replicas collision free. */
  lemma InjectiveHashIsCollisionFree(cfg: Config, ids: set<Id>)
    requires forall s, t :: cfg.hash(s) == cfg.hash(t) ==> s == t
    ensures CollisionFree(cfg, ids)
  {
    forall a, b, h | a in ids && b in ids && Places(cfg, a, h) && Places(cfg, b, h) ensures a == b {
      var i: nat :| i < cfg.virtualNodes && cfg.hash(VirtualKey(a, i)) == h;
      var j: nat :| j < cfg.virtualNodes && cfg.hash(VirtualKey(b, j)) == h;
      VirtualKeysAreDistinct(a, i, b, j);
    }
  }

  function Owners(ring: seq<Point>): set<Id> { set p | p in ring :: p.owner }

  /** Without collisions every replica it was built from owns a point. */
  lemma OwnersAreExact(cfg: Config, ring: seq<Point>, ids: set<Id>)
    requires IsRing(cfg, ring, ids)
    ensures Owners(ring) <= ids
    ensures CollisionFree(cfg, ids) && cfg.virtualNodes >= 1 ==> Owners(ring) == ids
  {
    if CollisionFree(cfg, ids) && cfg.virtualNodes >= 1 {
      forall id | id in ids ensures id in Owners(ring) {
        var h := cfg.hash(VirtualKey(id, 0));
        assert Places(cfg, id, h);
        var p :| p in ring && p.hash == h;
      }
    }
  }

  /** Without collisions the ring is determined: a point is present exactly when it is a virtual node. */
  lemma RingIsDetermined(cfg: Config, ring: seq<Point>, ids: set<Id>, p: Point)
    requires IsRing(cfg, ring, ids) && CollisionFree(cfg, ids)
    ensures p in ring <==> p.owner in ids && Places(cfg, p.owner, p.hash)
  {
    if p.owner in ids && Places(cfg, p.owner, p.hash) {
      var q :| q in ring && q.hash == p.hash;
      assert q == p;
    }
  }

  /** Removing replica `r` moves only the keys that had chosen `r`; read from right to left, adding
      `r` moves keys only onto `r`. This holds for every key and every eligible set. */
  lemma MinimalDisruption(cfg: Config, ids: set<Id>, r: Id, full: seq<Point>, less: seq<Point>, h: nat,
                          eligible: set<Id>)
    requires CollisionFree(cfg, ids)
    requires IsRing(cfg, full, ids) && IsRing(cfg, less, ids - {r})
    ensures Choice(full, h, eligible) == Choice(less, h, eligible) ||
            (Choice(full, h, eligible).Some? && Choice(full, h, eligible).value.owner == r)
    ensures r !in eligible ==> Choice(full, h, eligible) == Choice(less, h, eligible)
  {
    forall p ensures p in less <==> p in full && p.owner != r {
      RingIsDetermined(cfg, full, ids, p);
      RingIsDetermined(cfg, less, ids - {r}, p);
    }
    ChoiceIsNearest(full, h, eligible);
    ChoiceIsNearest(less, h, eligible);
    match Choice(full, h, eligible)
    case Some(p) =>
      if p.owner != r {
        assert Nearest(less, h, eligible, p);
        NearestIsUnique(less, h, eligible, p, Choice(less, h, eligible).value);
      }
    case None =>
  }
}
