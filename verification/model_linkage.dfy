/**
 * The two creatures of the vivarium (ModelLinkage.py): the predator
 * `Linkage` and the prey `Linkage2`. Each is a chain of jointed links with a
 * signed rotation speed per link and axis, a translation speed that may be
 * `None`, a wander counter, and the environment-object attributes.
 *
 * Python objects refer to each other, so the model keeps them in a heap from
 * references to nodes, next to the two lists a creature's `env_obj_list` can
 * alias: the class-level list every prey appends itself to, and the
 * vivarium's `components` list once the vivarium has adopted the creature.
 */
module ModelLinkage {
  import opened Python
  import opened Vectors
  import opened EnvironmentObject

  type Ref = nat

  // Links and their rotation speeds

  /** A signed rotation speed for each of the three axes of a link, `[u, v, w]`. */
  datatype Triple = Triple(u: real, v: real, w: real)

  /** `[0, 0, 0]`: a link that does not move. */
  const Still := Triple(0.0, 0.0, 0.0)

  /** The value `setRotateExtent` stores for an axis: its lower and upper limit. */
  datatype Extent = Extent(lo: real, hi: real)

  /** One link of a chain: its three joint angles and their extents. */
  datatype Link = Link(uAngle: real, vAngle: real, wAngle: real, uRange: Extent, vRange: Extent, wRange: Extent)

  /**
   * What `Component` does with a joint: `rotate` turns the angle by a speed
   * within an extent, and `contains` is the `angle in range` test. The
   * component class is not part of this model, so both are inputs.
   */
  datatype LinkOps = LinkOps(rotate: (real, real, Extent) -> real, contains: (real, Extent) -> bool)

  // Creatures

  datatype Kind = Predator | Prey

  /** Which list a creature's `env_obj_list` attribute refers to. */
  datatype Registry = SharedList | Components

  datatype Creature = Creature(
    kind: Kind,
    env: EnvObj,
    pos: V3,
    speed: Option<V3>,
    links: seq<Link>,
    rotationSpeed: seq<Triple>,
    counter: int,
    registry: Registry)

  /** Anything a reference can point at: the tank, a creature, another scene component, or a value that is not a component. */
  datatype Node = TankNode | CreatureNode(c: Creature) | PartNode | ValueNode

  /** The objects and the two lists a creature step can read and change. */
  datatype Scene = Scene(heap: map<Ref, Node>, components: seq<Ref>, shared: seq<Ref>)

  /** Links per `ModelArm`: `link1` to `link4`. */
  const ArmLinks := 4

  /** Arms per predator. */
  const PredatorArms := 4

  /** Frames between two wander headings (`update_speed_frequency`). */
  const UpdateSpeedFrequency := 1000

  /** The speed of wandering and of chasing. */
  const CruiseSpeed: real := 0.03

  /** A predator senses prey closer than this many bounding radii. */
  const SensingFactor: real := 3.0

  /** `n` links at rest, all with the same three extents. */
  function RestingLinks(n: nat, u: Extent, v: Extent, w: Extent): (r: seq<Link>)
    ensures |r| == n
    ensures forall i :: 0 <= i < n ==> r[i] == Link(0.0, 0.0, 0.0, u, v, w)
  {
    seq(n, i => Link(0.0, 0.0, 0.0, u, v, w))
  }

  /** `n` rotation speeds `[0, 0, 0]`. */
  function StillSpeeds(n: nat): (r: seq<Triple>)
    ensures |r| == n
    ensures forall i :: 0 <= i < n ==> r[i] == Still
  {
    seq(n, i => Still)
  }

  /** A list holding only `x` counts `x` once per element. */
  lemma {:induction false} CountAll<T>(xs: seq<T>, x: T)
    requires forall i :: 0 <= i < |xs| ==> xs[i] == x
    ensures Count(xs, x) == |xs|
  {
    if |xs| > 0 {
      CountAll(xs[1..], x);
    }
  }

  /**
   * `Linkage(parent, position, shaderProg)`: four arms of four links each,
   * extents u in [0, 32] and v, w in [-45, 45], every link still, bounding
   * radius `0.1 * 5`, species 1, counter 0, no translation speed.
   */
  function NewPredator(pos: V3): (c: Creature)
    ensures c.kind == Predator && c.env.speciesId == 1 && c.env.boundRadius == Some(0.5)
    ensures |c.links| == 16 && |c.rotationSpeed| == 16
    ensures forall i :: 0 <= i < |c.rotationSpeed| ==> c.rotationSpeed[i] == Still
    ensures forall i :: 0 <= i < |c.links| ==> c.links[i].uRange == Extent(0.0, 32.0)
    ensures forall i :: 0 <= i < |c.links| ==> c.links[i].vRange == Extent(-45.0, 45.0) && c.links[i].wRange == Extent(-45.0, 45.0)
    ensures c.speed.None? && c.counter == 0 && c.pos == pos && c.env.firstRotation
  {
    var n := PredatorArms * ArmLinks;
    Creature(
      Predator,
      Defaults.(boundCenter := Origin, boundRadius := Some(0.1 * 5.0), speciesId := 1),
      pos,
      None,
      RestingLinks(n, Extent(0.0, 32.0), Extent(-45.0, 45.0), Extent(-45.0, 45.0)),
      StillSpeeds(n),
      0,
      SharedList)
  }

  /**
   * `Linkage2(parent, position, shaderProg)` without its registration: one
   * arm of four links and a one-link head, extents u in [-30, 30],
   * v in [-45, 45], w in [-90, 90], every link still, bounding radius
   * `0.1 * 2`, species 2, counter 0, no translation speed.
   */
  function NewPreyCreature(pos: V3): (c: Creature)
    ensures c.kind == Prey && c.env.speciesId == 2 && c.env.boundRadius == Some(0.2)
    ensures |c.links| == 5 && |c.rotationSpeed| == 5
    ensures forall i :: 0 <= i < |c.rotationSpeed| ==> c.rotationSpeed[i] == Still
    ensures forall i :: 0 <= i < |c.links| ==> c.links[i].uRange == Extent(-30.0, 30.0)
    ensures forall i :: 0 <= i < |c.links| ==> c.links[i].vRange == Extent(-45.0, 45.0) && c.links[i].wRange == Extent(-90.0, 90.0)
    ensures c.speed.None? && c.counter == 0 && c.pos == pos && c.env.firstRotation
  {
    var n := ArmLinks + 1;
    Creature(
      Prey,
      Defaults.(boundCenter := Origin, boundRadius := Some(0.1 * 2.0), speciesId := 2),
      pos,
      None,
      RestingLinks(n, Extent(-30.0, 30.0), Extent(-45.0, 45.0), Extent(-90.0, 90.0)),
      StillSpeeds(n),
      0,
      SharedList)
  }

  /**
   * `Linkage2(...)` in full: the new prey, stored at the fresh reference
   * `me`, appends itself to the class-level list its `env_obj_list` still
   * refers to.
   */
  function NewPrey(s: Scene, me: Ref, pos: V3): (t: Scene)
    ensures t.heap == s.heap[me := CreatureNode(NewPreyCreature(pos))]
    ensures t.shared == s.shared + [me] && t.components == s.components
  {
    Scene(s.heap[me := CreatureNode(NewPreyCreature(pos))], s.components, s.shared + [me])
  }

  // animationUpdate

  /** The speed pattern a moving creature gives its still links: `[0.5, 0, 0]` or `[0, 1, 0]`. */
  function Pattern(k: Kind): Triple {
    match k
    case Predator => Triple(0.5, 0.0, 0.0)
    case Prey => Triple(0.0, 1.0, 0.0)
  }

  /** `translation_speed.coords.all() != 0`: every coordinate is non-zero. */
  predicate AllNonZero(v: V3) {
    v.x != 0.0 && v.y != 0.0 && v.z != 0.0
  }

  /**
   * The loop `for i in range(count): rotation_speed[i] = pattern`, from
   * index `i`: it overwrites positions `i` to `k - 1`, whether or not they
   * held `[0, 0, 0]`.
   */
  function SeedLoop(rs: seq<Triple>, i: nat, k: nat, p: Triple): (r: seq<Triple>)
    requires i <= k <= |rs|
    decreases k - i
    ensures |r| == |rs|
    ensures forall j :: 0 <= j < |rs| ==> r[j] == (if i <= j < k then p else rs[j])
  {
    if i == k then rs else SeedLoop(rs[i := p], i + 1, k, p)
  }

  /** How much each axis turns, regardless of direction. */
  function Magnitude(t: Triple): Triple {
    Triple(Abs(t.u), Abs(t.v), Abs(t.w))
  }

  /**
   * One link of the second loop: rotate each axis by its speed, then negate
   * the speed of every axis whose new angle is `in` its extent.
   */
  function FlipLink(ops: LinkOps, l: Link, sp: Triple): (r: (Link, Triple))
    ensures r.0.uRange == l.uRange && r.0.vRange == l.vRange && r.0.wRange == l.wRange
    ensures r.1.u == (if ops.contains(r.0.uAngle, l.uRange) then -sp.u else sp.u)
    ensures r.1.v == (if ops.contains(r.0.vAngle, l.vRange) then -sp.v else sp.v)
    ensures r.1.w == (if ops.contains(r.0.wAngle, l.wRange) then -sp.w else sp.w)
    ensures Magnitude(r.1) == Magnitude(sp)
    ensures r.1 == Still <==> sp == Still
  {
    var u := ops.rotate(l.uAngle, sp.u, l.uRange);
    var v := ops.rotate(l.vAngle, sp.v, l.vRange);
    var w := ops.rotate(l.wAngle, sp.w, l.wRange);
    var l' := l.(uAngle := u, vAngle := v, wAngle := w);
    var sp' := Triple(
      if ops.contains(u, l.uRange) then -sp.u else sp.u,
      if ops.contains(v, l.vRange) then -sp.v else sp.v,
      if ops.contains(w, l.wRange) then -sp.w else sp.w);
    (l', sp')
  }

  /**
   * `for i, comp in enumerate(self.components)`, from link `i`: each link
   * from `i` on is rotated and its speeds flipped by `FlipLink`; a speed
   * list shorter than the link list raises IndexError at the first missing
   * entry, keeping the links already turned.
   */
  function FlipLoop(ops: LinkOps, c: Creature, i: nat): (r: Outcome<Creature>)
    requires i <= |c.links|
    decreases |c.links| - i
    ensures r.Raised? <==> i < |c.links| && |c.rotationSpeed| < |c.links|
    ensures r.Raised? ==> r.exc == IndexError
    ensures |r.After().links| == |c.links| && |r.After().rotationSpeed| == |c.rotationSpeed|
    ensures forall j :: 0 <= j < |c.rotationSpeed| ==> Magnitude(r.After().rotationSpeed[j]) == Magnitude(c.rotationSpeed[j])
    ensures forall j :: 0 <= j < |c.rotationSpeed| ==> (r.After().rotationSpeed[j] == Still <==> c.rotationSpeed[j] == Still)
    ensures forall j :: i <= j < |c.links| && j < |c.rotationSpeed| ==>
      (r.After().links[j], r.After().rotationSpeed[j]) == FlipLink(ops, c.links[j], c.rotationSpeed[j])
    ensures forall j :: 0 <= j < |c.links| && !(i <= j < |c.rotationSpeed|) ==> r.After().links[j] == c.links[j]
    ensures forall j :: 0 <= j < |c.rotationSpeed| && !(i <= j < |c.links|) ==> r.After().rotationSpeed[j] == c.rotationSpeed[j]
    ensures forall j :: 0 <= j < |c.links| ==>
      r.After().links[j].uRange == c.links[j].uRange && r.After().links[j].vRange == c.links[j].vRange && r.After().links[j].wRange == c.links[j].wRange
    ensures r.After() == c.(links := r.After().links, rotationSpeed := r.After().rotationSpeed)
  {
    if i == |c.links| then Ok(c)
    else if i >= |c.rotationSpeed| then Raised(IndexError, c)
    else
      var step := FlipLink(ops, c.links[i], c.rotationSpeed[i]);
      FlipLoop(ops, c.(links := c.links[i := step.0], rotationSpeed := c.rotationSpeed[i := step.1]), i + 1)
  }

  /**
   * The speeds `animationUpdate` turns the links with: when the creature
   * moves with every coordinate non-zero, the first `Count` of still ones
   * are the species pattern, the rest are as they were.
   */
  function SeededSpeeds(c: Creature): (r: seq<Triple>)
    ensures |r| == |c.rotationSpeed|
    ensures forall j :: 0 <= j < |r| ==>
      r[j] == (if c.speed.Some? && AllNonZero(c.speed.value) && j < Count(c.rotationSpeed, Still) then Pattern(c.kind) else c.rotationSpeed[j])
  {
    var count := Count(c.rotationSpeed, Still);
    if c.speed.Some? && AllNonZero(c.speed.value) then SeedLoop(c.rotationSpeed, 0, count, Pattern(c.kind)) else c.rotationSpeed
  }

  /**
   * `animationUpdate()`: count the still links; when the creature moves with
   * every coordinate non-zero, overwrite that many leading speeds with the
   * species pattern; then turn every link and flip speeds at the limits.
   */
  function AnimationUpdate(ops: LinkOps, c: Creature): (r: Outcome<Creature>)
    ensures r.Raised? <==> |c.rotationSpeed| < |c.links|
    ensures |r.After().rotationSpeed| == |c.rotationSpeed| && |r.After().links| == |c.links|
    ensures forall j :: 0 <= j < |c.links| && j < |c.rotationSpeed| ==>
      (r.After().links[j], r.After().rotationSpeed[j]) == FlipLink(ops, c.links[j], SeededSpeeds(c)[j])
    ensures forall j :: |c.links| <= j < |c.rotationSpeed| ==> r.After().rotationSpeed[j] == SeededSpeeds(c)[j]
    ensures r.After().pos == c.pos && r.After().speed == c.speed && r.After().env == c.env
    ensures r.After().counter == c.counter && r.After().registry == c.registry && r.After().kind == c.kind
  {
    FlipLoop(ops, c.(rotationSpeed := SeededSpeeds(c)), 0)
  }

  /** The leading speeds a moving creature seeds: `Count` of still ones, each set to its pattern. */
  lemma SeedsLeading(ops: LinkOps, c: Creature)
    requires c.speed.Some? && AllNonZero(c.speed.value)
    ensures forall j :: 0 <= j < |c.rotationSpeed| ==>
      Magnitude(AnimationUpdate(ops, c).After().rotationSpeed[j])
        == Magnitude(if j < Count(c.rotationSpeed, Still) then Pattern(c.kind) else c.rotationSpeed[j])
    ensures forall j :: 0 <= j < |c.links| && j < |c.rotationSpeed| && j < Count(c.rotationSpeed, Still) ==>
      (AnimationUpdate(ops, c).After().links[j], AnimationUpdate(ops, c).After().rotationSpeed[j]) == FlipLink(ops, c.links[j], Pattern(c.kind))
  {
  }

  /** A creature without a translation speed, or with a zero coordinate, keeps the magnitudes of all its speeds. */
  lemma NoSeedWhenNotMoving(ops: LinkOps, c: Creature)
    requires c.speed.None? || !AllNonZero(c.speed.value)
    ensures forall j :: 0 <= j < |c.rotationSpeed| ==>
      Magnitude(AnimationUpdate(ops, c).After().rotationSpeed[j]) == Magnitude(c.rotationSpeed[j])
  {
  }

  /** `Count` only shrinks when every `x` of the second list sits where the first has `x`. */
  lemma {:induction false} CountMonotone<T>(a: seq<T>, b: seq<T>, x: T)
    requires |a| == |b|
    requires forall j :: 0 <= j < |b| && b[j] == x ==> a[j] == x
    ensures Count(b, x) <= Count(a, x)
  {
    if |a| > 0 {
      CountMonotone(a[1..], b[1..], x);
    }
  }

  /** `animationUpdate` never adds a still link: seeding removes them, flipping keeps them. */
  lemma StillCountNeverGrows(ops: LinkOps, c: Creature)
    ensures Count(AnimationUpdate(ops, c).After().rotationSpeed, Still) <= Count(c.rotationSpeed, Still)
  {
    var rs := SeededSpeeds(c);
    var after := AnimationUpdate(ops, c).After().rotationSpeed;
    assert Pattern(c.kind) != Still;
    CountMonotone(c.rotationSpeed, rs, Still);
    forall j | 0 <= j < |after| && after[j] == Still
      ensures rs[j] == Still
    {
      if j < |c.links| {
        assert after[j] == FlipLink(ops, c.links[j], rs[j]).1;
      }
    }
    CountMonotone(rs, after, Still);
  }

  /**
   * Seeding overwrites by position, not by stillness: with a moving speed
   * first and a still one second, the moving one is reseeded and the still
   * link stays still.
   */
  lemma SeedingMissesLaterStillLinks(p: Triple)
    requires p != Still
    ensures SeedLoop([p, Still], 0, Count([p, Still], Still), Triple(0.5, 0.0, 0.0)) == [Triple(0.5, 0.0, 0.0), Still]
  {
    assert Count([p, Still], Still) == 1 by {
      assert [p, Still][1..] == [Still];
    }
  }

  /** A freshly built creature animates without raising. */
  lemma NewCreaturesAnimate(ops: LinkOps, pos: V3)
    ensures AnimationUpdate(ops, NewPredator(pos)).Ok?
    ensures AnimationUpdate(ops, NewPreyCreature(pos)).Ok?
    ensures Count(NewPredator(pos).rotationSpeed, Still) == 16 && Count(NewPreyCreature(pos).rotationSpeed, Still) == 5
    ensures forall j :: 0 <= j < 16 ==> AnimationUpdate(ops, NewPredator(pos)).value.rotationSpeed[j] == Still
    ensures forall j :: 0 <= j < 5 ==> AnimationUpdate(ops, NewPreyCreature(pos)).value.rotationSpeed[j] == Still
  {
    var p, q := NewPredator(pos), NewPreyCreature(pos);
    CountAll(p.rotationSpeed, Still);
    CountAll(q.rotationSpeed, Still);
    assert SeededSpeeds(p) == p.rotationSpeed;
    assert SeededSpeeds(q) == q.rotationSpeed;
  }

  // stepForward

  /**
   * The wander counter: count the step and, on reaching the frequency,
   * take the new direction at cruising speed, face it, and restart the count.
   * `dir` is the random vector the step draws, as `normalize` leaves it.
   */
  function Wander(m: MathLib, c: Creature, dir: V3): (r: Creature)
    ensures c.counter + 1 < UpdateSpeedFrequency ==> r.counter == c.counter + 1 && r.speed == c.speed && r.env == c.env
    ensures c.counter + 1 >= UpdateSpeedFrequency ==>
      r.counter == 0 && r.speed == Some(Scale(dir, CruiseSpeed)) && r.env.heading == HeadingQuat(m, dir)
    ensures c.counter + 1 >= UpdateSpeedFrequency ==> r.env == RotateDirection(m, c.env, dir)
    ensures r == c.(counter := r.counter, speed := r.speed, env := r.env)
    ensures 0 <= c.counter < UpdateSpeedFrequency ==> 0 <= r.counter < UpdateSpeedFrequency
    ensures r.pos == c.pos && r.kind == c.kind && r.registry == c.registry && r.links == c.links
    ensures r.env.speciesId == c.env.speciesId && r.env.boundRadius == c.env.boundRadius
  {
    var k := c.counter + 1;
    if k >= UpdateSpeedFrequency then
      c.(speed := Some(Scale(dir, CruiseSpeed)), env := RotateDirection(m, c.env, dir), counter := 0)
    else
      c.(counter := k)
  }

  /** Fewer steps than the frequency, counted from a non-negative counter, only count. */
  lemma {:induction false} WanderPeriod(m: MathLib, c: Creature, dir: V3, n: nat)
    requires 0 <= c.counter && c.counter + n < UpdateSpeedFrequency
    ensures WanderN(m, c, dir, n).counter == c.counter + n
    ensures WanderN(m, c, dir, n).speed == c.speed
  {
    if n > 0 {
      WanderPeriod(m, c, dir, n - 1);
    }
  }

  /** `n` wander steps with the same direction. */
  function WanderN(m: MathLib, c: Creature, dir: V3, n: nat): Creature {
    if n == 0 then c else Wander(m, WanderN(m, c, dir, n - 1), dir)
  }

  /**
   * From a counter of 0 the creature keeps its speed for 999 steps; the
   * 1000th takes the new direction at cruising speed and restarts the count.
   */
  lemma WanderWraps(m: MathLib, c: Creature, dir: V3)
    requires c.counter == 0
    ensures WanderN(m, c, dir, UpdateSpeedFrequency - 1).speed == c.speed
    ensures WanderN(m, c, dir, UpdateSpeedFrequency).counter == 0
    ensures WanderN(m, c, dir, UpdateSpeedFrequency).speed == Some(Scale(dir, CruiseSpeed))
    ensures WanderN(m, c, dir, UpdateSpeedFrequency).env.heading == HeadingQuat(m, dir)
  {
    WanderPeriod(m, c, dir, UpdateSpeedFrequency - 1);
  }

  /** The largest tank dimension (Python's `max` over the three). */
  function MaxDim(dims: V3): (r: real)
    ensures r >= dims.x && r >= dims.y && r >= dims.z
    ensures r == dims.x || r == dims.y || r == dims.z
  {
    Max(Max(dims.x, dims.y), dims.z)
  }

  /** Whether a bounding sphere of radius `rad` centred at `p` pokes out of the tank's sphere. */
  predicate HitsWall(m: MathLib, p: V3, rad: real, dims: V3) {
    Distance(m, p, Origin) + rad > MaxDim(dims) / 2.0
  }

  /** The normal at the wall: from the prospective position towards the tank centre. */
  function WallNormal(m: MathLib, next: V3): V3 {
    Vectors.Normalize(m, Sub(Origin, next))
  }

  /**
   * The wall test: when the prospective position `pos + v` pokes out of the
   * sphere of diameter `max(tank_dimensions)`, reflect the speed about the
   * normal towards the centre and face it; then advance by the (possibly
   * reflected) speed. A `None` radius raises TypeError in the test.
   */
  function WallBounce(m: MathLib, c: Creature, dims: V3): (r: Outcome<Creature>)
    requires c.speed.Some?
    ensures r.Raised? <==> c.env.boundRadius.None?
    ensures r.Raised? ==> r.exc == TypeError && r.state == c
    ensures r.Ok? ==> r.value.speed.Some? && r.value.pos == Add(c.pos, r.value.speed.value)
    ensures r.Ok? && HitsWall(m, Add(c.pos, c.speed.value), c.env.boundRadius.value, dims) ==>
      r.value.speed.value == Reflect(c.speed.value, WallNormal(m, Add(c.pos, c.speed.value)))
    ensures r.Ok? && HitsWall(m, Add(c.pos, c.speed.value), c.env.boundRadius.value, dims) ==>
      r.value.env == RotateDirection(m, c.env, r.value.speed.value) && r.value.env.heading == HeadingQuat(m, r.value.speed.value)
    ensures r.After() == c.(speed := r.After().speed, env := r.After().env, pos := r.After().pos)
    ensures r.Ok? && !HitsWall(m, Add(c.pos, c.speed.value), c.env.boundRadius.value, dims) ==>
      r.value == c.(pos := Add(c.pos, c.speed.value))
    ensures r.After().kind == c.kind && r.After().registry == c.registry && r.After().env.speciesId == c.env.speciesId
    ensures r.After().env.boundRadius == c.env.boundRadius
  {
    var v := c.speed.value;
    var next := Add(c.pos, v);
    match c.env.boundRadius
    case None => Raised(TypeError, c)
    case Some(rad) =>
      if HitsWall(m, next, rad, dims) then
        var v' := Reflect(v, WallNormal(m, next));
        Ok(c.(speed := Some(v'), env := RotateDirection(m, c.env, v'), pos := Add(c.pos, v')))
      else
        Ok(c.(pos := next))
  }

  /**
   * With a unit wall normal the bounce keeps the speed's length, reverses
   * its normal part and keeps its tangential part.
   */
  lemma WallBounceReflects(m: MathLib, c: Creature, dims: V3)
    requires c.speed.Some? && c.env.boundRadius.Some?
    requires HitsWall(m, Add(c.pos, c.speed.value), c.env.boundRadius.value, dims)
    requires SumSq(WallNormal(m, Add(c.pos, c.speed.value))) == 1.0
    ensures SumSq(WallBounce(m, c, dims).value.speed.value) == SumSq(c.speed.value)
    ensures Dot(WallBounce(m, c, dims).value.speed.value, WallNormal(m, Add(c.pos, c.speed.value)))
         == -Dot(c.speed.value, WallNormal(m, Add(c.pos, c.speed.value)))
  {
    var n := WallNormal(m, Add(c.pos, c.speed.value));
    ReflectKeepsLength(c.speed.value, n);
    ReflectReversesNormal(c.speed.value, n);
  }

  /** With `sqrt(36) == 6`, the points 6 above and below the centre are 6 away from it. */
  lemma SixFromCentre(m: MathLib)
    requires m.sqrt(36.0) == 6.0
    ensures Distance(m, V3(0.0, 0.0, 6.0), Origin) == 6.0
    ensures Distance(m, V3(0.0, 0.0, -6.0), Origin) == 6.0
    ensures WallNormal(m, V3(0.0, 0.0, 6.0)) == V3(0.0, 0.0, -1.0)
  {
    assert SumSq(V3(0.0, 0.0, 6.0)) == 36.0;
    assert SumSq(V3(0.0, 0.0, -6.0)) == 36.0;
  }

  /** Reflecting a vertical vector about the downward normal reverses it. */
  lemma ReflectVertical(a: real)
    ensures Reflect(V3(0.0, 0.0, a), V3(0.0, 0.0, -1.0)) == V3(0.0, 0.0, -a)
  {
    assert Dot(V3(0.0, 0.0, -1.0), V3(0.0, 0.0, a)) == -a;
    assert Scale(V3(0.0, 0.0, -1.0), 2.0 * -a) == V3(0.0, 0.0, 2.0 * a);
  }

  /** The tank `Vivarium` builds: 12 wide along each axis. */
  const TankDims := V3(12.0, 12.0, 12.0)

  /** A predator-sized sphere 6 above the centre pokes out of that tank. */
  lemma SixAboveIsOutside(m: MathLib)
    requires m.sqrt(36.0) == 6.0
    ensures HitsWall(m, V3(0.0, 0.0, 6.0), 0.5, TankDims)
  {
    SixFromCentre(m);
  }

  /** So does one 6 below it. */
  lemma SixBelowIsOutside(m: MathLib)
    requires m.sqrt(36.0) == 6.0
    ensures HitsWall(m, V3(0.0, 0.0, -6.0), 0.5, TankDims)
  {
    SixFromCentre(m);
  }

  /** The wall normal at `(0, 0, 6)` reflects the speed `(0, 0, 6)` into `(0, 0, -6)`. */
  lemma ReflectAtTop(m: MathLib)
    requires m.sqrt(36.0) == 6.0
    ensures Reflect(V3(0.0, 0.0, 6.0), WallNormal(m, V3(0.0, 0.0, 6.0))) == V3(0.0, 0.0, -6.0)
  {
    SixFromCentre(m);
    ReflectVertical(6.0);
  }

  /**
   * The reflection does not keep a creature inside. Take a predator-sized
   * creature at the centre with speed `(0, 0, 6)`: its prospective position
   * `(0, 0, 6)` hits the wall, so by the contract of `WallBounce` its speed
   * becomes the reflection `(0, 0, -6)` and it moves there, where its sphere
   * still pokes out of the tank.
   */
  lemma WallBounceCanLeaveTank(m: MathLib)
    requires m.sqrt(36.0) == 6.0
    ensures HitsWall(m, V3(0.0, 0.0, 6.0), 0.5, TankDims)
    ensures Add(Origin, Reflect(V3(0.0, 0.0, 6.0), WallNormal(m, V3(0.0, 0.0, 6.0)))) == V3(0.0, 0.0, -6.0)
    ensures HitsWall(m, V3(0.0, 0.0, -6.0), 0.5, TankDims)
  {
    SixAboveIsOutside(m);
    SixBelowIsOutside(m);
    ReflectAtTop(m);
  }

  // The scene during a step

  predicate IsCreature(s: Scene, x: Ref) {
    x in s.heap && s.heap[x].CreatureNode?
  }

  /** The list a registry refers to. */
  function ListOf(s: Scene, reg: Registry): seq<Ref> {
    match reg
    case SharedList => s.shared
    case Components => s.components
  }

  /** The scene with the list a registry refers to replaced. */
  function WithList(s: Scene, reg: Registry, xs: seq<Ref>): (t: Scene)
    ensures ListOf(t, reg) == xs && t.heap == s.heap
    ensures reg.SharedList? ==> t.components == s.components
    ensures reg.Components? ==> t.shared == s.shared
  {
    match reg
    case SharedList => s.(shared := xs)
    case Components => s.(components := xs)
  }

  function Put(s: Scene, x: Ref, c: Creature): Scene {
    s.(heap := s.heap[x := CreatureNode(c)])
  }

  /** A node stays what it is: a creature stays a creature of the same kind and registry, anything else is untouched. */
  predicate Keeps(a: Node, b: Node) {
    if a.CreatureNode? then b.CreatureNode? && b.c.kind == a.c.kind && b.c.registry == a.c.registry
    else b == a
  }

  predicate Evolves(s: Scene, t: Scene) {
    s.heap.Keys == t.heap.Keys && forall x :: x in s.heap ==> Keeps(s.heap[x], t.heap[x])
  }

  /**
   * What one creature's step may do to the scene: every object keeps its
   * nature; its own list loses at most itself (every other element stays, in
   * order); the other list is untouched; and only it and the objects in its
   * list can change.
   */
  predicate StepEffect(s: Scene, t: Scene, me: Ref)
    requires IsCreature(s, me)
  {
    var reg := s.heap[me].c.registry;
    Evolves(s, t)
    && |ListOf(t, reg)| <= |ListOf(s, reg)|
    && multiset(ListOf(t, reg)) <= multiset(ListOf(s, reg))
    && Without(ListOf(t, reg), me) == Without(ListOf(s, reg), me)
    && ListOf(t, Other(reg)) == ListOf(s, Other(reg))
    && (forall x :: x in s.heap && x != me && x !in ListOf(s, reg) ==> x in t.heap && t.heap[x] == s.heap[x])
  }

  function Other(reg: Registry): Registry {
    match reg
    case SharedList => Components
    case Components => SharedList
  }

  /** One step's effect followed by another's is still one step's effect. */
  lemma StepEffectTrans(s: Scene, t: Scene, u: Scene, me: Ref)
    requires IsCreature(s, me)
    requires StepEffect(s, t, me)
    requires IsCreature(t, me) && StepEffect(t, u, me)
    ensures StepEffect(s, u, me)
  {
    var reg := s.heap[me].c.registry;
    assert t.heap[me].c.registry == reg;
  }

  /** Nothing changes at all. */
  lemma StepEffectRefl(s: Scene, me: Ref)
    requires IsCreature(s, me)
    ensures StepEffect(s, s, me)
  {
  }

  /** Changing the stepping creature itself, keeping kind and registry, is a step effect. */
  lemma PutSelfEffect(s: Scene, me: Ref, c: Creature)
    requires IsCreature(s, me)
    requires c.kind == s.heap[me].c.kind && c.registry == s.heap[me].c.registry
    ensures IsCreature(Put(s, me, c), me) && StepEffect(s, Put(s, me, c), me)
  {
  }

  /** A change to another creature in the stepping creature's list, keeping kind and registry, is a step effect. */
  lemma PutOtherEffect(s: Scene, me: Ref, o: Ref, d: Creature)
    requires IsCreature(s, me) && IsCreature(s, o) && o != me
    requires o in ListOf(s, s.heap[me].c.registry)
    requires d.kind == s.heap[o].c.kind && d.registry == s.heap[o].c.registry
    ensures IsCreature(Put(s, o, d), me) && StepEffect(s, Put(s, o, d), me)
  {
  }

  // Reacting to another creature

  /**
   * The chase: the predator heads for the target at cruising speed, along
   * the normalised direction to it, and faces that direction.
   */
  function Chase(m: MathLib, c: Creature, target: V3): (r: Creature)
    ensures r.speed == Some(Scale(Vectors.Normalize(m, Sub(target, c.pos)), CruiseSpeed))
    ensures r.env == RotateDirection(m, c.env, Vectors.Normalize(m, Sub(target, c.pos)))
    ensures r == c.(speed := r.speed, env := r.env)
  {
    var dir := Vectors.Normalize(m, Sub(target, c.pos));
    c.(speed := Some(Scale(dir, CruiseSpeed)), env := RotateDirection(m, c.env, dir))
  }

  /** With an exact square root, a chase toward a target further than `Epsilon` moves at exactly cruising speed. */
  lemma ChaseAtCruiseSpeed(m: MathLib, c: Creature, target: V3)
    requires SqrtExactAt(m, SumSq(Sub(target, c.pos)))
    requires Vectors.Norm(m, Sub(target, c.pos)) > Epsilon
    ensures SumSq(Chase(m, c, target).speed.value) == CruiseSpeed * CruiseSpeed
  {
    var dir := Vectors.Normalize(m, Sub(target, c.pos));
    Vectors.NormalizeIsUnit(m, Sub(target, c.pos));
    ScaleSumSq(dir, CruiseSpeed);
  }

  /** The normal of a creature collision: from the stepping creature towards the other. */
  function ContactNormal(m: MathLib, c: Creature, d: Creature): V3 {
    Vectors.Normalize(m, Sub(d.pos, c.pos))
  }

  /**
   * Same-species bounce: both speeds are reflected about the normal from
   * the stepping creature to the other, then both creatures face their new
   * speeds. The stepping creature's speed is reflected first, so when the
   * other has no speed the reflection of `None` raises with that first
   * change already made.
   */
  function Bounce(m: MathLib, s: Scene, me: Ref, o: Ref): (r: Outcome<Scene>)
    requires IsCreature(s, me) && IsCreature(s, o) && me != o
    requires s.heap[me].c.speed.Some?
    ensures r.Raised? <==> s.heap[o].c.speed.None?
    ensures r.Raised? ==> r.exc == AttributeError
    ensures IsCreature(r.After(), me) && IsCreature(r.After(), o)
    ensures r.After().heap[me].c.speed == Some(Reflect(s.heap[me].c.speed.value, ContactNormal(m, s.heap[me].c, s.heap[o].c)))
    ensures r.Ok? ==> r.value.heap[o].c.speed == Some(Reflect(s.heap[o].c.speed.value, ContactNormal(m, s.heap[me].c, s.heap[o].c)))
    ensures r.Ok? ==> r.value.heap[me].c.env.heading == HeadingQuat(m, r.value.heap[me].c.speed.value)
    ensures r.Ok? ==> r.value.heap[o].c.env.heading == HeadingQuat(m, r.value.heap[o].c.speed.value)
    ensures r.Ok? ==> r.value.heap[me].c.env == RotateDirection(m, s.heap[me].c.env, r.value.heap[me].c.speed.value)
    ensures r.Ok? ==> r.value.heap[o].c.env == RotateDirection(m, s.heap[o].c.env, r.value.heap[o].c.speed.value)
    ensures r.Raised? ==> r.state.heap[me].c.env == s.heap[me].c.env && r.state.heap[o] == s.heap[o]
    ensures r.After().heap[me].c == s.heap[me].c.(speed := r.After().heap[me].c.speed, env := r.After().heap[me].c.env)
    ensures r.After().heap[o].c == s.heap[o].c.(speed := r.After().heap[o].c.speed, env := r.After().heap[o].c.env)
    ensures r.After().components == s.components && r.After().shared == s.shared
    ensures r.After().heap == s.heap[o := r.After().heap[o]][me := r.After().heap[me]]
  {
    var c := s.heap[me].c;
    var d := s.heap[o].c;
    var n := ContactNormal(m, c, d);
    var v := Reflect(c.speed.value, n);
    var s1 := Put(s, me, c.(speed := Some(v)));
    match d.speed
    case None => Raised(AttributeError, s1)
    case Some(dv) =>
      var w := Reflect(dv, n);
      var s2 := Put(s1, o, d.(speed := Some(w), env := RotateDirection(m, d.env, w)));
      Ok(Put(s2, me, c.(speed := Some(v), env := RotateDirection(m, c.env, v))))
  }

  /**
   * With a unit contact normal, a bounce keeps both speeds' lengths and
   * reverses both normal parts, so the creatures' closing speed along the
   * normal changes sign.
   */
  lemma BounceReflectsBoth(m: MathLib, s: Scene, me: Ref, o: Ref)
    requires IsCreature(s, me) && IsCreature(s, o) && me != o
    requires s.heap[me].c.speed.Some? && s.heap[o].c.speed.Some?
    requires SumSq(ContactNormal(m, s.heap[me].c, s.heap[o].c)) == 1.0
    ensures Bounce(m, s, me, o).Ok?
    ensures SumSq(Bounce(m, s, me, o).value.heap[me].c.speed.value) == SumSq(s.heap[me].c.speed.value)
    ensures SumSq(Bounce(m, s, me, o).value.heap[o].c.speed.value) == SumSq(s.heap[o].c.speed.value)
    ensures Dot(Sub(Bounce(m, s, me, o).value.heap[o].c.speed.value, Bounce(m, s, me, o).value.heap[me].c.speed.value), ContactNormal(m, s.heap[me].c, s.heap[o].c))
         == -Dot(Sub(s.heap[o].c.speed.value, s.heap[me].c.speed.value), ContactNormal(m, s.heap[me].c, s.heap[o].c))
  {
    var n := ContactNormal(m, s.heap[me].c, s.heap[o].c);
    var v := s.heap[me].c.speed.value;
    var w := s.heap[o].c.speed.value;
    ReflectKeepsLength(v, n);
    ReflectKeepsLength(w, n);
    ReflectReversesNormal(v, n);
    ReflectReversesNormal(w, n);
    DotSub(Reflect(w, n), Reflect(v, n), n);
    DotSub(w, v, n);
  }

  /** The dot product distributes over a difference. */
  lemma DotSub(a: V3, b: V3, n: V3)
    ensures Dot(Sub(a, b), n) == Dot(a, n) - Dot(b, n)
  {
  }

  /**
   * Being eaten: the prey calls `remove(self)` on the list its
   * `env_obj_list` refers to, which raises ValueError when it is no longer
   * there.
   */
  function Eaten(s: Scene, me: Ref): (r: Outcome<Scene>)
    requires IsCreature(s, me)
    ensures r.Raised? <==> me !in ListOf(s, s.heap[me].c.registry)
    ensures r.Raised? ==> r.exc == ValueError && r.state == s
    ensures r.Ok? ==> r.value == WithList(s, s.heap[me].c.registry, Remove(ListOf(s, s.heap[me].c.registry), me).value)
  {
    var reg := s.heap[me].c.registry;
    match Remove(ListOf(s, reg), me)
    case Ok(xs) => Ok(WithList(s, reg, xs))
    case Raised(e, _) => Raised(e, s)
  }

  /** Being eaten is a step effect. */
  lemma EatenEffect(s: Scene, me: Ref)
    requires IsCreature(s, me)
    ensures IsCreature(Eaten(s, me).After(), me) && StepEffect(s, Eaten(s, me).After(), me)
  {
    var reg := s.heap[me].c.registry;
    var t := Eaten(s, me).After();
    if me in ListOf(s, reg) {
      var xs := Remove(ListOf(s, reg), me).value;
      assert t == WithList(s, reg, xs);
      RemoveKeepsOthers(ListOf(s, reg), me);
      assert ListOf(t, reg) == xs;
      assert ListOf(t, Other(reg)) == ListOf(s, Other(reg));
    } else {
      assert t == s;
    }
    assert t.heap == s.heap;
    SameHeapEvolves(s, t);
  }

  /** A scene whose objects are all unchanged evolves from the original. */
  lemma SameHeapEvolves(s: Scene, t: Scene)
    requires t.heap == s.heap
    ensures Evolves(s, t)
  {
    forall x | x in s.heap
      ensures Keeps(s.heap[x], t.heap[x])
    {
    }
  }

  /** A bounce is a step effect when the other creature is in the stepping creature's list. */
  lemma BounceEffect(m: MathLib, s: Scene, me: Ref, o: Ref)
    requires IsCreature(s, me) && IsCreature(s, o) && me != o
    requires s.heap[me].c.speed.Some?
    requires o in ListOf(s, s.heap[me].c.registry)
    ensures IsCreature(Bounce(m, s, me, o).After(), me) && StepEffect(s, Bounce(m, s, me, o).After(), me)
  {
    var t := Bounce(m, s, me, o).After();
    assert Evolves(s, t);
  }

  /**
   * A predator closer than three of its radii to a species-2 creature
   * chases it; anything else leaves the creature as it is.
   */
  function Approach(m: MathLib, c: Creature, d: Creature, rad: real): (r: Creature)
    ensures c.kind == Predator && Distance(m, c.pos, d.pos) < SensingFactor * rad && d.env.speciesId == 2 ==> r == Chase(m, c, d.pos)
    ensures !(c.kind == Predator && Distance(m, c.pos, d.pos) < SensingFactor * rad && d.env.speciesId == 2) ==> r == c
  {
    if c.kind == Predator && Distance(m, c.pos, d.pos) < SensingFactor * rad && d.env.speciesId == 2 then Chase(m, c, d.pos) else c
  }

  /**
   * What overlapping bounding spheres do, after any chase: creatures of the
   * same species bounce, a predator does nothing more, and a prey removes
   * itself. A missing radius on the other creature raises TypeError.
   */
  function Contact(m: MathLib, s: Scene, me: Ref, o: Ref): (r: Outcome<Scene>)
    requires IsCreature(s, me) && IsCreature(s, o) && me != o
    requires s.heap[me].c.speed.Some? && s.heap[me].c.env.boundRadius.Some?
    requires o in ListOf(s, s.heap[me].c.registry)
    ensures IsCreature(r.After(), me) && StepEffect(s, r.After(), me)
    ensures r.After().heap[me].c.speed.Some? && r.After().heap[me].c.pos == s.heap[me].c.pos
    ensures s.heap[me].c.kind == Predator ==> r.After().components == s.components && r.After().shared == s.shared
    ensures s.heap[o].c.env.boundRadius.None? ==> r == Raised(TypeError, s)
    ensures s.heap[o].c.env.boundRadius.Some? && !Overlap(m, s.heap[me].c, s.heap[o].c) ==> r == Ok(s)
    ensures s.heap[o].c.env.boundRadius.Some? && Overlap(m, s.heap[me].c, s.heap[o].c) && s.heap[me].c.env.speciesId == s.heap[o].c.env.speciesId ==>
      r == Bounce(m, s, me, o)
    ensures s.heap[o].c.env.boundRadius.Some? && Overlap(m, s.heap[me].c, s.heap[o].c) && s.heap[me].c.env.speciesId != s.heap[o].c.env.speciesId ==>
      r == if s.heap[me].c.kind == Predator then Ok(s) else Eaten(s, me)
  {
    var c := s.heap[me].c;
    var d := s.heap[o].c;
    match d.env.boundRadius
    case None => Raised(TypeError, s)
    case Some(_) =>
      if !Overlap(m, c, d) then Ok(s)
      else if c.env.speciesId == d.env.speciesId then
        BounceEffect(m, s, me, o);
        Bounce(m, s, me, o)
      else if c.kind == Predator then Ok(s)
      else
        EatenEffect(s, me);
        Eaten(s, me)
  }

  /** The bounding spheres of two creatures with radii overlap. */
  predicate Overlap(m: MathLib, c: Creature, d: Creature)
    requires c.env.boundRadius.Some? && d.env.boundRadius.Some?
  {
    Distance(m, c.pos, d.pos) < c.env.boundRadius.value + d.env.boundRadius.value
  }

  /**
   * The body of the neighbour loop for the element `o` of the stepping
   * creature's list. Itself and anything that is not a creature are
   * skipped; otherwise a predator may first chase, and then the contact
   * rules apply. A missing radius raises TypeError in the arithmetic.
   */
  function Visit(m: MathLib, s: Scene, me: Ref, o: Ref): (r: Outcome<Scene>)
    requires IsCreature(s, me) && s.heap[me].c.speed.Some?
    requires o in ListOf(s, s.heap[me].c.registry)
    ensures IsCreature(r.After(), me) && StepEffect(s, r.After(), me)
    ensures r.After().heap[me].c.speed.Some? && r.After().heap[me].c.pos == s.heap[me].c.pos
    ensures s.heap[me].c.kind == Predator ==> r.After().components == s.components && r.After().shared == s.shared
    ensures o == me || !IsCreature(s, o) ==> r == Ok(s)
    ensures s.heap[me].c.env.boundRadius.None? && o != me && IsCreature(s, o) ==> r == Raised(TypeError, s)
    ensures s.heap[me].c.env.boundRadius.Some? && o != me && IsCreature(s, o) ==>
      r == Contact(m, Put(s, me, Approach(m, s.heap[me].c, s.heap[o].c, s.heap[me].c.env.boundRadius.value)), me, o)
  {
    var c := s.heap[me].c;
    if o == me || !IsCreature(s, o) then Ok(s)
    else
      match c.env.boundRadius
      case None => Raised(TypeError, s)
      case Some(rad) =>
        var s1 := Put(s, me, Approach(m, c, s.heap[o].c, rad));
        PutSelfEffect(s, me, s1.heap[me].c);
        assert s1.heap[me].c.pos == c.pos;
        var r := Contact(m, s1, me, o);
        StepEffectTrans(s, s1, r.After(), me);
        r
  }

  /**
   * `for other_creature in self.env_obj_list`, from position `idx`: Python
   * walks a list by index and re-reads its length each time, so when the
   * prey removes itself the element after it moves into the slot just
   * visited and is skipped.
   */
  function Neighbours(m: MathLib, s: Scene, me: Ref, idx: nat): (r: Outcome<Scene>)
    requires IsCreature(s, me) && s.heap[me].c.speed.Some?
    decreases |ListOf(s, s.heap[me].c.registry)| - idx
    ensures IsCreature(r.After(), me) && StepEffect(s, r.After(), me)
    ensures r.After().heap[me].c.speed.Some? && r.After().heap[me].c.pos == s.heap[me].c.pos
    ensures s.heap[me].c.kind == Predator ==> r.After().components == s.components && r.After().shared == s.shared
  {
    var xs := ListOf(s, s.heap[me].c.registry);
    if idx >= |xs| then
      StepEffectRefl(s, me);
      Ok(s)
    else
      match Visit(m, s, me, xs[idx])
      case Raised(e, t) => Raised(e, t)
      case Ok(t) =>
        var r := Neighbours(m, t, me, idx + 1);
        StepEffectTrans(s, t, r.After(), me);
        r
  }

  /**
   * `stepForward(...)` of either creature: wander, then, when there is a
   * translation speed, bounce off the wall, advance, and react to every
   * creature in the list its `env_obj_list` refers to. `dir` is the random
   * heading a wander step would take. A raise leaves the changes made
   * before it in place.
   */
  function StepForward(m: MathLib, s: Scene, me: Ref, dims: V3, dir: V3): (r: Outcome<Scene>)
    requires IsCreature(s, me)
    ensures IsCreature(r.After(), me) && StepEffect(s, r.After(), me)
    ensures s.heap[me].c.kind == Predator ==> r.After().components == s.components && r.After().shared == s.shared
    ensures Wander(m, s.heap[me].c, dir).speed.None? ==> r == Ok(Put(s, me, Wander(m, s.heap[me].c, dir)))
    ensures Wander(m, s.heap[me].c, dir).speed.Some? && s.heap[me].c.env.boundRadius.None? ==>
      r == Raised(TypeError, Put(s, me, Wander(m, s.heap[me].c, dir)))
    ensures Wander(m, s.heap[me].c, dir).speed.Some? && s.heap[me].c.env.boundRadius.Some? ==>
      WallBounce(m, Wander(m, s.heap[me].c, dir), dims).Ok? &&
      r == Neighbours(m, Put(s, me, WallBounce(m, Wander(m, s.heap[me].c, dir), dims).value), me, 0)
  {
    var c := Wander(m, s.heap[me].c, dir);
    var s1 := Put(s, me, c);
    PutSelfEffect(s, me, c);
    if c.speed.None? then Ok(s1)
    else
      match WallBounce(m, c, dims)
      case Raised(e, c') => Raised(e, s1)
      case Ok(c') =>
        var s2 := Put(s, me, c');
        PutSelfEffect(s, me, c');
        var r := Neighbours(m, s2, me, 0);
        StepEffectTrans(s, s2, r.After(), me);
        r
  }

  /**
   * A moving creature with a radius ends its step where the wall bounce put
   * it: at its old position plus its speed, reflected off the wall when the
   * advance would cross it. Contacts change its speed, never its position.
   */
  lemma StepAdvances(m: MathLib, s: Scene, me: Ref, dims: V3, dir: V3)
    requires IsCreature(s, me) && s.heap[me].c.env.boundRadius.Some?
    requires Wander(m, s.heap[me].c, dir).speed.Some?
    ensures var v := Wander(m, s.heap[me].c, dir).speed.value;
      var p := s.heap[me].c.pos;
      var t := StepForward(m, s, me, dims, dir).After().heap[me].c.pos;
      && (HitsWall(m, Add(p, v), s.heap[me].c.env.boundRadius.value, dims) ==> t == Add(p, Reflect(v, WallNormal(m, Add(p, v)))))
      && (!HitsWall(m, Add(p, v), s.heap[me].c.env.boundRadius.value, dims) ==> t == Add(p, v))
  {
  }

  /** A creature that has no speed after wandering only counts the step. */
  lemma StillCreatureOnlyCounts(m: MathLib, s: Scene, me: Ref, dims: V3, dir: V3)
    requires IsCreature(s, me) && s.heap[me].c.speed.None?
    requires s.heap[me].c.counter + 1 < UpdateSpeedFrequency
    ensures StepForward(m, s, me, dims, dir) == Ok(Put(s, me, s.heap[me].c.(counter := s.heap[me].c.counter + 1)))
  {
  }

  /**
   * A predator closer than three radii to a species-2 creature that does
   * not overlap it heads for it at cruising speed, and nothing else moves.
   */
  lemma PredatorChases(m: MathLib, s: Scene, me: Ref, o: Ref)
    requires IsCreature(s, me) && IsCreature(s, o) && me != o
    requires s.heap[me].c.kind == Predator && s.heap[me].c.speed.Some?
    requires o in ListOf(s, s.heap[me].c.registry)
    requires s.heap[me].c.env.boundRadius.Some? && s.heap[o].c.env.boundRadius.Some?
    requires Distance(m, s.heap[me].c.pos, s.heap[o].c.pos) < SensingFactor * s.heap[me].c.env.boundRadius.value
    requires s.heap[o].c.env.speciesId == 2
    requires !Overlap(m, s.heap[me].c, s.heap[o].c)
    ensures Visit(m, s, me, o) == Ok(Put(s, me, Chase(m, s.heap[me].c, s.heap[o].c.pos)))
    ensures Visit(m, s, me, o).value.heap[me].c.speed == Some(Scale(Vectors.Normalize(m, Sub(s.heap[o].c.pos, s.heap[me].c.pos)), CruiseSpeed))
  {
    var c1 := Chase(m, s.heap[me].c, s.heap[o].c.pos);
    assert Put(s, me, c1).heap[o] == s.heap[o];
  }

  /** A prey never chases: reaching a creature it does not overlap leaves the scene unchanged. */
  lemma PreyNeverChases(m: MathLib, s: Scene, me: Ref, o: Ref)
    requires IsCreature(s, me) && IsCreature(s, o) && me != o
    requires s.heap[me].c.kind == Prey && s.heap[me].c.speed.Some?
    requires o in ListOf(s, s.heap[me].c.registry)
    requires s.heap[me].c.env.boundRadius.Some? && s.heap[o].c.env.boundRadius.Some?
    requires !Overlap(m, s.heap[me].c, s.heap[o].c)
    ensures Visit(m, s, me, o).Ok?
    ensures Visit(m, s, me, o).value.heap == s.heap[me := CreatureNode(s.heap[me].c)]
  {
  }

  /**
   * A prey overlapping a creature of another species removes itself from
   * its list when it is there, and raises ValueError when an earlier
   * overlap in the same step already removed it.
   */
  lemma PreyEaten(m: MathLib, s: Scene, me: Ref, o: Ref)
    requires IsCreature(s, me) && IsCreature(s, o) && me != o
    requires s.heap[me].c.kind == Prey && s.heap[me].c.speed.Some?
    requires o in ListOf(s, s.heap[me].c.registry)
    requires s.heap[me].c.env.boundRadius.Some? && s.heap[o].c.env.boundRadius.Some?
    requires Overlap(m, s.heap[me].c, s.heap[o].c)
    requires s.heap[me].c.env.speciesId != s.heap[o].c.env.speciesId
    ensures Visit(m, s, me, o).Raised? <==> me !in ListOf(s, s.heap[me].c.registry)
    ensures Visit(m, s, me, o).Raised? ==> Visit(m, s, me, o).exc == ValueError
    ensures Visit(m, s, me, o).Ok? ==>
      multiset(ListOf(Visit(m, s, me, o).value, s.heap[me].c.registry)) == multiset(ListOf(s, s.heap[me].c.registry)) - multiset{me}
  {
    var s1 := Put(s, me, s.heap[me].c);
    assert s1.heap[o] == s.heap[o];
  }

  /**
   * The skip: once the prey at position `i` of the list removes itself,
   * the element that followed it sits at `i`, so the loop's next index
   * `i + 1` reads the element two places on.
   */
  lemma RemovalShiftsNext<T>(xs: seq<T>, me: T, idx: nat)
    requires me in xs && IndexOf(xs, me) <= idx < |xs| - 1
    ensures Remove(xs, me).value[idx] == xs[idx + 1]
  {
  }
}
