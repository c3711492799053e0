/**
 * The vivarium (Vivarium.py): the tank, the list of components it draws and
 * steps, and the tick that animates and steps every creature once, in
 * reverse insertion order, marking the creatures that removed themselves
 * and deleting them only after the pass.
 */
module Vivarium {
  import opened Python
  import opened Vectors
  import opened EnvironmentObject
  import opened ModelLinkage

  /**
   * The vivarium's state: the scene (objects, `components`, and the
   * class-level list), the tank's reference, the tank's children, and the
   * tank dimensions.
   */
  datatype World = World(scene: Scene, tank: Ref, tankChildren: seq<Ref>, dims: V3)

  /** `isinstance(x, Component)`: the tank, creatures and scene parts are components; plain values are not. */
  predicate IsComponent(n: Node) {
    !n.ValueNode?
  }

  /**
   * `addNewObjInTank(x)`: a component becomes a child of the tank and is
   * appended to `components`; a creature's `env_obj_list` then refers to
   * `components`.
   */
  function AddNewObjInTank(w: World, x: Ref): (r: World)
    requires x in w.scene.heap
    ensures IsComponent(w.scene.heap[x]) ==> r.tankChildren == w.tankChildren + [x] && r.scene.components == w.scene.components + [x]
    ensures !IsComponent(w.scene.heap[x]) ==> r.tankChildren == w.tankChildren && r.scene.components == w.scene.components
    ensures w.scene.heap[x].CreatureNode? ==>
      r.scene.heap == w.scene.heap[x := CreatureNode(w.scene.heap[x].c.(registry := Components))]
    ensures !w.scene.heap[x].CreatureNode? ==> r.scene.heap == w.scene.heap
    ensures r.scene.shared == w.scene.shared && r.tank == w.tank && r.dims == w.dims
  {
    var n := w.scene.heap[x];
    var w1 := if IsComponent(n) then w.(tankChildren := w.tankChildren + [x], scene := w.scene.(components := w.scene.components + [x])) else w;
    if n.CreatureNode? then w1.(scene := Put(w1.scene, x, n.c.(registry := Components))) else w1
  }

  /**
   * `delObjInTank(x)`: for a component, remove it from the tank's children
   * and then, when it is there, from `components`. When it is not a child
   * of the tank the ValueError is swallowed and nothing changes; anything
   * that is not a component is ignored.
   */
  function DelObjInTank(w: World, x: Ref): (r: World)
    requires x in w.scene.heap
    ensures !IsComponent(w.scene.heap[x]) || x !in w.tankChildren ==> r == w
    ensures IsComponent(w.scene.heap[x]) && x in w.tankChildren ==>
      multiset(r.tankChildren) == multiset(w.tankChildren) - multiset{x}
      && multiset(r.scene.components) == multiset(w.scene.components) - multiset{x}
    ensures Without(r.tankChildren, x) == Without(w.tankChildren, x)
    ensures Without(r.scene.components, x) == Without(w.scene.components, x)
    ensures r == w.(tankChildren := r.tankChildren, scene := w.scene.(components := r.scene.components))
  {
    if !IsComponent(w.scene.heap[x]) then w
    else
      match Remove(w.tankChildren, x)
      case Raised(_, _) => w
      case Ok(children) =>
        RemoveKeepsOthers(w.tankChildren, x);
        var comps := if x in w.scene.components then Remove(w.scene.components, x).value else w.scene.components;
        assert Without(comps, x) == Without(w.scene.components, x) by {
          if x in w.scene.components {
            RemoveKeepsOthers(w.scene.components, x);
          }
        }
        w.(tankChildren := children, scene := w.scene.(components := comps))
  }

  /** Adding a new component and deleting it again restores the tank's children and `components`. */
  lemma AddThenDelete(w: World, x: Ref)
    requires x in w.scene.heap && IsComponent(w.scene.heap[x])
    requires x !in w.tankChildren && x !in w.scene.components
    ensures DelObjInTank(AddNewObjInTank(w, x), x).tankChildren == w.tankChildren
    ensures DelObjInTank(AddNewObjInTank(w, x), x).scene.components == w.scene.components
  {
    AddThenRemove(w.tankChildren, x);
    AddThenRemove(w.scene.components, x);
  }

  /** Deleting twice: the second call finds the object gone from the tank and changes nothing. */
  lemma DeleteTwice(w: World, x: Ref)
    requires x in w.scene.heap && Count(w.tankChildren, x) == 1
    ensures DelObjInTank(DelObjInTank(w, x), x) == DelObjInTank(w, x)
  {
    if IsComponent(w.scene.heap[x]) {
      assert multiset(DelObjInTank(w, x).tankChildren)[x] == 0;
    }
  }

  // The initial population

  /** The tank's reference. */
  const TankRef: Ref := 0

  /** Store a newly built creature at the fresh reference `me` and add it to the tank. */
  function AddCreature(w: World, me: Ref, c: Creature): (r: World)
    ensures r.scene.heap == w.scene.heap[me := CreatureNode(c.(registry := Components))]
    ensures r.scene.components == w.scene.components + [me] && r.tankChildren == w.tankChildren + [me]
    ensures r.scene.shared == w.scene.shared && r.dims == w.dims && r.tank == w.tank
  {
    AddNewObjInTank(w.(scene := Put(w.scene, me, c)), me)
  }

  /** Build a prey at the fresh reference `me`, which registers itself in the class-level list, and add it to the tank. */
  function AddPrey(w: World, me: Ref, pos: V3): (r: World)
    ensures r == AddCreature(w.(scene := w.scene.(shared := w.scene.shared + [me])), me, NewPreyCreature(pos))
  {
    AddNewObjInTank(w.(scene := NewPrey(w.scene, me, pos)), me)
  }

  /**
   * A newly built creature joins the vivarium at the fresh reference `me`:
   * stored with its `env_obj_list` referring to `components`, appended to
   * `components` and to the tank's children, and, for a prey, appended to
   * the class-level list first.
   */
  function AddBuilt(w: World, c: Creature, me: Ref): (r: World)
    ensures r.scene.heap == w.scene.heap[me := Stored(c)]
    ensures r.scene.components == w.scene.components + [me] && r.tankChildren == w.tankChildren + [me]
    ensures r.scene.shared == w.scene.shared + (if c.kind == Prey then [me] else [])
    ensures r.tank == w.tank && r.dims == w.dims
  {
    var shared := if c.kind == Prey then w.scene.shared + [me] else w.scene.shared;
    World(Scene(w.scene.heap[me := Stored(c)], w.scene.components + [me], shared), w.tank, w.tankChildren + [me], w.dims)
  }

  /**
   * `AddBuilt` is the constructor's registration followed by
   * `addNewObjInTank`: a prey appends itself to the class-level list, as
   * the `Linkage2` constructor does, and the tank then adopts the creature.
   */
  lemma AddBuiltAdopts(w: World, c: Creature, me: Ref)
    ensures AddBuilt(w, c, me) == AddCreature(if c.kind == Prey then w.(scene := w.scene.(shared := w.scene.shared + [me])) else w, me, c)
    ensures AddBuilt(w, NewPreyCreature(c.pos), me) == AddPrey(w, me, c.pos)
  {
  }

  /** The object a creature leaves in the scene once adopted: its `env_obj_list` refers to `components`. */
  function Stored(c: Creature): Node {
    CreatureNode(c.(registry := Components))
  }

  /** The creatures `Vivarium(...)` adds, in order: a predator, six prey, and a second predator. */
  const Population := [
    NewPredator(Origin),
    NewPreyCreature(V3(2.0, 2.0, 2.0)), NewPreyCreature(V3(0.0, 2.0, 0.0)), NewPreyCreature(V3(0.0, -2.0, 0.0)),
    NewPreyCreature(V3(3.0, 0.0, 0.0)), NewPreyCreature(V3(-3.0, 0.0, 0.0)), NewPreyCreature(V3(-2.0, -2.0, -2.0)),
    NewPredator(V3(0.0, 3.0, 3.0))]

  /** The `n` references from `a` on, in order. */
  function Span(a: nat, n: nat): (r: seq<Ref>)
    ensures |r| == n
    decreases n
  {
    if n == 0 then [] else [a] + Span(a + 1, n - 1)
  }

  /** The references the prey among `cs` get when the first gets `next`. */
  function PreyRefs(cs: seq<Creature>, next: nat): seq<Ref> {
    if |cs| == 0 then []
    else (if cs[0].kind == Prey then [next] else []) + PreyRefs(cs[1..], next + 1)
  }

  /** Add each built creature in turn, at references counting up from `next`. */
  function Populate(w: World, cs: seq<Creature>, next: nat): (r: World)
    decreases |cs|
    ensures |r.scene.components| == |w.scene.components| + |cs| && |r.tankChildren| == |w.tankChildren| + |cs|
    ensures r.scene.components[..|w.scene.components|] == w.scene.components
    ensures r.tank == w.tank && r.dims == w.dims
  {
    if |cs| == 0 then w
    else Populate(AddBuilt(w, cs[0], next), cs[1..], next + 1)
  }

  /** One step of the construction: the first creature, then the rest. */
  lemma PopulateStep(w: World, cs: seq<Creature>, next: nat)
    requires 0 < |cs|
    ensures Populate(w, cs, next) == Populate(AddBuilt(w, cs[0], next), cs[1..], next + 1)
  {
  }

  /** Adding cs appends their references, in order, to `components` and to the tank's children. */
  lemma {:induction false} PopulateComponents(w: World, cs: seq<Creature>, next: nat)
    decreases |cs|
    ensures Populate(w, cs, next).scene.components == w.scene.components + Span(next, |cs|)
    ensures Populate(w, cs, next).tankChildren == w.tankChildren + Span(next, |cs|)
  {
    if |cs| > 0 {
      var w1 := AddBuilt(w, cs[0], next);
      PopulateStep(w, cs, next);
      PopulateComponents(w1, cs[1..], next + 1);
      AppendSpan(w.scene.components, next, |cs|);
      AppendSpan(w.tankChildren, next, |cs|);
    }
  }

  /** Appending `a` and then the span after it appends the span from `a`. */
  lemma AppendSpan(xs: seq<Ref>, a: nat, n: nat)
    requires 0 < n
    ensures xs + [a] + Span(a + 1, n - 1) == xs + Span(a, n)
  {
    assert Span(a, n) == [a] + Span(a + 1, n - 1);
    assert xs + [a] + Span(a + 1, n - 1) == xs + ([a] + Span(a + 1, n - 1));
  }

  /** Adding cs appends the prey's references, in order, to the class-level list. */
  lemma {:induction false} PopulateShared(w: World, cs: seq<Creature>, next: nat)
    decreases |cs|
    ensures Populate(w, cs, next).scene.shared == w.scene.shared + PreyRefs(cs, next)
  {
    if |cs| > 0 {
      var w1 := AddBuilt(w, cs[0], next);
      PopulateStep(w, cs, next);
      PopulateShared(w1, cs[1..], next + 1);
    }
  }

  /** Adding cs keeps the tank and its dimensions. */
  lemma {:induction false} PopulateKeepsTank(w: World, cs: seq<Creature>, next: nat)
    decreases |cs|
    ensures Populate(w, cs, next).tank == w.tank && Populate(w, cs, next).dims == w.dims
  {
    if |cs| > 0 {
      var w1 := AddBuilt(w, cs[0], next);
      PopulateStep(w, cs, next);
      PopulateKeepsTank(w1, cs[1..], next + 1);
    }
  }

  /** Adding cs adds exactly their references to the objects. */
  lemma {:induction false} PopulateKeys(w: World, cs: seq<Creature>, next: nat)
    decreases |cs|
    ensures forall k :: k in Populate(w, cs, next).scene.heap <==> k in w.scene.heap || next <= k < next + |cs|
  {
    if |cs| > 0 {
      var w1 := AddBuilt(w, cs[0], next);
      PopulateStep(w, cs, next);
      PopulateKeys(w1, cs[1..], next + 1);
    }
  }

  /** Building the population leaves every object below the first fresh reference untouched. */
  lemma {:induction false} PopulateKeepsOld(w: World, cs: seq<Creature>, next: nat, k: Ref)
    requires k in w.scene.heap && k < next
    decreases |cs|
    ensures k in Populate(w, cs, next).scene.heap && Populate(w, cs, next).scene.heap[k] == w.scene.heap[k]
  {
    if |cs| > 0 {
      var w1 := AddBuilt(w, cs[0], next);
      PopulateStep(w, cs, next);
      PopulateKeepsOld(w1, cs[1..], next + 1, k);
    }
  }

  /** The first creature is stored under `next`. */
  lemma PopulateStoresFirst(w: World, cs: seq<Creature>, next: nat)
    requires 0 < |cs|
    ensures next in Populate(w, cs, next).scene.heap
    ensures Populate(w, cs, next).scene.heap[next] == Stored(cs[0])
  {
    var w1 := AddBuilt(w, cs[0], next);
    PopulateStep(w, cs, next);
    PopulateKeepsOld(w1, cs[1..], next + 1, next);
  }

  /** The `i`-th creature is stored, as built and registered with `components`, under reference `next + i`. */
  lemma {:induction false} PopulateStores(w: World, cs: seq<Creature>, next: nat, i: nat)
    requires i < |cs|
    decreases i
    ensures next + i in Populate(w, cs, next).scene.heap
    ensures Populate(w, cs, next).scene.heap[next + i] == Stored(cs[i])
  {
    if i == 0 {
      PopulateStoresFirst(w, cs, next);
    } else {
      PopulateStep(w, cs, next);
      PopulateStores(AddBuilt(w, cs[0], next), cs[1..], next + 1, i - 1);
      assert cs[1..][i - 1] == cs[i];
    }
  }

  /** The tank alone: 12 along each axis, the only component, with no children yet. */
  const EmptyWorld := World(Scene(map[TankRef := TankNode], [TankRef], []), TankRef, [], TankDims)

  /** `Vivarium(...)`: the tank, then the population added in order, references following the order of construction. */
  function Init(): (w: World)
    ensures forall k: Ref :: k in w.scene.heap <==> k <= 8
  {
    PopulateKeys(EmptyWorld, Population, 1);
    assert |Population| == 8;
    assert forall k: Ref :: k in EmptyWorld.scene.heap <==> k == 0;
    Populate(EmptyWorld, Population, 1)
  }

  /** The first eight references after the tank's. */
  lemma CreatureRefs()
    ensures Span(1, 8) == [1, 2, 3, 4, 5, 6, 7, 8]
  {
    var r := Span(1, 8);
    forall i | 0 <= i < 8 ensures r[i] == 1 + i { SpanAt(1, 8, i); }
    assert r[0] == 1 && r[1] == 2 && r[2] == 3 && r[3] == 4;
    assert r[4] == 5 && r[5] == 6 && r[6] == 7 && r[7] == 8;
  }

  /** The i-th reference of a span is its start plus i. */
  lemma {:induction false} SpanAt(a: nat, n: nat, i: nat)
    requires i < n
    ensures Span(a, n)[i] == a + i
    decreases n
  {
    if i > 0 {
      SpanAt(a + 1, n - 1, i - 1);
    }
  }

  /**
   * The initial lists: the tank first in `components`, then the creatures
   * in construction order, all eight of them children of the tank.
   */
  lemma InitialLists()
    ensures Init().scene.components == [0, 1, 2, 3, 4, 5, 6, 7, 8]
    ensures Init().tankChildren == [1, 2, 3, 4, 5, 6, 7, 8]
    ensures Init().dims == V3(12.0, 12.0, 12.0) && Init().tank == 0
  {
    PopulateComponents(EmptyWorld, Population, 1);
    PopulateKeepsTank(EmptyWorld, Population, 1);
    assert |Population| == 8;
    CreatureRefs();
  }

  /** The six prey, and only they, sit in the class-level list, in construction order. */
  lemma InitialShared()
    ensures Init().scene.shared == [2, 3, 4, 5, 6, 7]
  {
    PopulateShared(EmptyWorld, Population, 1);
    PreyOfPopulation();
  }

  /** Which of the first eight references go to prey. */
  lemma PreyOfPopulation()
    ensures PreyRefs(Population, 1) == [2, 3, 4, 5, 6, 7]
  {
    var p := Population;
    assert PreyRefs(p[8..], 9) == [];
    assert PreyRefs(p[7..], 8) == [] by { assert p[7..][1..] == p[8..]; }
    assert PreyRefs(p[6..], 7) == [7] by { assert p[6..][1..] == p[7..]; }
    assert PreyRefs(p[5..], 6) == [6, 7] by { assert p[5..][1..] == p[6..]; }
    assert PreyRefs(p[4..], 5) == [5, 6, 7] by { assert p[4..][1..] == p[5..]; }
    assert PreyRefs(p[3..], 4) == [4, 5, 6, 7] by { assert p[3..][1..] == p[4..]; }
    assert PreyRefs(p[2..], 3) == [3, 4, 5, 6, 7] by { assert p[2..][1..] == p[3..]; }
    assert PreyRefs(p[1..], 2) == [2, 3, 4, 5, 6, 7] by { assert p[1..][1..] == p[2..]; }
  }

  /** The initial objects: the tank, then each creature as built, with its `env_obj_list` referring to `components`. */
  lemma InitialObjects()
    ensures Init().scene.heap[0] == TankNode
    ensures forall i :: 0 <= i < 8 ==> Init().scene.heap[i + 1] == Stored(Population[i])
  {
    assert |Population| == 8;
    PopulateKeepsOld(EmptyWorld, Population, 1, 0);
    forall i | 0 <= i < 8
      ensures Init().scene.heap[i + 1] == Stored(Population[i])
    {
      PopulateStores(EmptyWorld, Population, 1, i);
    }
  }

  // The tick

  /**
   * One creature's turn in the tick: `animationUpdate()` and then
   * `stepForward(...)`, with `dir` the random heading its step would take.
   */
  function Turn(m: MathLib, ops: LinkOps, s: Scene, x: Ref, dims: V3, dir: V3): (r: Outcome<Scene>)
    requires IsCreature(s, x)
    ensures IsCreature(r.After(), x) && StepEffect(s, r.After(), x)
    ensures AnimationUpdate(ops, s.heap[x].c).Raised? ==>
      r == Raised(AnimationUpdate(ops, s.heap[x].c).exc, Put(s, x, AnimationUpdate(ops, s.heap[x].c).state))
    ensures AnimationUpdate(ops, s.heap[x].c).Ok? ==>
      r == StepForward(m, Put(s, x, AnimationUpdate(ops, s.heap[x].c).value), x, dims, dir)
  {
    var a := AnimationUpdate(ops, s.heap[x].c);
    PutSelfEffect(s, x, a.After());
    match a
    case Raised(e, c) => Raised(e, Put(s, x, c))
    case Ok(c) =>
      var t := StepForward(m, Put(s, x, c), x, dims, dir);
      StepEffectTrans(s, Put(s, x, c), t.After(), x);
      t
  }

  /**
   * A creature with a radius whose links all have speeds moves, in its turn,
   * exactly as its step alone would: the animation changes neither its
   * position nor its translation speed nor its counter, so it ends at its
   * old position plus its wandered speed, reflected off the wall when the
   * advance would cross it.
   */
  lemma TurnAdvances(m: MathLib, ops: LinkOps, s: Scene, x: Ref, dims: V3, dir: V3)
    requires IsCreature(s, x) && s.heap[x].c.env.boundRadius.Some?
    requires |s.heap[x].c.links| <= |s.heap[x].c.rotationSpeed|
    requires Wander(m, s.heap[x].c, dir).speed.Some?
    ensures var v := Wander(m, s.heap[x].c, dir).speed.value;
      var p := s.heap[x].c.pos;
      var t := Turn(m, ops, s, x, dims, dir).After().heap[x].c.pos;
      && (HitsWall(m, Add(p, v), s.heap[x].c.env.boundRadius.value, dims) ==> t == Add(p, Reflect(v, WallNormal(m, Add(p, v)))))
      && (!HitsWall(m, Add(p, v), s.heap[x].c.env.boundRadius.value, dims) ==> t == Add(p, v))
  {
    var c := s.heap[x].c;
    var a := AnimationUpdate(ops, c).value;
    assert Wander(m, a, dir).speed == Wander(m, c, dir).speed;
    StepAdvances(m, Put(s, x, a), x, dims, dir);
  }

  /** A creature's turn as the first loop of the tick sees it: the scene before, the creature, and the outcome. */
  type TurnFn = (Scene, Ref) -> Outcome<Scene>

  /** Every turn keeps its creature a creature and has the effect of one step. */
  ghost predicate TurnSpec(turn: TurnFn) {
    forall s: Scene, x: Ref {:trigger turn(s, x)} :: IsCreature(s, x) ==> IsCreature(turn(s, x).After(), x) && StepEffect(s, turn(s, x).After(), x)
  }

  /** The turn the vivarium gives each creature; anything that is not a creature is passed over. */
  function TurnOf(m: MathLib, ops: LinkOps, dims: V3, dirs: Ref -> V3): (turn: TurnFn)
    ensures forall s: Scene, x: Ref {:trigger turn(s, x)} :: IsCreature(s, x) ==> turn(s, x) == Turn(m, ops, s, x, dims, dirs(x))
    ensures forall s: Scene, x: Ref {:trigger turn(s, x)} :: !IsCreature(s, x) ==> turn(s, x) == Ok(s)
  {
    (s: Scene, x: Ref) => if IsCreature(s, x) then Turn(m, ops, s, x, dims, dirs(x)) else Ok(s)
  }

  /** The vivarium's turn has the effect of one step. */
  lemma TurnOfMeetsSpec(m: MathLib, ops: LinkOps, dims: V3, dirs: Ref -> V3)
    ensures TurnSpec(TurnOf(m, ops, dims, dirs))
  {
  }

  /** The creatures among `xs`, in order. */
  function CreaturesIn(s: Scene, xs: seq<Ref>): (r: seq<Ref>)
    ensures forall y :: y in r ==> y in xs && IsCreature(s, y)
  {
    if |xs| == 0 then []
    else if IsCreature(s, xs[0]) then [xs[0]] + CreaturesIn(s, xs[1..])
    else CreaturesIn(s, xs[1..])
  }

  /**
   * The turns of `xs` taken one after another, left to right, each from the
   * scene the previous one left; the first raise ends the sequence with the
   * scene as that turn left it.
   */
  function Turns(turn: TurnFn, s: Scene, xs: seq<Ref>): (r: Outcome<Scene>)
    decreases |xs|
  {
    if |xs| == 0 then Ok(s)
    else
      match turn(s, xs[0])
      case Raised(e, t) => Raised(e, t)
      case Ok(t) => Turns(turn, t, xs[1..])
  }

  /**
   * Taking the turns of `xs + ys` is taking those of `xs` and then, unless
   * one of them raised, those of `ys` from the scene they left.
   */
  lemma {:induction false} TurnsAppend(turn: TurnFn, s: Scene, xs: seq<Ref>, ys: seq<Ref>)
    decreases |xs|
    ensures Turns(turn, s, xs + ys) ==
      match Turns(turn, s, xs)
      case Raised(e, t) => Raised(e, t)
      case Ok(t) => Turns(turn, t, ys)
  {
    if |xs| == 0 {
      assert xs + ys == ys;
    } else {
      assert (xs + ys)[0] == xs[0] && (xs + ys)[1..] == xs[1..] + ys;
      match turn(s, xs[0])
      case Raised(_, _) =>
      case Ok(t) => TurnsAppend(turn, t, xs[1..], ys);
    }
  }

  /** A sequence of one reference is that reference's turn. */
  lemma TurnsOne(turn: TurnFn, s: Scene, x: Ref)
    ensures Turns(turn, s, [x]) == turn(s, x)
  {
    assert [x][1..] == [];
  }

  /** What the first loop of the tick has done so far: the scene, the creatures stepped, and those marked for removal. */
  datatype Pass = Pass(scene: Scene, stepped: seq<Ref>, marked: seq<Ref>)

  /** The list `y`'s `env_obj_list` refers to; anything that is not a creature is looked up in `components`. */
  function RegOf(s: Scene, y: Ref): Registry {
    if IsCreature(s, y) then s.heap[y].c.registry else Components
  }

  /** `c in c.env_obj_list`. */
  predicate Listed(s: Scene, y: Ref) {
    y in ListOf(s, RegOf(s, y))
  }

  /** Neither list gains an element from `s` to `t`. */
  predicate Shrinks(s: Scene, t: Scene) {
    multiset(t.components) <= multiset(s.components) && multiset(t.shared) <= multiset(s.shared)
  }

  /** `y` is in each list of `t` exactly when it is in that list of `s`. */
  predicate SameMembership(s: Scene, t: Scene, y: Ref) {
    (y in s.components <==> y in t.components) && (y in s.shared <==> y in t.shared)
  }

  /** A node that keeps its nature keeps being a creature or not. */
  lemma EvolvesTrans(s: Scene, t: Scene, u: Scene)
    requires Evolves(s, t) && Evolves(t, u)
    ensures Evolves(s, u)
  {
    forall x | x in s.heap
      ensures Keeps(s.heap[x], u.heap[x])
    {
      assert Keeps(s.heap[x], t.heap[x]) && Keeps(t.heap[x], u.heap[x]);
    }
  }

  /** While every node keeps its nature, each reference stays a creature or not, with the same registry. */
  lemma EvolvesKeepsRegistry(s: Scene, t: Scene, y: Ref)
    requires Evolves(s, t)
    ensures IsCreature(s, y) <==> IsCreature(t, y)
    ensures RegOf(s, y) == RegOf(t, y)
  {
    if y in s.heap {
      assert Keeps(s.heap[y], t.heap[y]);
    }
  }

  /** Leaving out `x` keeps every other element's membership. */
  lemma InWithout(xs: seq<Ref>, x: Ref, y: Ref)
    requires y != x
    ensures y in Without(xs, x) <==> y in xs
  {
    if y in xs {
      var i :| 0 <= i < |xs| && xs[i] == y;
      assert xs[i] in Without(xs, x);
    }
    if y in Without(xs, x) {
      var r := Without(xs, x);
      var i :| 0 <= i < |r| && r[i] == y;
      assert r[i] in xs;
    }
  }

  /** One creature's step shrinks the lists and keeps every other reference's membership. */
  lemma StepFacts(s: Scene, t: Scene, x: Ref)
    requires IsCreature(s, x) && StepEffect(s, t, x)
    ensures Evolves(s, t) && Shrinks(s, t)
    ensures forall y :: y != x ==> SameMembership(s, t, y)
  {
    var reg := s.heap[x].c.registry;
    assert ListOf(t, Other(reg)) == ListOf(s, Other(reg));
    forall y | y != x
      ensures SameMembership(s, t, y)
    {
      InWithout(ListOf(s, reg), x, y);
      InWithout(ListOf(t, reg), x, y);
    }
  }

  /** A turn shrinks the lists, keeps its creature a creature, and keeps every other reference's membership. */
  lemma TurnFacts(turn: TurnFn, s: Scene, x: Ref)
    requires TurnSpec(turn) && IsCreature(s, x)
    ensures IsCreature(turn(s, x).After(), x)
    ensures Evolves(s, turn(s, x).After()) && Shrinks(s, turn(s, x).After())
    ensures forall y :: y != x ==> SameMembership(s, turn(s, x).After(), y)
  {
    StepFacts(s, turn(s, x).After(), x);
  }

  /** Once a reference is out of its list it stays out while the lists only shrink and the nodes keep their nature. */
  lemma UnlistedStaysUnlisted(t: Scene, u: Scene, x: Ref)
    requires Evolves(t, u) && Shrinks(t, u)
    requires !Listed(t, x)
    ensures !Listed(u, x)
  {
    EvolvesKeepsRegistry(t, u, x);
    assert multiset(ListOf(t, RegOf(t, x)))[x] == 0;
  }

  /** A reference whose membership is unchanged is listed in both scenes or in neither. */
  lemma SameMembershipListed(t: Scene, u: Scene, x: Ref)
    requires Evolves(t, u) && SameMembership(t, u, x)
    ensures Listed(t, x) <==> Listed(u, x)
  {
    EvolvesKeepsRegistry(t, u, x);
  }

  /**
   * What holds of a pass from `s`, complete or cut short: every node keeps
   * its nature, neither list gains an element, only creatures are stepped,
   * only stepped creatures are marked, and whatever was not stepped is in
   * each list exactly when it was before.
   */
  ghost predicate PassFacts(s: Scene, p: Pass) {
    Evolves(s, p.scene) && Shrinks(s, p.scene)
    && (forall y :: y in p.stepped ==> IsCreature(s, y))
    && (forall y :: y in p.marked ==> y in p.stepped)
    && (forall y :: y !in p.stepped ==> SameMembership(s, p.scene, y))
  }

  /** A pass that has not started. */
  lemma EmptyPassFacts(s: Scene)
    ensures PassFacts(s, Pass(s, [], []))
  {
    assert forall y :: y in s.heap ==> Keeps(s.heap[y], s.heap[y]);
  }

  /** A pass cut short by the first creature's turn. */
  lemma RaisedPassFacts(turn: TurnFn, s: Scene, x: Ref)
    requires TurnSpec(turn) && IsCreature(s, x)
    ensures PassFacts(s, Pass(turn(s, x).After(), [x], []))
  {
    TurnFacts(turn, s, x);
  }

  /** Chaining one turn with the rest of the pass. */
  lemma ChainFacts(turn: TurnFn, s: Scene, x: Ref, p: Pass, gone: bool)
    requires TurnSpec(turn) && IsCreature(s, x)
    requires PassFacts(turn(s, x).After(), p)
    ensures PassFacts(s, Pass(p.scene, [x] + p.stepped, (if gone then [x] else []) + p.marked))
  {
    var t := turn(s, x).After();
    TurnFacts(turn, s, x);
    EvolvesTrans(s, t, p.scene);
    forall y | y in [x] + p.stepped
      ensures IsCreature(s, y)
    {
      if y != x {
        assert y in p.stepped;
        EvolvesKeepsRegistry(s, t, y);
      }
    }
    forall y | y !in [x] + p.stepped
      ensures SameMembership(s, p.scene, y)
    {
      assert y != x && y !in p.stepped;
      assert SameMembership(s, t, y) && SameMembership(t, p.scene, y);
    }
  }

  /** The mark of the creature that just took its turn agrees with its absence at the end of the pass. */
  lemma MarkFacts(t: Scene, x: Ref, p: Pass, gone: bool)
    requires gone <==> !Listed(t, x)
    requires PassFacts(t, p)
    requires forall y :: y in p.stepped ==> (y in p.marked <==> !Listed(p.scene, y))
    ensures forall y :: y in [x] + p.stepped ==> (y in (if gone then [x] else []) + p.marked <==> !Listed(p.scene, y))
  {
    if gone {
      UnlistedStaysUnlisted(t, p.scene, x);
    } else if x !in p.stepped {
      SameMembershipListed(t, p.scene, x);
    }
  }

  /**
   * The first loop over the remaining snapshot `todo`: each creature takes
   * its turn and is marked when, right after its turn, it is no longer in
   * the list its `env_obj_list` refers to; anything else is passed over. A
   * raise ends the tick with the changes made so far.
   */
  function MarkLoop(turn: TurnFn, s: Scene, todo: seq<Ref>): (r: Outcome<Pass>)
    requires TurnSpec(turn)
    decreases |todo|
    ensures PassFacts(s, r.After())
    ensures r.Raised? <==> Turns(turn, s, CreaturesIn(s, todo)).Raised?
    ensures r.After().scene == Turns(turn, s, CreaturesIn(s, todo)).After()
  {
    if |todo| == 0 then
      EmptyPassFacts(s);
      Ok(Pass(s, [], []))
    else
      var x := todo[0];
      if !IsCreature(s, x) then
        MarkLoop(turn, s, todo[1..])
      else
        match turn(s, x)
        case Raised(e, t) =>
          RaisedPassFacts(turn, s, x);
          Raised(e, Pass(t, [x], []))
        case Ok(t) =>
          var gone := !Listed(t, x);
          var rest := MarkLoop(turn, t, todo[1..]);
          var p := rest.After();
          ChainFacts(turn, s, x, p, gone);
          var q := Pass(p.scene, [x] + p.stepped, (if gone then [x] else []) + p.marked);
          CreaturesInEvolves(s, t, todo[1..]);
          assert CreaturesIn(s, todo)[1..] == CreaturesIn(t, todo[1..]);
          match rest
          case Raised(e, _) => Raised(e, q)
          case Ok(_) => Ok(q)
  }

  /** A pass that completes steps exactly the creatures of the snapshot, in order, each once per occurrence. */
  lemma {:induction false} MarkLoopStepsCreatures(turn: TurnFn, s: Scene, todo: seq<Ref>)
    requires TurnSpec(turn)
    decreases |todo|
    ensures MarkLoop(turn, s, todo).Ok? ==> MarkLoop(turn, s, todo).value.stepped == CreaturesIn(s, todo)
  {
    if |todo| > 0 {
      var x := todo[0];
      if !IsCreature(s, x) {
        MarkLoopStepsCreatures(turn, s, todo[1..]);
      } else if turn(s, x).Ok? {
        var t := turn(s, x).value;
        MarkLoopStepsCreatures(turn, t, todo[1..]);
        TurnFacts(turn, s, x);
        CreaturesInEvolves(s, t, todo[1..]);
      }
    }
  }

  /** In a pass that completes, a creature is marked exactly when it is missing from its `env_obj_list` at the end. */
  lemma {:induction false} MarkLoopMarksUnlisted(turn: TurnFn, s: Scene, todo: seq<Ref>)
    requires TurnSpec(turn)
    decreases |todo|
    ensures MarkLoop(turn, s, todo).Ok? ==> forall y :: y in MarkLoop(turn, s, todo).value.stepped ==>
      (y in MarkLoop(turn, s, todo).value.marked <==> !Listed(MarkLoop(turn, s, todo).value.scene, y))
  {
    if |todo| > 0 {
      var x := todo[0];
      if !IsCreature(s, x) {
        MarkLoopMarksUnlisted(turn, s, todo[1..]);
      } else if turn(s, x).Ok? {
        var t := turn(s, x).value;
        var rest := MarkLoop(turn, t, todo[1..]);
        MarkLoopMarksUnlisted(turn, t, todo[1..]);
        if rest.Ok? {
          MarkFacts(t, x, rest.value, !Listed(t, x));
        }
      }
    }
  }

  /** Being a creature does not change while every node keeps its nature, so the creatures of a list are the same. */
  lemma {:induction false} CreaturesInEvolves(s: Scene, t: Scene, xs: seq<Ref>)
    requires Evolves(s, t)
    ensures CreaturesIn(t, xs) == CreaturesIn(s, xs)
  {
    if |xs| > 0 {
      EvolvesKeepsRegistry(s, t, xs[0]);
      CreaturesInEvolves(s, t, xs[1..]);
    }
  }

  /** The second loop: `delObjInTank` for every marked creature, in the order marked. */
  function Sweep(w: World, marked: seq<Ref>): (r: World)
    requires forall y :: y in marked ==> y in w.scene.heap
    decreases |marked|
    ensures r.scene.heap == w.scene.heap && r.scene.shared == w.scene.shared && r.tank == w.tank && r.dims == w.dims
    ensures multiset(r.scene.components) <= multiset(w.scene.components)
    ensures multiset(r.tankChildren) <= multiset(w.tankChildren)
    ensures forall y :: y !in marked ==>
      (y in r.scene.components <==> y in w.scene.components) && (y in r.tankChildren <==> y in w.tankChildren)
  {
    if |marked| == 0 then w
    else
      DelKeepsOthers(w, marked[0]);
      Sweep(DelObjInTank(w, marked[0]), marked[1..])
  }

  /** One `delObjInTank` step of the sweep: nothing is gained, and every other reference keeps its membership. */
  lemma DelKeepsOthers(w: World, x: Ref)
    requires x in w.scene.heap
    ensures multiset(DelObjInTank(w, x).scene.components) <= multiset(w.scene.components)
    ensures multiset(DelObjInTank(w, x).tankChildren) <= multiset(w.tankChildren)
    ensures forall y :: y != x ==>
      (y in DelObjInTank(w, x).scene.components <==> y in w.scene.components) &&
      (y in DelObjInTank(w, x).tankChildren <==> y in w.tankChildren)
  {
    var w1 := DelObjInTank(w, x);
    forall y | y != x
      ensures (y in w1.scene.components <==> y in w.scene.components) && (y in w1.tankChildren <==> y in w.tankChildren)
    {
      InWithout(w.scene.components, x, y);
      InWithout(w1.scene.components, x, y);
      InWithout(w.tankChildren, x, y);
      InWithout(w1.tankChildren, x, y);
    }
  }

  /**
   * The first loop of a tick, over the reversed copy of `components`: the
   * turns of its creatures in that order, stopping at the first raise.
   */
  function FirstLoop(turn: TurnFn, w: World): (r: Outcome<Pass>)
    requires TurnSpec(turn)
    ensures PassFacts(w.scene, r.After())
    ensures r.Raised? <==> Turns(turn, w.scene, CreaturesIn(w.scene, Reversed(w.scene.components))).Raised?
    ensures r.After().scene == Turns(turn, w.scene, CreaturesIn(w.scene, Reversed(w.scene.components))).After()
    ensures r.Ok? ==> r.value.stepped == CreaturesIn(w.scene, Reversed(w.scene.components))
  {
    MarkLoopStepsCreatures(turn, w.scene, Reversed(w.scene.components));
    MarkLoop(turn, w.scene, Reversed(w.scene.components))
  }

  /**
   * Each marked component loses an occurrence among the tank's children,
   * unless it has none left: one listed there once is gone after the sweep.
   */
  lemma {:induction false} SweepDropsMarked(w: World, marked: seq<Ref>, y: Ref)
    requires forall z :: z in marked ==> z in w.scene.heap
    requires y in marked && IsComponent(w.scene.heap[y])
    decreases |marked|
    ensures multiset(Sweep(w, marked).tankChildren)[y] == 0
      || multiset(Sweep(w, marked).tankChildren)[y] < multiset(w.tankChildren)[y]
  {
    var w1 := DelObjInTank(w, marked[0]);
    if y == marked[0] {
      assert multiset(w1.tankChildren)[y] == 0 || multiset(w1.tankChildren)[y] < multiset(w.tankChildren)[y];
      assert multiset(Sweep(w1, marked[1..]).tankChildren)[y] <= multiset(w1.tankChildren)[y];
    } else {
      assert y in marked[1..];
      SweepDropsMarked(w1, marked[1..], y);
      assert multiset(w1.tankChildren)[y] <= multiset(w.tankChildren)[y];
    }
  }

  /**
   * A tick with the given turn: every creature of the reversed snapshot of
   * `components` takes one turn, then every marked creature is deleted. A
   * raise from a creature ends the tick before the deletions.
   */
  function TickWith(turn: TurnFn, w: World): (r: Outcome<World>)
    requires TurnSpec(turn)
    ensures r.Raised? <==> FirstLoop(turn, w).Raised?
    ensures r.Raised? <==> Turns(turn, w.scene, CreaturesIn(w.scene, Reversed(w.scene.components))).Raised?
    ensures r.After().scene.heap == Turns(turn, w.scene, CreaturesIn(w.scene, Reversed(w.scene.components))).After().heap
    ensures r.After().scene.shared == Turns(turn, w.scene, CreaturesIn(w.scene, Reversed(w.scene.components))).After().shared
    ensures r.Raised? ==> r.state.scene == Turns(turn, w.scene, CreaturesIn(w.scene, Reversed(w.scene.components))).After()
    ensures Evolves(w.scene, r.After().scene)
    ensures r.After().scene.heap.Keys == w.scene.heap.Keys
    ensures r.After().tank == w.tank && r.After().dims == w.dims
    ensures r.Raised? ==> r.state.tankChildren == w.tankChildren
    ensures forall y :: y in w.scene.components && !IsCreature(w.scene, y) ==> y in r.After().scene.components
    ensures forall y :: y in w.tankChildren && !IsCreature(w.scene, y) ==> y in r.After().tankChildren
    ensures r.Ok? ==> forall y :: y in FirstLoop(turn, w).value.marked && RegOf(w.scene, y) == Components ==>
      y !in r.value.scene.components
    ensures r.Ok? ==> multiset(r.value.tankChildren) <= multiset(w.tankChildren)
    ensures r.Ok? ==> forall y :: y !in FirstLoop(turn, w).value.marked ==> (y in r.value.tankChildren <==> y in w.tankChildren)
    ensures r.Ok? ==> forall y :: y in FirstLoop(turn, w).value.marked && multiset(w.tankChildren)[y] <= 1 ==>
      y !in r.value.tankChildren
  {
    var pass := FirstLoop(turn, w);
    match pass
    case Raised(e, p) => Raised(e, w.(scene := p.scene))
    case Ok(p) =>
      var r := Sweep(w.(scene := p.scene), p.marked);
      MarkLoopMarksUnlisted(turn, w.scene, Reversed(w.scene.components));
      SweepRemovesUnlisted(w.scene, p, Sweep(w.(scene := p.scene), p.marked));
      assert forall y :: y in p.marked && multiset(w.tankChildren)[y] <= 1 ==> y !in r.tankChildren by {
        forall y | y in p.marked && multiset(w.tankChildren)[y] <= 1
          ensures y !in r.tankChildren
        {
          assert Keeps(w.scene.heap[y], p.scene.heap[y]);
          SweepDropsMarked(w.(scene := p.scene), p.marked, y);
        }
      }
      Ok(r)
  }

  /** Deleting the marked creatures leaves every one of them whose `env_obj_list` is `components` out of it. */
  lemma SweepRemovesUnlisted(s: Scene, p: Pass, r: World)
    requires PassFacts(s, p)
    requires forall y :: y in p.stepped ==> (y in p.marked <==> !Listed(p.scene, y))
    requires multiset(r.scene.components) <= multiset(p.scene.components)
    ensures forall y :: y in p.marked && RegOf(s, y) == Components ==> y !in r.scene.components
  {
    forall y | y in p.marked && RegOf(s, y) == Components
      ensures y !in r.scene.components
    {
      EvolvesKeepsRegistry(s, p.scene, y);
      assert multiset(p.scene.components)[y] == 0;
    }
  }

  /** `animationUpdate()` of the vivarium: each creature's turn is `animationUpdate()` then `stepForward(...)`. */
  function Tick(m: MathLib, ops: LinkOps, w: World, dirs: Ref -> V3): (r: Outcome<World>)
    ensures r.Raised? <==> FirstLoop(TurnOf(m, ops, w.dims, dirs), w).Raised?
    ensures r.Ok? ==> FirstLoop(TurnOf(m, ops, w.dims, dirs), w).value.stepped == CreaturesIn(w.scene, Reversed(w.scene.components))
    ensures r.Raised? <==> Turns(TurnOf(m, ops, w.dims, dirs), w.scene, CreaturesIn(w.scene, Reversed(w.scene.components))).Raised?
    ensures r.After().scene.heap == Turns(TurnOf(m, ops, w.dims, dirs), w.scene, CreaturesIn(w.scene, Reversed(w.scene.components))).After().heap
    ensures r.After().scene.shared == Turns(TurnOf(m, ops, w.dims, dirs), w.scene, CreaturesIn(w.scene, Reversed(w.scene.components))).After().shared
    ensures Evolves(w.scene, r.After().scene)
    ensures r.After().scene.heap.Keys == w.scene.heap.Keys && r.After().tank == w.tank && r.After().dims == w.dims
    ensures forall y :: y in w.scene.components && !IsCreature(w.scene, y) ==> y in r.After().scene.components
    ensures r.Ok? ==> forall y :: y in FirstLoop(TurnOf(m, ops, w.dims, dirs), w).value.marked && RegOf(w.scene, y) == Components ==>
      y !in r.value.scene.components
    ensures r.Ok? ==> multiset(r.value.tankChildren) <= multiset(w.tankChildren)
    ensures r.Ok? ==> forall y :: y in FirstLoop(TurnOf(m, ops, w.dims, dirs), w).value.marked && multiset(w.tankChildren)[y] <= 1 ==>
      y !in r.value.tankChildren
  {
    TurnOfMeetsSpec(m, ops, w.dims, dirs);
    MarkLoopStepsCreatures(TurnOf(m, ops, w.dims, dirs), w.scene, Reversed(w.scene.components));
    TickWith(TurnOf(m, ops, w.dims, dirs), w)
  }
}
