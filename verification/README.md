# 3dVivarium kinematic core in Dafny

This project models the simulation core of 3dVivarium, an OpenGL vivarium of
jointed creatures. A spherical-bounds tank holds predators (`Linkage`,
species 1) and prey (`Linkage2`, species 2). On every frame the vivarium
gives each creature one turn. A turn is the creature's `animationUpdate`
(joint-speed seeding and oscillation) followed by its `stepForward`:
- wandering on a 1000-frame counter;
- reflecting off the tank wall;
- chasing prey;
- bouncing off creatures of the same species;
- for a prey, removing itself from its list when it meets the other
  species.

Creatures that removed themselves are deleted from the tank once the pass
is over.

The model has seven modules:

- `Python` (python.dfy): what the core needs from Python.
  - `None` (`Option`).
  - Exceptions that keep the state mutated before the raise (`Outcome`).
  - `list.remove`, `list.count` and `xs[::-1]`.
- `Vectors` (vectors.dfy): the three-component points the core uses.
  - Sums, dot and cross products.
  - The 1e-6-guarded `normalize`.
  - The mirror reflection `v - 2(n.v)n` used by every bounce.
  - `sqrt`, `acos`, `sin` and `cos` are uninterpreted fields of a `MathLib`
    value passed in by the caller. A lemma that needs a fact about one of
    them asks for that fact, at one point, in its `requires`.
- `Quaternion` (quaternion.dfy): `Quaternion.py` without `slerp`.
  - Type-checked `set`.
  - The Hamilton-product `multiply`.
  - `norm`, `normalize`, `reset` and the closed-form `toMatrix`.
- `Slerp` (slerp.dfy): `Quaternion.slerp`.
  - Clamping `t`.
  - The shortest-arc flip, with the angle taken from the dot product before the flip.
  - The linear fallback below `abs(sin(omega)) < 1e-10`.
- `EnvironmentObject` (environment_object.dfy):
  - The class defaults.
  - `addCollisionObj`/`rmCollisionObj`.
  - `rotateDirection`: the heading quaternion measured from the rest direction +z, and the one-shot species correction controlled by `first_rotation`.
- `ModelLinkage` (model_linkage.dfy): the two creature classes.
  - Objects live in a heap from references to nodes.
  - Each creature records which list its `env_obj_list` aliases: the class-level list every prey appends itself to, or the vivarium's `components`.
  - A step is a pure function from scene to `Outcome<Scene>`.
  - `StepEffect` bounds what one step may change.
- `Vivarium` (vivarium.dfy):
  - `addNewObjInTank` and `delObjInTank`.
  - The initial population.
  - The two-phase tick: a first loop over a reversed snapshot of `components` that steps and marks, then a sweep that deletes the marked creatures.

## Model

| member | source | states |
|---|---|---|
| Python.Remove | EnvironmentObject.py:43 | `list.remove` succeeds exactly when the element is present. Otherwise it raises ValueError and leaves the list as it was. On success the list is one shorter, with exactly one occurrence fewer of the element. The removed occurrence is the first: the elements before it are kept, and those after it move down one place. |
| Python.Count | ModelLinkage.py:115 | `list.count` is the element's multiplicity; it is zero exactly when the element is absent. |
| Python.Reversed | Vivarium.py:70 | `xs[::-1]` has the same length, and position i holds the element at position len-1-i. |
| Python.RemoveKeepsOthers | Vivarium.py:88-90 | Removing the first occurrence keeps every other element, in order. |
| Vectors.Normalize | ModelLinkage.py:198 | Above 1e-6 the result, scaled by the norm, gives back the input; at or below 1e-6 the input is returned unchanged. Zero coordinates stay zero. |
| Vectors.ReflectReversesNormal | ModelLinkage.py:201 | For a unit normal n, the reflected speed has normal component -(v.n). |
| Vectors.ReflectKeepsTangent | ModelLinkage.py:201 | For a unit normal, the reflection keeps the tangential part. |
| Vectors.ReflectKeepsLength | ModelLinkage.py:201 | For a unit normal, the reflection keeps the squared length. |
| Vectors.ReflectTwice | ModelLinkage.py:201 | Reflecting twice about the same unit normal restores the speed. |
| Vectors.NormalizeIsUnit | ModelLinkage.py:217 | With an exact square root, a vector longer than 1e-6 normalises to unit length. |
| Vectors.NormalizeFixesUnit | EnvironmentObject.py:72 | A unit vector is left as it is by `normalize` when sqrt(1) = 1. |
| Quaternion.Set | Quaternion.py:33-43 | `set` succeeds exactly when all four components are int, bool or float, and then stores them. Otherwise it raises TypeError before assigning anything, so the quaternion is unchanged. |
| Quaternion.IsNum | Quaternion.py:25-31 | A value counts as a number exactly when it is neither a quaternion nor an object of another class, so int, bool and float qualify. |
| Quaternion.New | Quaternion.py:21-23 | Construction succeeds exactly when all four arguments are numbers, and otherwise raises TypeError. |
| Quaternion.DefaultIsIdentity | Quaternion.py:21-23 | The default constructor yields (1, 0, 0, 0). |
| Quaternion.Product | Quaternion.py:101-107 | The Hamilton product: the scalar part is s1 s2 minus the dot product of the vector parts, and the vector part is s1 v2 + s2 v1 + v1 x v2. |
| Quaternion.ProductIsHamilton | Quaternion.py:101-106 | The component formulas are s = s1 s2 - v1.v2 and v = s1 v2 + s2 v1 + v1 x v2. |
| Quaternion.Multiply | Quaternion.py:92-107 | `multiply` returns the product exactly when the argument is a quaternion. Otherwise it raises TypeError and the receiver is unchanged. |
| Quaternion.IdentityIsUnit | Quaternion.py:101-107 | The identity is a two-sided unit of `multiply`. |
| Quaternion.ProductCommutator | Quaternion.py:101-106 | p q and q p have equal scalar parts, and their vector parts differ by exactly 2 (v1 x v2). |
| Quaternion.OrthogonalPureAnticommute | Quaternion.py:101-106 | Pure quaternions with orthogonal vector parts anticommute (q p = -(p q)), as with i j = k and j i = -k. |
| Quaternion.Norm | Quaternion.py:109-115 | With an exact square root at the sum of squares, the norm is non-negative, its square is that sum, and it is zero exactly for the zero quaternion. |
| Quaternion.NormZero | Quaternion.py:109-115 | An exact square root of the sum of squares is zero if and only if all four components are zero. |
| Quaternion.SumSq4Zero | Quaternion.py:115 | The sum of the four squares is never negative, and it is zero if and only if every component is zero. |
| Quaternion.Normalize | Quaternion.py:117-130 | Above a norm of 1e-6, every component is divided by the norm, so the result scaled back gives the input. Otherwise all components are kept. The returned value is the instance's new state. |
| Quaternion.NormalizeIsUnit | Quaternion.py:123-129 | With an exact square root, normalising above 1e-6 gives a sum of squares of 1. |
| Quaternion.Reset | Quaternion.py:132-140 | Whatever the prior state, `reset` yields a two-sided unit of the product for it. |
| Quaternion.ToMatrix | Quaternion.py:142-163 | `toMatrix` is 4 by 4, row 3 is (0, 0, 0, 1), and column 3 is zero above it. |
| Quaternion.ToMatrixOfScalar | Quaternion.py:149-162 | A quaternion with a zero vector part maps to the 4 by 4 identity, whatever its scalar part. |
| Quaternion.ResetToMatrix | Quaternion.py:132-163 | A reset quaternion maps to the 4 by 4 identity. |
| Quaternion.ToMatrixSignInvariant | Quaternion.py:149-161 | Every entry is quadratic in (s, a, b, c), so q and -q give the same matrix. |
| Slerp.Clamp | Quaternion.py:59 | The clamped parameter lies in [0, 1], and a parameter already in [0, 1] is kept. |
| Slerp.Partner | Quaternion.py:62-66 | The interpolation partner is q2 or -q2 and has a non-negative dot product with q1. |
| Slerp.Slerp | Quaternion.py:45-90 | The parameter is clamped to [0, 1] and q2 is flipped when the dot product is negative. When abs(sin(omega)) < 1e-10 the result is the linear blend (1 - t) q1 + t q2'. Otherwise, with omega = acos(dot), it is sin((1 - t) omega)/sin(omega) q1 + sin(t omega)/sin(omega) q2'. |
| Slerp.WeightsOf | Quaternion.py:72-88 | The two weights are (1 - t, t) below the 1e-10 threshold and (sin((1 - t) omega)/sin(omega), sin(t omega)/sin(omega)) above it. |
| Slerp.SlerpClamps | Quaternion.py:59 | Only the clamped parameter matters: t <= 0 acts as 0, and t >= 1 acts as 1. |
| Slerp.SlerpFallbackIsLinear | Quaternion.py:72-88 | When abs(sin(omega)) < 1e-10, the result is (1 - t) q1 + t q2', where q2' is the flipped partner. |
| Slerp.SlerpEndpoints | Quaternion.py:58-90 | When sin(0) = 0, t = 0 gives q1 and t = 1 gives q2'. That is -q2 when the dot product is negative, in both branches. |
| Slerp.WeightsSwap | Quaternion.py:72-80 | Replacing t by 1 - t swaps the two weights, in both branches. |
| Slerp.SlerpSelf | Quaternion.py:58-90 | For a unit q, with acos(1) = 0 and sin(0) = 0, slerp(q, q, t) = q. |
| Slerp.SlerpReverse | Quaternion.py:58-90 | slerp(q2, q1, 1 - t) equals slerp(q1, q2, t). The result is negated when the dot product is negative, because the flip then applies to the other end. |
| EnvironmentObject.AddCollisionObj | EnvironmentObject.py:31-36 | `addCollisionObj` appends `a` at the end exactly when it is an environment object, and otherwise leaves the list unchanged. |
| EnvironmentObject.RmCollisionObj | EnvironmentObject.py:38-43 | `rmCollisionObj` raises ValueError, list unchanged, exactly when `a` is an environment object and absent. Otherwise it drops the first occurrence of `a` and keeps every other element in order. A non-environment-object argument leaves the list as it is. |
| EnvironmentObject.AddThenRemove | EnvironmentObject.py:31-43 | Adding a partner that was not listed and then removing it restores the list. |
| EnvironmentObject.RemoveTwiceRaises | EnvironmentObject.py:38-43 | For a partner listed once, the first removal succeeds and the second raises ValueError. |
| EnvironmentObject.HeadingQuat | EnvironmentObject.py:76-85 | The heading is (cos(theta/2), axis sin(theta/2)), with theta = acos(z . normalize(target)). |
| EnvironmentObject.RawAxisComponents | EnvironmentObject.py:70-75 | The raw axis (0, 0, 1) x t is (-ty, tx, 0). |
| EnvironmentObject.AxisInXYPlane | EnvironmentObject.py:70-75 | The axis's z component is always 0. The raw cross product is zero exactly when the normalised target lies on the z axis. |
| EnvironmentObject.AxisOrthogonal | EnvironmentObject.py:70-76 | The axis is orthogonal to the rest direction and to the normalised target. |
| EnvironmentObject.HeadingIsUnit | EnvironmentObject.py:75-85 | Given cos^2 + sin^2 = 1 at the half angle and an exact square root, the heading is a unit quaternion. |
| EnvironmentObject.OnAxisHeadingIsIdentity | EnvironmentObject.py:70-86 | A target along +z or -z gives a zero axis and the identity matrix, so an antiparallel target does not turn the object. |
| EnvironmentObject.Correction | EnvironmentObject.py:99-111 | While `first_rotation` is set, species 1 turns 90 degrees about x and species 2 turns 180. The flag is cleared exactly for those species, and nothing else changes. |
| EnvironmentObject.RotateDirection | EnvironmentObject.py:63-111 | The heading is replaced by the target's heading quaternion whatever it was before. On a call with `first_rotation` set, species 1 adds 90 degrees about x and species 2 adds 180; otherwise the x turn is kept. The flag stays set exactly when it was set and the species is neither 1 nor 2. Species, id, radius, centre and removal flag are kept. |
| EnvironmentObject.CorrectionIdempotent | EnvironmentObject.py:99-111 | The correction is one-shot: applying it again changes nothing. |
| EnvironmentObject.SecondRotationAddsNoTurn | EnvironmentObject.py:99-111 | For species 1 and 2, the first `rotateDirection` clears the flag, and a second adds no turn about x, whatever the targets. |
| EnvironmentObject.UncorrectedSpecies | EnvironmentObject.py:99-111 | Any other species is never turned and keeps its flag. |
| EnvironmentObject.DefaultsNeverCorrected | EnvironmentObject.py:21-29 | With the class defaults (species 0), the flag stays set and the x turn stays 0 through any heading change. |
| ModelLinkage.NewPredator | ModelLinkage.py:68-106 | A predator has 16 links (4 arms of 4) with u in [0, 32] and v, w in [-45, 45], and all speeds [0, 0, 0]. It has radius 0.5, species 1, counter 0 and no translation speed. |
| ModelLinkage.NewPreyCreature | ModelLinkage.py:265-297 | A prey has 5 links with u in [-30, 30], v in [-45, 45] and w in [-90, 90], and all speeds [0, 0, 0]. It has radius 0.2, species 2, counter 0 and no translation speed. |
| ModelLinkage.NewPrey | ModelLinkage.py:290-291 | Constructing a prey stores it and appends its reference to the class-level list. |
| ModelLinkage.SeedLoop | ModelLinkage.py:118-122 | Positions i to k-1 get the pattern and the rest are kept, whether or not they were still. |
| ModelLinkage.FlipLink | ModelLinkage.py:128-137 | An axis's speed is negated exactly when its rotated angle is `in` its extent. Magnitudes and extents are kept, and a link is still after the flip exactly when it was still before. |
| ModelLinkage.FlipLoop | ModelLinkage.py:128-137 | The loop raises IndexError exactly when the speed list is shorter than the link list. From the start index on, each link with a speed becomes the rotated link and flipped speed `FlipLink` gives. Links before the start are kept, and so are speeds with no link. All three extents are kept, and no other attribute changes. |
| ModelLinkage.SeededSpeeds | ModelLinkage.py:113-122 | When the creature moves with every coordinate non-zero, the first `count([0, 0, 0])` speeds become the species pattern. Otherwise, and beyond them, the speeds are as they were. |
| ModelLinkage.AnimationUpdate | ModelLinkage.py:109-149 | `animationUpdate` raises only when speeds are missing. Each link with a speed is turned and flipped by `FlipLink` using the seeded speed, and speeds with no link keep their seeded value. It keeps position, translation speed, counter, registry and environment attributes. |
| ModelLinkage.SeedsLeading | ModelLinkage.py:115-122 | A creature moving with every coordinate non-zero gets the species pattern in its first `count([0, 0, 0])` speeds, up to sign. Each of those links turns and flips exactly as `FlipLink` does with the pattern. |
| ModelLinkage.NoSeedWhenNotMoving | ModelLinkage.py:115-137 | Without a speed, or with a zero coordinate, every speed keeps its magnitude. |
| ModelLinkage.StillCountNeverGrows | ModelLinkage.py:115-137 | `animationUpdate` never increases the number of still links. |
| ModelLinkage.SeedingMissesLaterStillLinks | ModelLinkage.py:115-122 | Seeding goes by position, not by stillness: in [moving, still], the moving link is reseeded and the still one stays still. |
| ModelLinkage.NewCreaturesAnimate | ModelLinkage.py:89-95 | A freshly built predator or prey animates without raising. All 16, or all 5, of its links count as still, and they are all still after the update. |
| ModelLinkage.Wander | ModelLinkage.py:167-183 | The counter increments. On reaching 1000, the speed becomes dir * 0.03, the environment record is rotated towards dir (so the heading faces it), and the counter resets to 0. Below 1000, the speed and the record are kept. The rotation speed, links and every other field are always kept. A counter in [0, 999] stays in [0, 999]. |
| ModelLinkage.WanderPeriod | ModelLinkage.py:168-183 | Below the frequency, n steps add n to the counter and keep the speed. |
| ModelLinkage.WanderWraps | ModelLinkage.py:168-183 | From a counter of 0, the speed survives 999 steps. The 1000th step restarts the counter at 0 and takes the new direction at speed 0.03, facing it. |
| ModelLinkage.MaxDim | ModelLinkage.py:196 | `max(tank_dimensions)` is one of the three and at least each of them. |
| ModelLinkage.WallBounce | ModelLinkage.py:185-207 | When norm(p + v) + r > max(dims)/2, v is reflected about normalize(-(p + v)), and the creature turns to face the new speed through `rotateDirection`. Otherwise the speed is kept. The position then advances by exactly the resulting speed. Only speed, environment attributes and position change: counter, links and rotation speeds are kept. A `None` radius raises TypeError with nothing changed. |
| ModelLinkage.WallBounceReflects | ModelLinkage.py:196-204 | For a unit wall normal, the bounce keeps the speed's length and reverses its normal component. |
| ModelLinkage.WallBounceCanLeaveTank | ModelLinkage.py:196-207 | Reflection does not keep a creature inside: a predator at the centre moving (0, 0, 6) in the 12-wide tank hits the wall, is reflected to (0, 0, -6), and still pokes out. |
| ModelLinkage.Chase | ModelLinkage.py:215-221 | A chase sets the speed to the normalised direction to the target times 0.03 and faces that direction. Nothing else changes. |
| ModelLinkage.ChaseAtCruiseSpeed | ModelLinkage.py:217-220 | With an exact square root, the chase speed has length exactly 0.03. |
| ModelLinkage.Approach | ModelLinkage.py:213-221 | A predator chases exactly when the other creature has species 2 and is closer than 3 radii. Otherwise nothing changes. |
| ModelLinkage.Bounce | ModelLinkage.py:226-238 | Both speeds are reflected about normalize(other - self). Each creature's environment record is rotated towards its new speed, so both face their new speeds. When the other creature has no speed, AttributeError is raised after the first reflection. The first creature's record and the whole other creature are then unchanged. |
| ModelLinkage.BounceReflectsBoth | ModelLinkage.py:229-233 | For a unit contact normal, both lengths are kept and the closing speed along the normal changes sign. |
| ModelLinkage.BounceEffect | ModelLinkage.py:229-237 | A bounce changes only the two creatures and no list. |
| ModelLinkage.Eaten | ModelLinkage.py:413-416 | The prey removes itself from the list its `env_obj_list` aliases. It raises ValueError, with nothing changed, exactly when it is no longer there. |
| ModelLinkage.EatenEffect | ModelLinkage.py:415 | Being eaten changes only the prey's own list, which loses at most the prey, with everything else kept in order. |
| ModelLinkage.Contact | ModelLinkage.py:224-241 | For overlapping spheres, the same species bounce. A predator meeting another species changes nothing, and a prey removes itself. Without overlap nothing changes. The creature's position is always kept. |
| ModelLinkage.Visit | ModelLinkage.py:210-241 | Itself and non-creatures are skipped, and a missing own radius raises TypeError. Otherwise the creature may chase, then the contact rules apply. A predator never changes a list, and the creature's position is kept. |
| ModelLinkage.Neighbours | ModelLinkage.py:393-416 | The walk over the live list has the effect of one step: objects keep their nature, and the own list loses at most the creature itself. The creature keeps its position and a speed. |
| ModelLinkage.StepForward | ModelLinkage.py:151-254 | The step wanders, and without a speed it only wanders. A missing radius raises TypeError after the wander. Otherwise the result is the neighbour walk from the wall-bounced, advanced creature. The whole step has the effect of one step, and a predator's step changes no list. |
| ModelLinkage.StepAdvances | ModelLinkage.py:185-207 | A moving creature with a radius ends its step at its old position plus its speed. When that advance would cross the wall, the speed is first reflected about the normal towards the centre. |
| ModelLinkage.StillCreatureOnlyCounts | ModelLinkage.py:185 | A creature without a speed, below the frequency, only counts the step. |
| ModelLinkage.PredatorChases | ModelLinkage.py:213-221 | A predator near a non-overlapping prey takes speed 0.03 towards it, and nothing else changes. |
| ModelLinkage.PreyNeverChases | ModelLinkage.py:393-398 | A prey meeting a creature it does not overlap leaves the scene unchanged. |
| ModelLinkage.PreyEaten | ModelLinkage.py:398-416 | A prey overlapping another species removes exactly one occurrence of itself. It raises ValueError exactly when it is already gone. |
| ModelLinkage.RemovalShiftsNext | ModelLinkage.py:393-415 | After the prey removes itself, the next index of the live loop reads the element two places on, so one neighbour is skipped. |
| Vivarium.AddNewObjInTank | Vivarium.py:96-102 | A component is appended to the tank's children and to `components`. A creature's `env_obj_list` then aliases `components`, and nothing else changes. |
| Vivarium.DelObjInTank | Vivarium.py:85-94 | A component child of the tank loses one occurrence from the tank's children and from `components`, every other element kept in order. If the object is not a child, or not a component, nothing changes. |
| Vivarium.AddThenDelete | Vivarium.py:85-102 | Adding a new component and then deleting it restores both lists. |
| Vivarium.DeleteTwice | Vivarium.py:85-94 | A second deletion of a child listed once changes nothing. |
| Vivarium.AddCreature | Vivarium.py:96-102 | Adopting a newly built creature stores it aliased to `components` and appends it to both lists. |
| Vivarium.AddPrey | Vivarium.py:51-56 | Building a prey registers it in the class-level list, then the tank adopts it. |
| Vivarium.AddBuilt | Vivarium.py:50-59 | A built creature is stored aliased to `components` and appended to both lists. A prey is also appended to the class-level list. |
| Vivarium.AddBuiltAdopts | Vivarium.py:50-59 | Adding a built creature is the constructor's registration followed by `addNewObjInTank`. |
| Vivarium.PopulateComponents | Vivarium.py:50-59 | Adding creatures appends their references, in order, to `components` and to the tank's children. |
| Vivarium.Populate | Vivarium.py:50-59 | Adding creatures grows `components` and the tank's children by one entry per creature, keeps the earlier entries of `components` as a prefix, and keeps the tank and its dimensions. |
| Vivarium.PopulateShared | Vivarium.py:51-56 | Adding creatures appends exactly the prey's references, in order, to the class-level list. |
| Vivarium.PopulateKeepsTank | Vivarium.py:39-59 | Adding creatures keeps the tank and its dimensions. |
| Vivarium.PopulateKeys | Vivarium.py:50-59 | Adding creatures adds exactly their references to the objects. |
| Vivarium.PopulateStores | Vivarium.py:50-59 | The i-th creature is stored as built under the i-th new reference, aliased to `components`. |
| Vivarium.Init | Vivarium.py:35-59 | The initial world holds exactly the objects 0 to 8. |
| Vivarium.InitialLists | Vivarium.py:39-59 | The tank is 12 x 12 x 12. `components` is [tank, 1..8], and the tank's children are 1..8 in construction order. |
| Vivarium.InitialShared | Vivarium.py:51-56 | The class-level list holds the six prey, 2..7, and nothing else. |
| Vivarium.InitialObjects | Vivarium.py:48-59 | Object 0 is the tank. Object i + 1 is the i-th creature of predator, six prey, predator, at the positions the constructor gives. |
| Vivarium.Turn | Vivarium.py:72-73 | A creature's turn is `animationUpdate` followed by `stepForward`. If `animationUpdate` raises, the turn raises the same exception with the updated creature stored and no step taken. Otherwise the step starts from the updated creature. The turn has the effect of one step and keeps the creature a creature. |
| Vivarium.TurnAdvances | Vivarium.py:72-73 | After a creature's turn, its position is its old position plus the speed that wandering gives it, reflected about the wall normal when that advance would cross the wall. |
| Vivarium.TurnOfMeetsSpec | Vivarium.py:71-73 | The vivarium's turn, for every scene and creature, keeps the creature a creature and has the effect of one step. |
| Vivarium.TurnOf | Vivarium.py:70-73 | The vivarium's turn of a creature is `Turn` with that creature's random direction. Anything that is not a creature is skipped, leaving the scene as it is. |
| Vivarium.TurnsAppend | Vivarium.py:70-73 | Running the turns of xs + ys is running those of xs and then, unless one raised, those of ys from the scene they left. A raise stops the run. |
| Vivarium.TurnsOne | Vivarium.py:72-73 | Running the turns of a single creature is that creature's turn. |
| Vivarium.MarkLoop | Vivarium.py:70-77 | The loop's scene is exactly the scene left by the turns of the snapshot's creatures, applied in snapshot order, and the loop raises exactly when those turns raise. Throughout the loop, complete or cut short:<br>• every object keeps its nature;<br>• neither list gains an element;<br>• only creatures are stepped;<br>• only stepped creatures are marked;<br>• anything not stepped keeps its list membership. |
| Vivarium.MarkLoopStepsCreatures | Vivarium.py:70-73 | A completed first loop steps exactly the creatures of the snapshot, in snapshot order. |
| Vivarium.MarkLoopMarksUnlisted | Vivarium.py:75-77 | In a completed first loop, a stepped creature is marked exactly when it is missing from its `env_obj_list` at the end of the loop. |
| Vivarium.Sweep | Vivarium.py:80-81 | The sweep changes no object and neither list gains an element. Every unmarked reference keeps its membership in both lists. |
| Vivarium.FirstLoop | Vivarium.py:70-77 | The first loop runs over the reversed copy of `components`. Its scene is the scene left by the turns of that copy's creatures in reversed order, and it raises exactly when those turns raise. On completion it has stepped exactly those creatures, in that order. The guarantees of the mark loop hold. |
| Vivarium.TickWith | Vivarium.py:63-91 | For any turn with the effect of one step:<br>• the tick raises exactly when the first loop does, that is, when one of the turns of the reversed snapshot's creatures raises;<br>• its objects and the class-level list are those the turns leave, applied in reversed snapshot order, and a raise keeps that whole scene;<br>• every object keeps its nature, and the tank and the dimensions are kept;<br>• a raise deletes nothing from the tank;<br>• non-creatures are never removed;<br>• every marked creature aliased to `components` is gone from `components`;<br>• on completion the tank's children gain nothing, unmarked objects keep their membership there, and a marked creature listed there at most once is gone. |
| Vivarium.SweepDropsMarked | Vivarium.py:80-91 | Each marked component loses an occurrence among the tank's children, unless none is left. |
| Vivarium.SweepRemovesUnlisted | Vivarium.py:76-81 | Deleting the marked creatures leaves each one aliased to `components` out of `components`. |
| Vivarium.Tick | Vivarium.py:63-91 | The vivarium's tick raises exactly when one of the turns of the reversed snapshot's creatures raises. Its objects and class-level list are those left by those turns, each `animationUpdate` then `stepForward`, applied in reversed snapshot order. When it completes, every creature of the reversed snapshot was stepped once, in order. Every object keeps its nature, and the tank and dimensions are kept. It never removes a non-creature from `components`, and it removes each marked creature aliased to `components` from `components`. On completion the tank's children gain nothing, and a marked creature listed there at most once is gone. |

## Left out

- The OpenGL import shim (ModelLinkage.py:21-44) and all scene-graph effects are not modelled: `update()`, `addChild`, drawing. `setPostRotation` is recorded as the heading quaternion it receives, and the `rotate` about x as the total degrees turned.
- Meshes and colours (`Cube`, `Sphere`, `Cylinder`, `ModelHead`, `ModelArm`) appear only as link counts: 4 links per arm and 1 per head.
- Point.py, Component.py, ModelTank.py, Shapes.py and ColorType.py are not part of this model. The model assumes:
  - `Point.normalize` returns a new vector under the same 1e-6 guard as `Quaternion.normalize`;
  - `Component.rotate` and the `angle in range` test are the inputs of `LinkOps`;
  - joint angles start at 0;
  - `if self.currentPos` is always true;
  - `Point.dot(None)` raises AttributeError;
  - the tank (`Tank`, ModelTank.py) is built with no children of its own, so its child list starts empty.
- Identity is used for `other_creature != self` and for `c not in c.env_obj_list`: creatures define no equality of their own.
- Random headings (`random.random`) become parameters: `dir` for one step, `dirs` per creature for a tick. The source discards the result of `new_direction.normalize()`, so `dir` stands for the vector as that call leaves it.
- Floating point is modelled as real numbers, and `int`, `bool` and `float` collapse to `real` once stored.
- `sqrt`, `acos`, `sin` and `cos` are uninterpreted. The model does not raise the math-domain ValueError `acos` gives for a dot product outside [-1, 1].
- `print` diagnostics and the `__main__` timing benchmark of Quaternion.py are not modelled.
- Attributes that nothing reads are not modelled: `bound_center` (only its default), `slerp_frame_counter`, `slerp_duration_frames`, the unused `components`/`vivarium` arguments of `stepForward`, and the `is not None` test on `env_obj_list`, which is never `None`.
- Commented-out code is not modelled: ModelLinkage.py:124-127, 243-252, 316-319 and 418-449; EnvironmentObject.py:88-97.
- The unimplemented food feature (Vivarium.py:27-33) is not modelled.
- ModelLinkage.WallBounceCanLeaveTank: states the counterexample through the wall test, the wall normal and the reflection that `WallBounce` applies, rather than through a `WallBounce` call on a concrete creature.
- Quaternion.Reset: states the unit property of the result for the given quaternion; that the result is (1, 0, 0, 0) is used through `ResetToMatrix`.
- Vivarium.TickWith: guarantees that a marked creature is gone from `components` only when its `env_obj_list` aliases `components`, and gone from the tank's children only when it was listed there at most once. A reference listed twice there would keep one occurrence.
- Vivarium.Tick: states the lists `components` and the tank's children only through membership and multiset bounds, not as exact sequences after the sweep. The objects and the class-level list are stated exactly, as those the turns leave.
