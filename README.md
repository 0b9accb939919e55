# Tree-house demo: verified model of the scene logic

This project models the game logic of a PhysX demo scene. A player walks up to a tree, a chainsaw trigger starts cutting the trunk, a sawdust particle emitter runs while it cuts, and the tree house on top breaks into debris when it hits the ground. The model covers:

- **Collision filter** (`FilterShader`). `CustomFilterShader` gives trigger pairs the trigger defaults. Every other pair gets the contact defaults, plus touch and contact-point notification exactly when the two filter masks match both ways. The filter words the scene assigns are modelled as well, and the only notifying pair among ground, house and player is house with ground.
- **Event callback** (`EventCallback`). `onTrigger` latches `chainsawTrigger` for a player/tree-trigger pair; touch-found and touch-lost both set it, as the code does. `onContact` latches `fallen` when the largest impulse among a touch-found pair's first 64 contact points is positive.
- **Particle system** (`ParticleSystem`).
  - A `Particle` counts its life down from 100 by 2 per update, and is dead from its 51st update.
  - An `Emitter` emits `int(emitRate * timeSinceLastEmit)` particles per update, but stops once `maxParticles` have ever been emitted. It then runs an aging pass over its list.
  - The pass erases a dead particle and still advances its index, so the particle that slides into the erased slot is skipped for that pass. `Sweep` states this on lifespans. `Kept` and `Died` split the list by the result.
  - Nothing is lost or duplicated, kept particles are alive and distinct, and dead ones are dead and old.
- **Scene controller** (`SceneController`). `MyScene` keeps the calls it makes on the SDK scene as an ordered log of requests: add, remove, set pose and impulse. Each `CustomUpdate` tick does three things, in this order:
  - On the first tick that sees `fallen` it sets the break latch and calls BreakHouse. That call does nothing when the house handle is null or not a rigid-dynamic body; otherwise the house is removed, then 6 walls, 5 roof pieces and 5 logs are added. Either way the latch stays set, so BreakHouse is never called again.
  - While the chainsaw is on and the tree has trunk parts, it runs the cutting timer. If the trunk-base joint is still intact, it also pushes trunk part 1 with an impulse of 20000 times the elapsed time and creates or repositions the sawdust emitter; with the joint broken it does neither and leaves the emitter as it is. When the chainsaw is off or the tree has no trunk parts, it tears down an existing emitter.
  - It updates the emitter, adds exactly its new particles to the scene, removes its dead ones and clears the dead list.
- **Cylinder actors** (`CylinderShape`, `RcCylinder`, `SzCylinder`). `GenerateCylinderVertices` emits each slice's bottom vertex and then its top vertex. `CreateConvexCylinder` returns null when cooking or creation fails, and the constructors attach a shape only for a real mesh. The default is 16 slices, and `CylinderGeometry` uses 20. The two actor files are copies of each other and are modelled independently.

The timer follows the code. The first cutting tick only starts the timer at 0, so the impulses over `n` ticks of length `dt` add up to 20000·dt·(0 + 1 + … + (n − 1)) (`ImpulseRamp`). A ramp of 1 + 2 + … + n would count the first tick's dt; the code does not, because that tick only starts the timer.

SDK calls and queries are parameters of the model: cooking and mesh-creation success, the house's pose, the number of trunk parts, whether the trunk-base joint is broken, and `cos`/`sin`.

## Model

| member | source | states |
|---|---|---|
| Basics.PxMax | Simulation/MyPhysicsEngine.h:117 | `PxMax` returns one of its two arguments, and it is at least both. |
| FilterShader.CustomFilterShader | Simulation/MyPhysicsEngine.h:143-170 | A trigger on either side gives exactly the trigger defaults. Otherwise the contact defaults are given, and touch-found, touch-lost and contact-point notification are each set iff the masks match both ways. The returned filter flags are always empty. |
| FilterShader.ShaderSymmetric | Simulation/MyPhysicsEngine.h:148-167 | Swapping the two objects of a pair does not change the shader's outcome. |
| FilterShader.GroupsAreDistinctBits | Simulation/MyPhysicsEngine.h:44-54 | GROUND, HOUSE, PLAYER and TREE are the bits 1, 2, 4 and 8, pairwise disjoint. |
| FilterShader.FilterDataOf | Simulation/MyPhysicsEngine.h:216-289 | Each body's own word is one of the four groups. |
| FilterShader.AttributesOf | Simulation/MyPhysicsEngine.h:278-280 | Only the tree trigger's shape is a trigger shape. |
| FilterShader.OnlyHouseGroundNotifies | Simulation/MyPhysicsEngine.h:216-289 | With the scene's filter words, a pair of ground, house and player gets contact notification iff it is house and ground. Every pair with the tree trigger gets the trigger defaults. |
| EventCallback.ExtractContacts | Simulation/MyPhysicsEngine.h:111-112 | At most 64 contact points are delivered. They are a prefix of the pair's contact points, and all of them when there are at most 64. |
| EventCallback.MaxFold | Simulation/MyPhysicsEngine.h:113-118 | The running maximum from 0 is never negative, and is at least the last magnitude folded in. |
| EventCallback.MaxFoldIsMaximum | Simulation/MyPhysicsEngine.h:113-118 | The folded maximum is at least 0, bounds every magnitude, is 0 or one of them, and is positive iff some magnitude is. |
| EventCallback.MaxImpulse | Simulation/MyPhysicsEngine.h:113-118 | The loop returns the folded maximum, with the same bounds, attainment and positivity facts. |
| EventCallback.SignalsFall | Simulation/MyPhysicsEngine.h:108-125 | Only a touch-found pair with at least one contact point can set `fallen`. |
| EventCallback.SignalsFallIff | Simulation/MyPhysicsEngine.h:108-125 | A pair signals a fall iff it is touch-found and one of its first 64 impulses is positive. |
| EventCallback.StartsCutting | Simulation/MyPhysicsEngine.h:74-93 | A pair that starts cutting reports a touch event and involves two different actors. The roles are not symmetric: the player as the trigger actor never starts cutting. |
| EventCallback.ChainsawLatches | Simulation/MyPhysicsEngine.h:68-97 | Over any sequence of trigger batches the chainsaw flag is never cleared. From false, it ends set iff some batch held a player/tree-trigger pair, found or lost, on a non-plane shape. |
| EventCallback.MySimulationEventCallback.constructor | Simulation/MyPhysicsEngine.h:65 | All three flags start false. |
| EventCallback.MySimulationEventCallback.OnTrigger | Simulation/MyPhysicsEngine.h:68-97 | After the call the chainsaw flag is its old value or whether some pair starts cutting. Nothing else changes. |
| EventCallback.MySimulationEventCallback.OnContact | Simulation/MyPhysicsEngine.h:100-132 | After the call `fallen` is its old value or whether some pair signals a fall. Nothing else changes. |
| ParticleSystem.Particle.constructor | Simulation/ParticleSystem.h:14-20 | A new particle has lifespan 100 and is not in the scene. |
| ParticleSystem.Particle.Update | Simulation/ParticleSystem.h:27-30 | The lifespan drops by 2, and the scene flag is kept. |
| ParticleSystem.Particle.IsDead | Simulation/ParticleSystem.h:32-35 | A particle with the initial lifespan of 100 is alive. |
| ParticleSystem.DeadFromUpdate51 | Simulation/ParticleSystem.h:14-35 | After n updates the lifespan is 100 − 2n, and the particle is dead iff n ≥ 51. |
| ParticleSystem.Aged | Simulation/ParticleSystem.h:116 | A live particle ages by 2; a dead one is left alone. |
| ParticleSystem.Sweep | Simulation/ParticleSystem.h:113-122 | The pass gives every particle exactly one fate. SweepFates says which. |
| ParticleSystem.SweepFates | Simulation/ParticleSystem.h:113-122 | A skipped position keeps its lifespan and follows a dead one. Every other position is aged, and dies iff the aged lifespan is negative. The position after a death is always skipped. |
| ParticleSystem.SweepLiveness | Simulation/ParticleSystem.h:113-122 | From all-alive particles, exactly the ones moved to the dead list are dead afterwards. Only a lifespan below 2 can die. |
| ParticleSystem.SweepFateAt | Simulation/ParticleSystem.h:115-121 | Gives the fate of a looked-at position, and which position the loop looks at next. |
| ParticleSystem.LivesOf | Simulation/ParticleSystem.h:113-122 | Each position ends with its fate's lifespan. |
| ParticleSystem.Kept | Simulation/ParticleSystem.h:113-122 | The particles left in the list are taken from the list, and are no more than it held. |
| ParticleSystem.Died | Simulation/ParticleSystem.h:113-120 | The particles moved to the dead list are taken from the list, and are no more than it held. |
| ParticleSystem.KeptDiedPartition | Simulation/ParticleSystem.h:113-122 | The kept and the dead particles together are exactly the list as a multiset: nothing is lost or duplicated. |
| ParticleSystem.KeptDiedMembers | Simulation/ParticleSystem.h:113-122 | Every kept particle comes from a position that did not die, and every dead one from a position that did. |
| ParticleSystem.KeptDistinct | Simulation/ParticleSystem.h:119-120 | Erasing particles from a list without repeats leaves a list without repeats. |
| ParticleSystem.SweepKeepsValid | Simulation/ParticleSystem.h:113-122 | The pass keeps the emitter's invariant: the live list stays without repeats and alive. |
| ParticleSystem.DiedAreDead | Simulation/ParticleSystem.h:113-122 | The particles the pass moves to the dead list are dead, and come from before the fresh ones. |
| ParticleSystem.TruncateToInt | Simulation/ParticleSystem.h:105 | `int(x)` truncates toward zero. |
| ParticleSystem.EmitCount | Simulation/ParticleSystem.h:105 | For a non-negative product of rate and elapsed time, the count is its whole part: non-negative, at most the product, and within one of it. A product below 1 gives no particle. |
| ParticleSystem.EmitBudget | Simulation/ParticleSystem.h:107-110 | The loop emits at most max(emitCount, 0) particles, and none iff emitCount ≤ 0 or the maximum has been reached. It never passes `maxParticles`, and stops short of emitCount only at the maximum. |
| ParticleSystem.Emitter.constructor | Simulation/ParticleSystem.h:51-56 | A new emitter has empty lists, nothing emitted and a zero clock. |
| ParticleSystem.Emitter.Emit | Simulation/ParticleSystem.h:58-84 | One fresh particle, alive and out of the scene, is appended. The count grows by one, and the dead list and clock are unchanged. |
| ParticleSystem.Emitter.GetParticles | Simulation/ParticleSystem.h:86-89 | Returns the live list. |
| ParticleSystem.Emitter.GetDeadParticles | Simulation/ParticleSystem.h:91-94 | Returns the dead list. |
| ParticleSystem.Emitter.ClearDeadParticles | Simulation/ParticleSystem.h:96-99 | Empties the dead list and changes nothing else. |
| ParticleSystem.Emitter.EmitParticles | Simulation/ParticleSystem.h:107-110 | Emits exactly EmitBudget fresh particles, appended in order, with initial lifespans and out of the scene. |
| ParticleSystem.Emitter.SweepDeadParticles | Simulation/ParticleSystem.h:113-122 | The live list becomes Kept and the dead list grows by Died, both under `Sweep` of the old lifespans. Each particle carries its fate's lifespan, and the invariant is kept. |
| ParticleSystem.Emitter.SweepList | Simulation/ParticleSystem.h:113-122 | The loop over the lists computes Kept and Died of `Sweep`, and leaves the scene flags alone. |
| ParticleSystem.Emitter.SweepOne | Simulation/ParticleSystem.h:115-121 | One turn ages the current particle and moves it to the dead list when it died. The loop invariant advances past it and past any skipped particle. |
| ParticleSystem.Emitter.AgeParticle | Simulation/ParticleSystem.h:115-117 | Only the current particle's lifespan changes, by `Aged`. The result is whether it is now dead. |
| ParticleSystem.Emitter.Update | Simulation/ParticleSystem.h:101-123 | The clock advances by dt, then EmitBudget fresh particles are emitted and the pass runs over old and new. Nothing is lost, the count never passes the maximum, and every particle moved to the dead list is dead and was listed before the call. |
| ParticleSystem.Emitter.EmitAndSweep | Simulation/ParticleSystem.h:105-122 | Emission followed by the aging pass, under the same equations as Update. |
| CylinderShape.Corner | Simulation/RC_Cylinder.cpp:11-16 | The bottom vertex is at −halfHeight and the top one at +halfHeight, both at radius·cos and radius·sin of slice i's angle. |
| CylinderShape.Corners | Simulation/RC_Cylinder.cpp:10-17 | n slices give 2n vertices. Vertex k is slice k/2's corner, the top one when k is odd. |
| CylinderShape.CylinderVertices | Simulation/RC_Cylinder.cpp:8-18 | The layout has 2·max(slices, 0) vertices, alternating bottom (even index) and top (odd index). |
| CylinderShape.CornersSnoc | Simulation/RC_Cylinder.cpp:15-16 | One more slice appends its bottom and then its top vertex. |
| CylinderShape.CylinderLayout | Simulation/RC_Cylinder.cpp:8-18 | The layout has 2·max(slices, 0) vertices. Vertices 2i and 2i+1 are at −halfHeight and +halfHeight and share slice i's x and z, in ascending slice order. |
| RcCylinder.GenerateCylinderVertices | Simulation/RC_Cylinder.cpp:6-19 | The loop builds exactly the cylinder layout. |
| RcCylinder.RcCylinder.CreateConvexCylinder | Simulation/RC_Cylinder.cpp:22-38 | A mesh comes back iff cooking and creation succeed. Its descriptor holds exactly the generated vertices, so the count equals their number, with eCOMPUTE_CONVEX set. |
| RcCylinder.RcCylinder.constructor | Simulation/RC_Cylinder.cpp:41-49 | A shape is attached iff a mesh came back. It is the default 16-slice mesh with the given density. |
| RcCylinder.CylinderGeometry | Simulation/RC_Cylinder.h:24-30 | The geometry's mesh is non-null iff it could be made, and then has the 40 points of a 20-slice layout. |
| SzCylinder.GenerateCylinderVertices | Simulation/SZ_Cylinder.cpp:6-19 | The loop builds exactly the cylinder layout. |
| SzCylinder.SzCylinder.CreateConvexCylinder | Simulation/SZ_Cylinder.cpp:22-38 | A mesh comes back iff cooking and creation succeed, over exactly the generated vertices. |
| SzCylinder.SzCylinder.constructor | Simulation/SZ_Cylinder.cpp:40-48 | A shape is attached iff a mesh came back. It is the default 16-slice mesh with the given density. |
| SzCylinder.CylinderGeometry | Simulation/SZ_Cylinder.h:24-30 | The geometry's mesh is non-null iff it could be made, and then has the 40 points of a 20-slice layout. |
| SceneController.Walls | Simulation/MyPhysicsEngine.h:336-344 | Wall i is added at x offset (i − 2)·0.5 from the house, mirrored iff i is even. |
| SceneController.RoofsAndLogs | Simulation/MyPhysicsEngine.h:345-358 | Each turn of the roof loop adds two actors. |
| SceneController.Gables | Simulation/MyPhysicsEngine.h:360-369 | The gable loop from 1 adds two actors per turn. |
| SceneController.BreakRequests | Simulation/MyPhysicsEngine.h:334-369 | A break is 17 requests, the first of which removes the house. |
| SceneController.HouseBreakRequests | Simulation/MyPhysicsEngine.h:322-369 | A break makes no request at all iff the house handle is null or not a rigid-dynamic body, and otherwise the full break. |
| SceneController.BreakLayout | Simulation/MyPhysicsEngine.h:334-369 | A break makes 17 requests: the house is removed first, and only it is removed. Then 6 walls, 3 roof pieces each followed by a 3.0 log, and 2 gable pieces each followed by a 2.0 log, all at their offsets, with radius 0.1 and density 300. |
| SceneController.BreakStep | Simulation/MyPhysicsEngine.h:375-379 | BreakHouse is called iff `fallen` holds and the latch is unset. The latch ends as latch-or-fallen. |
| SceneController.BreakAtMostOnce | Simulation/MyPhysicsEngine.h:375-379 | Over any run of ticks BreakHouse is called at most once, and never after the latch is set. From an unset latch it is called exactly once iff some tick sees `fallen`. |
| SceneController.TimerStep | Simulation/MyPhysicsEngine.h:383-392 | A cutting tick always leaves the timer started. |
| SceneController.TimerRamp | Simulation/MyPhysicsEngine.h:383-392 | Once started, the timer adds up every later dt. From stopped, n ticks leave it at the sum of the last n − 1 dts. |
| SceneController.TriangleClosed | Simulation/MyPhysicsEngine.h:398 | 1 + … + n = n(n + 1)/2. |
| SceneController.ImpulsesRunning | Simulation/MyPhysicsEngine.h:391-398 | With the timer at e, n ticks of dt apply 20000·(n·e + dt·(1 + … + n)). |
| SceneController.ImpulseRamp | Simulation/MyPhysicsEngine.h:383-398 | From a stopped timer, the first tick applies no impulse, and n ticks of dt apply 20000·dt·(n − 1)n/2 in all. |
| SceneController.EmitterRule | Simulation/MyPhysicsEngine.h:396-418 | Only a missing emitter is created, and only an existing one is repositioned or torn down. |
| SceneController.EmitterRuleFacts | Simulation/MyPhysicsEngine.h:381-418 | While cutting with the joint intact an emitter exists afterwards, and without cutting none does. Cutting with the joint broken leaves the emitter alone. Create or reposition happens iff cutting with the joint intact. |
| SceneController.PromotionsExactly | Simulation/MyPhysicsEngine.h:424-431 | The promotion requests add exactly the particles whose flag was false, each as listed. |
| SceneController.Removals | Simulation/MyPhysicsEngine.h:432-435 | There is one remove request per dead particle, in order. |
| SceneController.FlagsAfterUpdate | Simulation/MyPhysicsEngine.h:422-431 | After an update, a listed particle is out of the scene iff it is newly emitted. |
| SceneController.UpdatedListsReady | Simulation/MyPhysicsEngine.h:422-435 | After an update, listed particles are old or new, exactly the new ones are out of the scene, and the dead ones are dead and in the scene. |
| SceneController.MyScene.constructor | Simulation/MyPhysicsEngine.h:194 | The scene starts with no emitter, an unset latch, a stopped timer and an empty log. The scene invariant holds: a live emitter lists only particles in the scene, has an empty dead list, and has emitted at most its 500 particles. |
| SceneController.MyScene.BreakHouse | Simulation/MyPhysicsEngine.h:317-370 | Without a rigid-dynamic house nothing happens. Otherwise the log grows by exactly the break layout at the house's pose, and the latch, timer and emitter are unchanged. |
| SceneController.MyScene.AddWalls | Simulation/MyPhysicsEngine.h:336-344 | The wall loop appends Walls(p, 6). |
| SceneController.MyScene.AddRoofsAndLogs | Simulation/MyPhysicsEngine.h:345-358 | The roof loop appends RoofsAndLogs(p, 3). |
| SceneController.MyScene.AddGables | Simulation/MyPhysicsEngine.h:360-369 | The gable loop appends Gables(p, 3). |
| SceneController.MyScene.BreakOnFall | Simulation/MyPhysicsEngine.h:375-379 | The latch and the call follow BreakStep. The log grows by the break layout iff the house breaks now. |
| SceneController.MyScene.CutStep | Simulation/MyPhysicsEngine.h:381-418 | The timer follows TimerStep while cutting. The emitter action follows EmitterRule, and its requests are: impulse then add for a fresh emitter (500 max particles, rate 0.5, at (10, 1, −0.5)); impulse then set pose for an existing one; remove on teardown. |
| SceneController.MyScene.PromoteOne | Simulation/MyPhysicsEngine.h:426-430 | A particle out of the scene is added and flagged. One already in it is left alone. |
| SceneController.MyScene.PromoteParticles | Simulation/MyPhysicsEngine.h:424-431 | Exactly the listed particles that were out of the scene are added, in list order. Afterwards all are in it, with their lifespans unchanged. |
| SceneController.MyScene.RemoveParticles | Simulation/MyPhysicsEngine.h:432-435 | Each dead particle gets one remove request, in order. |
| SceneController.MyScene.UpdateEmitter | Simulation/MyPhysicsEngine.h:422 | The emitter update as the scene sees it. The clock advances by dt and the count by the number emitted, which is EmitBudget and never takes the count past the maximum. Listed particles are old or new, and exactly the new ones are out of the scene. Dead ones are dead and in it, and nothing is lost. |
| SceneController.MyScene.SyncParticles | Simulation/MyPhysicsEngine.h:424-436 | Exactly the newly emitted listed particles are added, in order. Every dead particle is removed, and each was in the scene and is no longer listed. The dead list ends empty. |
| SceneController.MyScene.ParticleStep | Simulation/MyPhysicsEngine.h:420-437 | With an emitter, its clock advances by dt and its count by the EmitBudget particles emitted. Only newly emitted particles are added, so none is added twice. Removed particles are dead, in the scene and no longer listed. Listed plus removed equals old plus emitted. Without an emitter nothing happens. |
| SceneController.MyScene.CustomUpdate | Simulation/MyPhysicsEngine.h:373-438 | The log grows by break, cut, promotion and removal requests, in that order. The latch, timer and emitter follow BreakStep, TimerStep and EmitterRule. A created emitter has the pose (10, 1, −0.5), rate 0.5 and maximum 500. For an emitter kept from the last tick, the clock and count advance and listed plus removed equals old plus emitted. For one created this tick, the clock is dt and the count is the number emitted. Listed plus removed equals emitted, so it started empty. The promotions are exactly the new listed particles, once each and in list order; removed ones were dead and in the scene. The scene invariant holds afterwards. |

## Left out

- Rendering: `RC_Cylinder::Render`, `SZ_Cylinder::Render` and all colours are OpenGL or display calls only.
- Logging to `cout`/`cerr` is left out.
- `CustomInit` beyond the filter words and trigger shape is not modelled: building the plane, player, tree, cabin, joint and cloth is SDK construction. The scene is given its callback and house handle instead.
- The key handlers and player movement are not part of the core logic.
- `CustomActors.h`, which defines the `Character` actor, is not part of this model. The classes of the cabin, tree, wall, roof and log actors that the scene creates are defined in headers that are not part of this model either. All of these actors appear only as the request values that add or remove them.
- `Simulation.cpp` is not part of this model.
- ParticleSystem.Emitter.Emit: the particle's pose, colour and random velocity cone (`rand()`, `sinf`, `cosf`, normalisation) are not modelled; only the list and count bookkeeping is.
- SceneController.MyScene.CutStep: the impulse direction (the normalised trunk-minus-player vector) is not modelled. The request carries the trunk part index and the magnitude 20000·timeElapsed only.
- SceneController.MyScene.CutStep: it requires more than one trunk part while cutting, because the code checks `size() > 0` and then indexes part 1. A one-part tree would be an out-of-range access.
- SceneController.MyScene.CustomUpdate carries the same trunk-part requirement as CutStep.
- Floating point: positions, times, rates and impulses are reals. `cos`/`sin` are uninterpreted function parameters, and float rounding is not modelled. The lifespan is an integer because its float values are exact.
- `m_isBroken`, `m_timeStarted` and `m_timeElapsed` are never initialised in the code. The model's scene constructor starts them at false, false and 0.
- Actor names are compared as strings. The code compares `const char*` addresses, which are equal only when the literals are pooled.
- SDK oracles: mesh cooking and creation success, the house's pose, whether the house body is rigid-dynamic, the trunk-part count and the joint's broken flag are parameters.
- `GenerateCylinderVertices` is a non-inline function defined in both `RC_Cylinder.cpp` and `SZ_Cylinder.cpp`, which the linker would reject as a duplicate definition. `CylinderGeometry` is an inline definition in `RC_Cylinder.h` and in `SZ_Cylinder.h`, so it clashes only in a translation unit that includes both headers. Each copy is modelled in its own module, and linkage is not modelled.
- Concurrency: callbacks are modelled as ordinary calls between ticks.
