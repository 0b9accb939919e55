/**
 * MyScene's per-tick controller. The SDK scene is abstracted as the ordered
 * log of requests the controller makes on it (add an actor, remove one, set
 * a pose, apply an impulse); SDK queries become parameters: the house's pose
 * when it breaks, the number of trunk parts, and whether the trunk-base
 * joint is broken.
 *
 * Each tick (CustomUpdate) does three things in order: it breaks the house
 * once, the first time the contact monitor reports a fall; while the
 * chainsaw trigger is set it runs the cutting timer, pushes the trunk and
 * keeps a sawdust emitter in place (and tears the emitter down otherwise);
 * and it runs the emitter, adding its new particles to the scene and
 * removing its dead ones.
 */
module SceneController {
  import opened Basics
  import opened EventCallback
  import opened ParticleSystem

  /** The actors the controller adds to or removes from the scene. */
  datatype Actor =
    | HouseActor                                                        // m_house, the intact cabin
    | Wall(pose: Vec3, mirrored: bool)                                  // WallSegment
    | Roof(pose: Vec3, extra: Option<real>)                             // RoofSegment, with its optional second argument
    | Log(pose: Vec3, radius: real, halfHeight: real, density: real)   // RC_Cylinder
    | SawdustEmitter(emitter: Emitter)
    | ParticleActor(particle: Particle)

  /** One call the controller makes on the SDK scene. */
  datatype SceneRequest =
    | Add(actor: Actor)
    | Remove(actor: Actor)
    | SetPose(actor: Actor, pose: Vec3)
    | Impulse(trunkPart: nat, magnitude: real)   // addForce(dir * magnitude, eIMPULSE) on a trunk part

  /** m_treeHouseRB: the cabin's body as a PxRigidDynamic, or null. */
  datatype BodyHandle = BodyHandle(isRigidDynamic: bool)

  // BreakHouse's log dimensions
  const LogRadius: real := 0.1
  const LogLength: real := 3.0
  const LogDensity: real := 300.0

  // The sawdust emitter CustomUpdate creates
  const EmitterPose: Vec3 := Vec3(10.0, 1.0, -0.5)
  const EmitterRate: real := 0.5
  const EmitterMaxParticles: int := 500

  /** The trunk part the chainsaw pushes: getTrunkParts()[1]. */
  const CutTrunkPart: nat := 1
  /** The impulse per second of cutting. */
  const ImpulsePerSecond: real := 20000.0

  /** The first `n` walls: wall i at x offset (i - 2) * 0.5, mirrored when i is even. */
  function Walls(p: Vec3, n: nat): (rs: seq<SceneRequest>)
    ensures |rs| == n
    ensures forall i :: 0 <= i < n ==> rs[i] == Add(Wall(ShiftX(p, (i - 2) as real * 0.5), i % 2 == 0))
  {
    seq(n, i => Add(Wall(ShiftX(p, (i - 2) as real * 0.5), i % 2 == 0)))
  }

  /** The first `n` turns of the roof loop: roof i at x offset (i + 2) * 0.5, then a full-length log at (i + 7) * 0.5. */
  function RoofsAndLogs(p: Vec3, n: nat): (rs: seq<SceneRequest>)
    ensures |rs| == 2 * n
  {
    if n == 0 then []
    else
      var i := n - 1;
      RoofsAndLogs(p, i)
      + [Add(Roof(ShiftX(p, (i + 2) as real * 0.5), None)),
         Add(Log(ShiftX(p, (i + 7) as real * 0.5), LogRadius, LogLength, LogDensity))]
  }

  /** The gable loop up to (not including) `n`, from 1: a roof piece with argument 2.0 and a shorter log, both at (i - 5) * 0.5. */
  function Gables(p: Vec3, n: nat): (rs: seq<SceneRequest>)
    ensures |rs| == if n <= 1 then 0 else 2 * (n - 1)
  {
    if n <= 1 then []
    else
      var i := n - 1;
      var q := ShiftX(p, (i - 5) as real * 0.5);
      Gables(p, i) + [Add(Roof(q, Some(2.0))), Add(Log(q, LogRadius, LogLength - 1.0, LogDensity))]
  }

  /** Everything BreakHouse does once it has the house pose `p`. */
  function BreakRequests(p: Vec3): (rs: seq<SceneRequest>)
    ensures |rs| == 17 && rs[0] == Remove(HouseActor)
  {
    [Remove(HouseActor)] + Walls(p, 6) + RoofsAndLogs(p, 3) + Gables(p, 3)
  }

  /** What BreakHouse does for a given house handle: nothing without a rigid-dynamic body. */
  function HouseBreakRequests(handle: Option<BodyHandle>, p: Vec3): (rs: seq<SceneRequest>)
    ensures rs == [] <==> handle.None? || !handle.value.isRigidDynamic
    ensures rs != [] ==> rs == BreakRequests(p)
  {
    if handle.None? || !handle.value.isRigidDynamic then [] else BreakRequests(p)
  }

  /**
   * The layout of a broken house: the house is removed first and nothing
   * else is removed; then 6 walls, mirrored exactly at even indices; then 3
   * roof pieces each followed by a 3.0 log; then 2 gable pieces each followed
   * by a 2.0 log, all of radius 0.1 and density 300. That is 6 walls, 5 roof
   * pieces and 5 logs.
   */
  lemma BreakLayout(p: Vec3)
    ensures var rs := BreakRequests(p);
      && |rs| == 17
      && rs[0] == Remove(HouseActor)
      && (forall k :: 1 <= k < 17 ==> rs[k].Add?)
      && (forall i :: 0 <= i < 6 ==> rs[1 + i] == Add(Wall(ShiftX(p, (i - 2) as real * 0.5), i % 2 == 0)))
      && (forall i :: 0 <= i < 3 ==>
            && rs[7 + 2 * i] == Add(Roof(ShiftX(p, (i + 2) as real * 0.5), None))
            && rs[8 + 2 * i] == Add(Log(ShiftX(p, (i + 7) as real * 0.5), 0.1, 3.0, 300.0)))
      && rs[13] == Add(Roof(ShiftX(p, -2.0), Some(2.0))) && rs[14] == Add(Log(ShiftX(p, -2.0), 0.1, 2.0, 300.0))
      && rs[15] == Add(Roof(ShiftX(p, -1.5), Some(2.0))) && rs[16] == Add(Log(ShiftX(p, -1.5), 0.1, 2.0, 300.0))
  {
    var rs := BreakRequests(p);
    var roofs := RoofsAndLogs(p, 3);
    assert roofs == RoofsAndLogs(p, 2) + [roofs[4], roofs[5]];
    assert RoofsAndLogs(p, 2) == RoofsAndLogs(p, 1) + [roofs[2], roofs[3]];
    assert RoofsAndLogs(p, 1) == [roofs[0], roofs[1]];
    var gables := Gables(p, 3);
    assert gables == Gables(p, 2) + [gables[2], gables[3]];
    assert rs == [Remove(HouseActor)] + Walls(p, 6) + roofs + gables;
    forall k | 1 <= k < 17
      ensures rs[k].Add?
    {
      if k < 7 {
        assert rs[k] == Walls(p, 6)[k - 1];
      } else if k < 13 {
        assert rs[k] == roofs[k - 7];
      } else {
        assert rs[k] == gables[k - 13];
      }
    }
    forall i | 0 <= i < 6
      ensures rs[1 + i] == Add(Wall(ShiftX(p, (i - 2) as real * 0.5), i % 2 == 0))
    {
      assert rs[1 + i] == Walls(p, 6)[i];
    }
    forall i | 0 <= i < 3
      ensures rs[7 + 2 * i] == Add(Roof(ShiftX(p, (i + 2) as real * 0.5), None))
      ensures rs[8 + 2 * i] == Add(Log(ShiftX(p, (i + 7) as real * 0.5), 0.1, 3.0, 300.0))
    {
      assert rs[7 + 2 * i] == roofs[2 * i] && rs[8 + 2 * i] == roofs[2 * i + 1];
    }
    assert rs[13] == gables[0] && rs[14] == gables[1] && rs[15] == gables[2] && rs[16] == gables[3];
  }

  /** One tick of the break latch: the new `m_isBroken`, and whether BreakHouse is called. */
  function BreakStep(fallen: bool, isBroken: bool): (r: (bool, bool))
    ensures r.1 <==> fallen && !isBroken
    ensures r.0 <==> isBroken || fallen
  {
    if fallen && !isBroken then (true, true) else (isBroken, false)
  }

  /** How many of a run of ticks call BreakHouse, given the `fallen` flag on each tick. */
  function BreakCalls(isBroken: bool, fallen: seq<bool>): nat
    decreases |fallen|
  {
    if fallen == [] then 0
    else
      var (broken, calls) := BreakStep(fallen[0], isBroken);
      (if calls then 1 else 0) + BreakCalls(broken, fallen[1..])
  }

  /**
   * BreakHouse is called at most once over any run of ticks, never after the
   * latch is set, and exactly once from an unset latch when some tick sees
   * `fallen`, on the first such tick.
   */
  lemma {:induction false} BreakAtMostOnce(isBroken: bool, fallen: seq<bool>)
    ensures BreakCalls(isBroken, fallen) <= 1
    ensures isBroken ==> BreakCalls(isBroken, fallen) == 0
    ensures BreakCalls(isBroken, fallen) == 1 <==> !isBroken && exists i :: 0 <= i < |fallen| && fallen[i]
    decreases |fallen|
  {
    if fallen != [] {
      var (broken, calls) := BreakStep(fallen[0], isBroken);
      BreakAtMostOnce(broken, fallen[1..]);
      if exists i :: 0 <= i < |fallen[1..]| && fallen[1..][i] {
        var i :| 0 <= i < |fallen[1..]| && fallen[1..][i];
        assert fallen[i + 1];
      }
      if exists i :: 0 <= i < |fallen| && fallen[i] {
        var i :| 0 <= i < |fallen| && fallen[i];
        if i > 0 {
          assert fallen[1..][i - 1];
        }
      }
    }
  }

  /** One cutting tick of the timer: the first one starts it at 0, later ones add `dt`. */
  function TimerStep(started: bool, elapsed: real, dt: real): (r: (bool, real))
    ensures r.0
  {
    if !started then (true, 0.0) else (true, elapsed + dt)
  }

  /** The timer after a run of cutting ticks with the given `dt`s. */
  function TimerAfter(started: bool, elapsed: real, dts: seq<real>): (r: (bool, real))
    decreases |dts|
  {
    if dts == [] then (started, elapsed)
    else
      var (s, e) := TimerStep(started, elapsed, dts[0]);
      TimerAfter(s, e, dts[1..])
  }

  function Sum(xs: seq<real>): real
    decreases |xs|
  {
    if xs == [] then 0.0 else xs[0] + Sum(xs[1..])
  }

  /**
   * The timer is never cleared; once started it adds up every later `dt`;
   * from a stopped timer, n cutting ticks leave it at the sum of the last
   * n - 1 `dt`s, so the first tick's `dt` is never counted.
   */
  lemma {:induction false} TimerRamp(started: bool, elapsed: real, dts: seq<real>)
    ensures started ==> TimerAfter(started, elapsed, dts) == (true, elapsed + Sum(dts))
    ensures !started && dts != [] ==> TimerAfter(started, elapsed, dts) == (true, Sum(dts[1..]))
    decreases |dts|
  {
    if dts != [] {
      var (s, e) := TimerStep(started, elapsed, dts[0]);
      TimerRamp(s, e, dts[1..]);
      if !started {
        TimerRamp(true, 0.0, dts[1..]);
      }
    }
  }

  /** The impulse magnitudes a run of cutting ticks applies with the joint intact, one per tick. */
  function Impulses(started: bool, elapsed: real, dts: seq<real>): (r: seq<real>)
    ensures |r| == |dts|
    decreases |dts|
  {
    if dts == [] then []
    else
      var (s, e) := TimerStep(started, elapsed, dts[0]);
      [ImpulsePerSecond * e] + Impulses(s, e, dts[1..])
  }

  /** `n` ticks of the same length. */
  function Ticks(n: nat, dt: real): (dts: seq<real>)
    ensures |dts| == n && forall k :: 0 <= k < n ==> dts[k] == dt
  {
    seq(n, _ => dt)
  }

  /** 1 + 2 + ... + n. */
  function Triangle(n: nat): real
  {
    if n == 0 then 0.0 else Triangle(n - 1) + n as real
  }

  lemma {:induction false} TriangleClosed(n: nat)
    ensures 2.0 * Triangle(n) == (n * (n + 1)) as real
  {
    if n > 0 {
      TriangleClosed(n - 1);
      assert (n * (n + 1)) == (n - 1) * n + 2 * n;
    }
  }

  /** With the timer running at `e`, `n` ticks of length `dt` apply 20000 * (n * e + dt * (1 + ... + n)). */
  lemma {:induction false} ImpulsesRunning(e: real, dt: real, n: nat)
    ensures Sum(Impulses(true, e, Ticks(n, dt))) == ImpulsePerSecond * (n as real * e + dt * Triangle(n))
    decreases n
  {
    if n > 0 {
      var ts := Ticks(n, dt);
      assert ts[1..] == Ticks(n - 1, dt);
      ImpulsesRunning(e + dt, dt, n - 1);
      var m := (n - 1) as real;
      assert Sum(Impulses(true, e, ts)) == ImpulsePerSecond * (e + dt) + ImpulsePerSecond * (m * (e + dt) + dt * Triangle(n - 1));
      assert m * (e + dt) == m * e + m * dt;
      assert n as real * e == m * e + e;
      assert dt * Triangle(n) == dt * Triangle(n - 1) + dt * m + dt;
    }
  }

  /**
   * The impulse ramp: from a stopped timer, `n` cutting ticks of length `dt`
   * apply impulses adding up to 20000 * dt * (0 + 1 + ... + (n - 1)); the
   * first tick applies none, since it only starts the timer.
   */
  lemma ImpulseRamp(elapsed: real, dt: real, n: nat)
    requires n > 0
    ensures Impulses(false, elapsed, Ticks(n, dt))[0] == 0.0
    ensures Sum(Impulses(false, elapsed, Ticks(n, dt))) == ImpulsePerSecond * dt * Triangle(n - 1)
    ensures 2.0 * Sum(Impulses(false, elapsed, Ticks(n, dt))) == ImpulsePerSecond * dt * ((n - 1) * n) as real
  {
    var ts := Ticks(n, dt);
    assert ts[1..] == Ticks(n - 1, dt);
    ImpulsesRunning(0.0, dt, n - 1);
    TriangleClosed(n - 1);
  }

  /** What a tick does to the sawdust emitter. */
  datatype EmitterAction = Create | Reposition | Teardown | Leave

  /** The emitter rule of CustomUpdate, on whether the tick cuts, the joint is broken and an emitter exists. */
  function EmitterRule(cutting: bool, jointBroken: bool, hasEmitter: bool): (a: EmitterAction)
    ensures a == Create ==> !hasEmitter
    ensures a == Reposition || a == Teardown ==> hasEmitter
  {
    if cutting then
      if jointBroken then Leave else if hasEmitter then Reposition else Create
    else if hasEmitter then Teardown else Leave
  }

  /** Whether an emitter exists after the action. */
  function EmitterAfter(a: EmitterAction, hasEmitter: bool): bool
  {
    match a
    case Create => true
    case Reposition => true
    case Teardown => false
    case Leave => hasEmitter
  }

  /**
   * While cutting with the joint intact an emitter exists after the tick;
   * without cutting none does (tearing down an absent emitter does nothing);
   * cutting with the joint broken leaves the emitter as it was.
   */
  lemma EmitterRuleFacts(cutting: bool, jointBroken: bool, hasEmitter: bool)
    ensures var a := EmitterRule(cutting, jointBroken, hasEmitter);
      && (cutting && !jointBroken ==> EmitterAfter(a, hasEmitter))
      && (!cutting ==> !EmitterAfter(a, hasEmitter))
      && (!cutting && !hasEmitter ==> a == Leave)
      && (cutting && jointBroken ==> a == Leave)
      && ((a == Create || a == Reposition) <==> cutting && !jointBroken)
  {
  }

  /** The requests for the particles whose flag among the first `n` is false, in list order. */
  function Promotions(ps: seq<Particle>, flags: seq<bool>, n: nat): (rs: seq<SceneRequest>)
    requires |flags| == |ps| && n <= |ps|
    decreases n
  {
    if n == 0 then []
    else Promotions(ps, flags, n - 1) + (if flags[n - 1] then [] else [Add(ParticleActor(ps[n - 1]))])
  }

  /** A particle is added exactly when it sits at a position among the first `n` whose flag is false. */
  lemma {:induction false} PromotionsExactly(ps: seq<Particle>, flags: seq<bool>, n: nat)
    requires |flags| == |ps| && n <= |ps|
    ensures forall r :: r in Promotions(ps, flags, n) <==>
      exists k :: 0 <= k < n && !flags[k] && r == Add(ParticleActor(ps[k]))
    decreases n
  {
    if n > 0 {
      PromotionsExactly(ps, flags, n - 1);
    }
  }

  /** The remove requests for a list of particles, in order. */
  function Removals(ps: seq<Particle>): (rs: seq<SceneRequest>)
    ensures |rs| == |ps|
    ensures forall k :: 0 <= k < |ps| ==> rs[k] == Remove(ParticleActor(ps[k]))
  {
    seq(|ps|, k requires 0 <= k < |ps| => Remove(ParticleActor(ps[k])))
  }

  /** For each listed particle, whether it was listed before the update, i.e. is not among those just emitted. */
  function Carried(ps: seq<Particle>, emitted: seq<Particle>): (flags: seq<bool>)
    ensures |flags| == |ps|
    ensures forall k :: 0 <= k < |ps| ==> flags[k] == (ps[k] !in emitted)
  {
    seq(|ps|, k requires 0 <= k < |ps| => ps[k] !in emitted)
  }

  /**
   * When the old particles are all in the scene and the emitted ones not,
   * the scene flags of the particles kept by an update tell exactly which
   * of them were carried over.
   */
  lemma FlagsAfterUpdate(live: seq<Particle>, olds: seq<Particle>, emitted: seq<Particle>)
    requires forall m :: 0 <= m < |olds| ==> olds[m].inScene
    requires forall m :: 0 <= m < |emitted| ==> !emitted[m].inScene
    requires forall k :: 0 <= k < |live| ==> live[k] in olds + emitted
    ensures forall k :: 0 <= k < |live| ==> live[k].inScene == (live[k] !in emitted)
  {
    forall k | 0 <= k < |live|
      ensures live[k].inScene == (live[k] !in emitted)
    {
      if live[k] in emitted {
        var m :| 0 <= m < |emitted| && emitted[m] == live[k];
      } else {
        assert live[k] in olds;
        var m :| 0 <= m < |olds| && olds[m] == live[k];
      }
    }
  }

  /**
   * What an emitter update leaves for the scene to do, when every particle
   * listed before it was in the scene: the listed particles out of the
   * scene are exactly the new ones, and every particle on the dead list is
   * dead and still in the scene.
   */
  lemma UpdatedListsReady(e: Emitter, olds: seq<Particle>, flags0: seq<bool>, emitted: seq<Particle>, fates: seq<Fate>)
    requires |flags0| == |olds| && forall m :: 0 <= m < |olds| ==> flags0[m]
    requires |fates| == |olds| + |emitted|
    requires e.particles == Kept(olds + emitted, fates)
    requires Scenes(olds + emitted) == flags0 + NotInScene(|emitted|)
    requires forall p :: p in e.deadParticles ==> p.IsDead() && p in olds
    ensures forall p :: p in e.particles ==> p in olds || p in emitted
    ensures forall k :: 0 <= k < |e.particles| ==> e.particles[k].inScene == (e.particles[k] !in emitted)
    ensures forall p :: p in e.deadParticles ==> p.IsDead() && p.inScene
  {
    var all := olds + emitted;
    KeptDiedMembers(all, fates);
    forall p | p in e.particles
      ensures p in all
    {
      var i :| 0 <= i < |all| && all[i] == p && !fates[i].Dead?;
    }
    forall m | 0 <= m < |olds|
      ensures olds[m].inScene
    {
      assert all[m] == olds[m] && Scenes(all)[m] == flags0[m];
    }
    forall m | 0 <= m < |emitted|
      ensures !emitted[m].inScene
    {
      assert all[|olds| + m] == emitted[m] && !Scenes(all)[|olds| + m];
    }
    FlagsAfterUpdate(e.particles, olds, emitted);
    forall p | p in e.deadParticles
      ensures p.inScene
    {
      var m :| 0 <= m < |olds| && olds[m] == p;
    }
  }

  /** Appending four pieces one after the other appends their concatenation. */
  lemma AppendFour<T>(s: seq<T>, a: seq<T>, b: seq<T>, c: seq<T>, d: seq<T>)
    ensures s + a + b + c + d == s + (a + b + c + d)
  {
  }

  class MyScene {
    /** my_callback: the contact monitor whose flags the tick polls. */
    const callback: MySimulationEventCallback
    const treeHouseRB: Option<BodyHandle>
    var isBroken: bool
    var timeElapsed: real
    var timeStarted: bool
    var sawdustEmitter: Emitter?
    /** The calls made on the SDK scene so far, oldest first. */
    var requests: seq<SceneRequest>

    /** The controller state besides the request log: break latch, timer and emitter. */
    ghost function Controls(): (bool, bool, real, Emitter?)
      reads this
    {
      (isBroken, timeStarted, timeElapsed, sawdustEmitter)
    }

    /**
     * A live emitter is consistent, its dead list was emptied at the end of
     * the last tick, it has never emitted more than its 500 particles, and
     * every particle it lists has been added to the scene.
     */
    ghost predicate Valid()
      reads this, sawdustEmitter, if sawdustEmitter != null then sawdustEmitter.particles else []
    {
      sawdustEmitter != null ==>
        && sawdustEmitter.Valid() && sawdustEmitter.deadParticles == []
        && sawdustEmitter.maxParticles == EmitterMaxParticles
        && sawdustEmitter.numEmitted <= sawdustEmitter.maxParticles
        && forall k :: 0 <= k < |sawdustEmitter.particles| ==> sawdustEmitter.particles[k].inScene
    }

    /** The scene as CustomInit leaves it, with the break latch and the timer cleared and no emitter. */
    constructor (callback: MySimulationEventCallback, treeHouseRB: Option<BodyHandle>)
      ensures Valid()
      ensures this.callback == callback && this.treeHouseRB == treeHouseRB
      ensures !isBroken && !timeStarted && timeElapsed == 0.0
      ensures sawdustEmitter == null && requests == []
    {
      this.callback := callback;
      this.treeHouseRB := treeHouseRB;
      isBroken, timeStarted, timeElapsed := false, false, 0.0;
      sawdustEmitter := null;
      requests := [];
    }

    /**
     * BreakHouse: with no rigid-dynamic house body, nothing; otherwise the
     * house is removed and its pieces are added around the pose it had.
     */
    method BreakHouse(housePose: Vec3)
      modifies this
      ensures requests == old(requests) + HouseBreakRequests(treeHouseRB, housePose)
      ensures Controls() == old(Controls())
    {
      if treeHouseRB.None? {
        return;
      }
      if !treeHouseRB.value.isRigidDynamic {
        return;
      }
      ghost var before := requests;
      requests := requests + [Remove(HouseActor)];
      AddWalls(housePose);
      AddRoofsAndLogs(housePose);
      AddGables(housePose);
      AppendFour(before, [Remove(HouseActor)], Walls(housePose, 6), RoofsAndLogs(housePose, 3), Gables(housePose, 3));
    }

    /** BreakHouse's wall loop: six walls along x, mirrored at even indices. */
    method AddWalls(p: Vec3)
      modifies this
      ensures requests == old(requests) + Walls(p, 6)
      ensures Controls() == old(Controls())
    {
      for i := 0 to 6
        invariant requests == old(requests) + Walls(p, i)
        invariant Controls() == old(Controls())
      {
        requests := requests + [Add(Wall(ShiftX(p, (i - 2) as real * 0.5), i % 2 == 0))];
        assert Walls(p, i + 1) == Walls(p, i) + [Add(Wall(ShiftX(p, (i - 2) as real * 0.5), i % 2 == 0))];
      }
    }

    /** BreakHouse's roof loop: three roof pieces, each followed by a full-length log. */
    method AddRoofsAndLogs(p: Vec3)
      modifies this
      ensures requests == old(requests) + RoofsAndLogs(p, 3)
      ensures Controls() == old(Controls())
    {
      for i := 0 to 3
        invariant requests == old(requests) + RoofsAndLogs(p, i)
        invariant Controls() == old(Controls())
      {
        requests := requests + [Add(Roof(ShiftX(p, (i + 2) as real * 0.5), None))];
        requests := requests + [Add(Log(ShiftX(p, (i + 7) as real * 0.5), LogRadius, LogLength, LogDensity))];
      }
    }

    /** BreakHouse's gable loop, from 1 to 2: a roof piece with argument 2.0 and a shorter log at the same place. */
    method AddGables(p: Vec3)
      modifies this
      ensures requests == old(requests) + Gables(p, 3)
      ensures Controls() == old(Controls())
    {
      for i := 1 to 3
        invariant requests == old(requests) + Gables(p, i)
        invariant Controls() == old(Controls())
      {
        var q := ShiftX(p, (i - 5) as real * 0.5);
        requests := requests + [Add(Roof(q, Some(2.0)))];
        requests := requests + [Add(Log(q, LogRadius, LogLength - 1.0, LogDensity))];
      }
    }

    /** The break latch: set it, then break the house, on the first tick that sees `fallen`. */
    method BreakOnFall(housePose: Vec3) returns (ghost broke: bool)
      modifies this
      ensures (isBroken, broke) == BreakStep(callback.fallen, old(isBroken))
      ensures requests == old(requests) + (if broke then HouseBreakRequests(treeHouseRB, housePose) else [])
      ensures timeStarted == old(timeStarted) && timeElapsed == old(timeElapsed)
      ensures sawdustEmitter == old(sawdustEmitter)
    {
      broke := false;
      if callback.fallen && !isBroken {
        isBroken := true;
        broke := true;
        BreakHouse(housePose);
      }
    }

    /**
     * The cutting part of CustomUpdate. While the chainsaw trigger is set
     * and the tree has trunk parts, the timer runs, and unless the trunk-base
     * joint is broken trunk part 1 gets an impulse of 20000 times the elapsed
     * time and the emitter is created or moved back into place; otherwise an
     * existing emitter is removed from the scene and dropped.
     */
    method CutStep(dt: real, trunkParts: nat, jointBroken: bool) returns (ghost cutReqs: seq<SceneRequest>)
      requires Valid()
      requires callback.chainsawTrigger && trunkParts > 0 ==> trunkParts > CutTrunkPart
      modifies this
      ensures Valid()
      ensures var cutting := callback.chainsawTrigger && trunkParts > 0;
        && (timeStarted, timeElapsed) == (if cutting then TimerStep(old(timeStarted), old(timeElapsed), dt)
                                          else (old(timeStarted), old(timeElapsed)))
        && var action := EmitterRule(cutting, jointBroken, old(sawdustEmitter) != null);
        && (sawdustEmitter != null <==> EmitterAfter(action, old(sawdustEmitter) != null))
        && (action == Create ==>
              && fresh(sawdustEmitter) && sawdustEmitter.pose == EmitterPose
              && sawdustEmitter.emitRate == EmitterRate && sawdustEmitter.maxParticles == EmitterMaxParticles
              && sawdustEmitter.particles == [] && sawdustEmitter.numEmitted == 0
              && sawdustEmitter.timeSinceLastEmit == 0.0
              && cutReqs == [Impulse(CutTrunkPart, ImpulsePerSecond * timeElapsed), Add(SawdustEmitter(sawdustEmitter))])
        && (action == Reposition ==>
              && sawdustEmitter == old(sawdustEmitter)
              && cutReqs == [Impulse(CutTrunkPart, ImpulsePerSecond * timeElapsed), SetPose(SawdustEmitter(sawdustEmitter), EmitterPose)])
        && (action == Teardown ==> cutReqs == [Remove(SawdustEmitter(old(sawdustEmitter)))])
        && (action == Leave ==> sawdustEmitter == old(sawdustEmitter) && cutReqs == [])
      ensures requests == old(requests) + cutReqs
      ensures isBroken == old(isBroken)
    {
      ghost var before := requests;
      if callback.chainsawTrigger && trunkParts > 0 {
        if !timeStarted {
          timeElapsed := 0.0;
          timeStarted := true;
        } else {
          timeElapsed := timeElapsed + dt;
        }
        var trunk := CutTrunkPart;
        if !jointBroken {
          requests := requests + [Impulse(trunk, ImpulsePerSecond * timeElapsed)];
          if sawdustEmitter == null {
            var e := new Emitter(EmitterPose, EmitterRate, EmitterMaxParticles);
            sawdustEmitter := e;
            requests := requests + [Add(SawdustEmitter(e))];
          } else {
            requests := requests + [SetPose(SawdustEmitter(sawdustEmitter), EmitterPose)];
          }
        }
      } else if sawdustEmitter != null {
        requests := requests + [Remove(SawdustEmitter(sawdustEmitter))];
        sawdustEmitter := null;
      }
      cutReqs := requests[|before|..];
    }

    /** The promotion loop: each listed particle not yet in the scene is added to it and flagged, in list order. */
    method PromoteParticles(ps: seq<Particle>) returns (ghost added: seq<SceneRequest>)
      requires Distinct(ps)
      modifies this, set p | p in ps
      ensures requests == old(requests) + added
      ensures added == Promotions(ps, old(Scenes(ps)), |ps|)
      ensures forall k :: 0 <= k < |ps| ==> ps[k].inScene && ps[k].lifeSpan == old(ps[k].lifeSpan)
      ensures Controls() == old(Controls())
    {
      ghost var before := Scenes(ps);
      added := [];
      for j := 0 to |ps|
        invariant forall k :: 0 <= k < |ps| ==> ps[k].inScene == (k < j || before[k])
        invariant forall k :: 0 <= k < |ps| ==> ps[k].lifeSpan == old(ps[k].lifeSpan)
        invariant added == Promotions(ps, before, j)
        invariant requests == old(requests) + added
        invariant Controls() == old(Controls())
      {
        DistinctAt(ps, j);
        PromoteOne(ps[j]);
        added := added + if before[j] then [] else [Add(ParticleActor(ps[j]))];
      }
    }

    /** One turn of the promotion loop: the particle is added and flagged unless it is in the scene. */
    method PromoteOne(part: Particle)
      modifies this, part
      ensures part.inScene && part.lifeSpan == old(part.lifeSpan)
      ensures requests == old(requests) + if old(part.inScene) then [] else [Add(ParticleActor(part))]
      ensures Controls() == old(Controls())
    {
      if !part.inScene {
        requests := requests + [Add(ParticleActor(part))];
        part.inScene := true;
      }
    }

    /** The removal loop: each particle of the list is removed from the scene, in order. */
    method RemoveParticles(dead: seq<Particle>)
      modifies this
      ensures requests == old(requests) + Removals(dead)
      ensures Controls() == old(Controls())
    {
      for j := 0 to |dead|
        invariant requests == old(requests) + Removals(dead)[..j]
        invariant Controls() == old(Controls())
      {
        requests := requests + [Remove(ParticleActor(dead[j]))];
        assert Removals(dead)[..j + 1] == Removals(dead)[..j] + [Remove(ParticleActor(dead[j]))];
      }
      assert Removals(dead)[..|dead|] == Removals(dead);
    }

    /**
     * The two loops of CustomUpdate after the emitter's update, and the
     * clearing of its dead list. Given that exactly the newly emitted
     * listed particles are out of the scene and that the dead ones are dead
     * and in the scene: exactly the new ones are added, in list order; the
     * dead ones are removed; and afterwards every listed particle is in the
     * scene, the emitter is consistent and its dead list is empty.
     */
    method SyncParticles(e: Emitter, ghost emitted: seq<Particle>)
      returns (ghost added: seq<SceneRequest>, ghost removed: seq<Particle>)
      requires e.Valid()
      requires forall k :: 0 <= k < |e.particles| ==> e.particles[k].inScene == (e.particles[k] !in emitted)
      requires forall p :: p in e.deadParticles ==> p.IsDead() && p.inScene
      modifies this, e, set p | p in e.particles
      ensures e.Valid() && e.deadParticles == [] && e.particles == old(e.particles)
      ensures e.numEmitted == old(e.numEmitted) && e.timeSinceLastEmit == old(e.timeSinceLastEmit)
      ensures forall k :: 0 <= k < |e.particles| ==> e.particles[k].inScene
      ensures requests == old(requests) + added + Removals(removed)
      ensures added == Promotions(e.particles, Carried(e.particles, emitted), |e.particles|)
      ensures forall r :: r in added <==>
        exists k :: 0 <= k < |e.particles| && e.particles[k] in emitted && r == Add(ParticleActor(e.particles[k]))
      ensures removed == old(e.deadParticles)
      ensures forall p :: p in removed ==> p.IsDead() && p.inScene && p !in e.particles
      ensures Controls() == old(Controls())
    {
      var ps := e.GetParticles();
      assert Scenes(ps) == Carried(ps, emitted);
      added := PromoteParticles(ps);
      PromotionsExactly(ps, Carried(ps, emitted), |ps|);
      var dead := e.GetDeadParticles();
      RemoveParticles(dead);
      removed := dead;
      e.ClearDeadParticles();
    }

    /**
     * The emitter's update as the scene sees it, when every particle it
     * lists is in the scene and its dead list is empty: the listed particles
     * are old or newly emitted, exactly the new ones are out of the scene,
     * the dead ones are dead and in the scene, and no particle is lost.
     */
    static method UpdateEmitter(e: Emitter, dt: real) returns (ghost emitted: seq<Particle>)
      requires e.Valid() && e.deadParticles == []
      requires forall k :: 0 <= k < |e.particles| ==> e.particles[k].inScene
      modifies e, e.particles
      ensures e.Valid()
      ensures e.timeSinceLastEmit == old(e.timeSinceLastEmit) + dt
      ensures |emitted| == EmitBudget(EmitCount(e.emitRate, e.timeSinceLastEmit), old(e.numEmitted), e.maxParticles)
      ensures e.numEmitted == old(e.numEmitted) + |emitted|
      ensures old(e.numEmitted) <= e.maxParticles ==> e.numEmitted <= e.maxParticles
      ensures forall k :: 0 <= k < |emitted| ==> fresh(emitted[k])
      ensures forall p :: p in e.particles ==> p in old(e.particles) || p in emitted
      ensures forall k :: 0 <= k < |e.particles| ==> e.particles[k].inScene == (e.particles[k] !in emitted)
      ensures forall p :: p in e.deadParticles ==> p.IsDead() && p.inScene
      ensures multiset(e.particles) + multiset(e.deadParticles) == multiset(old(e.particles) + emitted)
    {
      ghost var olds, lives0, flags0 := e.particles, Lives(e.particles), Scenes(e.particles);
      emitted := e.Update(dt);
      assert e.deadParticles[0..] == e.deadParticles;
      UpdatedListsReady(e, olds, flags0, emitted, Sweep(lives0 + FreshLives(|emitted|)));
    }

    /**
     * The particle part of CustomUpdate: the emitter, if any, is updated;
     * exactly its newly emitted particles that are still listed are added to
     * the scene, in list order, so no particle is added twice; then every
     * particle the update found dead is removed (each was in the scene and
     * is dead), and the dead list is cleared. No particle is lost: the
     * listed and the removed ones are the old ones and the emitted ones.
     */
    method ParticleStep(dt: real)
      returns (ghost emitted: seq<Particle>, ghost added: seq<SceneRequest>, ghost removed: seq<Particle>)
      requires Valid()
      modifies this, sawdustEmitter, if sawdustEmitter != null then sawdustEmitter.particles else []
      ensures Valid()
      ensures Controls() == old(Controls())
      ensures requests == old(requests) + added + Removals(removed)
      ensures sawdustEmitter == null ==> emitted == [] && added == [] && removed == []
      ensures sawdustEmitter != null ==>
        var e := sawdustEmitter;
        && e.timeSinceLastEmit == old(sawdustEmitter.timeSinceLastEmit) + dt
        && |emitted| == EmitBudget(EmitCount(e.emitRate, e.timeSinceLastEmit), old(sawdustEmitter.numEmitted), e.maxParticles)
        && e.numEmitted == old(sawdustEmitter.numEmitted) + |emitted|
      ensures sawdustEmitter != null ==>
        var ps := sawdustEmitter.particles;
        && (forall k :: 0 <= k < |emitted| ==> fresh(emitted[k]))
        && added == Promotions(ps, Carried(ps, emitted), |ps|)
        && (forall r :: r in added <==> exists k :: 0 <= k < |ps| && ps[k] in emitted && r == Add(ParticleActor(ps[k])))
        && (forall p :: p in removed ==> p.IsDead() && p.inScene && p !in ps)
        && multiset(ps) + multiset(removed) == multiset(old(sawdustEmitter.particles) + emitted)
    {
      emitted, added, removed := [], [], [];
      if sawdustEmitter != null {
        var e := sawdustEmitter;
        emitted := UpdateEmitter(e, dt);
        added, removed := SyncParticles(e, emitted);
      }
    }


    /**
     * MyScene::CustomUpdate for one tick of `dt` seconds: the break latch,
     * then the cutting step, then the particle step, each making its requests
     * in that order. `trunkParts` is the number of trunk parts, `jointBroken`
     * whether the trunk-base joint is broken and `housePose` the cabin's pose.
     */
    method CustomUpdate(dt: real, trunkParts: nat, jointBroken: bool, housePose: Vec3)
      returns (ghost breakReqs: seq<SceneRequest>, ghost cutReqs: seq<SceneRequest>,
               ghost emitted: seq<Particle>, ghost added: seq<SceneRequest>, ghost removed: seq<Particle>)
      requires Valid()
      requires callback.chainsawTrigger && trunkParts > 0 ==> trunkParts > CutTrunkPart
      modifies this, sawdustEmitter, if sawdustEmitter != null then sawdustEmitter.particles else []
      ensures Valid()
      ensures requests == old(requests) + breakReqs + cutReqs + added + Removals(removed)
      ensures isBroken == (old(isBroken) || callback.fallen)
      ensures breakReqs == if callback.fallen && !old(isBroken) then HouseBreakRequests(treeHouseRB, housePose) else []
      ensures var cutting := callback.chainsawTrigger && trunkParts > 0;
        && (timeStarted, timeElapsed) == (if cutting then TimerStep(old(timeStarted), old(timeElapsed), dt)
                                          else (old(timeStarted), old(timeElapsed)))
        && var action := EmitterRule(cutting, jointBroken, old(sawdustEmitter) != null);
        && (sawdustEmitter != null <==> EmitterAfter(action, old(sawdustEmitter) != null))
        && (action == Create ==>
              && fresh(sawdustEmitter) && sawdustEmitter.pose == EmitterPose
              && sawdustEmitter.emitRate == EmitterRate && sawdustEmitter.maxParticles == EmitterMaxParticles
              && cutReqs == [Impulse(CutTrunkPart, ImpulsePerSecond * timeElapsed), Add(SawdustEmitter(sawdustEmitter))])
        && (action == Reposition ==>
              && sawdustEmitter == old(sawdustEmitter)
              && cutReqs == [Impulse(CutTrunkPart, ImpulsePerSecond * timeElapsed), SetPose(SawdustEmitter(sawdustEmitter), EmitterPose)])
        && (action == Teardown ==> cutReqs == [Remove(SawdustEmitter(old(sawdustEmitter)))])
        && (action == Leave ==> sawdustEmitter == old(sawdustEmitter) && cutReqs == [])
      ensures sawdustEmitter == null ==> emitted == [] && added == [] && removed == []
      ensures sawdustEmitter != null ==>
        var ps := sawdustEmitter.particles;
        && (forall k :: 0 <= k < |emitted| ==> fresh(emitted[k]))
        && added == Promotions(ps, Carried(ps, emitted), |ps|)
        && (forall r :: r in added <==> exists k :: 0 <= k < |ps| && ps[k] in emitted && r == Add(ParticleActor(ps[k])))
        && (forall p :: p in removed ==> p.IsDead() && p.inScene && p !in ps)
      // an emitter kept from the last tick: its clock and count advance, and no particle is lost
      ensures sawdustEmitter != null && sawdustEmitter == old(sawdustEmitter) ==>
        var e := sawdustEmitter;
        && e.timeSinceLastEmit == old(sawdustEmitter.timeSinceLastEmit) + dt
        && |emitted| == EmitBudget(EmitCount(e.emitRate, e.timeSinceLastEmit), old(sawdustEmitter.numEmitted), e.maxParticles)
        && e.numEmitted == old(sawdustEmitter.numEmitted) + |emitted|
        && multiset(e.particles) + multiset(removed) == multiset(old(sawdustEmitter.particles) + emitted)
      // an emitter created this tick: it starts from nothing, with an empty list, and is updated once
      ensures sawdustEmitter != null && sawdustEmitter != old(sawdustEmitter) ==>
        var e := sawdustEmitter;
        && e.emitRate == EmitterRate
        && e.timeSinceLastEmit == dt
        && |emitted| == EmitBudget(EmitCount(e.emitRate, dt), 0, e.maxParticles)
        && e.numEmitted == |emitted|
        && multiset(e.particles) + multiset(removed) == multiset(emitted)
    {
      ghost var broke := BreakOnFall(housePose);
      breakReqs := if broke then HouseBreakRequests(treeHouseRB, housePose) else [];
      cutReqs := CutStep(dt, trunkParts, jointBroken);
      emitted, added, removed := ParticleStep(dt);
    }
  }
}
