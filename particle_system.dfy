/**
 * The sawdust particle system: a Particle counts its life down by 2 per
 * update from 100, and an Emitter appends new particles at a rate bounded by
 * a lifetime maximum, ages its particles and moves the dead ones to a
 * separate list.
 *
 * The aging pass erases a dead particle from the list and still advances its
 * index, so the particle that slides into the erased slot is neither aged nor
 * checked in that pass. `Sweep` states the pass on the particles' lifespans
 * with that skip written out; `Kept` and `Died` split the list by the fates
 * it returns.
 *
 * lifeSpan is a float in the source whose values (100, 98, ..., 0, -2) are
 * exact, so it is an int here. Particle velocity, colour and pose are not
 * modelled.
 */
module ParticleSystem {
  import opened Basics

  const InitialLifeSpan: int := 100
  const LifeSpanDecrement: int := 2

  class Particle {
    var lifeSpan: int
    var inScene: bool

    constructor ()
      ensures lifeSpan == InitialLifeSpan && !inScene
    {
      lifeSpan := InitialLifeSpan;
      inScene := false;
    }

    /** Particle::Update: one step of aging. */
    method Update()
      modifies this
      ensures lifeSpan == old(lifeSpan) - LifeSpanDecrement
      ensures inScene == old(inScene)
    {
      lifeSpan := lifeSpan - LifeSpanDecrement;
    }

    /** Particle::isDead */
    predicate IsDead()
      reads this
      ensures lifeSpan == InitialLifeSpan ==> !IsDead()
    {
      lifeSpan < 0
    }
  }

  /** The lifespan of a fresh particle after `n` calls of Particle::Update. */
  function LifeAfter(n: nat): int
  {
    if n == 0 then InitialLifeSpan else LifeAfter(n - 1) - LifeSpanDecrement
  }

  /** A particle is alive for its first 50 updates and dead from the 51st on. */
  lemma {:induction false} DeadFromUpdate51(n: nat)
    ensures LifeAfter(n) == InitialLifeSpan - LifeSpanDecrement * n
    ensures LifeAfter(n) < 0 <==> n >= 51
  {
    if n > 0 {
      DeadFromUpdate51(n - 1);
    }
  }

  /** What one pass of Emitter::Update does to the particle at a given position. */
  datatype Fate =
    | Live(life: int)     // looked at and not dead after the aging step: stays in the list
    | Dead(life: int)     // dead after the aging step: moved to the dead list
    | Skipped(life: int)  // slid into the slot of a particle just erased: not looked at

  /** The aging step of the pass: `if (!particle->isDead()) particle->Update();` */
  function Aged(life: int): (r: int)
    ensures life >= 0 ==> r == life - LifeSpanDecrement
    ensures life < 0 ==> r == life
  {
    if life < 0 then life else life - LifeSpanDecrement
  }

  /**
   * The fates the aging pass gives to particles with lifespans `lives`, in
   * list order: each looked-at particle is aged, and when it is then dead it
   * is erased and the next one is skipped.
   */
  function Sweep(lives: seq<int>): (fates: seq<Fate>)
    ensures |fates| == |lives|
    decreases |lives|
  {
    if lives == [] then []
    else
      var a := Aged(lives[0]);
      if a < 0 then
        if |lives| == 1 then [Dead(a)] else [Dead(a), Skipped(lives[1])] + Sweep(lives[2..])
      else
        [Live(a)] + Sweep(lives[1..])
  }

  /**
   * The fate of each position: a skipped particle keeps its lifespan and
   * follows a dead one; every other particle is aged, and dies iff the aged
   * lifespan is negative; the particle right after one that died is always
   * skipped.
   */
  lemma {:induction false} SweepFates(lives: seq<int>)
    ensures forall k :: 0 <= k < |lives| && Sweep(lives)[k].Skipped? ==>
      Sweep(lives)[k].life == lives[k] && 0 < k && Sweep(lives)[k - 1].Dead?
    ensures forall k :: 0 <= k < |lives| && !Sweep(lives)[k].Skipped? ==>
      Sweep(lives)[k].life == Aged(lives[k]) && (Sweep(lives)[k].Dead? <==> Aged(lives[k]) < 0)
    ensures forall k :: 0 <= k < |lives| - 1 && Sweep(lives)[k].Dead? ==>
      Sweep(lives)[k + 1] == Skipped(lives[k + 1])
    decreases |lives|
  {
    if lives != [] {
      var f := Sweep(lives);
      var a := Aged(lives[0]);
      if a < 0 && |lives| > 1 {
        var rest := lives[2..];
        SweepFates(rest);
        assert f == [Dead(a), Skipped(lives[1])] + Sweep(rest);
        forall k | 2 <= k < |lives|
          ensures f[k] == Sweep(rest)[k - 2] && lives[k] == rest[k - 2]
        {
        }
      } else if a >= 0 {
        var rest := lives[1..];
        SweepFates(rest);
        assert f == [Live(a)] + Sweep(rest);
        forall k | 1 <= k < |lives|
          ensures f[k] == Sweep(rest)[k - 1] && lives[k] == rest[k - 1]
        {
        }
      }
    }
  }

  /**
   * When every particle is alive before the pass, exactly the ones moved to
   * the dead list are dead afterwards, and only a particle with a lifespan
   * below 2 can die.
   */
  lemma SweepLiveness(lives: seq<int>)
    requires forall k :: 0 <= k < |lives| ==> lives[k] >= 0
    ensures forall k :: 0 <= k < |lives| ==> (Sweep(lives)[k].Dead? <==> Sweep(lives)[k].life < 0)
    ensures forall k :: 0 <= k < |lives| && Sweep(lives)[k].Dead? ==> lives[k] < LifeSpanDecrement
  {
    SweepFates(lives);
  }

  /**
   * The facts about one looked-at position that the aging loop steps on: its
   * fate carries the aged lifespan and is Dead iff that is negative; after a
   * Dead comes a Skipped with the next lifespan, and the position after a
   * Live or a Skipped is looked at.
   */
  lemma SweepFateAt(lives: seq<int>, j: nat)
    requires j < |lives|
    requires j == 0 || !Sweep(lives)[j].Skipped?
    ensures var f := Sweep(lives);
      && !f[j].Skipped?
      && f[j].life == Aged(lives[j])
      && (f[j].Dead? <==> Aged(lives[j]) < 0)
      && (!f[j].Dead? && j + 1 < |lives| ==> !f[j + 1].Skipped?)
      && (f[j].Dead? && j + 1 < |lives| ==> f[j + 1] == Skipped(lives[j + 1]))
      && (f[j].Dead? && j + 2 < |lives| ==> !f[j + 2].Skipped?)
  {
    SweepFates(lives);
  }

  /** The lifespans the fates leave behind, in list order. */
  function LivesOf(fates: seq<Fate>): (lives: seq<int>)
    ensures |lives| == |fates|
    ensures forall k :: 0 <= k < |fates| ==> lives[k] == fates[k].life
    decreases |fates|
  {
    if fates == [] then [] else LivesOf(fates[..|fates| - 1]) + [fates[|fates| - 1].life]
  }

  /** The elements whose fate is not Dead, in their original order. */
  function Kept<T>(xs: seq<T>, fates: seq<Fate>): (r: seq<T>)
    requires |xs| == |fates|
    ensures |r| <= |xs|
    ensures forall x :: x in r ==> x in xs
    decreases |xs|
  {
    if xs == [] then []
    else
      Kept(xs[..|xs| - 1], fates[..|fates| - 1]) +
      (if fates[|fates| - 1].Dead? then [] else [xs[|xs| - 1]])
  }

  /** The elements whose fate is Dead, in their original order. */
  function Died<T>(xs: seq<T>, fates: seq<Fate>): (r: seq<T>)
    requires |xs| == |fates|
    ensures |r| <= |xs|
    ensures forall x :: x in r ==> x in xs
    decreases |xs|
  {
    if xs == [] then []
    else
      Died(xs[..|xs| - 1], fates[..|fates| - 1]) +
      (if fates[|fates| - 1].Dead? then [xs[|xs| - 1]] else [])
  }

  /** Extending the split by one position appends that position's element to one side. */
  lemma KeptStep<T>(xs: seq<T>, fates: seq<Fate>, j: nat)
    requires |xs| == |fates| && j < |xs|
    ensures Kept(xs[..j + 1], fates[..j + 1]) == Kept(xs[..j], fates[..j]) + (if fates[j].Dead? then [] else [xs[j]])
    ensures Died(xs[..j + 1], fates[..j + 1]) == Died(xs[..j], fates[..j]) + (if fates[j].Dead? then [xs[j]] else [])
  {
    assert xs[..j + 1][..j] == xs[..j];
    assert fates[..j + 1][..j] == fates[..j];
  }

  /** Splitting by fates loses and duplicates nothing. */
  lemma {:induction false} KeptDiedPartition<T>(xs: seq<T>, fates: seq<Fate>)
    requires |xs| == |fates|
    ensures multiset(Kept(xs, fates)) + multiset(Died(xs, fates)) == multiset(xs)
    decreases |xs|
  {
    if xs != [] {
      var n := |xs| - 1;
      var prefix, fs := xs[..n], fates[..n];
      KeptDiedPartition(prefix, fs);
      assert xs == prefix + [xs[n]];
      if fates[n].Dead? {
        assert Kept(xs, fates) == Kept(prefix, fs);
        assert Died(xs, fates) == Died(prefix, fs) + [xs[n]];
      } else {
        assert Kept(xs, fates) == Kept(prefix, fs) + [xs[n]];
        assert Died(xs, fates) == Died(prefix, fs);
      }
    }
  }

  /** Every kept element sits at a position whose fate is not Dead; every dead one at a Dead position. */
  lemma {:induction false} KeptDiedMembers<T>(xs: seq<T>, fates: seq<Fate>)
    requires |xs| == |fates|
    ensures forall x :: x in Kept(xs, fates) ==> exists k :: 0 <= k < |xs| && xs[k] == x && !fates[k].Dead?
    ensures forall x :: x in Died(xs, fates) ==> exists k :: 0 <= k < |xs| && xs[k] == x && fates[k].Dead?
    decreases |xs|
  {
    if xs != [] {
      var n := |xs| - 1;
      KeptDiedMembers(xs[..n], fates[..n]);
      forall x | x in Kept(xs, fates)
        ensures exists k :: 0 <= k < |xs| && xs[k] == x && !fates[k].Dead?
      {
        if x in Kept(xs[..n], fates[..n]) {
          var k :| 0 <= k < n && xs[..n][k] == x && !fates[..n][k].Dead?;
          assert xs[k] == x && !fates[k].Dead?;
        } else {
          assert xs[n] == x && !fates[n].Dead?;
        }
      }
      forall x | x in Died(xs, fates)
        ensures exists k :: 0 <= k < |xs| && xs[k] == x && fates[k].Dead?
      {
        if x in Died(xs[..n], fates[..n]) {
          var k :| 0 <= k < n && xs[..n][k] == x && fates[..n][k].Dead?;
          assert xs[k] == x && fates[k].Dead?;
        } else {
          assert xs[n] == x && fates[n].Dead?;
        }
      }
    }
  }

  /** Positions `a` and `b` of `xs` hold different elements. */
  ghost predicate Apart<T>(xs: seq<T>, a: int, b: int)
    requires 0 <= a < |xs| && 0 <= b < |xs|
  {
    xs[a] != xs[b]
  }

  /** No element occurs twice (no particle is listed twice). */
  ghost predicate Distinct<T>(xs: seq<T>)
  {
    forall a, b :: 0 <= a < b < |xs| ==> Apart(xs, a, b)
  }

  /** In a list without repeats, the element at `j` occurs at no other position. */
  lemma DistinctAt<T>(xs: seq<T>, j: int)
    requires Distinct(xs) && 0 <= j < |xs|
    ensures forall k :: 0 <= k < |xs| && k != j ==> xs[k] != xs[j]
  {
    forall k | 0 <= k < |xs| && k != j
      ensures xs[k] != xs[j]
    {
      if k < j {
        assert Apart(xs, k, j);
      } else {
        assert Apart(xs, j, k);
      }
    }
  }

  /** Keeping some elements of a list without repeats gives a list without repeats. */
  lemma {:induction false} KeptDistinct<T>(xs: seq<T>, fates: seq<Fate>)
    requires |xs| == |fates|
    requires Distinct(xs)
    ensures Distinct(Kept(xs, fates))
    decreases |xs|
  {
    if xs != [] {
      var n := |xs| - 1;
      var prefix, fs := xs[..n], fates[..n];
      assert Distinct(prefix) by {
        forall a, b | 0 <= a < b < |prefix|
          ensures Apart(prefix, a, b)
        {
          assert Apart(xs, a, b);
        }
      }
      KeptDistinct(prefix, fs);
      if fates[n].Dead? {
        assert Kept(xs, fates) == Kept(prefix, fs);
      } else {
        KeptDiedMembers(prefix, fs);
        var k := Kept(prefix, fs);
        assert Kept(xs, fates) == k + [xs[n]];
        DistinctAt(xs, n);
        assert xs[n] !in k;
        forall a, b | 0 <= a < b < |k| + 1
          ensures Apart(k + [xs[n]], a, b)
        {
          if b < |k| {
            assert Apart(k, a, b);
          } else {
            assert (k + [xs[n]])[a] == k[a] && k[a] in k;
          }
        }
      }
    }
  }

  /** The particles' current lifespans, in list order. */
  ghost function Lives(ps: seq<Particle>): (ls: seq<int>)
    reads set p | p in ps
    ensures |ls| == |ps|
    ensures forall k {:trigger ls[k]} :: 0 <= k < |ps| ==> ls[k] == ps[k].lifeSpan
    decreases |ps|
  {
    if ps == [] then [] else Lives(ps[..|ps| - 1]) + [ps[|ps| - 1].lifeSpan]
  }

  /** Whether each particle is in the scene, in list order. */
  ghost function Scenes(ps: seq<Particle>): (fs: seq<bool>)
    reads set p | p in ps
    ensures |fs| == |ps|
    ensures forall k {:trigger fs[k]} :: 0 <= k < |ps| ==> fs[k] == ps[k].inScene
    decreases |ps|
  {
    if ps == [] then [] else Scenes(ps[..|ps| - 1]) + [ps[|ps| - 1].inScene]
  }

  /**
   * After aging the particle at position `j` and leaving every other one
   * alone, the lifespans read as before except at `j`, and the scene flags
   * as before.
   */
  lemma LivesAfterAging(ps: seq<Particle>, j: int, before: seq<int>, scenes: seq<bool>)
    requires 0 <= j < |ps| == |before| == |scenes|
    requires forall k :: 0 <= k < |ps| && k != j ==> ps[k].lifeSpan == before[k]
    requires forall k :: 0 <= k < |ps| ==> ps[k].inScene == scenes[k]
    ensures Lives(ps) == before[j := ps[j].lifeSpan]
    ensures Scenes(ps) == scenes
  {
    var after, sAfter := Lives(ps), Scenes(ps);
    assert forall k :: 0 <= k < |ps| ==> after[k] == before[j := ps[j].lifeSpan][k];
    assert forall k :: 0 <= k < |ps| ==> sAfter[k] == scenes[k];
  }

  /** `int(x)`: float-to-int conversion, which truncates toward zero. */
  function TruncateToInt(x: real): (n: int)
    ensures x >= 0.0 ==> n as real <= x < n as real + 1.0
    ensures x < 0.0 ==> n as real - 1.0 < x <= n as real
  {
    if x >= 0.0 then x.Floor else -((-x).Floor)
  }

  /** `int(emitRate * timeSinceLastEmit)`. */
  function EmitCount(rate: real, elapsed: real): (n: int)
    ensures rate * elapsed >= 0.0 ==> 0 <= n && n as real <= rate * elapsed < n as real + 1.0
    ensures rate * elapsed < 1.0 ==> n <= 0
  {
    TruncateToInt(rate * elapsed)
  }

  /**
   * How many particles the emission loop creates: `emitCount` of them, but
   * none once `numEmitted` has reached `maxParticles`.
   */
  function EmitBudget(emitCount: int, numEmitted: int, maxParticles: int): (n: nat)
    ensures n <= MaxInt(emitCount, 0)
    ensures n == 0 <==> emitCount <= 0 || numEmitted >= maxParticles
    ensures numEmitted < maxParticles ==> numEmitted + n <= maxParticles
    ensures n < emitCount ==> numEmitted + n >= maxParticles
  {
    if emitCount <= 0 || numEmitted >= maxParticles then 0
    else if emitCount <= maxParticles - numEmitted then emitCount
    else maxParticles - numEmitted
  }

  /** Erasing the element at position `|a|` of `a + xs[j..]`. */
  lemma EraseAt<T>(s: seq<T>, a: seq<T>, xs: seq<T>, j: nat)
    requires j < |xs| && s == a + xs[j..]
    ensures s[|a|] == xs[j]
    ensures s[..|a|] + s[|a| + 1..] == a + xs[j + 1..]
  {
    assert s[..|a|] == a;
    assert s[|a| + 1..] == xs[j + 1..];
  }

  /**
   * The aging pass over `xs` with fates `fates`, stopped before position `j`:
   * the list reads the kept elements followed by the unvisited ones, the dead
   * list has grown by the dead ones, and the index `i` points at position `j`
   * (or one past the end after erasing the last element).
   */
  ghost predicate SweptUpTo<T>(xs: seq<T>, fates: seq<Fate>, dead0: seq<T>, j: nat, ps: seq<T>, dps: seq<T>, i: int)
  {
    && j <= |xs| == |fates|
    && (j < |xs| ==> !fates[j].Skipped?)
    && ps == Kept(xs[..j], fates[..j]) + xs[j..]
    && dps == dead0 + Died(xs[..j], fates[..j])
    && (i == |Kept(xs[..j], fates[..j])| || (j == |xs| && i == |Kept(xs[..j], fates[..j])| + 1))
  }

  /** Before the first step nothing is visited. */
  lemma SweptUpToStart<T>(xs: seq<T>, fates: seq<Fate>, dead0: seq<T>)
    requires |xs| == |fates| && (|xs| > 0 ==> !fates[0].Skipped?)
    ensures SweptUpTo(xs, fates, dead0, 0, xs, dead0, 0)
  {
    assert xs[..0] == [] && fates[..0] == [] && xs[0..] == xs;
  }

  /** A step that keeps the element at `i`: both `j` and `i` advance by one. */
  lemma SweptUpToLive<T>(xs: seq<T>, fates: seq<Fate>, dead0: seq<T>, j: nat, ps: seq<T>, dps: seq<T>, i: int)
    requires SweptUpTo(xs, fates, dead0, j, ps, dps, i) && i < |ps|
    requires !fates[j].Dead?
    requires j + 1 < |xs| ==> !fates[j + 1].Skipped?
    ensures j < |xs| && 0 <= i && ps[i] == xs[j]
    ensures SweptUpTo(xs, fates, dead0, j + 1, ps, dps, i + 1)
  {
    var k := Kept(xs[..j], fates[..j]);
    EraseAt(ps, k, xs, j);
    KeptStep(xs, fates, j);
    assert xs[j..] == [xs[j]] + xs[j + 1..];
    assert ps == (k + [xs[j]]) + xs[j + 1..];
  }

  /**
   * A step that moves the element at `i` to the dead list and erases it: the
   * element after it slides into position `i` and is passed over when `i`
   * advances.
   */
  lemma SweptUpToDead<T>(xs: seq<T>, fates: seq<Fate>, dead0: seq<T>, j: nat, ps: seq<T>, dps: seq<T>, i: int)
    requires SweptUpTo(xs, fates, dead0, j, ps, dps, i) && i < |ps|
    requires fates[j].Dead?
    requires j + 1 < |xs| ==> fates[j + 1].Skipped?
    requires j + 2 < |xs| ==> !fates[j + 2].Skipped?
    ensures j < |xs| && 0 <= i && ps[i] == xs[j]
    ensures SweptUpTo(xs, fates, dead0, if j + 1 < |xs| then j + 2 else j + 1,
                      ps[..i] + ps[i + 1..], dps + [ps[i]], i + 1)
  {
    var k := Kept(xs[..j], fates[..j]);
    EraseAt(ps, k, xs, j);
    KeptStep(xs, fates, j);
    assert dps + [xs[j]] == dead0 + (Died(xs[..j], fates[..j]) + [xs[j]]);
    if j + 1 < |xs| {
      KeptStep(xs, fates, j + 1);
      assert xs[j + 1..] == [xs[j + 1]] + xs[j + 2..];
      assert k + xs[j + 1..] == (k + [xs[j + 1]]) + xs[j + 2..];
    } else {
      assert xs[j + 1..] == [];
    }
  }

  /** Where the pass stands: the element at `i` is the one at `j`. */
  lemma SweptUpToHead<T>(xs: seq<T>, fates: seq<Fate>, dead0: seq<T>, j: nat, ps: seq<T>, dps: seq<T>, i: int)
    requires SweptUpTo(xs, fates, dead0, j, ps, dps, i) && i < |ps|
    ensures j < |xs| && 0 <= i && ps[i] == xs[j]
  {
    EraseAt(ps, Kept(xs[..j], fates[..j]), xs, j);
  }

  /** When the index has run off the list, every position is visited and the split is complete. */
  lemma SweptAll<T>(xs: seq<T>, fates: seq<Fate>, dead0: seq<T>, j: nat, ps: seq<T>, dps: seq<T>, i: int)
    requires SweptUpTo(xs, fates, dead0, j, ps, dps, i) && i >= |ps|
    ensures j == |xs| && ps == Kept(xs, fates) && dps == dead0 + Died(xs, fates)
  {
    assert xs[..j] == xs && fates[..j] == fates && xs[j..] == [];
    assert ps == Kept(xs, fates) + [];
  }

  /** The lifespans part-way through the pass: positions before `j` carry their fates' lifespans. */
  ghost predicate AgedBefore(lv: seq<int>, fates: seq<Fate>, lives: seq<int>, j: int)
  {
    && |lv| == |fates| == |lives|
    && forall k :: 0 <= k < |lives| ==> lv[k] == if k < j then fates[k].life else lives[k]
  }

  /** Aging position `j` moves the boundary past it, and past a skipped position after it. */
  lemma AgedBeforeStep(lv: seq<int>, fates: seq<Fate>, lives: seq<int>, j: nat, next: nat)
    requires AgedBefore(lv, fates, lives, j) && j < |lives|
    requires next == j + 1 || (next == j + 2 && j + 1 < |lives| && fates[j + 1].life == lives[j + 1])
    ensures AgedBefore(lv[j := fates[j].life], fates, lives, next)
  {
  }

  /** At the end of the pass every position carries its fate's lifespan. */
  lemma AgedAll(lv: seq<int>, fates: seq<Fate>, lives: seq<int>)
    requires AgedBefore(lv, fates, lives, |lives|)
    ensures lv == LivesOf(fates)
  {
  }

  /** When each particle carries its fate's lifespan and only dead fates are negative, every kept particle is alive. */
  lemma KeptAreAlive(ps: seq<Particle>, fates: seq<Fate>)
    requires |ps| == |fates|
    requires Lives(ps) == LivesOf(fates)
    requires forall k :: 0 <= k < |fates| && !fates[k].Dead? ==> fates[k].life >= 0
    ensures forall k :: 0 <= k < |Kept(ps, fates)| ==> Kept(ps, fates)[k].lifeSpan >= 0
  {
    KeptDiedMembers(ps, fates);
    var kept := Kept(ps, fates);
    forall k | 0 <= k < |kept|
      ensures kept[k].lifeSpan >= 0
    {
      assert kept[k] in kept;
      var m :| 0 <= m < |ps| && ps[m] == kept[k] && !fates[m].Dead?;
      assert Lives(ps)[m] == LivesOf(fates)[m];
    }
  }

  /**
   * The pass keeps the emitter's invariant: from a list without repeats of
   * live particles, the kept ones are again without repeats and alive.
   */
  lemma SweepKeepsValid(ps: seq<Particle>, lives: seq<int>)
    requires Distinct(ps) && |ps| == |lives|
    requires forall k :: 0 <= k < |lives| ==> lives[k] >= 0
    requires Lives(ps) == LivesOf(Sweep(lives))
    ensures Distinct(Kept(ps, Sweep(lives)))
    ensures forall k :: 0 <= k < |Kept(ps, Sweep(lives))| ==> Kept(ps, Sweep(lives))[k].lifeSpan >= 0
  {
    SweepLiveness(lives);
    KeptDistinct(ps, Sweep(lives));
    KeptAreAlive(ps, Sweep(lives));
  }

  /** The lifespans of `n` freshly emitted particles. */
  function FreshLives(n: nat): (lives: seq<int>)
    ensures |lives| == n && forall k :: 0 <= k < n ==> lives[k] == InitialLifeSpan
  {
    seq(n, _ => InitialLifeSpan)
  }

  /** The scene flags of `n` freshly emitted particles: none is in the scene yet. */
  function NotInScene(n: nat): (flags: seq<bool>)
    ensures |flags| == n && forall k :: 0 <= k < n ==> !flags[k]
  {
    seq(n, _ => false)
  }

  /** One more fresh particle adds one initial lifespan and one cleared scene flag at the end. */
  lemma FreshSnoc(lives: seq<int>, scenes: seq<bool>, n: nat)
    ensures lives + FreshLives(n + 1) == (lives + FreshLives(n)) + [InitialLifeSpan]
    ensures scenes + NotInScene(n + 1) == (scenes + NotInScene(n)) + [false]
  {
    assert FreshLives(n + 1) == FreshLives(n) + [InitialLifeSpan];
    assert NotInScene(n + 1) == NotInScene(n) + [false];
  }

  /** Appending a particle appends its lifespan and its scene flag. */
  lemma LivesSnoc(ps: seq<Particle>, p: Particle)
    ensures Lives(ps + [p]) == Lives(ps) + [p.lifeSpan]
    ensures Scenes(ps + [p]) == Scenes(ps) + [p.inScene]
  {
    assert (ps + [p])[..|ps|] == ps;
  }

  /**
   * The particles the pass moves to the dead list are dead afterwards and
   * come from the first `n` positions, when every particle was alive before
   * and the ones from `n` on are fresh.
   */
  lemma DiedAreDead(ps: seq<Particle>, lives: seq<int>, n: nat)
    requires |ps| == |lives| && n <= |ps|
    requires forall k :: 0 <= k < |lives| ==> lives[k] >= 0
    requires forall k :: n <= k < |lives| ==> lives[k] == InitialLifeSpan
    requires Lives(ps) == LivesOf(Sweep(lives))
    ensures forall p :: p in Died(ps, Sweep(lives)) ==> p.IsDead() && p in ps[..n]
  {
    var fates := Sweep(lives);
    SweepLiveness(lives);
    KeptDiedMembers(ps, fates);
    forall p | p in Died(ps, fates)
      ensures p.IsDead() && p in ps[..n]
    {
      var k :| 0 <= k < |ps| && ps[k] == p && fates[k].Dead?;
      assert Lives(ps)[k] == LivesOf(fates)[k];
      assert k < n && ps[..n][k] == p;
    }
  }

  class Emitter {
    var particles: seq<Particle>
    var deadParticles: seq<Particle>
    const pose: Vec3
    const emitRate: real
    const maxParticles: int
    var numEmitted: int
    var timeSinceLastEmit: real

    /** The live list holds no particle twice, and every particle in it is alive. */
    ghost predicate Valid()
      reads this, particles
    {
      && Distinct(particles)
      && forall k :: 0 <= k < |particles| ==> particles[k].lifeSpan >= 0
    }

    constructor (pose: Vec3, rate: real, maxParticles: int)
      ensures Valid()
      ensures this.pose == pose && emitRate == rate && this.maxParticles == maxParticles
      ensures particles == [] && deadParticles == []
      ensures numEmitted == 0 && timeSinceLastEmit == 0.0
    {
      this.pose := pose;
      emitRate := rate;
      this.maxParticles := maxParticles;
      particles, deadParticles := [], [];
      numEmitted, timeSinceLastEmit := 0, 0.0;
    }

    /** Emitter::emit (bookkeeping only): one fresh particle, not in the scene, appended; one more emitted. */
    method Emit() returns (ghost particle: Particle)
      requires Valid()
      modifies this
      ensures Valid()
      ensures particles == old(particles) + [particle] && fresh(particle)
      ensures particle.lifeSpan == InitialLifeSpan && !particle.inScene
      ensures Lives(particles) == old(Lives(particles)) + [InitialLifeSpan]
      ensures Scenes(particles) == old(Scenes(particles)) + [false]
      ensures numEmitted == old(numEmitted) + 1
      ensures deadParticles == old(deadParticles) && timeSinceLastEmit == old(timeSinceLastEmit)
    {
      var p := new Particle();
      ghost var before := particles;
      particles := particles + [p];
      numEmitted := numEmitted + 1;
      forall a, b | 0 <= a < b < |particles|
        ensures Apart(particles, a, b)
      {
        if b < |before| {
          assert Apart(before, a, b);
        }
      }
      LivesSnoc(before, p);
      particle := p;
    }

    /** getParticles: a copy of the live list; reading it changes nothing. */
    function GetParticles(): (r: seq<Particle>)
      reads this
      ensures r == particles
    {
      particles
    }

    /** getDeadParticles: a copy of the dead list; reading it changes nothing. */
    function GetDeadParticles(): (r: seq<Particle>)
      reads this
      ensures r == deadParticles
    {
      deadParticles
    }

    /** ClearDeadParticles: empties the dead list and nothing else. */
    method ClearDeadParticles()
      modifies this
      ensures deadParticles == []
      ensures particles == old(particles) && numEmitted == old(numEmitted)
      ensures timeSinceLastEmit == old(timeSinceLastEmit)
    {
      deadParticles := [];
    }

    /**
     * The aging loop of Emitter::Update: positions are given their fates by
     * `Sweep` of the lifespans; the kept ones stay in order, the dead ones are
     * appended to the dead list, and each particle ends with its fate's lifespan.
     */
    method SweepDeadParticles()
      requires Valid()
      modifies this, particles
      ensures Valid()
      ensures var fates := Sweep(old(Lives(particles)));
        && particles == Kept(old(particles), fates)
        && deadParticles == old(deadParticles) + Died(old(particles), fates)
        && Lives(old(particles)) == LivesOf(fates)
      ensures Scenes(old(particles)) == old(Scenes(particles))
      ensures numEmitted == old(numEmitted) && timeSinceLastEmit == old(timeSinceLastEmit)
    {
      ghost var P, L := particles, Lives(particles);
      assert forall k :: 0 <= k < |L| ==> L[k] >= 0;
      particles, deadParticles := SweepList(particles, deadParticles);
      SweepKeepsValid(P, L);
    }

    /** The loop itself, over the live list `ps` and the dead list `dps`. */
    static method SweepList(ps: seq<Particle>, dps: seq<Particle>) returns (kept: seq<Particle>, dead: seq<Particle>)
      requires Distinct(ps)
      modifies set p | p in ps
      ensures var fates := Sweep(old(Lives(ps)));
        && kept == Kept(ps, fates)
        && dead == dps + Died(ps, fates)
        && Lives(ps) == LivesOf(fates)
      ensures Scenes(ps) == old(Scenes(ps))
    {
      kept, dead := ps, dps;
      ghost var L, S := Lives(ps), Scenes(ps);
      ghost var F := Sweep(L);
      ghost var lv := L;
      if |ps| > 0 {
        SweepFateAt(L, 0);
      }
      SweptUpToStart(ps, F, dps);
      ghost var j := 0;
      var i := 0;
      while i < |kept|
        invariant SweptUpTo(ps, F, dps, j, kept, dead, i)
        invariant Lives(ps) == lv && AgedBefore(lv, F, L, j)
        invariant Scenes(ps) == S
        decreases |ps| - j
      {
        kept, dead, j, lv := SweepOne(ps, L, dps, kept, dead, i, j, lv);
        i := i + 1;
      }
      SweptAll(ps, F, dps, j, kept, dead, i);
      AgedAll(lv, F, L);
    }

    /**
     * One turn of the aging loop at `kept[i]`, which is `ps[j]`: age it, and
     * move it to the dead list when it has died. `j` moves past it and past
     * the particle that the erase makes the loop skip.
     */
    static method SweepOne(ghost ps: seq<Particle>, ghost L: seq<int>, ghost dps: seq<Particle>,
                           kept: seq<Particle>, dead: seq<Particle>, i: int, ghost j: nat, ghost lv: seq<int>)
      returns (kept': seq<Particle>, dead': seq<Particle>, ghost j': nat, ghost lv': seq<int>)
      requires Distinct(ps) && |L| == |ps|
      requires SweptUpTo(ps, Sweep(L), dps, j, kept, dead, i) && i < |kept|
      requires Lives(ps) == lv && AgedBefore(lv, Sweep(L), L, j)
      modifies set p | p in ps
      ensures j < j'
      ensures SweptUpTo(ps, Sweep(L), dps, j', kept', dead', i + 1)
      ensures Lives(ps) == lv' && AgedBefore(lv', Sweep(L), L, j')
      ensures Scenes(ps) == old(Scenes(ps))
    {
      ghost var F := Sweep(L);
      SweptUpToHead(ps, F, dps, j, kept, dead, i);
      SweepFateAt(L, j);
      var particle := kept[i];
      var isDead := AgeParticle(particle, ps, j);
      j' := if !isDead then j + 1 else if j + 1 < |ps| then j + 2 else j + 1;
      AgedBeforeStep(lv, F, L, j, j');
      lv' := lv[j := F[j].life];
      if isDead {
        SweptUpToDead(ps, F, dps, j, kept, dead, i);
        dead' := dead + [particle];
        kept' := kept[..i] + kept[i + 1..];
      } else {
        SweptUpToLive(ps, F, dps, j, kept, dead, i);
        kept', dead' := kept, dead;
      }
    }

    /**
     * The aging step for the particle at position `j` of `ps`:
     * `if (!particle->isDead()) particle->Update();` followed by the
     * `isDead()` test. Only that particle's lifespan changes.
     */
    static method AgeParticle(particle: Particle, ghost ps: seq<Particle>, ghost j: int) returns (isDead: bool)
      requires 0 <= j < |ps| && ps[j] == particle && Distinct(ps)
      modifies particle
      ensures Lives(ps) == old(Lives(ps))[j := Aged(old(particle.lifeSpan))]
      ensures Scenes(ps) == old(Scenes(ps))
      ensures isDead <==> Aged(old(particle.lifeSpan)) < 0
    {
      ghost var lives, scenes := Lives(ps), Scenes(ps);
      DistinctAt(ps, j);
      if !particle.IsDead() {
        particle.Update();
      }
      isDead := particle.IsDead();
      forall k | 0 <= k < |ps|
        ensures k != j ==> ps[k].lifeSpan == lives[k]
        ensures ps[k].inScene == scenes[k]
      {
        assert old(Lives(ps)[k]) == lives[k];
        assert old(Scenes(ps)[k]) == scenes[k];
      }
      LivesAfterAging(ps, j, lives, scenes);
    }

    /**
     * The emission loop of Emitter::Update: `emitCount` calls of emit, but
     * none once `maxParticles` have been emitted in all. The new particles are
     * fresh, alive with the initial lifespan and not in the scene.
     */
    method EmitParticles(emitCount: int) returns (ghost emitted: seq<Particle>)
      requires Valid()
      modifies this
      ensures Valid()
      ensures |emitted| == EmitBudget(emitCount, old(numEmitted), maxParticles)
      ensures numEmitted == old(numEmitted) + |emitted|
      ensures particles == old(particles) + emitted
      ensures forall k :: 0 <= k < |emitted| ==> fresh(emitted[k])
      ensures Lives(particles) == old(Lives(particles)) + FreshLives(|emitted|)
      ensures Scenes(particles) == old(Scenes(particles)) + NotInScene(|emitted|)
      ensures deadParticles == old(deadParticles) && timeSinceLastEmit == old(timeSinceLastEmit)
    {
      ghost var before, lives, scenes := particles, Lives(particles), Scenes(particles);
      emitted := [];
      var i := 0;
      while i < emitCount && numEmitted < maxParticles
        modifies this
        invariant Valid()
        invariant 0 <= i == |emitted| <= MaxInt(emitCount, 0)
        invariant numEmitted == old(numEmitted) + i
        invariant old(numEmitted) < maxParticles ==> numEmitted <= maxParticles
        invariant old(numEmitted) >= maxParticles ==> i == 0
        invariant particles == before + emitted
        invariant forall k :: 0 <= k < |emitted| ==> fresh(emitted[k])
        invariant Lives(particles) == lives + FreshLives(i)
        invariant Scenes(particles) == scenes + NotInScene(i)
        invariant deadParticles == old(deadParticles) && timeSinceLastEmit == old(timeSinceLastEmit)
        decreases emitCount - i
      {
        var particle := EmitTracked(before, emitted, lives, scenes);
        ghost var prev := emitted;
        emitted := emitted + [particle];
        forall k | 0 <= k < |emitted|
          ensures fresh(emitted[k])
        {
          if k < |prev| {
            assert emitted[k] == prev[k];
          }
        }
        i := i + 1;
      }
    }

    /** One turn of the emission loop, with the particles emitted so far and the lists before the loop. */
    method EmitTracked(ghost before: seq<Particle>, ghost emitted: seq<Particle>,
                       ghost lives: seq<int>, ghost scenes: seq<bool>) returns (ghost particle: Particle)
      requires Valid() && particles == before + emitted
      requires Lives(particles) == lives + FreshLives(|emitted|)
      requires Scenes(particles) == scenes + NotInScene(|emitted|)
      modifies this
      ensures Valid() && particles == before + (emitted + [particle]) && fresh(particle)
      ensures Lives(particles) == lives + FreshLives(|emitted| + 1)
      ensures Scenes(particles) == scenes + NotInScene(|emitted| + 1)
      ensures numEmitted == old(numEmitted) + 1
      ensures deadParticles == old(deadParticles) && timeSinceLastEmit == old(timeSinceLastEmit)
    {
      particle := Emit();
      FreshSnoc(lives, scenes, |emitted|);
    }

    /**
     * Emitter::Update(dt): accumulate `dt`, emit `int(emitRate *
     * timeSinceLastEmit)` particles while fewer than `maxParticles` have ever
     * been emitted, then run the aging pass over the old and new particles.
     * `emitted` names the particles this call created.
     */
    method Update(dt: real) returns (ghost emitted: seq<Particle>)
      requires Valid()
      modifies this, particles
      ensures Valid()
      ensures timeSinceLastEmit == old(timeSinceLastEmit) + dt
      ensures |emitted| == EmitBudget(EmitCount(emitRate, timeSinceLastEmit), old(numEmitted), maxParticles)
      ensures numEmitted == old(numEmitted) + |emitted|
      ensures old(numEmitted) <= maxParticles ==> numEmitted <= maxParticles
      ensures forall k :: 0 <= k < |emitted| ==> fresh(emitted[k])
      ensures var all := old(particles) + emitted;
        var fates := Sweep(old(Lives(particles)) + FreshLives(|emitted|));
        && particles == Kept(all, fates)
        && deadParticles == old(deadParticles) + Died(all, fates)
        && Lives(all) == LivesOf(fates)
        && Scenes(all) == old(Scenes(particles)) + NotInScene(|emitted|)
      // what the equations above amount to
      ensures multiset(particles) + multiset(deadParticles[|old(deadParticles)|..])
        == multiset(old(particles) + emitted)
      ensures forall p :: p in deadParticles[|old(deadParticles)|..] ==> p.IsDead() && p in old(particles)
    {
      timeSinceLastEmit := timeSinceLastEmit + dt;
      assert Lives(particles) == old(Lives(particles)) && Scenes(particles) == old(Scenes(particles));
      var emitCount := EmitCount(emitRate, timeSinceLastEmit);
      emitted := EmitAndSweep(emitCount);
    }

    /** The rest of Emitter::Update once the clock has advanced: the emission loop, then the aging pass. */
    method EmitAndSweep(emitCount: int) returns (ghost emitted: seq<Particle>)
      requires Valid()
      modifies this, particles
      ensures Valid()
      ensures timeSinceLastEmit == old(timeSinceLastEmit)
      ensures |emitted| == EmitBudget(emitCount, old(numEmitted), maxParticles)
      ensures numEmitted == old(numEmitted) + |emitted|
      ensures old(numEmitted) <= maxParticles ==> numEmitted <= maxParticles
      ensures forall k :: 0 <= k < |emitted| ==> fresh(emitted[k])
      ensures var all := old(particles) + emitted;
        var fates := Sweep(old(Lives(particles)) + FreshLives(|emitted|));
        && particles == Kept(all, fates)
        && deadParticles == old(deadParticles) + Died(all, fates)
        && Lives(all) == LivesOf(fates)
        && Scenes(all) == old(Scenes(particles)) + NotInScene(|emitted|)
      ensures multiset(particles) + multiset(deadParticles[|old(deadParticles)|..])
        == multiset(old(particles) + emitted)
      ensures forall p :: p in deadParticles[|old(deadParticles)|..] ==> p.IsDead() && p in old(particles)
    {
      emitted := EmitParticles(emitCount);
      ghost var all, lives, scenes := particles, Lives(particles), Scenes(particles);
      assert forall k :: 0 <= k < |lives| ==> lives[k] >= 0;
      forall k | 0 <= k < |all|
        ensures all[k] in old(particles) || fresh(all[k])
      {
        if k < |old(particles)| {
          assert all[k] == old(particles)[k];
        } else {
          assert all[k] == emitted[k - |old(particles)|];
        }
      }
      SweepDeadParticles();
      KeptDiedPartition(all, Sweep(lives));
      assert deadParticles[|old(deadParticles)|..] == Died(all, Sweep(lives));
      DiedAreDead(all, lives, |old(particles)|);
      assert all[..|old(particles)|] == old(particles);
    }
  }
}
