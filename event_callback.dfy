/**
 * MySimulationEventCallback: the object the physics engine calls back with
 * trigger and contact pairs. It folds over each batch of pairs and latches
 * two flags that the scene polls every tick: `chainsawTrigger` (the player
 * touched the tree trigger) and `fallen` (the house took a non-zero impulse).
 */
module EventCallback {
  import opened Basics
  import opened FilterShader

  /** PxGeometryType of a shape; only planes are filtered out by onTrigger. */
  datatype GeometryType = Sphere | Plane | Capsule | Box | ConvexMesh | TriangleMesh | HeightField

  /** A PxTriggerPair: actor names, the other shape's geometry and the status flag. */
  datatype TriggerPair = TriggerPair(
    triggerActorName: string,
    otherActorName: string,
    otherShapeType: GeometryType,
    status: set<PairFlag>)

  /**
   * A PxContactPair: its event flags and the impulse magnitudes of its
   * contact points, in the order extractContacts would deliver them.
   */
  datatype ContactPair = ContactPair(events: set<PairFlag>, impulses: seq<real>)

  /** The size of the contactPoints buffer handed to extractContacts. */
  const ContactBufferSize: nat := 64

  /** The pair that starts the chainsaw: the player inside the tree trigger, reported found or lost. */
  predicate StartsCutting(p: TriggerPair)
    ensures StartsCutting(p) ==> p.status != {} && p.otherActorName != p.triggerActorName
    ensures p.triggerActorName == "player" ==> !StartsCutting(p)
  {
    && p.otherShapeType != Plane
    && (NotifyTouchFound in p.status || NotifyTouchLost in p.status)
    && p.triggerActorName == "tree_trigger"
    && p.otherActorName == "player"
  }

  /** extractContacts(contactPoints, 64): at most the first 64 contact points. */
  function ExtractContacts(impulses: seq<real>): (r: seq<real>)
    ensures |r| <= ContactBufferSize && |r| <= |impulses|
    ensures r == impulses[..|r|]
    ensures |r| == |impulses| || |r| == ContactBufferSize
  {
    if |impulses| <= ContactBufferSize then impulses else impulses[..ContactBufferSize]
  }

  /** The running `maxImpluse` of onContact: PxMax folded left over the magnitudes, from 0. */
  function MaxFold(s: seq<real>): (r: real)
    ensures r >= 0.0
    ensures s != [] ==> r >= s[|s| - 1]
  {
    if s == [] then 0.0 else PxMax(MaxFold(s[..|s| - 1]), s[|s| - 1])
  }

  /** The fold is 0 or one of the magnitudes, bounds them all, and is positive iff one is. */
  lemma {:induction false} MaxFoldIsMaximum(s: seq<real>)
    ensures MaxFold(s) >= 0.0
    ensures forall k :: 0 <= k < |s| ==> s[k] <= MaxFold(s)
    ensures MaxFold(s) == 0.0 || exists k :: 0 <= k < |s| && s[k] == MaxFold(s)
    ensures MaxFold(s) > 0.0 <==> exists k :: 0 <= k < |s| && s[k] > 0.0
  {
    if s != [] {
      var init := s[..|s| - 1];
      MaxFoldIsMaximum(init);
      assert forall k :: 0 <= k < |init| ==> init[k] == s[k];
      if MaxFold(s) != 0.0 && MaxFold(s) != s[|s| - 1] {
        var k :| 0 <= k < |init| && init[k] == MaxFold(init);
        assert s[k] == MaxFold(s);
      }
      if exists k :: 0 <= k < |s| && s[k] > 0.0 {
        var k :| 0 <= k < |s| && s[k] > 0.0;
        assert s[k] <= MaxFold(s);
      }
    }
  }

  /**
   * The inner loop of onContact: the largest impulse magnitude among the
   * extracted contact points, or 0 when there is none (or none is positive).
   */
  method MaxImpulse(contacts: seq<real>) returns (maxImpulse: real)
    ensures maxImpulse == MaxFold(contacts)
    ensures maxImpulse >= 0.0
    ensures forall k :: 0 <= k < |contacts| ==> contacts[k] <= maxImpulse
    ensures maxImpulse == 0.0 || exists k :: 0 <= k < |contacts| && contacts[k] == maxImpulse
    ensures maxImpulse > 0.0 <==> exists k :: 0 <= k < |contacts| && contacts[k] > 0.0
  {
    maxImpulse := 0.0;
    var j := 0;
    while j < |contacts|
      invariant 0 <= j <= |contacts|
      invariant maxImpulse == MaxFold(contacts[..j])
    {
      assert contacts[..j + 1][..j] == contacts[..j];
      maxImpulse := PxMax(maxImpulse, contacts[j]);
      j := j + 1;
    }
    assert contacts[..j] == contacts;
    MaxFoldIsMaximum(contacts);
  }

  /** A contact pair that makes onContact set `fallen`. */
  predicate SignalsFall(p: ContactPair)
    ensures SignalsFall(p) ==> NotifyTouchFound in p.events && |p.impulses| > 0
  {
    NotifyTouchFound in p.events && MaxFold(ExtractContacts(p.impulses)) > 0.0
  }

  /** A pair signals a fall iff it is a touch-found pair with a positive impulse among its first 64 contacts. */
  lemma SignalsFallIff(p: ContactPair)
    ensures SignalsFall(p) <==>
      NotifyTouchFound in p.events &&
      exists k :: 0 <= k < |p.impulses| && k < ContactBufferSize && p.impulses[k] > 0.0
  {
    var c := ExtractContacts(p.impulses);
    MaxFoldIsMaximum(c);
    if exists k :: 0 <= k < |p.impulses| && k < ContactBufferSize && p.impulses[k] > 0.0 {
      var k :| 0 <= k < |p.impulses| && k < ContactBufferSize && p.impulses[k] > 0.0;
      assert c[k] > 0.0;
    }
  }

  /** The chainsaw flag after a sequence of onTrigger batches, starting from `flag`. */
  function ChainsawAfter(flag: bool, batches: seq<seq<TriggerPair>>): bool
    decreases |batches|
  {
    if batches == [] then flag
    else ChainsawAfter(flag || exists i :: 0 <= i < |batches[0]| && StartsCutting(batches[0][i]), batches[1..])
  }

  /**
   * The chainsaw flag only latches: once set it stays set over any later
   * batches, and from false it is set exactly when some batch held a
   * starting pair.
   */
  lemma {:induction false} ChainsawLatches(flag: bool, batches: seq<seq<TriggerPair>>)
    ensures flag ==> ChainsawAfter(flag, batches)
    ensures ChainsawAfter(flag, batches) <==>
      flag || exists b, i :: 0 <= b < |batches| && 0 <= i < |batches[b]| && StartsCutting(batches[b][i])
    decreases |batches|
  {
    if batches != [] {
      var f := flag || exists i :: 0 <= i < |batches[0]| && StartsCutting(batches[0][i]);
      ChainsawLatches(f, batches[1..]);
      if exists b, i :: 0 <= b < |batches| && 0 <= i < |batches[b]| && StartsCutting(batches[b][i]) {
        var b, i :| 0 <= b < |batches| && 0 <= i < |batches[b]| && StartsCutting(batches[b][i]);
        if b > 0 {
          assert batches[1..][b - 1] == batches[b];
        }
      }
      if exists b, i :: 0 <= b < |batches[1..]| && 0 <= i < |batches[1..][b]| && StartsCutting(batches[1..][b][i]) {
        var b, i :| 0 <= b < |batches[1..]| && 0 <= i < |batches[1..][b]| && StartsCutting(batches[1..][b][i]);
        assert batches[b + 1] == batches[1..][b];
      }
    }
  }

  class MySimulationEventCallback {
    var trigger: bool
    var fallen: bool
    var chainsawTrigger: bool

    constructor ()
      ensures !trigger && !fallen && !chainsawTrigger
    {
      trigger, fallen, chainsawTrigger := false, false, false;
    }

    /**
     * onTrigger: sets `chainsawTrigger` when some pair starts cutting (both
     * touch found and touch lost set it); never clears it; touches nothing else.
     */
    method OnTrigger(pairs: seq<TriggerPair>)
      modifies this
      ensures chainsawTrigger == (old(chainsawTrigger) || exists i :: 0 <= i < |pairs| && StartsCutting(pairs[i]))
      ensures fallen == old(fallen) && trigger == old(trigger)
    {
      var i := 0;
      while i < |pairs|
        invariant 0 <= i <= |pairs|
        invariant chainsawTrigger == (old(chainsawTrigger) || exists k :: 0 <= k < i && StartsCutting(pairs[k]))
        invariant fallen == old(fallen) && trigger == old(trigger)
      {
        var p := pairs[i];
        if p.otherShapeType != Plane {
          if NotifyTouchFound in p.status {
            if p.triggerActorName == "tree_trigger" && p.otherActorName == "player" {
              chainsawTrigger := true;
            }
          }
          if NotifyTouchLost in p.status {
            if p.triggerActorName == "tree_trigger" && p.otherActorName == "player" {
              chainsawTrigger := true;
            }
          }
        }
        i := i + 1;
      }
    }

    /**
     * onContact: for each touch-found pair, takes the largest impulse among its
     * (at most 64) contact points and sets `fallen` when it is positive; never
     * clears it; touches nothing else.
     */
    method OnContact(pairs: seq<ContactPair>)
      modifies this
      ensures fallen == (old(fallen) || exists i :: 0 <= i < |pairs| && SignalsFall(pairs[i]))
      ensures chainsawTrigger == old(chainsawTrigger) && trigger == old(trigger)
    {
      var i := 0;
      while i < |pairs|
        invariant 0 <= i <= |pairs|
        invariant fallen == (old(fallen) || exists k :: 0 <= k < i && SignalsFall(pairs[k]))
        invariant chainsawTrigger == old(chainsawTrigger) && trigger == old(trigger)
      {
        if NotifyTouchFound in pairs[i].events {
          var contacts := ExtractContacts(pairs[i].impulses);
          var maxImpulse := MaxImpulse(contacts);
          if maxImpulse > 0.0 {
            fallen := true;
          }
        }
        // a touch-lost pair is only logged
        i := i + 1;
      }
    }
  }
}
