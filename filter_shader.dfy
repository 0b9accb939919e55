/**
 * The scene's collision filter (CustomFilterShader) and the filter words the
 * scene assigns to its ground, player, tree trigger and house.
 *
 * A filter word is a PxU32, modelled as `bv32`. The SDK's composite pair
 * flags eTRIGGER_DEFAULT and eCONTACT_DEFAULT are kept as named atoms: the
 * shader only ever assigns them whole.
 */
module FilterShader {

  /** The pair flags the shader writes into its `pairFlags` out-parameter. */
  datatype PairFlag =
    | TriggerDefault       // PxPairFlag::eTRIGGER_DEFAULT
    | ContactDefault       // PxPairFlag::eCONTACT_DEFAULT
    | NotifyTouchFound     // PxPairFlag::eNOTIFY_TOUCH_FOUND
    | NotifyTouchLost      // PxPairFlag::eNOTIFY_TOUCH_LOST
    | NotifyContactPoints  // PxPairFlag::eNOTIFY_CONTACT_POINTS

  /** The filter flags a shader may return (PxFilterFlag). */
  datatype FilterFlag = Kill | Suppress | Callback

  /** The part of PxFilterObjectAttributes the shader inspects. */
  datatype ObjectAttributes = ObjectAttributes(isTrigger: bool)

  /** PxFilterData words 0 and 1: the object's own groups and the groups it reports contacts with. */
  datatype FilterData = FilterData(word0: bv32, word1: bv32)

  /** What the shader produces: the written pair flags and the returned filter flags. */
  datatype FilterOutcome = FilterOutcome(pairFlags: set<PairFlag>, filterFlags: set<FilterFlag>)

  // FilterGroup::Enum
  const GROUND: bv32 := 1 << 0
  const HOUSE: bv32 := 1 << 1
  const PLAYER: bv32 := 1 << 2
  const TREE: bv32 := 1 << 3

  /** Each object's mask names the other's group, in both directions. */
  predicate MasksMatch(d0: FilterData, d1: FilterData)
  {
    (d0.word0 & d1.word1) != 0 && (d1.word0 & d0.word1) != 0
  }

  /**
   * CustomFilterShader: a pair involving a trigger gets only the trigger
   * defaults; any other pair gets the contact defaults, plus touch and
   * contact-point notification exactly when the masks match both ways. The
   * returned filter flags are always the default (empty): no pair is killed,
   * suppressed or sent to a filter callback.
   */
  function CustomFilterShader(a0: ObjectAttributes, d0: FilterData,
                              a1: ObjectAttributes, d1: FilterData): (r: FilterOutcome)
    ensures r.filterFlags == {}
    ensures a0.isTrigger || a1.isTrigger ==> r.pairFlags == {TriggerDefault}
    ensures !a0.isTrigger && !a1.isTrigger ==>
      && ContactDefault in r.pairFlags
      && TriggerDefault !in r.pairFlags
      && (NotifyTouchFound in r.pairFlags <==> MasksMatch(d0, d1))
      && (NotifyTouchLost in r.pairFlags <==> MasksMatch(d0, d1))
      && (NotifyContactPoints in r.pairFlags <==> MasksMatch(d0, d1))
  {
    if a0.isTrigger || a1.isTrigger then
      FilterOutcome({TriggerDefault}, {})
    else
      var notify := MasksMatch(d0, d1);
      FilterOutcome(if notify then {ContactDefault, NotifyTouchFound, NotifyTouchLost, NotifyContactPoints}
                    else {ContactDefault}, {})
  }

  /** The pair gets onContact notification (touch found) from the shader. */
  predicate NotifiesContact(a0: ObjectAttributes, d0: FilterData, a1: ObjectAttributes, d1: FilterData)
  {
    NotifyTouchFound in CustomFilterShader(a0, d0, a1, d1).pairFlags
  }

  /** The shader's answer does not depend on which object of the pair comes first. */
  lemma ShaderSymmetric(a0: ObjectAttributes, d0: FilterData, a1: ObjectAttributes, d1: FilterData)
    ensures CustomFilterShader(a0, d0, a1, d1) == CustomFilterShader(a1, d1, a0, d0)
  {
    assert (d0.word0 & d1.word1) == (d1.word1 & d0.word0);
    assert (d1.word0 & d0.word1) == (d0.word1 & d1.word0);
  }

  /** The filter groups are single, pairwise distinct bits. */
  lemma GroupsAreDistinctBits()
    ensures GROUND == 1 && HOUSE == 2 && PLAYER == 4 && TREE == 8
    ensures GROUND & HOUSE == 0 && GROUND & PLAYER == 0 && GROUND & TREE == 0
    ensures HOUSE & PLAYER == 0 && HOUSE & TREE == 0 && PLAYER & TREE == 0
  {
  }

  /** The bodies that CustomInit gives filter data. */
  datatype SceneBody = Ground | House | Player | TreeTrigger

  /** The filter words CustomInit assigns to each body. */
  function FilterDataOf(b: SceneBody): (d: FilterData)
    ensures d.word0 in {GROUND, HOUSE, PLAYER, TREE}
  {
    match b
    case Ground => FilterData(GROUND, HOUSE)
    case Player => FilterData(PLAYER, GROUND | TREE)
    case TreeTrigger => FilterData(TREE, PLAYER)
    case House => FilterData(HOUSE, GROUND)
  }

  /** Only the tree trigger's shape is a trigger shape. */
  function AttributesOf(b: SceneBody): (a: ObjectAttributes)
    ensures a.isTrigger <==> b == TreeTrigger
  {
    ObjectAttributes(b == TreeTrigger)
  }

  /**
   * With the scene's filter words, the only pair among ground, house and
   * player that gets contact notification is house and ground (in either
   * order); every pair with the tree trigger gets the trigger defaults.
   */
  lemma OnlyHouseGroundNotifies(b0: SceneBody, b1: SceneBody)
    ensures b0 != TreeTrigger && b1 != TreeTrigger ==>
      (NotifiesContact(AttributesOf(b0), FilterDataOf(b0), AttributesOf(b1), FilterDataOf(b1)) <==>
         {b0, b1} == {House, Ground})
    ensures b0 == TreeTrigger || b1 == TreeTrigger ==>
      CustomFilterShader(AttributesOf(b0), FilterDataOf(b0), AttributesOf(b1), FilterDataOf(b1)).pairFlags
        == {TriggerDefault}
  {
    if b0 != TreeTrigger && b1 != TreeTrigger && {b0, b1} == {House, Ground} {
      assert (b0 == House && b1 == Ground) || (b0 == Ground && b1 == House) by {
        assert b0 in {House, Ground} && b1 in {House, Ground};
      }
    }
  }
}
