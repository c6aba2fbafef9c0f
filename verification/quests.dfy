/** The quest list of the game's quest manager and the per-quest flag readers.

    The game keeps 30 quest slots in memory; the list is absent when the
    quest manager could not be found.  A slot is a `Quest` record reduced to
    the fields the source declares, with the two flag bytes as `bv8`. */
module Quests {
  import opened Basics

  const QuestListArrayLength: nat := 30

  /** The two flag bits the source names; other bits may be set and are ignored. */
  const PriorityFlag: bv8 := 0x1
  const HiddenFlag: bv8 := 0x8

  datatype Quest = Quest(
    questId: UShort,
    questSeq: Byte,
    flags: bv8,
    todoFlags: UInt,
    objectiveObjectsInteractedFlags: bv8,
    startClassJobId: Byte)
  {
    /** `Enum.HasFlag`: every bit of `flag` is set. */
    predicate HasFlag(flag: bv8) {
      flags & flag == flag
    }

    /** The hidden flag is bit 3 of the flag byte. */
    function IsHidden(): (r: bool)
      ensures r <==> (flags >> 3) & 1 == 1
    {
      HasFlag(HiddenFlag)
    }

    /** The priority flag is bit 0 of the flag byte. */
    function IsPriority(): (r: bool)
      ensures r <==> flags & 1 == 1
    {
      HasFlag(PriorityFlag)
    }

    /** Whether the objective with index `i` of the current step has been
        interacted with.  Objective 0 is the most significant bit; an index
        outside 0..7 is never interacted. */
    function IsObjectiveInteracted(i: int): (r: bool)
      ensures r ==> 0 <= i < 8
      ensures 0 <= i < 8 ==> (r <==> (objectiveObjectsInteractedFlags >> (7 - i)) & 1 == 1)
    {
      0 <= i <= 7 && objectiveObjectsInteractedFlags & ((1 as bv8) << (7 - i)) != 0
    }
  }

  /** The all-zero quest a failed lookup hands out. */
  const DefaultQuest := Quest(0, 0, 0, 0, 0, 0)

  type QuestList = a: seq<Quest> | |a| == QuestListArrayLength
    witness seq(QuestListArrayLength, _ => DefaultQuest)

  /** Reference meaning of "the player has the quest": a nonzero id held by
      some slot of a present list. */
  predicate Holds(list: Option<QuestList>, questId: UShort) {
    questId != 0 && list.Some? && exists i :: 0 <= i < |list.value| && list.value[i].questId == questId
  }

  /** Slot `i` is the first slot holding `questId`. */
  predicate FirstSlot(list: QuestList, questId: UShort, i: int) {
    && 0 <= i < |list|
    && list[i].questId == questId
    && forall j :: 0 <= j < i ==> list[j].questId != questId
  }

  /** Whether a quest with this id is in the list; id 0 and an absent list give false. */
  method HasQuest(list: Option<QuestList>, questId: UShort) returns (r: bool)
    ensures r <==> Holds(list, questId)
  {
    if questId == 0 {
      return false;
    }
    if list.None? {
      return false;
    }
    var a := list.value;
    var i := 0;
    while i < QuestListArrayLength
      invariant 0 <= i <= QuestListArrayLength
      invariant forall j :: 0 <= j < i ==> a[j].questId != questId
    {
      if a[i].questId == questId {
        return true;
      }
      i := i + 1;
    }
    return false;
  }

  /** The first slot holding the quest, or the default quest when there is
      none (id 0 and an absent list included). */
  method TryGetQuest(list: Option<QuestList>, questId: UShort) returns (found: bool, quest: Quest)
    ensures found <==> Holds(list, questId)
    ensures !found ==> quest == DefaultQuest
    ensures found ==> exists i :: FirstSlot(list.value, questId, i) && quest == list.value[i]
    ensures found ==> quest.questId == questId
  {
    quest := DefaultQuest;
    if questId == 0 {
      return false, quest;
    }
    if list.None? {
      return false, quest;
    }
    var a := list.value;
    var i := 0;
    while i < QuestListArrayLength
      invariant 0 <= i <= QuestListArrayLength
      invariant forall j :: 0 <= j < i ==> a[j].questId != questId
    {
      if a[i].questId == questId {
        assert FirstSlot(a, questId, i);
        return true, a[i];
      }
      i := i + 1;
    }
    return false, quest;
  }

  /** Only one slot can be the first holding a given id. */
  lemma FirstSlotUnique(list: QuestList, questId: UShort, i: int, j: int)
    requires FirstSlot(list, questId, i) && FirstSlot(list, questId, j)
    ensures i == j
  {
  }

  /** An empty slot (id 0) is never reported as a quest the player has. */
  lemma EmptySlotIsNoQuest(list: Option<QuestList>)
    ensures !Holds(list, 0)
  {
  }

  /** The interacted-objective byte built from eight per-objective flags,
      objective 0 in the most significant bit. */
  function PackInteracted(done: seq<bool>): (b: bv8)
    requires |done| == 8
  {
    (if done[0] then 0x80 else 0) | (if done[1] then 0x40 else 0)
    | (if done[2] then 0x20 else 0) | (if done[3] then 0x10 else 0)
    | (if done[4] then 0x08 else 0) | (if done[5] then 0x04 else 0)
    | (if done[6] then 0x02 else 0) | (if done[7] then 0x01 else 0)
  }

  /** The eight per-objective flags the reader sees in a quest: objective `i`
      is bit `7 - i` of the interacted byte, so a smaller index reads a more
      significant bit. */
  function UnpackInteracted(q: Quest): (done: seq<bool>)
    ensures |done| == 8
    ensures forall i :: 0 <= i < 8 ==> (done[i] <==> (q.objectiveObjectsInteractedFlags >> (7 - i)) & 1 == 1)
    ensures forall i :: 0 <= i < 8 ==> (done[i] <==> q.IsObjectiveInteracted(i))
  {
    seq(8, i requires 0 <= i < 8 => q.IsObjectiveInteracted(i))
  }

  /** Reading objective `i` of a packed byte gives back flag `i`: the reader
      counts bits from the most significant end. */
  lemma InteractedReadsPacked(q: Quest, done: seq<bool>, i: int)
    requires |done| == 8
    requires q.objectiveObjectsInteractedFlags == PackInteracted(done)
    ensures q.IsObjectiveInteracted(i) <==> 0 <= i < 8 && done[i]
  {
  }

  /** Every interacted byte is the packing of what the reader sees in it. */
  lemma PackUnpackRoundTrip(q: Quest)
    ensures PackInteracted(UnpackInteracted(q)) == q.objectiveObjectsInteractedFlags
  {
    var done := UnpackInteracted(q);
    var b := q.objectiveObjectsInteractedFlags;
    assert done[0] == (b & 0x80 != 0) && done[1] == (b & 0x40 != 0);
    assert done[2] == (b & 0x20 != 0) && done[3] == (b & 0x10 != 0);
    assert done[4] == (b & 0x08 != 0) && done[5] == (b & 0x04 != 0);
    assert done[6] == (b & 0x02 != 0) && done[7] == (b & 0x01 != 0);
  }

  /** Setting or clearing one flag bit, as the game does. */
  function SetFlag(flags: bv8, flag: bv8, on: bool): bv8 {
    if on then flags | flag else flags & !flag
  }

  /** The hidden and priority bits are read independently: setting one
      decides that reader and leaves the other alone. */
  lemma HiddenAndPriorityIndependent(q: Quest, on: bool)
    ensures q.(flags := SetFlag(q.flags, HiddenFlag, on)).IsHidden() == on
    ensures q.(flags := SetFlag(q.flags, HiddenFlag, on)).IsPriority() == q.IsPriority()
    ensures q.(flags := SetFlag(q.flags, PriorityFlag, on)).IsPriority() == on
    ensures q.(flags := SetFlag(q.flags, PriorityFlag, on)).IsHidden() == q.IsHidden()
  {
  }
}
