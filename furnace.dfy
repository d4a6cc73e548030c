/**
 * The furnace block's right click: a click on the front face puts the held
 * stack into, or takes the stack out of, the input slot (upper half of the
 * face) or the fuel slot (lower half). The furnace's tile entity, FurnaceLogic,
 * is not part of this model: its slots are taken as the vanilla furnace's
 * three, INPUT = 0, FUEL = 1 and OUTPUT = 2, and it is seen here only
 * through reading and writing those slots.
 */
module Furnace {
  import opened Minecraft

  const FurnaceSlotCount := 3

  datatype FurnaceSlot = Input | Fuel | Output

  /** Slot.ordinal. */
  function Ordinal(s: FurnaceSlot): (n: nat)
    ensures n < FurnaceSlotCount
  {
    match s
    case Input => 0
    case Fuel => 1
    case Output => 2
  }

  /** A furnace tile entity's slots, read and written as furnace[slot]. */
  class FurnaceTile {
    var slots: seq<ItemStack>

    ghost predicate Valid()
      reads this
    {
      |slots| == FurnaceSlotCount
    }

    constructor ()
      ensures Valid() && forall i :: 0 <= i < FurnaceSlotCount ==> slots[i] == Empty
    {
      slots := seq(3, _ => Empty);
    }

    /** furnace[slot]. */
    function Get(s: FurnaceSlot): (r: ItemStack)
      reads this
      requires Valid()
      ensures r == slots[Ordinal(s)]
    {
      slots[Ordinal(s)]
    }

    /** furnace[slot] = stack: writes that slot and no other. */
    method Set(s: FurnaceSlot, stack: ItemStack)
      requires Valid()
      modifies this
      ensures Valid() && slots == old(slots)[Ordinal(s) := stack]
      ensures Get(s) == stack && forall t :: t != s ==> Get(t) == old(Get(t))
    {
      slots := slots[Ordinal(s) := stack];
    }
  }

  /** The slot a click on the front addresses: the input in the upper half, the fuel in the lower. */
  function ClickedSlot(hitY: real): (s: FurnaceSlot)
    ensures s != Output
    ensures s == Input <==> hitY >= 0.5
  {
    if hitY >= 0.5 then Input else Fuel
  }

  /** What a click does: whether it is consumed, the slots after it, and the stack spawned in front of the furnace. */
  datatype ClickResult = ClickResult(handled: bool, slots: seq<ItemStack>, spawned: ItemStack)

  /**
   * onBlockActivated on a furnace tile with slots `slots`: `facing` is the
   * block state's FACING, `side` the face clicked and `hitY` the height of
   * the hit on that face.
   */
  function Click(slots: seq<ItemStack>, isRemote: bool, facing: Horizontal, side: Facing, hitY: real,
                 stack: ItemStack, valid: SlotValidity, merge: Merge): (r: ClickResult)
    requires |slots| == FurnaceSlotCount
    ensures r.handled
    ensures |r.slots| == FurnaceSlotCount
    ensures r.slots[Ordinal(Output)] == slots[Ordinal(Output)]
    ensures isRemote || side != facing ==> r.slots == slots && r.spawned == Empty
    ensures !isRemote && side == facing ==>
      var slot := Ordinal(ClickedSlot(hitY));
      && (forall i :: 0 <= i < FurnaceSlotCount && i != slot ==> r.slots[i] == slots[i])
      && (stack.Empty? && slots[slot].Stack? ==> r.slots[slot] == Empty && r.spawned == slots[slot])
      && (stack.Stack? && valid(slot, stack) ==> r.slots[slot] == merge(stack, slots[slot]) && r.spawned == Empty)
      && (!(stack.Empty? && slots[slot].Stack?) && !(stack.Stack? && valid(slot, stack)) ==>
            r.slots == slots && r.spawned == Empty)
  {
    if isRemote || side != facing then ClickResult(true, slots, Empty)
    else
      var slot := Ordinal(ClickedSlot(hitY));
      var existing := slots[slot];
      if stack.Empty? && existing.Stack? then ClickResult(true, slots[slot := Empty], existing)
      else if stack.Stack? && valid(slot, stack) then ClickResult(true, slots[slot := merge(stack, existing)], Empty)
      else ClickResult(true, slots, Empty)
  }

  /**
   * Items only come out where they went in: whatever a click on the front
   * spawns is the whole stack of the input or fuel slot it hit, and that slot
   * is then empty; the output slot is never spawned from.
   */
  lemma SpawnsOnlyFromTheClickedSlot(slots: seq<ItemStack>, isRemote: bool, facing: Horizontal, side: Facing,
                                     hitY: real, stack: ItemStack, valid: SlotValidity, merge: Merge)
    requires |slots| == FurnaceSlotCount
    ensures var r := Click(slots, isRemote, facing, side, hitY, stack, valid, merge);
            r.spawned.Stack? ==>
              && !isRemote && side == facing && stack.Empty?
              && r.spawned == slots[Ordinal(ClickedSlot(hitY))]
              && r.slots == slots[Ordinal(ClickedSlot(hitY)) := Empty]
  {
  }

  /**
   * Taking a stack out of the front and clicking it back in at the same
   * height restores the furnace, provided the stack is still valid for its
   * slot and merging a stack into an empty slot yields that stack.
   */
  lemma TakeThenPutBackRestores(slots: seq<ItemStack>, facing: Horizontal, hitY: real, valid: SlotValidity, merge: Merge)
    requires |slots| == FurnaceSlotCount
    requires var slot := Ordinal(ClickedSlot(hitY));
             slots[slot].Stack? && valid(slot, slots[slot]) && merge(slots[slot], Empty) == slots[slot]
    ensures var taken := Click(slots, false, facing, facing, hitY, Empty, valid, merge);
            && taken.spawned == slots[Ordinal(ClickedSlot(hitY))]
            && Click(taken.slots, false, facing, facing, hitY, taken.spawned, valid, merge).slots == slots
  {
    var slot := Ordinal(ClickedSlot(hitY));
    var taken := Click(slots, false, facing, facing, hitY, Empty, valid, merge);
    assert taken.slots == slots[slot := Empty];
    var back := Click(taken.slots, false, facing, facing, hitY, taken.spawned, valid, merge);
    assert back.slots == taken.slots[slot := slots[slot]];
  }

  /**
   * onBlockActivated: `tile` is the furnace's tile entity, or null when the
   * tile at the position is anything else. Returns whether the click is
   * consumed and the stack spawned in front of the furnace (Empty when none).
   */
  method OnBlockActivated(isRemote: bool, tile: FurnaceTile?, facing: Horizontal, side: Facing, hitY: real,
                          stack: ItemStack, valid: SlotValidity, merge: Merge) returns (handled: bool, spawned: ItemStack)
    requires tile != null ==> tile.Valid()
    modifies tile
    ensures tile == null ==> handled == isRemote && spawned == Empty
    ensures tile != null ==> tile.Valid()
    ensures tile != null ==>
      ClickResult(handled, tile.slots, spawned) == Click(old(tile.slots), isRemote, facing, side, hitY, stack, valid, merge)
  {
    spawned := Empty;
    if isRemote {
      return true, spawned;
    }
    if tile != null {
      if side == facing {
        var slot := ClickedSlot(hitY);
        var existing := tile.Get(slot);
        if stack.Empty? && existing.Stack? {
          spawned := existing;
          tile.Set(slot, Empty);
        } else if stack.Stack? && valid(Ordinal(slot), stack) {
          tile.Set(slot, merge(stack, existing));
        }
      }
      return true, spawned;
    }
    return false, spawned;
  }
}
