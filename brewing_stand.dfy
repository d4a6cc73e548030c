/**
 * The brewing stand block's right click: the ray picks one of four boxes
 * (the three bottles and the top), the top feeds the powder slot when the
 * held stack is fuel that fits there and the ingredient slot otherwise, and
 * the click either takes the slot's stack out into an empty hand or merges
 * the held stack into the slot.
 */
module BrewingStand {
  import opened Minecraft
  import opened BrewingStandLogic

  /** The boxes the click ray is traced against: bottles 0..2 and the top, 3. */
  const BoxCount := 4

  /**
   * The slot a hit box addresses: a bottle box its bottle, the top box the
   * powder slot when the stack can go in as fuel and the ingredient slot
   * otherwise.
   */
  function TargetSlot(hit: nat, canFuel: bool): (slot: nat)
    requires hit < BoxCount
    ensures slot < BrewSlotCount
    ensures hit < 3 ==> slot == hit && SlotAt(slot) == [Bottle1, Bottle2, Bottle3][hit]
    ensures hit == 3 ==> SlotAt(slot) == if canFuel then InputPowder else InputIngredient
  {
    if hit == 3 && canFuel then 4 else hit
  }

  /** What a click does: whether it is consumed, the stand's slots after it, and the stack handed to the player. */
  datatype ClickResult = ClickResult(handled: bool, slots: seq<ItemStack>, given: ItemStack)

  /**
   * onBlockActivated on a brewing stand tile with slots `slots`; `hit` is
   * the box the ray met (-1 for none) and `canFuel` the tile's answer to
   * canInsertFuel for the held stack.
   */
  function Click(slots: seq<ItemStack>, hand: Hand, stack: ItemStack, isRemote: bool, hit: int,
                 canFuel: bool, valid: SlotValidity, merge: Merge): (r: ClickResult)
    requires |slots| == BrewSlotCount && -1 <= hit < BoxCount
    ensures r.handled <==> hand == MainHand
    ensures |r.slots| == BrewSlotCount
    ensures hand == OffHand || hit == -1 || isRemote ==> r.slots == slots && r.given == Empty
    ensures hand == MainHand && hit != -1 && !isRemote ==>
      var slot := TargetSlot(hit, canFuel);
      && (forall i :: 0 <= i < BrewSlotCount && i != slot ==> r.slots[i] == slots[i])
      && (stack.Empty? && slots[slot].Stack? ==> r.slots[slot] == Empty && r.given == slots[slot])
      && (stack.Stack? && valid(slot, stack) ==> r.slots[slot] == merge(stack, slots[slot]) && r.given == Empty)
      && (!(stack.Empty? && slots[slot].Stack?) && !(stack.Stack? && valid(slot, stack)) ==>
            r.slots == slots && r.given == Empty)
  {
    if hand.OffHand? then ClickResult(false, slots, Empty)
    else if hit == -1 || isRemote then ClickResult(true, slots, Empty)
    else
      var slot := TargetSlot(hit, canFuel);
      var existing := slots[slot];
      if stack.Empty? && existing.Stack? then ClickResult(true, slots[slot := Empty], existing)
      else if stack.Stack? && valid(slot, stack) then ClickResult(true, slots[slot := merge(stack, existing)], Empty)
      else ClickResult(true, slots, Empty)
  }

  /**
   * Taking a bottle out and putting it back restores the stand, provided the
   * bottle is still valid for its slot and merging a stack into an empty slot
   * yields that stack.
   */
  lemma TakeThenPutBackRestores(slots: seq<ItemStack>, hit: nat, canFuel: bool, valid: SlotValidity, merge: Merge)
    requires |slots| == BrewSlotCount && hit < 3
    requires slots[hit].Stack? && valid(hit, slots[hit]) && merge(slots[hit], Empty) == slots[hit]
    ensures var taken := Click(slots, MainHand, Empty, false, hit, canFuel, valid, merge);
            && taken.given == slots[hit]
            && taken.slots[hit] == Empty
            && Click(taken.slots, MainHand, taken.given, false, hit, canFuel, valid, merge).slots == slots
  {
    var taken := Click(slots, MainHand, Empty, false, hit, canFuel, valid, merge);
    var back := Click(taken.slots, MainHand, taken.given, false, hit, canFuel, valid, merge);
    assert taken.slots == slots[hit := Empty];
    assert back.slots == taken.slots[hit := slots[hit]];
  }

  /**
   * onBlockActivated: `tile` is the brewing stand's tile entity, or null when
   * the tile at the position is anything else. Returns whether the click is
   * consumed and the stack handed to the player (Empty when none).
   */
  method OnBlockActivated(hand: Hand, stack: ItemStack, isRemote: bool, hit: int, tile: BrewingStandTile?,
                          valid: SlotValidity, merge: Merge) returns (handled: bool, given: ItemStack)
    requires -1 <= hit < BoxCount
    requires tile != null ==> tile.Valid()
    modifies tile
    ensures tile == null ==> handled == (hand == MainHand) && given == Empty
    ensures tile != null ==> tile.Valid()
    ensures tile != null ==>
      ClickResult(handled, tile.slots, given)
        == Click(old(tile.slots), hand, stack, isRemote, hit, old(tile.CanInsertFuel(stack, valid)), valid, merge)
  {
    if hand == OffHand {
      return false, Empty;
    }
    given := Empty;
    if hit != -1 && !isRemote && tile != null {
      var slot := if hit == 3 && tile.CanInsertFuel(stack, valid) then 4 else hit;
      var existing := tile.GetStackInSlot(slot);
      if stack.Empty? && existing.Stack? {
        given := existing;
        tile.SetInventorySlotContents(slot, Empty);
        return true, given;
      } else if stack.Stack? && valid(slot, stack) {
        tile.SetInventorySlotContents(slot, merge(stack, existing));
        return true, given;
      }
    }
    return true, given;
  }
}
