/**
 * The brewing stand's tile entity: its five slots by name, and the decision
 * whether a stack offered to the top of the stand goes into the powder (fuel)
 * slot rather than the ingredient slot. Here `Empty` stands for a null stack.
 */
module BrewingStandLogic {
  import opened Minecraft

  /** The vanilla brewing stand's inventory size. */
  const BrewSlotCount := 5

  /** The slots by meaning, in declaration order. */
  datatype BrewSlot = Bottle1 | Bottle2 | Bottle3 | InputIngredient | InputPowder

  /** Slot.ordinal: the bottles are 0..2, the ingredient 3 and the powder 4. */
  function Ordinal(s: BrewSlot): (n: nat)
    ensures n < BrewSlotCount
    ensures n < 3 <==> s.Bottle1? || s.Bottle2? || s.Bottle3?
  {
    match s
    case Bottle1 => 0
    case Bottle2 => 1
    case Bottle3 => 2
    case InputIngredient => 3
    case InputPowder => 4
  }

  /** Slot.values()[n]: the slot with ordinal n. */
  function SlotAt(n: nat): BrewSlot
    requires n < BrewSlotCount
  {
    [Bottle1, Bottle2, Bottle3, InputIngredient, InputPowder][n]
  }

  /** Ordinal and SlotAt are inverse: the five names cover the five slots, each once. */
  lemma OrdinalsAreTheSlots()
    ensures forall s :: SlotAt(Ordinal(s)) == s
    ensures forall n :: 0 <= n < BrewSlotCount ==> Ordinal(SlotAt(n)) == n
    ensures forall s, t :: s != t ==> Ordinal(s) != Ordinal(t)
  {
    forall s
      ensures SlotAt(Ordinal(s)) == s
    {
      match s
      case Bottle1 =>
      case Bottle2 =>
      case Bottle3 =>
      case InputIngredient =>
      case InputPowder =>
    }
  }

  /** BrewingStandLogic: the five slots the block's clicks read and write. */
  class BrewingStandTile {
    var slots: seq<ItemStack>

    ghost predicate Valid()
      reads this
    {
      |slots| == BrewSlotCount
    }

    constructor ()
      ensures Valid() && forall i :: 0 <= i < BrewSlotCount ==> slots[i] == Empty
    {
      slots := seq(5, _ => Empty);
    }

    /** getStackInSlot. */
    function GetStackInSlot(index: nat): ItemStack
      reads this
      requires Valid() && index < BrewSlotCount
    {
      slots[index]
    }

    /** setInventorySlotContents: replaces one slot. */
    method SetInventorySlotContents(index: nat, stack: ItemStack)
      requires Valid() && index < BrewSlotCount
      modifies this
      ensures Valid() && slots == old(slots)[index := stack]
    {
      slots := slots[index := stack];
    }

    /** stand[slot]: the stack in the slot with that ordinal. */
    function Get(s: BrewSlot): (r: ItemStack)
      reads this
      requires Valid()
      ensures r == slots[Ordinal(s)]
    {
      GetStackInSlot(Ordinal(s))
    }

    /** stand[slot] = stack: writes the slot with that ordinal and no other. */
    method Set(s: BrewSlot, stack: ItemStack)
      requires Valid()
      modifies this
      ensures Valid() && slots == old(slots)[Ordinal(s) := stack]
      ensures forall t :: t != s ==> Get(t) == old(Get(t))
    {
      OrdinalsAreTheSlots();
      SetInventorySlotContents(Ordinal(s), stack);
    }

    /**
     * canInsertFuel: a stack goes to the powder slot only if it is valid
     * there; the ingredient slot has the first claim when it is empty and
     * the stack is a valid ingredient, or when it holds the same item (the
     * powder slot then wins only once that ingredient stack is full);
     * otherwise the powder slot must be empty or hold the same item, not full.
     */
    function CanInsertFuel(stack: ItemStack, valid: SlotValidity): (r: bool)
      reads this
      requires Valid()
      ensures stack.Empty? || !valid(4, stack) ==> !r
      ensures var ingredient := Get(InputIngredient);
              stack.Stack? && valid(4, stack) && ingredient.Empty? && valid(3, stack) ==> !r
      ensures var ingredient := Get(InputIngredient);
              stack.Stack? && valid(4, stack) && ingredient.Stack? && ingredient.item == stack.item ==>
                (r <==> IsFull(ingredient))
      ensures var ingredient, powder := Get(InputIngredient), Get(InputPowder);
              stack.Stack? && valid(4, stack) && !(ingredient.Empty? && valid(3, stack))
              && !(ingredient.Stack? && ingredient.item == stack.item) ==>
                (r <==> powder.Empty? || (powder.item == stack.item && !IsFull(powder)))
    {
      if stack.Empty? || !valid(4, stack) then false
      else
        var existingIngredient := Get(InputIngredient);
        var existingFuel := Get(InputPowder);
        if existingIngredient.Empty? && valid(3, stack) then false
        else if existingIngredient.Stack? && existingIngredient.item == stack.item then
          existingIngredient.count == existingIngredient.maxStackSize
        else
          existingFuel.Empty? || (existingFuel.item == stack.item && existingFuel.count != existingFuel.maxStackSize)
    }

    /**
     * Fuel never takes a stack the ingredient slot could still absorb: when
     * the answer is yes, the stack is valid fuel, and either the ingredient
     * slot holds the same item in a full stack, or it neither is free for a
     * valid ingredient nor holds the same item and the powder slot has room
     * for the stack.
     */
    lemma FuelYieldsToIngredient(stack: ItemStack, valid: SlotValidity)
      requires Valid()
      ensures CanInsertFuel(stack, valid) ==>
        var ingredient, powder := Get(InputIngredient), Get(InputPowder);
        && stack.Stack? && valid(4, stack)
        && !(ingredient.Empty? && valid(3, stack))
        && !(ingredient.Stack? && ingredient.item == stack.item && !IsFull(ingredient))
        && ((ingredient.Stack? && ingredient.item == stack.item) ||
            powder.Empty? || (powder.item == stack.item && !IsFull(powder)))
    {
    }
  }
}
