/**
 * The game's own types as the modelled code uses them: EnumFacing and its
 * horizontal index, Rotation, ItemStack, BlockPos and EnumHand.
 *
 * Two conventions of the game are taken as given here:
 *  - the horizontal index is SOUTH = 0, WEST = 1, NORTH = 2, EAST = 3, and
 *    the vertical sides carry the index -1;
 *  - EnumFacing.getHorizontal(i) picks the horizontal side with index i mod 4,
 *    the remainder taken in the mathematical sense (never negative), so that
 *    -1 picks index 3.
 */
module Minecraft {

  // ---------------------------------------------------------------- facings

  datatype Facing = Down | Up | North | South | West | East

  predicate IsHorizontal(f: Facing) {
    !f.Down? && !f.Up?
  }

  type Horizontal = f: Facing | IsHorizontal(f) witness North

  /** EnumFacing.horizontalIndex. */
  function HorizontalIndex(f: Facing): (i: int)
    ensures IsHorizontal(f) <==> 0 <= i < 4
    ensures !IsHorizontal(f) ==> i == -1
  {
    match f
    case South => 0
    case West => 1
    case North => 2
    case East => 3
    case _ => -1
  }

  /** EnumFacing.getHorizontal: the horizontal side whose index is i mod 4 (see the module comment). */
  function GetHorizontal(i: int): (f: Horizontal)
    ensures HorizontalIndex(f) == i % 4
  {
    var m := i % 4;
    if m == 0 then South else if m == 1 then West else if m == 2 then North else East
  }

  /** EnumFacing.opposite. */
  function Opposite(f: Facing): (g: Facing)
    ensures g != f
    ensures IsHorizontal(g) <==> IsHorizontal(f)
    ensures IsHorizontal(f) ==> HorizontalIndex(g) == (HorizontalIndex(f) + 2) % 4
  {
    match f
    case Down => Up
    case Up => Down
    case North => South
    case South => North
    case West => East
    case East => West
  }

  // --------------------------------------------------------------- rotation

  /** Rotation: a turn about the vertical axis. */
  datatype Rotation = NoRotation | Clockwise90 | Clockwise180 | Counterclockwise90

  /** Clockwise quarter turns (seen from above) a rotation stands for. */
  function QuarterTurns(r: Rotation): (n: nat)
    ensures n < 4
  {
    match r
    case NoRotation => 0
    case Clockwise90 => 1
    case Clockwise180 => 2
    case Counterclockwise90 => 3
  }

  /**
   * Rotation.rotate on a facing. A clockwise quarter turn takes NORTH to
   * EAST to SOUTH to WEST, which is one step up in the horizontal index.
   */
  function Rotate(f: Facing, r: Rotation): (g: Facing)
    ensures IsHorizontal(g) <==> IsHorizontal(f)
    ensures !IsHorizontal(f) ==> g == f
  {
    if IsHorizontal(f) then GetHorizontal(HorizontalIndex(f) + QuarterTurns(r)) else f
  }

  // ------------------------------------------------------------ item stacks

  /** Items are opaque; two stacks hold the same item when their ids agree. */
  type ItemId = nat

  /**
   * An item stack with its count and the maximum size of a stack of its item.
   * `Empty` is ItemStack.EMPTY in the crafting table code and `null` in the
   * brewing stand and furnace code.
   */
  datatype ItemStack = Empty | Stack(item: ItemId, count: nat, maxStackSize: nat)

  /** ItemStack.isEmpty. */
  predicate IsEmpty(s: ItemStack) {
    s.Empty? || s.count == 0
  }

  /** The stack has reached its maximum size. */
  predicate IsFull(s: ItemStack)
    requires s.Stack?
  {
    s.count == s.maxStackSize
  }

  /** isItemValidForSlot(slot, stack) of a vanilla tile entity (its rules are not part of this model). */
  type SlotValidity = (int, ItemStack) -> bool

  /** Inventories.merge(stack, existing): the stack a slot holds after inserting `stack` (not part of this model). */
  type Merge = (ItemStack, ItemStack) -> ItemStack

  // ------------------------------------------------------------------ world

  datatype BlockPos = BlockPos(x: int, y: int, z: int)

  datatype Hand = MainHand | OffHand
}
