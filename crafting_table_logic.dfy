/**
 * The crafting table's tile entity: its ten-slot inventory (slot 0 is the
 * crafting output, slots 1..9 the 3x3 grid), the static layout of the ten
 * selection boxes on its top, the guard that keeps automation away from the
 * output slot, the views a crafting container gets on the inventory, and the
 * routing of an access side plus the table's facing to a one-slot region.
 */
module CraftingTableLogic {
  import opened Wrappers
  import opened Minecraft

  /** The inventory's size: the output and the nine grid slots. */
  const SlotCount := 10
  /** Slot.OUTPUT.ordinal. */
  const OutputSlot := 0
  /** Integer.MAX_VALUE, the amount removeStackFromSlot asks for. */
  const IntMax := 0x7fff_ffff

  // ------------------------------------------------------------- slot enum

  /** The inventory's slots by meaning, in declaration order. */
  datatype TableSlot =
    | Output
    | InTopLeft | InTop | InTopRight
    | InLeft | InMiddle | InRight
    | InBottomLeft | InBottom | InBottomRight

  /** The grid cell (column, row) the documentation of each input slot names. */
  function GridCell(s: TableSlot): Option<(nat, nat)> {
    match s
    case Output => None
    case InTopLeft => Some((0, 0))
    case InTop => Some((1, 0))
    case InTopRight => Some((2, 0))
    case InLeft => Some((0, 1))
    case InMiddle => Some((1, 1))
    case InRight => Some((2, 1))
    case InBottomLeft => Some((0, 2))
    case InBottom => Some((1, 2))
    case InBottomRight => Some((2, 2))
  }

  /** Slot.ordinal: the output is slot 0 and the cell (x, y) is slot 1 + x + 3y. */
  function Ordinal(s: TableSlot): (n: nat)
    ensures n < SlotCount
    ensures n == OutputSlot <==> GridCell(s).None?
    ensures GridCell(s).Some? ==> n == 1 + GridCell(s).value.0 + 3 * GridCell(s).value.1
  {
    match s
    case Output => 0
    case InTopLeft => 1
    case InTop => 2
    case InTopRight => 3
    case InLeft => 4
    case InMiddle => 5
    case InRight => 6
    case InBottomLeft => 7
    case InBottom => 8
    case InBottomRight => 9
  }

  // -------------------------------------------------------- selection boxes

  /**
   * A selection box on the table's top, in sixteenths of a block on the two
   * horizontal axes, before the rotation by the table's facing. The vertical
   * extent (.8751 to .89), the 0.004 shrink and the hover colour are the same
   * for every box and are not kept.
   */
  datatype SelectionBox = SelectionBox(minX: int, minZ: int, maxX: int, maxZ: int,
                                       slot: nat, rightClicks: bool, leftClicks: bool)

  /**
   * The box the builder makes for column x and row y. AxisAlignedBB orders
   * each pair of corners, so the corners 13 - 3x and 13 - 3x - 2 give the
   * extent [11 - 3x, 13 - 3x], and likewise on the other axis.
   */
  function BoxFor(x: nat, y: nat): (b: SelectionBox)
    ensures b.maxX - b.minX == 2 && b.maxZ - b.minZ == 2
    ensures !b.rightClicks && !b.leftClicks
    ensures x <= 3 && y < 3 ==> 1 <= b.minX && b.maxX <= 15 && 1 <= b.minZ && b.maxZ <= 15
    ensures b.slot == OutputSlot <==> x == 3
  {
    SelectionBox(13 - x * 3 - 2, 12 - y * 3 - 2, 13 - x * 3, 12 - y * 3,
                 if x == 3 then 0 else 1 + x + y * 3, false, false)
  }

  /**
   * The list SELECTIONS holds: the nine grid boxes column by column, each
   * column row by row, and last the output box, the only one of column 3.
   */
  function Layout(): (boxes: seq<SelectionBox>)
    ensures |boxes| == SlotCount
  {
    seq(10, k requires 0 <= k < 10 => if k < 9 then BoxFor(k / 3, k % 3) else BoxFor(3, 1))
  }

  /** How many boxes the builder has made when it reaches column x, row y. */
  function BuiltBefore(x: nat, y: nat): nat
    requires x <= 3 && y <= 3
  {
    if x < 3 then 3 * x + y else if y <= 1 then 9 else 10
  }

  /** SELECTIONS: two nested loops that append one box per visited cell. */
  method BuildSelections() returns (boxes: seq<SelectionBox>)
    ensures boxes == Layout()
  {
    boxes := [];
    for x := 0 to 4
      invariant boxes == Layout()[..if x <= 3 then 3 * x else 10]
    {
      for y := 0 to 3
        invariant boxes == Layout()[..BuiltBefore(x, y)]
      {
        if x == 3 && y != 1 {
          continue;
        }
        boxes := boxes + [BoxFor(x, y)];
      }
    }
  }

  /** Where in the layout the box for a slot sits: the inverse of the slot numbering. */
  function BoxIndexOf(slot: nat): (k: nat)
    requires slot < SlotCount
    ensures k < SlotCount
  {
    if slot == 0 then 9 else 3 * ((slot - 1) % 3) + (slot - 1) / 3
  }

  /** The box at position k of the layout. */
  lemma LayoutAt(k: int)
    requires 0 <= k < SlotCount
    ensures k < 9 ==> Layout()[k] == BoxFor(k / 3, k % 3) && k == 3 * (k / 3) + k % 3 && k % 3 < 3 && k / 3 < 3
    ensures k == 9 ==> Layout()[k] == BoxFor(3, 1)
  {
  }

  /** The ten boxes carry the ten slots, each exactly once: slot and layout position determine each other. */
  lemma LayoutSlotsArePermutation()
    ensures forall k :: 0 <= k < SlotCount ==> Layout()[k].slot < SlotCount && BoxIndexOf(Layout()[k].slot) == k
    ensures forall s :: 0 <= s < SlotCount ==> Layout()[BoxIndexOf(s)].slot == s
  {
    forall k | 0 <= k < SlotCount
      ensures Layout()[k].slot < SlotCount && BoxIndexOf(Layout()[k].slot) == k
    {
      LayoutAt(k);
    }
    forall s | 0 <= s < SlotCount
      ensures Layout()[BoxIndexOf(s)].slot == s
    {
      LayoutAt(BoxIndexOf(s));
    }
  }

  /**
   * Grid box (x, y) is slot 1 + x + 3y and no box accepts a click; column 3
   * has a single box, at row 1, and it is the output slot.
   */
  lemma LayoutGridAndOutput()
    ensures forall x: nat, y: nat :: x < 3 && y < 3 ==> Layout()[3 * x + y].slot == 1 + x + 3 * y
    ensures forall k :: 0 <= k < SlotCount ==> !Layout()[k].rightClicks && !Layout()[k].leftClicks
    ensures forall k :: 0 <= k < SlotCount && Layout()[k].minX == 2 ==> k == 9
    ensures Layout()[9].slot == OutputSlot && Layout()[9] == BoxFor(3, 1)
  {
    forall x: nat, y: nat | x < 3 && y < 3
      ensures Layout()[3 * x + y].slot == 1 + x + 3 * y
    {
      LayoutAt(3 * x + y);
    }
    forall k | 0 <= k < SlotCount
      ensures !Layout()[k].rightClicks && !Layout()[k].leftClicks
      ensures Layout()[k].minX == 2 ==> k == 9
    {
      LayoutAt(k);
    }
    LayoutAt(9);
  }

  /** Two boxes are apart when a gap of at least one unit separates them on some axis. */
  predicate Apart(a: SelectionBox, b: SelectionBox) {
    a.maxX < b.minX || b.maxX < a.minX || a.maxZ < b.minZ || b.maxZ < a.minZ
  }

  /**
   * Every box is two units square; neighbouring boxes, in a row or in a
   * column, are separated by exactly one unit, and no two boxes touch.
   * The grid's x-extents are [11, 13], [8, 10] and [5, 7], the output's [2, 4].
   */
  lemma LayoutKeepsOneUnitGaps()
    ensures forall k :: 0 <= k < SlotCount ==>
              Layout()[k].maxX == Layout()[k].minX + 2 && Layout()[k].maxZ == Layout()[k].minZ + 2
    ensures forall k :: 0 <= k < 9 ==> Layout()[k].minX == 11 - 3 * (k / 3)
    ensures Layout()[9].minX == 2
    ensures forall k :: 0 <= k < 6 ==> Layout()[k + 3].maxX + 1 == Layout()[k].minX
    ensures forall k :: 0 <= k < 9 && k % 3 < 2 ==> Layout()[k + 1].maxZ + 1 == Layout()[k].minZ
    ensures Layout()[9].maxX + 1 == Layout()[7].minX && Layout()[9].minZ == Layout()[7].minZ
    ensures forall j, k :: 0 <= j < k < SlotCount ==> Apart(Layout()[j], Layout()[k])
  {
    forall k | 0 <= k < SlotCount
      ensures Layout()[k].maxX == Layout()[k].minX + 2 && Layout()[k].maxZ == Layout()[k].minZ + 2
      ensures k < 9 ==> Layout()[k].minX == 11 - 3 * (k / 3)
    {
      BoxShape(k);
    }
    forall k | 0 <= k < 6
      ensures Layout()[k + 3].maxX + 1 == Layout()[k].minX
    {
      ColumnsOneApart(k);
    }
    forall k | 0 <= k < 9 && k % 3 < 2
      ensures Layout()[k + 1].maxZ + 1 == Layout()[k].minZ
    {
      RowsOneApart(k);
    }
    LayoutAt(7);
    LayoutAt(9);
    forall j, k | 0 <= j < k < SlotCount
      ensures Apart(Layout()[j], Layout()[k])
    {
      BoxesApart(j, k);
    }
  }

  /** Box k of the layout is two units square, and a grid box's x-extent starts at 11 - 3 times its column. */
  lemma BoxShape(k: int)
    requires 0 <= k < SlotCount
    ensures Layout()[k].maxX == Layout()[k].minX + 2 && Layout()[k].maxZ == Layout()[k].minZ + 2
    ensures k < 9 ==> Layout()[k].minX == 11 - 3 * (k / 3)
  {
    LayoutAt(k);
  }

  /** The grid box one column further lies one unit lower on the x axis. */
  lemma ColumnsOneApart(k: int)
    requires 0 <= k < 6
    ensures Layout()[k + 3].maxX + 1 == Layout()[k].minX
  {
    LayoutAt(k);
    LayoutAt(k + 3);
  }

  /** The grid box one row further in the same column lies one unit lower on the z axis. */
  lemma RowsOneApart(k: int)
    requires 0 <= k < 9 && k % 3 < 2
    ensures Layout()[k + 1].maxZ + 1 == Layout()[k].minZ
  {
    LayoutAt(k);
    LayoutAt(k + 1);
  }

  /** Two different boxes of the layout are apart. */
  lemma BoxesApart(j: int, k: int)
    requires 0 <= j < k < SlotCount
    ensures Apart(Layout()[j], Layout()[k])
  {
    LayoutAt(j);
    LayoutAt(k);
  }

  // --------------------------------------------------------------- rotation

  /** The table's rotation relative to a north facing. */
  function RotationOf(facing: Facing): (r: Rotation)
    ensures IsHorizontal(facing) ==> Rotate(North, r) == facing
    ensures !IsHorizontal(facing) ==> r == NoRotation
  {
    match facing
    case East => Clockwise90
    case West => Counterclockwise90
    case South => Clockwise180
    case _ => NoRotation
  }

  // -------------------------------------------------------------- inventory

  /** What Forge's ItemStackHandler does to one slot: the slot's new stack and the stack it hands back. */
  datatype SlotOutcome = SlotOutcome(slotAfter: ItemStack, handedBack: ItemStack)

  /** ItemStackHandler.insertItem on one slot: (stack in the slot, stack offered) (not part of this model). */
  type BaseInsert = (ItemStack, ItemStack) -> SlotOutcome

  /** ItemStackHandler.extractItem on one slot: (stack in the slot, amount asked for) (not part of this model). */
  type BaseExtract = (ItemStack, int) -> SlotOutcome

  /** CraftingTableInventory: a ten-slot ItemStackHandler whose output slot automation cannot use. */
  class CraftingTableInventory {
    var stacks: seq<ItemStack>

    ghost predicate Valid()
      reads this
    {
      |stacks| == SlotCount
    }

    constructor ()
      ensures Valid()
      ensures forall i :: 0 <= i < SlotCount ==> stacks[i] == Empty
    {
      stacks := seq(10, _ => Empty);
    }

    /** getStackInSlot. */
    function GetStackInSlot(slot: nat): (s: ItemStack)
      reads this
      requires Valid() && slot < SlotCount
      ensures s == stacks[slot]
    {
      stacks[slot]
    }

    /** setStackInSlot: replaces one slot. */
    method SetStackInSlot(slot: nat, stack: ItemStack)
      requires Valid() && slot < SlotCount
      modifies this
      ensures Valid()
      ensures stacks == old(stacks)[slot := stack]
    {
      stacks := stacks[slot := stack];
    }

    /**
     * insertItem: the output slot hands the offered stack back untouched;
     * any other slot is the handler's ordinary insertion, which writes the
     * slot only when not simulating.
     */
    method InsertItem(slot: nat, stack: ItemStack, simulate: bool, base: BaseInsert) returns (rest: ItemStack)
      requires Valid() && slot < SlotCount
      modifies this
      ensures Valid()
      ensures slot == OutputSlot ==> rest == stack && stacks == old(stacks)
      ensures slot != OutputSlot ==> rest == base(old(stacks[slot]), stack).handedBack
      ensures slot != OutputSlot && simulate ==> stacks == old(stacks)
      ensures slot != OutputSlot && !simulate ==>
                stacks == old(stacks)[slot := base(old(stacks[slot]), stack).slotAfter]
    {
      if slot == OutputSlot {
        return stack;
      }
      var outcome := base(stacks[slot], stack);
      if !simulate {
        stacks := stacks[slot := outcome.slotAfter];
      }
      rest := outcome.handedBack;
    }

    /**
     * extractItem: the output slot yields nothing and stays as it is; any
     * other slot is the handler's ordinary extraction.
     */
    method ExtractItem(slot: nat, amount: int, simulate: bool, base: BaseExtract) returns (taken: ItemStack)
      requires Valid() && slot < SlotCount
      modifies this
      ensures Valid()
      ensures slot == OutputSlot ==> taken == Empty && stacks == old(stacks)
      ensures slot != OutputSlot ==> taken == base(old(stacks[slot]), amount).handedBack
      ensures slot != OutputSlot && simulate ==> stacks == old(stacks)
      ensures slot != OutputSlot && !simulate ==>
                stacks == old(stacks)[slot := base(old(stacks[slot]), amount).slotAfter]
    {
      if slot == OutputSlot {
        return Empty;
      }
      var outcome := base(stacks[slot], amount);
      if !simulate {
        stacks := stacks[slot := outcome.slotAfter];
      }
      taken := outcome.handedBack;
    }
  }

  // ------------------------------------------------------ container views

  /**
   * Container.onCraftMatrixChanged for a grid: the stack the container
   * writes into its craft result, which is the table's output slot, once
   * the grid has changed; None when it writes nothing (on the client).
   * The recipe lookup behind it is not part of this model.
   */
  type MatrixChanged = seq<ItemStack> -> Option<ItemStack>

  /** The nine grid slots 1..9, as the crafting matrix sees them. */
  function Grid(stacks: seq<ItemStack>): (g: seq<ItemStack>)
    requires |stacks| == SlotCount
    ensures |g| == 9 && forall i :: 0 <= i < 9 ==> g[i] == stacks[i + 1]
  {
    stacks[1..]
  }

  /** The table's slots after the container has reacted to a change of the grid. */
  function AfterMatrixChanged(stacks: seq<ItemStack>, changed: MatrixChanged): (r: seq<ItemStack>)
    requires |stacks| == SlotCount
    ensures |r| == SlotCount && Grid(r) == Grid(stacks)
    ensures changed(Grid(stacks)).None? ==> r == stacks
    ensures changed(Grid(stacks)).Some? ==> r[OutputSlot] == changed(Grid(stacks)).value
  {
    match changed(Grid(stacks))
    case None => stacks
    case Some(result) => stacks[OutputSlot := result]
  }

  /**
   * The 3x3 crafting matrix a crafting container sees: grid index i is
   * inventory slot i + 1. Every write but clear lets the container react to
   * the new grid, which rewrites the output slot on the server.
   */
  class CraftMatrix {
    const table: CraftingTableInventory

    constructor (table: CraftingTableInventory)
      ensures this.table == table
    {
      this.table := table;
    }

    /** getStackInSlot. */
    function GetStackInSlot(index: nat): (s: ItemStack)
      reads this, table
      requires table.Valid() && index < 9
      ensures s == table.stacks[index + 1]
    {
      table.GetStackInSlot(index + 1)
    }

    /** onCraftMatrixChanged(this): the container's craft result takes what it computes for the grid. */
    method OnCraftMatrixChanged(changed: MatrixChanged)
      requires table.Valid()
      modifies table
      ensures table.Valid()
      ensures table.stacks == AfterMatrixChanged(old(table.stacks), changed)
    {
      var result := changed(table.stacks[1..]);
      if result.Some? {
        table.SetStackInSlot(OutputSlot, result.value);
      }
    }

    /**
     * setInventorySlotContents: grid index i becomes the stack, the rest of
     * the grid stays, and the output is what the container computes for the
     * new grid.
     */
    method SetInventorySlotContents(index: nat, stack: ItemStack, changed: MatrixChanged)
      requires table.Valid() && index < 9
      modifies table
      ensures table.Valid()
      ensures Grid(table.stacks) == Grid(old(table.stacks))[index := stack]
      ensures table.stacks == AfterMatrixChanged(old(table.stacks)[index + 1 := stack], changed)
    {
      table.SetStackInSlot(index + 1, stack);
      OnCraftMatrixChanged(changed);
    }

    /**
     * removeStackFromSlot: extracts as much as possible from slot i + 1, then
     * the output is what the container computes for the new grid.
     */
    method RemoveStackFromSlot(index: nat, base: BaseExtract, changed: MatrixChanged) returns (taken: ItemStack)
      requires table.Valid() && index < 9
      modifies table
      ensures table.Valid()
      ensures taken == base(old(table.stacks[index + 1]), IntMax).handedBack
      ensures Grid(table.stacks) == Grid(old(table.stacks))[index := base(old(table.stacks[index + 1]), IntMax).slotAfter]
      ensures table.stacks
                == AfterMatrixChanged(old(table.stacks)[index + 1 := base(old(table.stacks[index + 1]), IntMax).slotAfter], changed)
    {
      taken := table.ExtractItem(index + 1, IntMax, false, base);
      OnCraftMatrixChanged(changed);
    }

    /**
     * decrStackSize: extracts `count` from slot i + 1, then the output is
     * what the container computes for the new grid.
     */
    method DecrStackSize(index: nat, count: int, base: BaseExtract, changed: MatrixChanged) returns (taken: ItemStack)
      requires table.Valid() && index < 9
      modifies table
      ensures table.Valid()
      ensures taken == base(old(table.stacks[index + 1]), count).handedBack
      ensures Grid(table.stacks) == Grid(old(table.stacks))[index := base(old(table.stacks[index + 1]), count).slotAfter]
      ensures table.stacks
                == AfterMatrixChanged(old(table.stacks)[index + 1 := base(old(table.stacks[index + 1]), count).slotAfter], changed)
    {
      taken := table.ExtractItem(index + 1, count, false, base);
      OnCraftMatrixChanged(changed);
    }

    /** clear: empties slots 1..9 without a reaction from the container; the output keeps its stack. */
    method Clear()
      requires table.Valid()
      modifies table
      ensures table.Valid()
      ensures table.stacks[OutputSlot] == old(table.stacks[OutputSlot])
      ensures forall i :: 1 <= i < SlotCount ==> table.stacks[i] == Empty
    {
      for i := 1 to 10
        invariant table.Valid()
        invariant table.stacks[OutputSlot] == old(table.stacks[OutputSlot])
        invariant forall j :: 1 <= j < i ==> table.stacks[j] == Empty
      {
        table.SetStackInSlot(i, Empty);
      }
    }
  }

  /** The craft result a crafting container sees: every index is inventory slot 0. */
  class CraftResult {
    const table: CraftingTableInventory

    constructor (table: CraftingTableInventory)
      ensures this.table == table
    {
      this.table := table;
    }

    /** getStackInSlot: the output, whatever the index. */
    function GetStackInSlot(index: int): (s: ItemStack)
      reads this, table
      requires table.Valid()
      ensures s == table.stacks[OutputSlot]
    {
      table.stacks[0]
    }

    /** setInventorySlotContents: writes the output, whatever the index. */
    method SetInventorySlotContents(index: int, stack: ItemStack)
      requires table.Valid()
      modifies table
      ensures table.Valid()
      ensures table.stacks == old(table.stacks)[OutputSlot := stack]
    {
      table.stacks := table.stacks[0 := stack];
    }

    /** removeStackFromSlot: hands out the output's stack and empties the output. */
    method RemoveStackFromSlot(index: int) returns (taken: ItemStack)
      requires table.Valid()
      modifies table
      ensures table.Valid()
      ensures taken == old(table.stacks[OutputSlot])
      ensures table.stacks == old(table.stacks)[OutputSlot := Empty]
    {
      taken := table.stacks[0];
      table.stacks := table.stacks[0 := Empty];
    }

    /** decrStackSize: ignores the count and removes the whole output stack. */
    method DecrStackSize(index: int, count: int) returns (taken: ItemStack)
      requires table.Valid()
      modifies table
      ensures table.Valid()
      ensures taken == old(table.stacks[OutputSlot])
      ensures table.stacks == old(table.stacks)[OutputSlot := Empty]
    {
      taken := RemoveStackFromSlot(0);
    }

    /** clear: empties the output. */
    method Clear()
      requires table.Valid()
      modifies table
      ensures table.Valid()
      ensures table.stacks == old(table.stacks)[OutputSlot := Empty]
    {
      var _ := RemoveStackFromSlot(0);
    }
  }

  // ------------------------------------------------------------ tile entity

  /** CraftingTableLogic: the table's facing and its inventory. */
  class TableTile {
    var facing: Facing
    const inventory: CraftingTableInventory

    constructor ()
      ensures facing == North
      ensures fresh(inventory) && inventory.Valid()
      ensures forall i :: 0 <= i < SlotCount ==> inventory.stacks[i] == Empty
    {
      facing := North;
      inventory := new CraftingTableInventory();
    }

    /** table[slot]: the stack in the slot with that ordinal. */
    function Get(s: TableSlot): (r: ItemStack)
      reads this, inventory
      requires inventory.Valid()
      ensures r == inventory.stacks[Ordinal(s)]
    {
      inventory.GetStackInSlot(Ordinal(s))
    }

    /** table[slot] = stack: writes the slot with that ordinal. */
    method Set(s: TableSlot, stack: ItemStack)
      requires inventory.Valid()
      modifies inventory
      ensures inventory.Valid()
      ensures inventory.stacks == old(inventory.stacks)[Ordinal(s) := stack]
    {
      inventory.SetStackInSlot(Ordinal(s), stack);
    }
  }

  // ---------------------------------------------------------------- routing

  /** The item handler a side gets: the whole inventory, or RangedWrapper(inventory, minSlot, maxSlot) (maxSlot exclusive). */
  datatype ItemHandler = WholeInventory | Ranged(minSlot: nat, maxSlot: nat)

  const TopInventory := Ranged(2, 3)
  const BottomInventory := Ranged(8, 9)
  const LeftInventory := Ranged(4, 5)
  const RightInventory := Ranged(6, 7)
  const MiddleInventory := Ranged(5, 6)

  /** hasCapability for the item handler: every side but DOWN, and the unsided query. */
  function HasItemCapability(side: Option<Facing>): (b: bool)
    ensures b <==> side.None? || side.value == Up || IsHorizontal(side.value)
  {
    side != Some(Down)
  }

  /**
   * The index getCapability hands to getHorizontal:
   * (facing.horizontalIndex + 2) % 4 + side.horizontalIndex. The left operand
   * of % is never negative, so the JVM's remainder and Dafny's agree.
   */
  function RelativeIndex(facing: Facing, side: Facing): int {
    (HorizontalIndex(facing) + 2) % 4 + HorizontalIndex(side)
  }

  /** The side relative to the table's orientation. */
  function RelativeSide(facing: Facing, side: Facing): Horizontal {
    GetHorizontal(RelativeIndex(facing, side))
  }

  /** The region a relative side reaches. */
  function RegionOf(relative: Horizontal): (h: ItemHandler)
    ensures h.Ranged? && h.maxSlot == h.minSlot + 1 && h.minSlot in {2, 4, 6, 8}
  {
    match relative
    case North => BottomInventory
    case South => TopInventory
    case West => RightInventory
    case East => LeftInventory
  }

  /**
   * Opposite sides reach opposite edges of the grid: their slots mirror
   * through the middle slot 5.
   */
  lemma OppositeRegions(relative: Horizontal)
    ensures RegionOf(Opposite(relative)).minSlot + RegionOf(relative).minSlot == 10
    ensures RegionOf(Opposite(relative)) != RegionOf(relative)
  {
  }

  /**
   * getCapability for the item handler: UP reaches the middle slot, the
   * unsided query the whole inventory, and any other side a single grid slot
   * on the edge of the grid (2, 4, 6 or 8), never the output and never the
   * middle. DOWN is routed like a horizontal side.
   */
  function GetCapability(side: Option<Facing>, facing: Facing): (h: ItemHandler)
    ensures side == Some(Up) ==> h == MiddleInventory
    ensures side == None ==> h == WholeInventory
    ensures side.Some? && side.value != Up ==>
              h.Ranged? && h.maxSlot == h.minSlot + 1 && h.minSlot in {2, 4, 6, 8}
  {
    match side
    case None => WholeInventory
    case Some(s) => if s == Up then MiddleInventory else RegionOf(RelativeSide(facing, s))
  }

  /** Adding the same quarter turns to two different indices keeps them different. */
  lemma ShiftKeepsApart(c: int, a: int, b: int)
    requires 0 <= c < 4 && 0 <= a < 4 && 0 <= b < 4 && a != b
    ensures (c + a) % 4 != (c + b) % 4
  {
    assert (c + a) % 4 == if c + a < 4 then c + a else c + a - 4;
    assert (c + b) % 4 == if c + b < 4 then c + b else c + b - 4;
  }

  /** Taking c quarter turns off and putting them back returns to the start. */
  lemma ShiftUndone(c: int, r: int)
    requires 0 <= c < 4 && 0 <= r < 4
    ensures (c + (r - c + 4) % 4) % 4 == r
  {
    assert (r - c + 4) % 4 == if r - c < 0 then r - c + 4 else r - c;
  }

  /** Two horizontal sides with the same index are the same side. */
  lemma SameIndexSameSide(f: Horizontal, g: Horizontal)
    requires HorizontalIndex(f) == HorizontalIndex(g)
    ensures f == g
  {
  }

  /** The horizontal side through which a one-slot region on the grid's edge is reached, for a facing. */
  function SideReaching(slot: nat, facing: Facing): (side: Horizontal)
    requires slot in {2, 4, 6, 8}
    ensures GetCapability(Some(side), facing) == Ranged(slot, slot + 1)
  {
    var relative := if slot == 8 then 2 else if slot == 2 then 0 else if slot == 6 then 1 else 3;
    var c := (HorizontalIndex(facing) + 2) % 4;
    var side := GetHorizontal((relative - c + 4) % 4);
    assert HorizontalIndex(side) == (relative - c + 4) % 4;
    assert RelativeIndex(facing, side) == c + (relative - c + 4) % 4;
    ShiftUndone(c, relative);
    SameIndexSameSide(RelativeSide(facing, side), GetHorizontal(relative));
    side
  }

  /** Different horizontal sides of a table reach different slots. */
  lemma SidesReachDifferentSlots(facing: Facing, s: Horizontal, t: Horizontal)
    requires s != t
    ensures GetCapability(Some(s), facing) != GetCapability(Some(t), facing)
  {
    var rs, rt := RelativeSide(facing, s), RelativeSide(facing, t);
    assert rs != rt by {
      var c := (HorizontalIndex(facing) + 2) % 4;
      assert RelativeIndex(facing, s) == c + HorizontalIndex(s);
      assert RelativeIndex(facing, t) == c + HorizontalIndex(t);
      ShiftKeepsApart(c, HorizontalIndex(s), HorizontalIndex(t));
    }
    assert RegionOf(rs) != RegionOf(rt);
  }

  /**
   * For any facing, the four horizontal sides reach four different
   * one-slot regions, and together these are exactly the slots 2, 4, 6 and 8.
   */
  lemma RoutingIsBijective(facing: Facing)
    ensures forall s: Horizontal, t: Horizontal :: s != t ==>
              GetCapability(Some(s), facing) != GetCapability(Some(t), facing)
    ensures {GetCapability(Some(North), facing), GetCapability(Some(South), facing),
             GetCapability(Some(West), facing), GetCapability(Some(East), facing)}
            == {Ranged(2, 3), Ranged(4, 5), Ranged(6, 7), Ranged(8, 9)}
  {
    forall s: Horizontal, t: Horizontal | s != t
      ensures GetCapability(Some(s), facing) != GetCapability(Some(t), facing)
    {
      SidesReachDifferentSlots(facing, s, t);
    }
    var reached := {GetCapability(Some(North), facing), GetCapability(Some(South), facing),
                    GetCapability(Some(West), facing), GetCapability(Some(East), facing)};
    var edges := {Ranged(2, 3), Ranged(4, 5), Ranged(6, 7), Ranged(8, 9)};
    assert reached <= edges;
    Reached(facing, 2, reached);
    Reached(facing, 4, reached);
    Reached(facing, 6, reached);
    Reached(facing, 8, reached);
  }

  /** The one-slot region of an edge slot is among those the four horizontal sides reach. */
  lemma Reached(facing: Facing, n: nat, reached: set<ItemHandler>)
    requires n in {2, 4, 6, 8}
    requires reached == {GetCapability(Some(North), facing), GetCapability(Some(South), facing),
                         GetCapability(Some(West), facing), GetCapability(Some(East), facing)}
    ensures Ranged(n, n + 1) in reached
  {
    var s := SideReaching(n, facing);
    if s == North {} else if s == South {} else if s == West {} else {}
  }

  /** For a north-facing table each side is its own relative side: NORTH -> slot 8, SOUTH -> 2, WEST -> 6, EAST -> 4. */
  lemma NorthFacingRouting()
    ensures forall s: Horizontal :: RelativeSide(North, s) == s
    ensures GetCapability(Some(North), North) == Ranged(8, 9)
    ensures GetCapability(Some(South), North) == Ranged(2, 3)
    ensures GetCapability(Some(West), North) == Ranged(6, 7)
    ensures GetCapability(Some(East), North) == Ranged(4, 5)
  {
    forall s: Horizontal
      ensures RelativeSide(North, s) == s
    {
      SameIndexSameSide(RelativeSide(North, s), s);
    }
  }

  /**
   * As written, the routing is not the north-facing routing turned with the
   * table: a north-facing table sends its north (front) side to the bottom
   * slot, but the same table turned a quarter clockwise (facing east) sends
   * its east (front) side to the top slot, and likewise facing west.
   */
  lemma RoutingMirrorsEastWestFacings()
    ensures RotationOf(East) == Clockwise90 && Rotate(North, Clockwise90) == East
    ensures RotationOf(West) == Counterclockwise90 && Rotate(North, Counterclockwise90) == West
    ensures GetCapability(Some(North), North) == BottomInventory
    ensures GetCapability(Some(East), East) == TopInventory
    ensures GetCapability(Some(West), West) == TopInventory
  {
  }

  /**
   * As written, the DOWN side, for which hasCapability answers false, still
   * gets a one-slot handler whatever the facing: for a north-facing table the
   * index is -1. Which slot that reaches depends on how getHorizontal reduces
   * a negative index: read as a floor modulus, as here, -1 is EAST, the
   * left-hand slot 4; if it takes the absolute value of the remainder, -1 is
   * WEST and the slot is 6. Either way the side gets a handler.
   */
  lemma DownSideGetsAHandler()
    ensures !HasItemCapability(Some(Down))
    ensures forall facing :: GetCapability(Some(Down), facing).Ranged?
    ensures GetCapability(Some(Down), North) == LeftInventory
  {
    assert RelativeIndex(North, Down) == -1;
  }

  /** The index of the relative side the comments promise: the side turned back by the table's rotation relative to north. */
  function IntendedIndex(facing: Horizontal, side: Horizontal): int {
    HorizontalIndex(side) - HorizontalIndex(facing) + 6
  }

  /** The relative side the comments promise. */
  function IntendedRelativeSide(facing: Horizontal, side: Horizontal): Horizontal {
    GetHorizontal(IntendedIndex(facing, side))
  }

  /**
   * The item handler the comments promise: no handler for DOWN, as
   * hasCapability says, and the horizontal sides routed by the intended
   * relative side.
   */
  function IntendedCapability(side: Option<Facing>, facing: Horizontal): (h: Option<ItemHandler>)
    ensures h.Some? <==> HasItemCapability(side)
  {
    match side
    case None => Some(WholeInventory)
    case Some(s) =>
      if s == Down then None
      else if s == Up then Some(MiddleInventory)
      else Some(RegionOf(IntendedRelativeSide(facing, s)))
  }

  /** Turning two indices by the same quarter turns keeps their difference modulo 4. */
  lemma ShiftCancels(a: int, b: int, q: int)
    requires 0 <= a < 4 && 0 <= b < 4 && 0 <= q < 4
    ensures ((b + q) % 4 - (a + q) % 4 + 6) % 4 == (b - a + 6) % 4
  {
    var x := (b + q) % 4;
    var y := (a + q) % 4;
    assert x == if b + q < 4 then b + q else b + q - 4;
    assert y == if a + q < 4 then a + q else a + q - 4;
    assert x - y + 6 == b - a + 6 || x - y + 6 == b - a + 2 || x - y + 6 == b - a + 10;
  }

  /** The intended relative side does not change when table and side turn together. */
  lemma IntendedSideFollowsRotation(facing: Horizontal, side: Horizontal, r: Rotation)
    ensures IntendedRelativeSide(Rotate(facing, r), Rotate(side, r)) == IntendedRelativeSide(facing, side)
  {
    var f', s' := Rotate(facing, r), Rotate(side, r);
    assert HorizontalIndex(f') == (HorizontalIndex(facing) + QuarterTurns(r)) % 4;
    assert HorizontalIndex(s') == (HorizontalIndex(side) + QuarterTurns(r)) % 4;
    ShiftCancels(HorizontalIndex(facing), HorizontalIndex(side), QuarterTurns(r));
    assert IntendedIndex(f', s') % 4 == IntendedIndex(facing, side) % 4;
    SameIndexSameSide(IntendedRelativeSide(f', s'), IntendedRelativeSide(facing, side));
  }

  /** For north and south facings the intended relative side is the one the code computes. */
  lemma IntendedSideAgreesNorthSouth(facing: Horizontal, side: Horizontal)
    requires facing == North || facing == South
    ensures IntendedRelativeSide(facing, side) == RelativeSide(facing, side)
  {
    assert IntendedIndex(facing, side) % 4 == RelativeIndex(facing, side) % 4;
    SameIndexSameSide(IntendedRelativeSide(facing, side), RelativeSide(facing, side));
  }

  /**
   * The intended routing turns with the table: turning facing and side by
   * the same rotation reaches the same handler, the front always reaches the
   * bottom slot, and for north and south facings it agrees with the code on
   * every side but DOWN.
   */
  lemma IntendedRoutingFollowsRotation(facing: Horizontal, side: Option<Facing>, r: Rotation)
    ensures IntendedCapability(if side.Some? then Some(Rotate(side.value, r)) else None, Rotate(facing, r))
            == IntendedCapability(side, facing)
    ensures IntendedCapability(Some(facing), facing) == Some(BottomInventory)
    ensures (facing == North || facing == South) && HasItemCapability(side) ==>
              IntendedCapability(side, facing) == Some(GetCapability(side, facing))
  {
    if side.Some? && IsHorizontal(side.value) {
      IntendedSideFollowsRotation(facing, side.value, r);
      if facing == North || facing == South {
        IntendedSideAgreesNorthSouth(facing, side.value);
      }
    }
    assert HorizontalIndex(IntendedRelativeSide(facing, facing)) == 2;
    SameIndexSameSide(IntendedRelativeSide(facing, facing), North);
  }
}
