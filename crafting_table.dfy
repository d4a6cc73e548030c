/**
 * The crafting table block: the facing it takes when placed, the facing it
 * settles on next to walls, the slots it spills when broken, and how its
 * block state gets its facing back from the tile entity.
 */
module CraftingTable {
  import opened Wrappers
  import opened Minecraft
  import opened CraftingTableLogic

  /** The block state's one property, FACING, which takes the horizontal sides only. */
  datatype TableState = TableState(facing: Horizontal)

  /** The default state faces north. */
  const DefaultState := TableState(North)

  /** getStateForPlacement: the default state turned to face the placer. */
  function GetStateForPlacement(placerFacing: Horizontal): (st: TableState)
    ensures Opposite(st.facing) == placerFacing
    ensures HorizontalIndex(st.facing) == (HorizontalIndex(placerFacing) + 2) % 4
  {
    DefaultState.(facing := Opposite(placerFacing))
  }

  /** onBlockPlacedBy: a crafting table's tile faces the placer too; any other tile is left alone. */
  method OnBlockPlacedBy(tile: TableTile?, placerFacing: Horizontal)
    modifies tile
    ensures tile != null ==> tile.facing == GetStateForPlacement(placerFacing).facing
    ensures tile != null ==> Opposite(tile.facing) == placerFacing
  {
    if tile == null {
      return;
    }
    tile.facing := Opposite(placerFacing);
  }

  /**
   * The facing setDefaultFacing settles on, given which neighbours are full
   * blocks: a horizontal facing that looks into a full block while the
   * opposite neighbour is not full turns round; every other facing stays.
   */
  function DefaultFacing(facing: Facing, fullBlock: Facing -> bool): (f: Facing)
    ensures f == facing || (IsHorizontal(facing) && f == Opposite(facing))
    ensures f != facing <==> IsHorizontal(facing) && fullBlock(facing) && !fullBlock(Opposite(facing))
  {
    if facing == North && fullBlock(North) && !fullBlock(South) then South
    else if facing == South && fullBlock(South) && !fullBlock(North) then North
    else if facing == West && fullBlock(West) && !fullBlock(East) then East
    else if facing == East && fullBlock(East) && !fullBlock(West) then West
    else facing
  }

  /** Settling is idempotent: a table that has turned away from a wall stays put the next time. */
  lemma DefaultFacingIsStable(facing: Facing, fullBlock: Facing -> bool)
    ensures DefaultFacing(DefaultFacing(facing, fullBlock), fullBlock) == DefaultFacing(facing, fullBlock)
    ensures DefaultFacing(facing, fullBlock) != facing ==> !fullBlock(DefaultFacing(facing, fullBlock))
  {
    var f := DefaultFacing(facing, fullBlock);
    if f != facing {
      assert Opposite(f) == facing;
      assert fullBlock(Opposite(f));
    }
  }

  /**
   * setDefaultFacing: on the server, a crafting table's tile takes its
   * default facing; on the client, or for any other tile, nothing changes.
   */
  method SetDefaultFacing(isRemote: bool, tile: TableTile?, fullBlock: Facing -> bool)
    modifies tile
    ensures tile != null && !isRemote ==> tile.facing == DefaultFacing(old(tile.facing), fullBlock)
    ensures tile != null && isRemote ==> tile.facing == old(tile.facing)
  {
    if !isRemote {
      if tile == null {
        return;
      }
      var north, south, west, east := fullBlock(North), fullBlock(South), fullBlock(West), fullBlock(East);
      var facing := tile.facing;
      if facing == North && north && !south {
        tile.facing := South;
      } else if facing == South && south && !north {
        tile.facing := North;
      } else if facing == West && west && !east {
        tile.facing := East;
      } else if facing == East && east && !west {
        tile.facing := West;
      }
    }
  }

  /** The slot range 1 until n that breakBlock spills. */
  function SpillRange(n: nat): (r: seq<nat>)
    ensures |r| == if n == 0 then 0 else n - 1
    ensures OutputSlot !in r
    ensures forall i, j :: 0 <= i < j < |r| ==> r[i] < r[j]
  {
    if n <= 1 then [] else seq(n - 1, i requires 0 <= i < n - 1 => i + 1)
  }

  /** The spilled slots are exactly 1 until n, each once, in increasing order: all of the grid, none of the output. */
  lemma SpillRangeIsTheGrid(n: nat)
    ensures forall i :: i in SpillRange(n) <==> 1 <= i < n
    ensures forall i :: 0 <= i < |SpillRange(n)| ==> SpillRange(n)[i] == i + 1
    ensures n == SlotCount ==> forall i :: i in SpillRange(n) <==> OutputSlot < i < SlotCount
  {
    var r := SpillRange(n);
    forall i | 1 <= i < n
      ensures i in r
    {
      assert r[i - 1] == i;
    }
  }

  /**
   * breakBlock: the stacks a crafting table drops when broken, slot by slot:
   * the nine grid slots, never the output. Any other tile drops nothing.
   */
  method BreakBlock(tile: TableTile?) returns (dropped: seq<ItemStack>)
    requires tile != null ==> tile.inventory.Valid()
    ensures tile == null ==> dropped == []
    ensures tile != null ==> |dropped| == 9 && forall i :: 0 <= i < 9 ==> dropped[i] == tile.inventory.stacks[i + 1]
  {
    if tile == null {
      return [];
    }
    var range := SpillRange(|tile.inventory.stacks|);
    SpillRangeIsTheGrid(|tile.inventory.stacks|);
    dropped := seq(|range|, i requires 0 <= i < |range| reads tile.inventory =>
                 if range[i] < |tile.inventory.stacks| then tile.inventory.stacks[range[i]] else Empty);
  }

  /** getMetaFromState: nothing of the state is stored in the metadata. */
  function GetMetaFromState(st: TableState): (meta: nat)
    ensures meta == 0
  {
    0
  }

  /** getStateFromMeta: every metadata value reads back as the default state. */
  function GetStateFromMeta(meta: nat): (st: TableState)
    ensures st == DefaultState && st.facing == North
  {
    DefaultState
  }

  /** getActualState: the facing comes from a crafting table's tile; without one the state stays as it is. */
  function GetActualState(st: TableState, tileFacing: Option<Horizontal>): (actual: TableState)
    ensures tileFacing.Some? ==> actual.facing == tileFacing.value
    ensures tileFacing.None? ==> actual == st
  {
    match tileFacing
    case None => st
    case Some(f) => st.(facing := f)
  }

  /**
   * The facing is not kept in the metadata: every state is stored as meta 0
   * and read back as the default state, and it is the tile's facing that
   * getActualState restores. A table placed and then reloaded reports the
   * facing it was placed with.
   */
  lemma FacingLivesInTheTile(st: TableState, placerFacing: Horizontal)
    ensures GetStateFromMeta(GetMetaFromState(st)) == DefaultState
    ensures GetActualState(GetStateFromMeta(GetMetaFromState(st)), Some(st.facing)) == st
    ensures GetActualState(DefaultState, Some(Opposite(placerFacing))) == GetStateForPlacement(placerFacing)
  {
  }
}
