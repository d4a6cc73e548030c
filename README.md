# VanillaImmersion interaction core in Dafny

VanillaImmersion replaces the inventory screens of several vanilla blocks
with direct clicks on parts of the block. This project models the parts of
the mod that decide what those clicks and drags do to the inventories:

- **crafting table tile** (`crafting_table_logic.dfy`):
  - the ten-slot inventory, whose output slot automation cannot use;
  - the ten selection boxes on the table's top;
  - the crafting-container views of the grid and the output;
  - the rotation derived from the table's facing;
  - the routing of an access side to a one-slot region of the grid
    (the item-handler capability).
- **client drag handler** (`crafting_drag_handler.dfy`): the session that
  collects grid slots while the use key is held over a table and sends a
  commit message to the server when the drag ends.
  - Pure functions on a `DragState` value specify each event.
  - The class `DragHandler` keeps the session in six fields, and each
    of its methods is proved to follow the matching function.
- **crafting table block** (`crafting_table.dfy`):
  - the facing on placement;
  - turning away from walls when added;
  - spilling the grid when broken;
  - the facing that lives in the tile rather than in the metadata.
- **brewing stand tile and block** (`brewing_stand_logic.dfy`,
  `brewing_stand.dfy`):
  - the five named slots;
  - the choice between the fuel slot and the ingredient slot;
  - the right click that takes out or puts in a stack.
- **furnace block** (`furnace.dfy`): the right click on the front face,
  which feeds the input slot (upper half) or the fuel slot (lower half).

`minecraft.dfy` holds the game's own types as the code uses them. Two
conventions of the game are taken as given:

- the horizontal index is SOUTH 0, WEST 1, NORTH 2, EAST 3, and the
  vertical sides have index -1;
- `EnumFacing.getHorizontal(i)` picks index `i` mod 4, with a
  non-negative remainder.

Helpers whose code is not part of this model are passed in as function
values:

- `splitDrag`, `Inventories.merge`, `isItemValidForSlot`;
- Forge's `ItemStackHandler` insert and extract;
- `isFullBlock` of the neighbours;
- the world's tile lookup.

In the same way, `Rays.rayTraceBoxes` becomes the index of the box hit
(-1 for none), and `CraftingHandler.getLocalPos` becomes the pixel
coordinates in the hit.

A null stack, and `ItemStack.EMPTY`, are `Empty`. Two stacks hold the
same item when their item ids agree.

A drag commits in two situations, provided the cursor is still on the top
of the table the drag started on, a table stands there, and the dragged
stack is not empty:

- the use key is released over the top of that table;
- the held stack changes while the cursor stays on the top of that table.

A hit on a side face of the same table clears the target, so the drag
then stops without a message.

The slot list is not checked to be non-empty, so a drag that touched no
cell still sends its (empty) list. `CraftingDragHandler.TickStopsAndCommits`,
`CraftingDragHandler.ReleaseCommits` and
`CraftingDragHandler.TickCommitsOnlyOnSameTable` state this.

On the server, every write to the crafting grid except `clear` lets the
crafting container recompute its result into the output slot
(`onCraftMatrixChanged`). The recipe lookup behind that is a parameter:
the stack the container writes for a grid, or none when it writes nothing.

## Model

| member | source | states |
|---|---|---|
| CraftingTableLogic.Ordinal | src/main/kotlin/de/mineformers/vanillaimmersion/tileentity/CraftingTableLogic.kt:50-91 | the output is slot 0 and the grid cell (x, y) is slot 1 + x + 3y |
| CraftingTableLogic.BoxFor | src/main/kotlin/de/mineformers/vanillaimmersion/tileentity/CraftingTableLogic.kt:97-111 | each box is 2x2 sixteenths, lies inside the top face, takes no clicks, and is the output box exactly in column 3 |
| CraftingTableLogic.Layout | src/main/kotlin/de/mineformers/vanillaimmersion/tileentity/CraftingTableLogic.kt:93-118 | the layout holds one box per slot, ten in all |
| CraftingTableLogic.BuildSelections | src/main/kotlin/de/mineformers/vanillaimmersion/tileentity/CraftingTableLogic.kt:93-118 | the nested loops build exactly the layout: the nine grid boxes column by column, then the single output box of column 3 |
| CraftingTableLogic.LayoutSlotsArePermutation | src/main/kotlin/de/mineformers/vanillaimmersion/tileentity/CraftingTableLogic.kt:93-118 | the ten boxes carry the ten slots, each exactly once, and slot and box position determine each other |
| CraftingTableLogic.LayoutGridAndOutput | src/main/kotlin/de/mineformers/vanillaimmersion/tileentity/CraftingTableLogic.kt:97-111 | grid box (x, y) is slot 1 + x + 3y, no box takes clicks, and the box of column 3 is the output |
| CraftingTableLogic.LayoutKeepsOneUnitGaps | src/main/kotlin/de/mineformers/vanillaimmersion/tileentity/CraftingTableLogic.kt:100-104 | every box is 2x2 sixteenths, neighbours are one sixteenth apart, and no two boxes touch |
| CraftingTableLogic.RotationOf | src/main/kotlin/de/mineformers/vanillaimmersion/tileentity/CraftingTableLogic.kt:164-170 | the rotation turns NORTH into the table's facing; vertical facings give no rotation |
| CraftingTableLogic.CraftingTableInventory.GetStackInSlot | src/main/kotlin/de/mineformers/vanillaimmersion/tileentity/CraftingTableLogic.kt:124 | getStackInSlot reads the slot's stack |
| CraftingTableLogic.CraftingTableInventory.SetStackInSlot | src/main/kotlin/de/mineformers/vanillaimmersion/tileentity/CraftingTableLogic.kt:124 | setStackInSlot replaces that slot and leaves the other nine as they were |
| CraftingTableLogic.CraftingTableInventory.InsertItem | src/main/kotlin/de/mineformers/vanillaimmersion/tileentity/CraftingTableLogic.kt:125-130 | the output slot hands the stack back and changes nothing; other slots insert normally, writing only when not simulating |
| CraftingTableLogic.CraftingTableInventory.ExtractItem | src/main/kotlin/de/mineformers/vanillaimmersion/tileentity/CraftingTableLogic.kt:132-137 | the output slot yields Empty and changes nothing; other slots extract normally |
| CraftingTableLogic.CraftMatrix.GetStackInSlot | src/main/kotlin/de/mineformers/vanillaimmersion/tileentity/CraftingTableLogic.kt:211-212 | grid index i reads inventory slot i + 1 |
| CraftingTableLogic.AfterMatrixChanged | src/main/kotlin/de/mineformers/vanillaimmersion/tileentity/CraftingTableLogic.kt:216 | the container's reaction to a grid change leaves the grid as it is and, when it writes, puts what it computed for that grid into the output slot |
| CraftingTableLogic.CraftMatrix.OnCraftMatrixChanged | src/main/kotlin/de/mineformers/vanillaimmersion/tileentity/CraftingTableLogic.kt:216 | the table's slots after the call are those of the container's reaction to the current grid |
| CraftingTableLogic.CraftMatrix.SetInventorySlotContents | src/main/kotlin/de/mineformers/vanillaimmersion/tileentity/CraftingTableLogic.kt:214-217 | grid index i becomes the stack and the rest of the grid stays; the output is then what the container computes for the new grid |
| CraftingTableLogic.CraftMatrix.RemoveStackFromSlot | src/main/kotlin/de/mineformers/vanillaimmersion/tileentity/CraftingTableLogic.kt:219-223 | extracts Integer.MAX_VALUE from slot i + 1, returns what the extraction hands back, and the output is then what the container computes for the new grid |
| CraftingTableLogic.CraftMatrix.DecrStackSize | src/main/kotlin/de/mineformers/vanillaimmersion/tileentity/CraftingTableLogic.kt:225-229 | extracts count from slot i + 1, returns what the extraction hands back, and the output is then what the container computes for the new grid |
| CraftingTableLogic.CraftMatrix.Clear | src/main/kotlin/de/mineformers/vanillaimmersion/tileentity/CraftingTableLogic.kt:231-234 | empties slots 1..9 and keeps the output |
| CraftingTableLogic.CraftResult.GetStackInSlot | src/main/kotlin/de/mineformers/vanillaimmersion/tileentity/CraftingTableLogic.kt:237-238 | every index reads the output slot |
| CraftingTableLogic.CraftResult.SetInventorySlotContents | src/main/kotlin/de/mineformers/vanillaimmersion/tileentity/CraftingTableLogic.kt:240-244 | every index writes the output slot only |
| CraftingTableLogic.CraftResult.RemoveStackFromSlot | src/main/kotlin/de/mineformers/vanillaimmersion/tileentity/CraftingTableLogic.kt:246-252 | returns the output's stack and empties the output |
| CraftingTableLogic.CraftResult.DecrStackSize | src/main/kotlin/de/mineformers/vanillaimmersion/tileentity/CraftingTableLogic.kt:254-255 | ignores the count and removes the whole output stack |
| CraftingTableLogic.CraftResult.Clear | src/main/kotlin/de/mineformers/vanillaimmersion/tileentity/CraftingTableLogic.kt:257-259 | empties the output only |
| CraftingTableLogic.TableTile.Get | src/main/kotlin/de/mineformers/vanillaimmersion/tileentity/CraftingTableLogic.kt:307 | table[slot] reads the slot with that ordinal |
| CraftingTableLogic.TableTile.Set | src/main/kotlin/de/mineformers/vanillaimmersion/tileentity/CraftingTableLogic.kt:313 | table[slot] = stack writes the slot with that ordinal only |
| CraftingTableLogic.HasItemCapability | src/main/kotlin/de/mineformers/vanillaimmersion/tileentity/CraftingTableLogic.kt:423-425 | the item handler is offered for the unsided query, UP and the four horizontal sides, and refused for DOWN |
| CraftingTableLogic.RegionOf | src/main/kotlin/de/mineformers/vanillaimmersion/tileentity/CraftingTableLogic.kt:446-451 | each relative side reaches a one-slot region on an edge of the grid (slot 2, 4, 6 or 8) |
| CraftingTableLogic.OppositeRegions | src/main/kotlin/de/mineformers/vanillaimmersion/tileentity/CraftingTableLogic.kt:446-451 | opposite relative sides reach different slots, mirrored through the middle slot 5 |
| CraftingTableLogic.GetCapability | src/main/kotlin/de/mineformers/vanillaimmersion/tileentity/CraftingTableLogic.kt:430-454 | UP reaches the middle slot, the unsided (null) query reaches the whole inventory, and every other side reaches one edge slot (2, 4, 6 or 8), never the output |
| CraftingTableLogic.SideReaching | src/main/kotlin/de/mineformers/vanillaimmersion/tileentity/CraftingTableLogic.kt:438-452 | for every facing, each edge slot is reached through some horizontal side |
| CraftingTableLogic.RoutingIsBijective | src/main/kotlin/de/mineformers/vanillaimmersion/tileentity/CraftingTableLogic.kt:438-452 | for every facing, the four horizontal sides reach four different regions, and together they are exactly the four edge slots |
| CraftingTableLogic.NorthFacingRouting | src/main/kotlin/de/mineformers/vanillaimmersion/tileentity/CraftingTableLogic.kt:438-452 | for a north-facing table: NORTH to slot 8, SOUTH to 2, WEST to 6, EAST to 4 |
| CraftingTableLogic.RoutingMirrorsEastWestFacings | src/main/kotlin/de/mineformers/vanillaimmersion/tileentity/CraftingTableLogic.kt:438-452 | as written, the front of an east- or west-facing table reaches the top slot, while the front of a north-facing table reaches the bottom slot |
| CraftingTableLogic.DownSideGetsAHandler | src/main/kotlin/de/mineformers/vanillaimmersion/tileentity/CraftingTableLogic.kt:423-452 | as written, DOWN has no capability, yet gets a one-slot handler for every facing; for a north-facing table that is slot 4, given the stated reading of getHorizontal (slot 6 if it takes the absolute value of the remainder) |
| CraftingTableLogic.IntendedCapability | src/main/kotlin/de/mineformers/vanillaimmersion/tileentity/CraftingTableLogic.kt:423-452 | the corrected routing gives a handler exactly for the sides hasCapability accepts |
| CraftingTableLogic.IntendedRoutingFollowsRotation | src/main/kotlin/de/mineformers/vanillaimmersion/tileentity/CraftingTableLogic.kt:436-444 | the corrected routing turns with the table: the front always reaches the bottom slot, and for north and south facings it agrees with the code |
| CraftingDragHandler.SlotOf | src/main/kotlin/de/mineformers/vanillaimmersion/client/CraftingDragHandler.kt:142 | on the 3x3 grid, x + 3y is a slot 0..8 whose column is the slot mod 3 and whose row the slot div 3 |
| CraftingDragHandler.CellOf | src/main/kotlin/de/mineformers/vanillaimmersion/client/CraftingDragHandler.kt:142 | every grid slot 0..8 is x + 3y for exactly one cell (x, y) of the grid |
| CraftingDragHandler.EverySlotCanBeDragged | src/main/kotlin/de/mineformers/vanillaimmersion/client/CraftingDragHandler.kt:140-145 | dragging over the cell of any grid slot 0..8 puts that slot in the list |
| CraftingDragHandler.PixelToGrid | src/main/kotlin/de/mineformers/vanillaimmersion/client/CraftingDragHandler.kt:196-206 | a pixel maps to a cell exactly when both coordinates are in 0..7 and neither lies on a gap (2 mod 3); the cell is (x / 3, y / 3) |
| CraftingDragHandler.CellsArePixelBlocks | src/main/kotlin/de/mineformers/vanillaimmersion/client/CraftingDragHandler.kt:196-206 | each cell is hit by exactly its 2x2 pixel block |
| CraftingDragHandler.UpdateTarget | src/main/kotlin/de/mineformers/vanillaimmersion/client/CraftingDragHandler.kt:176-211 | the drag, stack, slots and amounts are untouched; a target is the hovered table, hit on its top, and an existing target is kept; the position is then the hovered pixel's cell; a hovered table top becomes the target when there is none or it is that table |
| CraftingDragHandler.Start | src/main/kotlin/de/mineformers/vanillaimmersion/client/CraftingDragHandler.kt:130-135 | a drag of the held stack starts with no slots and no amounts, keeping target and position |
| CraftingDragHandler.StartOnPress | src/main/kotlin/de/mineformers/vanillaimmersion/client/CraftingDragHandler.kt:76-87 | a press while dragging changes nothing; otherwise a drag starts iff a target and a grid cell are set, with the held stack and no slots |
| CraftingDragHandler.Drag | src/main/kotlin/de/mineformers/vanillaimmersion/client/CraftingDragHandler.kt:140-152 | the slot list only grows, by at most the dragged cell's slot, which is then in it; when a slot is added the amounts are recomputed over the new list (DragAppendsOnce); dragging, stack, target and position stay |
| CraftingDragHandler.Stop | src/main/kotlin/de/mineformers/vanillaimmersion/client/CraftingDragHandler.kt:158-171 | stopping returns to idle; a message names the position stopped at, which is the current target, and carries the slots dragged |
| CraftingDragHandler.Tick | src/main/kotlin/de/mineformers/vanillaimmersion/client/CraftingDragHandler.kt:105-125 | a tick that sends a message ends a drag in progress; a tick never starts a drag; what a continuing tick collects is stated by TickDragsHoveredCell |
| CraftingDragHandler.UpdateTargetKeepsDrag | src/main/kotlin/de/mineformers/vanillaimmersion/client/CraftingDragHandler.kt:176-211 | refreshing the target never touches the drag, stack, slots or amounts; a target is always the hovered table, and an existing target never changes to another one |
| CraftingDragHandler.StartKeepsValid | src/main/kotlin/de/mineformers/vanillaimmersion/client/CraftingDragHandler.kt:130-135 | starting a drag clears the slots and amounts and keeps the session invariant |
| CraftingDragHandler.DragAppendsOnce | src/main/kotlin/de/mineformers/vanillaimmersion/client/CraftingDragHandler.kt:140-152 | a new cell's slot is appended once, and a known one changes nothing; the list only grows without duplicates; every amount is recomputed over the whole list |
| CraftingDragHandler.StopResetsAndCommits | src/main/kotlin/de/mineformers/vanillaimmersion/client/CraftingDragHandler.kt:158-171 | stopping always returns to idle; a message goes out iff pos is the current target, a table stands there and the stack is non-empty, and it carries the ordered slots |
| CraftingDragHandler.PressStartsOnlyOnGrid | src/main/kotlin/de/mineformers/vanillaimmersion/client/CraftingDragHandler.kt:76-87 | a press while dragging changes nothing; otherwise a drag of the held stack starts iff a table and a grid cell are targeted |
| CraftingDragHandler.TickNeverStarts | src/main/kotlin/de/mineformers/vanillaimmersion/client/CraftingDragHandler.kt:105-125 | the start phase changes nothing; no world or an open screen ends the drag silently; a drag that survives a tick keeps its stack and target and only extends its slots |
| CraftingDragHandler.TickCommitsOnlyOnSameTable | src/main/kotlin/de/mineformers/vanillaimmersion/client/CraftingDragHandler.kt:105-125 | a tick commits only a drag ending over its own table with a non-empty stack, after a key release or a held-stack change; moving onto another table never commits |
| CraftingDragHandler.TickStopsAndCommits | src/main/kotlin/de/mineformers/vanillaimmersion/client/CraftingDragHandler.kt:105-125 | at the end of a tick with a world and no screen, a drag stops iff the refreshed target is lost, the key is up or the held stack changed; it then commits its slots to its table iff the target survived, a table stands there and the stack is non-empty; otherwise it goes on silently |
| CraftingDragHandler.TickDragsHoveredCell | src/main/kotlin/de/mineformers/vanillaimmersion/client/CraftingDragHandler.kt:105-125 | at the end of a tick, a drag with the key down and the held stack unchanged, over a grid cell of its own table's top, appends that cell's slot when it is new (keeps the list otherwise), goes on, and sends nothing |
| CraftingDragHandler.ReleaseCommits | src/main/kotlin/de/mineformers/vanillaimmersion/client/CraftingDragHandler.kt:105-125 | releasing the key over the top of the drag's table with a non-empty stack ends the drag and commits the slots collected |
| CraftingDragHandler.RunKeepsValid | src/main/kotlin/de/mineformers/vanillaimmersion/client/CraftingDragHandler.kt:76-171 | any sequence of presses and ticks keeps the invariant, and every message carries a duplicate-free list of grid slots |
| CraftingDragHandler.TicksOnlyExtendSlots | src/main/kotlin/de/mineformers/vanillaimmersion/client/CraftingDragHandler.kt:105-125 | over any run of ticks, a drag still in progress has only extended its slot list and kept its stack and target |
| CraftingDragHandler.DragHandler.constructor | src/main/kotlin/de/mineformers/vanillaimmersion/client/CraftingDragHandler.kt:51-71 | the handler starts idle |
| CraftingDragHandler.DragHandler.OnRightClick | src/main/kotlin/de/mineformers/vanillaimmersion/client/CraftingDragHandler.kt:90-99 | right clicks are cancelled exactly while dragging |
| CraftingDragHandler.DragHandler.UpdateDragTarget | src/main/kotlin/de/mineformers/vanillaimmersion/client/CraftingDragHandler.kt:176-211 | the fields after the call are the refreshed state |
| CraftingDragHandler.DragHandler.StartDragging | src/main/kotlin/de/mineformers/vanillaimmersion/client/CraftingDragHandler.kt:130-135 | the fields after the call are the started state |
| CraftingDragHandler.DragHandler.OnStartDragging | src/main/kotlin/de/mineformers/vanillaimmersion/client/CraftingDragHandler.kt:76-87 | the fields after the call are the state after a press |
| CraftingDragHandler.DragHandler.OnDrag | src/main/kotlin/de/mineformers/vanillaimmersion/client/CraftingDragHandler.kt:140-152 | the loop refills the amounts map so that the fields equal the dragged state |
| CraftingDragHandler.DragHandler.StopDragging | src/main/kotlin/de/mineformers/vanillaimmersion/client/CraftingDragHandler.kt:158-171 | the fields and the message sent are the stopped state and its message |
| CraftingDragHandler.DragHandler.OnClientTick | src/main/kotlin/de/mineformers/vanillaimmersion/client/CraftingDragHandler.kt:105-125 | the fields and the message sent are the ticked state and its message |
| CraftingTable.GetStateForPlacement | src/main/kotlin/de/mineformers/vanillaimmersion/block/CraftingTable.kt:65-69 | the placed table faces the opposite of the placer's facing |
| CraftingTable.OnBlockPlacedBy | src/main/kotlin/de/mineformers/vanillaimmersion/block/CraftingTable.kt:74-79 | a crafting table's tile takes the same facing as the placed state |
| CraftingTable.DefaultFacing | src/main/kotlin/de/mineformers/vanillaimmersion/block/CraftingTable.kt:113-123 | the facing stays or turns to its exact opposite, and it turns iff it looks into a full block while the opposite neighbour is not full |
| CraftingTable.DefaultFacingIsStable | src/main/kotlin/de/mineformers/vanillaimmersion/block/CraftingTable.kt:113-123 | settling twice is settling once, and a turned table never faces a full block |
| CraftingTable.SetDefaultFacing | src/main/kotlin/de/mineformers/vanillaimmersion/block/CraftingTable.kt:106-127 | on the server the tile takes the settled facing; on the client nothing changes |
| CraftingTable.SpillRangeIsTheGrid | src/main/kotlin/de/mineformers/vanillaimmersion/block/CraftingTable.kt:88 | the spilled range is slots 1 until size, in order: all of the grid and never the output |
| CraftingTable.BreakBlock | src/main/kotlin/de/mineformers/vanillaimmersion/block/CraftingTable.kt:84-92 | a broken table drops its nine grid stacks in slot order, and any other tile drops nothing |
| CraftingTable.GetMetaFromState | src/main/kotlin/de/mineformers/vanillaimmersion/block/CraftingTable.kt:133 | nothing of the state is stored: every state has metadata 0 |
| CraftingTable.GetStateFromMeta | src/main/kotlin/de/mineformers/vanillaimmersion/block/CraftingTable.kt:130 | every metadata value reads back as the default, north-facing state |
| CraftingTable.GetActualState | src/main/kotlin/de/mineformers/vanillaimmersion/block/CraftingTable.kt:135-138 | the facing comes from a crafting table's tile; without one the state is unchanged |
| CraftingTable.FacingLivesInTheTile | src/main/kotlin/de/mineformers/vanillaimmersion/block/CraftingTable.kt:129-138 | metadata 0 reads back as the default state, and getActualState restores the facing from the tile, so placing then reloading keeps the placement facing |
| BrewingStandLogic.Ordinal | src/main/kotlin/de/mineformers/vanillaimmersion/tileentity/BrewingStandLogic.kt:21-42 | the bottles are slots 0..2, the ingredient 3 and the powder 4 |
| BrewingStandLogic.OrdinalsAreTheSlots | src/main/kotlin/de/mineformers/vanillaimmersion/tileentity/BrewingStandLogic.kt:21-42 | slot names and ordinals 0..4 correspond one to one |
| BrewingStandLogic.BrewingStandTile.Get | src/main/kotlin/de/mineformers/vanillaimmersion/tileentity/BrewingStandLogic.kt:55 | stand[slot] reads the slot with that ordinal |
| BrewingStandLogic.BrewingStandTile.Set | src/main/kotlin/de/mineformers/vanillaimmersion/tileentity/BrewingStandLogic.kt:61 | stand[slot] = stack writes that slot and leaves every other slot as it was |
| BrewingStandLogic.BrewingStandTile.CanInsertFuel | src/main/kotlin/de/mineformers/vanillaimmersion/tileentity/BrewingStandLogic.kt:66-81 | false for Empty or non-fuel; false when the ingredient slot is empty and the stack is a valid ingredient; with the same item as the ingredient, true iff that stack is full; otherwise true iff the powder slot is empty or holds the same item, not full; it reads the tile and changes nothing |
| BrewingStandLogic.BrewingStandTile.FuelYieldsToIngredient | src/main/kotlin/de/mineformers/vanillaimmersion/tileentity/BrewingStandLogic.kt:66-81 | a yes means valid fuel, which the ingredient slot could not absorb, and for which the powder slot has room (or the ingredient stack is full) |
| BrewingStand.TargetSlot | src/main/kotlin/de/mineformers/vanillaimmersion/block/BrewingStand.kt:61-65 | a bottle box addresses its bottle; the top addresses the powder slot when the stack can go in as fuel and the ingredient slot otherwise |
| BrewingStand.Click | src/main/kotlin/de/mineformers/vanillaimmersion/block/BrewingStand.kt:41-83 | the off hand is refused and changes nothing; every main-hand click is consumed; nothing changes for a miss or on the client; only the target slot changes, emptied into an empty hand or set to merge(stack, existing) for a valid stack |
| BrewingStand.TakeThenPutBackRestores | src/main/kotlin/de/mineformers/vanillaimmersion/block/BrewingStand.kt:66-80 | taking a bottle out and clicking it back in restores the stand |
| BrewingStand.OnBlockActivated | src/main/kotlin/de/mineformers/vanillaimmersion/block/BrewingStand.kt:41-83 | the result, the new slots and the stack handed to the player are those of the click; any other tile changes nothing |
| Furnace.FurnaceTile.Get | src/main/kotlin/de/mineformers/vanillaimmersion/block/Furnace.kt:59 | furnace[slot] reads the slot with that ordinal |
| Furnace.FurnaceTile.Set | src/main/kotlin/de/mineformers/vanillaimmersion/block/Furnace.kt:62 | furnace[slot] = stack writes that slot and leaves the others as they were |
| Furnace.ClickedSlot | src/main/kotlin/de/mineformers/vanillaimmersion/block/Furnace.kt:58 | the upper half (hitY >= 0.5) is the input and the lower half the fuel; never the output |
| Furnace.Click | src/main/kotlin/de/mineformers/vanillaimmersion/block/Furnace.kt:49-76 | every click is consumed; the client and other faces change nothing; only the clicked slot changes, emptied and spawned for an empty hand or merged for a valid stack; the output slot is never touched |
| Furnace.SpawnsOnlyFromTheClickedSlot | src/main/kotlin/de/mineformers/vanillaimmersion/block/Furnace.kt:57-64 | a spawned stack is the whole stack of the clicked input or fuel slot, which is then empty |
| Furnace.TakeThenPutBackRestores | src/main/kotlin/de/mineformers/vanillaimmersion/block/Furnace.kt:57-69 | taking a stack out of the front and clicking it back in at the same height restores the furnace |
| Furnace.OnBlockActivated | src/main/kotlin/de/mineformers/vanillaimmersion/block/Furnace.kt:49-76 | on the client: true; without a furnace tile: false; otherwise the result, the new slots and the spawned stack are those of the click |

## Left out

- EnchantingUIHandler and EnchantingAction: page hit-testing is floating-point geometry, and the message is network serialisation.
- Rendering, shaders, and the drag preview (CraftingDragHandler.kt:216-315): they draw and do not decide anything.
- Registration, configuration, GUI screens and the JEI integration: framework plumbing.
- craft, takeCraftingResult and dropResult: they run the game's recipe manager and vanilla containers.
- The simulated crafting container: it keeps vanilla's own matrix and is only used by takeCraftingResult.
- NBT reading and writing, update packets and sync: persistence and transport.
- markDirty, notifyBlockUpdate, updateComparatorOutputLevel and addStat: notifications without effect on the modelled state.
- The crafting table block's onBlockActivated: it always returns false.
- Calls to super for other capabilities and for getActualState without a crafting table tile: vanilla behaviour.
- The selection boxes' vertical extent, their 0.004 shrink, their hover colour and their rotation by the table's rotation: constants of rendering and of the hit-testing library.
- Spilling and spawning are returned as the stacks dropped or spawned. Their positions and motion in the world are not modelled.
- The brewing stand's and furnace's isItemValidForSlot: modelled as a parameter read in the state before the click, since vanilla's rules are not part of this model.
- FurnaceLogic is not part of this model: its slot order is taken as vanilla's (input 0, fuel 1, output 2).
- Inventories.merge: a parameter. The model does not capture the held stack being changed in place by the merge.
- CraftingDragHandler.DragHandler.OnClientTick: compares the dragged stack with the held stack by value; the code compares object references.
- CraftingDragHandler.DragHandler.StopDragging: the message holds a copy of the slot list; the code passes the live list, which it then clears.
- CraftingTable.GetActualState: takes only horizontal tile facings, since the block state's FACING property accepts no other.
- BrewingStand.OnBlockActivated: the box index comes from Rays.rayTraceBoxes, whose ray test is not modelled; the index is taken in -1..3.
- CraftingTableLogic.CraftingTableInventory.InsertItem: requires a slot in 0..9; the handler rejects any other slot with an exception, which is not modelled.
- CraftingTableLogic.CraftingTableInventory.ExtractItem: requires a slot in 0..9, for the same reason.
- CraftingTableLogic.CraftMatrix.SetInventorySlotContents: requires a grid index in 0..8; a larger index makes the handler throw, and a negative one would reach the output slot or throw, neither of which is modelled.
- CraftingTableLogic.CraftMatrix.RemoveStackFromSlot: requires a grid index in 0..8, for the same reason.
- CraftingTableLogic.CraftMatrix.DecrStackSize: requires a grid index in 0..8, for the same reason.
- CraftingTableLogic.CraftMatrix.GetStackInSlot: requires a grid index in 0..8, for the same reason.
- The recipe lookup of onCraftMatrixChanged is a parameter: the model does not compute recipe results.
- EnumFacing.getHorizontal and the horizontal index are taken as stated above, not derived from the game's code.

## Findings

| source | as written | input that shows it | evidently intended | confidence | as-written member | corrected member |
|---|---|---|---|---|---|---|
| src/main/kotlin/de/mineformers/vanillaimmersion/tileentity/CraftingTableLogic.kt:440-444 | the relative side is getHorizontal((facing index + 2) % 4 + side index); it adds the facing's index instead of taking it away | facing EAST, side EAST (the front): index 1 + 3 gives SOUTH, the top slot, while the front of a north-facing table gives the bottom slot | a side made relative to the table's orientation, so that the routing turns with the table (index side - facing + 2) | medium, not executed | CraftingTableLogic.RoutingMirrorsEastWestFacings | CraftingTableLogic.IntendedRoutingFollowsRotation |
| src/main/kotlin/de/mineformers/vanillaimmersion/tileentity/CraftingTableLogic.kt:423-452 | hasCapability refuses DOWN, but getCapability still routes DOWN through its horizontal index -1 to a one-slot handler | side DOWN, facing NORTH: index 0 - 1, the left slot 4 under the stated reading of getHorizontal (the right slot 6 if it takes the absolute value of the remainder); a handler either way | no handler for DOWN, matching hasCapability | medium, not executed | CraftingTableLogic.DownSideGetsAHandler | CraftingTableLogic.IntendedCapability |
