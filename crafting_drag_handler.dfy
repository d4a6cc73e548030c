/**
 * The client-side drag session of the crafting table: while the use key is
 * held over the top of a table, the grid cells the cursor crosses are
 * collected in order, and when the drag ends over the same table the ordered
 * list is sent to the server in a commit message.
 *
 * The pure functions below are the specification: each takes the session
 * state before an event and the client's view of the world, and gives the
 * state after it (and the message sent, if any). The class DragHandler holds
 * the session in fields and its methods are proved to follow them.
 */
module CraftingDragHandler {
  import opened Wrappers
  import opened Minecraft

  /**
   * CraftingHandler.splitDrag(table, player, stack, slots, slot): the amount
   * a slot will hold once `stack` is spread over `slots` (not part of this
   * model; the table and player are fixed by the caller).
   */
  type SplitDrag = (ItemStack, seq<int>, int) -> int

  /** CraftingDrag.Message: the table's position and the ordered grid slots of the drag. */
  datatype DragMessage = DragMessage(pos: BlockPos, slots: seq<int>)

  /**
   * A ray trace that hit a block: its position, the side hit and, through
   * CraftingHandler.getLocalPos, the pixel on that side (sixteenths of a block).
   */
  datatype BlockHit = BlockHit(pos: BlockPos, side: Facing, pixelX: int, pixelY: int)

  /** The client tick's phase. */
  datatype Phase = StartPhase | EndPhase

  /**
   * What the handler reads from the client: whether a world is loaded and a
   * screen open, whether the use key is down, the main-hand stack, the block
   * under the cursor (None for a miss or an entity), which positions hold a
   * crafting table, and splitDrag.
   */
  datatype ClientView = ClientView(worldLoaded: bool, screenOpen: bool, keyDown: bool,
                                   held: ItemStack, hovered: Option<BlockHit>,
                                   tableAt: BlockPos -> bool, split: SplitDrag)

  /** The handler's six fields. */
  datatype DragState = DragState(position: Option<(int, int)>, target: Option<BlockPos>, dragging: bool,
                                 stack: ItemStack, slots: seq<int>, amounts: map<int, int>)

  /** The state the handler starts in and returns to when a drag stops. */
  const Idle := DragState(None, None, false, Empty, [], map[])

  /** The grid slot of cell (x, y): x + 3y. */
  function SlotOf(x: int, y: int): (slot: int)
    ensures 0 <= x < 3 && 0 <= y < 3 ==> 0 <= slot < 9 && slot % 3 == x && slot / 3 == y
  {
    x + y * 3
  }

  /** The grid cell a slot belongs to: the inverse of SlotOf on the 3x3 grid. */
  function CellOf(slot: int): (cell: (int, int))
    requires 0 <= slot < 9
    ensures 0 <= cell.0 < 3 && 0 <= cell.1 < 3 && SlotOf(cell.0, cell.1) == slot
    ensures forall x, y :: 0 <= x < 3 && 0 <= y < 3 && SlotOf(x, y) == slot ==> (x, y) == cell
  {
    (slot % 3, slot / 3)
  }

  /** The list holds no slot twice. */
  predicate NoDuplicates(slots: seq<int>) {
    forall i, j :: 0 <= i < j < |slots| ==> slots[i] != slots[j]
  }

  /** Every entry is a grid slot 0..8. */
  predicate GridSlots(slots: seq<int>) {
    forall i :: 0 <= i < |slots| ==> 0 <= slots[i] < 9
  }

  /** The amounts map of a slot list: each slot of the list to its share, computed over the whole list. */
  function Amounts(stack: ItemStack, slots: seq<int>, split: SplitDrag): map<int, int> {
    map s | s in slots :: split(stack, slots, s)
  }

  /**
   * The invariant the handler keeps between events: the slot list is a
   * duplicate-free list of grid slots whose entries are exactly the keys of
   * the amounts map, the position is a grid cell, a drag in progress has a
   * target, and outside a drag the list, the map and the stack are empty.
   */
  ghost predicate Valid(st: DragState) {
    && NoDuplicates(st.slots)
    && GridSlots(st.slots)
    && st.amounts.Keys == (set s | s in st.slots)
    && (st.position.Some? ==> 0 <= st.position.value.0 < 3 && 0 <= st.position.value.1 < 3)
    && (st.dragging ==> st.target.Some?)
    && (!st.dragging ==> st.slots == [] && st.amounts == map[] && st.stack == Empty)
  }

  // ------------------------------------------------------ pixel mapping

  /**
   * The grid cell under a pixel of the top face: none outside 0..7 on either
   * axis, none on the one-pixel gap between cells (a coordinate that is 2
   * modulo 3), and otherwise (x / 3, y / 3).
   */
  function PixelToGrid(x: int, y: int): (cell: Option<(int, int)>)
    ensures cell.Some? <==> 0 <= x <= 7 && 0 <= y <= 7 && x % 3 != 2 && y % 3 != 2
    ensures cell.Some? ==> 0 <= cell.value.0 < 3 && 0 <= cell.value.1 < 3
    ensures cell.Some? ==> 3 * cell.value.0 <= x <= 3 * cell.value.0 + 1
    ensures cell.Some? ==> 3 * cell.value.1 <= y <= 3 * cell.value.1 + 1
  {
    if !(0 <= x <= 7) || !(0 <= y <= 7) then None
    else
      var slotX, modX := x / 3, x % 3;
      var slotY, modY := y / 3, y % 3;
      if modX == 2 || modY == 2 then None
      else Some((slotX, slotY))
  }

  /** Every grid cell is hit by exactly the 2x2 pixel block at its corner (3x, 3y). */
  lemma CellsArePixelBlocks(x: int, y: int, i: int, j: int)
    requires 0 <= i < 3 && 0 <= j < 3
    ensures PixelToGrid(x, y) == Some((i, j)) <==> 3 * i <= x <= 3 * i + 1 && 3 * j <= y <= 3 * j + 1
  {
    if 3 * i <= x <= 3 * i + 1 && 3 * j <= y <= 3 * j + 1 {
      assert x / 3 == i && x % 3 == x - 3 * i;
      assert y / 3 == j && y % 3 == y - 3 * j;
    }
  }

  // ------------------------------------------------------- the events

  /**
   * updateDragTarget: a hovered crafting table becomes the target when there
   * is none; hovering another table, another block, nothing, or a side other
   * than the top clears the target. On the top face of the target the
   * position becomes the hovered cell, or none over a gap or the border.
   */
  function UpdateTarget(st: DragState, hovered: Option<BlockHit>, tableAt: BlockPos -> bool): (r: DragState)
    ensures r.dragging == st.dragging && r.stack == st.stack && r.slots == st.slots && r.amounts == st.amounts
    ensures r.target.Some? ==>
              && hovered.Some? && hovered.value.side == Up && tableAt(hovered.value.pos)
              && r.target.value == hovered.value.pos && (st.target.Some? ==> r.target == st.target)
              && r.position == PixelToGrid(hovered.value.pixelX, hovered.value.pixelY)
    ensures r.target.None? ==> r.position == st.position
    ensures (&& hovered.Some? && hovered.value.side == Up && tableAt(hovered.value.pos)
             && (st.target.None? || st.target == Some(hovered.value.pos)))
            ==> r.target == Some(hovered.value.pos)
  {
    if hovered.None? || !tableAt(hovered.value.pos) then st.(target := None)
    else
      var hit := hovered.value;
      if st.target.Some? && st.target.value != hit.pos then st.(target := None)
      else if hit.side != Up then st.(target := None)
      else st.(target := Some(hit.pos), position := PixelToGrid(hit.pixelX, hit.pixelY))
  }

  /** startDragging: a drag of the held stack begins with no slots and no amounts. */
  function Start(st: DragState, held: ItemStack): (r: DragState)
    ensures r.dragging && r.stack == held && r.slots == [] && r.amounts == map[]
    ensures r.target == st.target && r.position == st.position
  {
    st.(dragging := true, stack := held, slots := [], amounts := map[])
  }

  /** onStartDragging: nothing while dragging; otherwise refresh the target and start on a grid cell of a table. */
  function StartOnPress(st: DragState, view: ClientView): (r: DragState)
    ensures st.dragging ==> r == st
    ensures !st.dragging ==> (r.dragging <==> r.target.Some? && r.position.Some?)
    ensures !st.dragging && r.dragging ==> r.stack == view.held && r.slots == [] && r.amounts == map[]
  {
    if st.dragging then st
    else
      var u := UpdateTarget(st, view.hovered, view.tableAt);
      if u.target.Some? && u.position.Some? && 0 <= u.position.value.0 <= 7 && 0 <= u.position.value.1 <= 7
      then Start(u, view.held)
      else u
  }

  /** onDrag: a slot not yet in the list is appended and every amount recomputed over the new list. */
  function Drag(st: DragState, x: int, y: int, split: SplitDrag): (r: DragState)
    ensures st.slots <= r.slots && |r.slots| <= |st.slots| + 1 && SlotOf(x, y) in r.slots
    ensures r.dragging == st.dragging && r.stack == st.stack && r.target == st.target && r.position == st.position
  {
    var slot := SlotOf(x, y);
    if slot in st.slots then st
    else
      var slots := st.slots + [slot];
      st.(slots := slots, amounts := Amounts(st.stack, slots, split))
  }

  /**
   * stopDragging(pos): the commit message is sent when pos is the current
   * target, a crafting table stands there and the dragged stack is not
   * empty; in every case the handler returns to Idle.
   */
  function Stop(st: DragState, pos: Option<BlockPos>, tableAt: BlockPos -> bool): (r: (DragState, Option<DragMessage>))
    ensures r.0 == Idle
    ensures r.1.Some? ==> pos == Some(r.1.value.pos) && st.target == pos && r.1.value.slots == st.slots
  {
    var message :=
      if pos.Some? && st.target == pos && tableAt(pos.value) && !IsEmpty(st.stack)
      then Some(DragMessage(pos.value, st.slots))
      else None;
    (Idle, message)
  }

  /**
   * onClientTick: nothing at the start of a tick; without a world or with a
   * screen open the drag stops silently; otherwise the target is refreshed,
   * a drag stops (towards the previous target) when the target is lost, the
   * key is up or the held stack is not the dragged one, and a drag still in
   * progress takes in the hovered cell while the key is down.
   */
  function Tick(st: DragState, phase: Phase, view: ClientView): (r: (DragState, Option<DragMessage>))
    ensures r.1.Some? ==> r.0 == Idle && st.dragging
    ensures r.0.dragging ==> st.dragging
  {
    if phase == StartPhase then (st, None)
    else if !view.worldLoaded || view.screenOpen then Stop(st, None, view.tableAt)
    else
      var wasDragging, target := st.dragging, st.target;
      var u := UpdateTarget(st, view.hovered, view.tableAt);
      var (s, message) :=
        if wasDragging && (u.target.None? || !view.keyDown || u.stack != view.held)
        then Stop(u, target, view.tableAt)
        else (u, None);
      if s.dragging && s.target.Some? && s.position.Some? && view.keyDown
      then (Drag(s, s.position.value.0, s.position.value.1, view.split), message)
      else (s, message)
  }

  /** The cancellation of right clicks that slip through while dragging. */
  function CancelsRightClick(st: DragState): bool {
    st.dragging
  }

  /** An input the handler reacts to: a press of the use key, or a client tick. */
  datatype Event = Press(view: ClientView) | ClientTick(phase: Phase, view: ClientView)

  /** One event: the new state and the message sent, if any. */
  function Step(st: DragState, e: Event): (DragState, Option<DragMessage>) {
    match e
    case Press(view) => (StartOnPress(st, view), None)
    case ClientTick(phase, view) => Tick(st, phase, view)
  }

  /** A sequence of events from a state: the final state and the messages sent, in order. */
  function Run(st: DragState, events: seq<Event>): (DragState, seq<DragMessage>)
    decreases |events|
  {
    if events == [] then (st, [])
    else
      var (s, message) := Step(st, events[0]);
      var (final, sent) := Run(s, events[1..]);
      (final, (if message.Some? then [message.value] else []) + sent)
  }

  // ------------------------------------------------------------ lemmas

  /**
   * Dragging over cell (x, y) appends its slot x + 3y when absent and changes
   * nothing when present; the list only grows, keeps its invariant, and the
   * amounts cover exactly the listed slots, each computed over the whole list.
   */
  lemma DragAppendsOnce(st: DragState, x: int, y: int, split: SplitDrag)
    requires Valid(st) && st.dragging && 0 <= x < 3 && 0 <= y < 3
    ensures var n := Drag(st, x, y, split);
      && Valid(n)
      && (SlotOf(x, y) in st.slots ==> n == st)
      && (SlotOf(x, y) !in st.slots ==> n.slots == st.slots + [SlotOf(x, y)])
      && st.slots <= n.slots
      && SlotOf(x, y) in n.slots
      && (SlotOf(x, y) !in st.slots ==> forall s :: s in n.slots ==> n.amounts[s] == split(st.stack, n.slots, s))
  {
    var n := Drag(st, x, y, split);
    if SlotOf(x, y) !in st.slots {
      assert n.slots[|st.slots|] == SlotOf(x, y);
      assert forall i :: 0 <= i < |st.slots| ==> n.slots[i] == st.slots[i];
      assert forall s :: s in n.amounts.Keys <==> s in n.slots;
    }
  }

  /** Starting a drag leaves the invariant intact when the target is set, and clears the slots and amounts. */
  lemma StartKeepsValid(st: DragState, held: ItemStack)
    requires Valid(st) && st.target.Some?
    ensures Valid(Start(st, held))
    ensures Start(st, held).dragging && Start(st, held).slots == [] && Start(st, held).amounts == map[]
  {
  }

  /** Refreshing the target keeps the position a grid cell and touches neither the drag nor its lists. */
  lemma UpdateTargetKeepsDrag(st: DragState, hovered: Option<BlockHit>, tableAt: BlockPos -> bool)
    requires Valid(st)
    ensures var u := UpdateTarget(st, hovered, tableAt);
      && u.dragging == st.dragging && u.stack == st.stack && u.slots == st.slots && u.amounts == st.amounts
      && (u.position.Some? ==> 0 <= u.position.value.0 < 3 && 0 <= u.position.value.1 < 3)
      && (u.target.Some? ==> hovered.Some? && u.target.value == hovered.value.pos && tableAt(u.target.value))
      && (u.target.Some? && st.target.Some? ==> u.target == st.target)
  {
    var u := UpdateTarget(st, hovered, tableAt);
    if hovered.Some? && tableAt(hovered.value.pos) && !(st.target.Some? && st.target.value != hovered.value.pos)
       && hovered.value.side == Up {
      var cell := PixelToGrid(hovered.value.pixelX, hovered.value.pixelY);
      assert u.position == cell;
      assert cell.Some? ==> 0 <= cell.value.0 < 3 && 0 <= cell.value.1 < 3;
    } else {
      assert u.position == st.position;
    }
  }

  /**
   * Stopping always ends in the idle state; a message goes out exactly when
   * pos is the current target, a table stands there and the stack is not
   * empty, and it carries the slots dragged so far, in order. Stopping with
   * no position never sends one.
   */
  lemma StopResetsAndCommits(st: DragState, pos: Option<BlockPos>, tableAt: BlockPos -> bool)
    ensures Stop(st, pos, tableAt).0 == Idle && Valid(Idle)
    ensures Stop(st, pos, tableAt).1.Some? <==>
              pos.Some? && st.target == pos && tableAt(pos.value) && !IsEmpty(st.stack)
    ensures Stop(st, pos, tableAt).1.Some? ==> Stop(st, pos, tableAt).1.value == DragMessage(pos.value, st.slots)
    ensures Stop(st, None, tableAt).1 == None
  {
  }

  /** A press while dragging changes nothing; otherwise a drag starts exactly when a table's grid cell is targeted. */
  lemma PressStartsOnlyOnGrid(st: DragState, view: ClientView)
    requires Valid(st)
    ensures st.dragging ==> StartOnPress(st, view) == st
    ensures var n := StartOnPress(st, view);
      && Valid(n)
      && (!st.dragging ==> (n.dragging <==> n.target.Some? && n.position.Some?))
      && (!st.dragging && n.dragging ==> n.stack == view.held && n.slots == [])
  {
    if !st.dragging {
      UpdateTargetKeepsDrag(st, view.hovered, view.tableAt);
    }
  }

  /**
   * A tick never starts a drag. A tick at the start phase changes nothing;
   * without a world or with a screen open the drag ends with no message.
   * A drag that survives the tick keeps its stack and target and only
   * extends its slot list.
   */
  lemma TickNeverStarts(st: DragState, phase: Phase, view: ClientView)
    requires Valid(st)
    ensures phase == StartPhase ==> Tick(st, phase, view) == (st, None)
    ensures phase == EndPhase && (!view.worldLoaded || view.screenOpen) ==> Tick(st, phase, view) == (Idle, None)
    ensures var (n, message) := Tick(st, phase, view);
      && Valid(n)
      && (n.dragging ==> st.dragging && n.stack == st.stack && n.target == st.target && st.slots <= n.slots)
      && (n.dragging ==> message.None?)
  {
    if phase == EndPhase && view.worldLoaded && !view.screenOpen {
      var u := UpdateTarget(st, view.hovered, view.tableAt);
      UpdateTargetKeepsDrag(st, view.hovered, view.tableAt);
      var (s, message) :=
        if st.dragging && (u.target.None? || !view.keyDown || u.stack != view.held)
        then Stop(u, st.target, view.tableAt)
        else (u, None);
      StopResetsAndCommits(u, st.target, view.tableAt);
      assert Valid(s);
      if s.dragging && s.target.Some? && s.position.Some? && view.keyDown {
        DragAppendsOnce(s, s.position.value.0, s.position.value.1, view.split);
      }
    }
  }

  /**
   * A tick sends a message only to end a drag over the table it started on,
   * with a non-empty stack, after the key was released or the held stack
   * changed; the message carries the slots collected before the tick and
   * the handler is idle afterwards. Moving onto another table never commits.
   */
  lemma TickCommitsOnlyOnSameTable(st: DragState, phase: Phase, view: ClientView)
    requires Valid(st)
    ensures var (n, message) := Tick(st, phase, view);
      message.Some? ==>
        && phase == EndPhase && st.dragging && st.target == Some(message.value.pos)
        && UpdateTarget(st, view.hovered, view.tableAt).target == st.target
        && view.tableAt(message.value.pos) && !IsEmpty(st.stack)
        && (!view.keyDown || st.stack != view.held)
        && message.value.slots == st.slots
        && n == Idle
    ensures (st.dragging && st.target.Some? && view.hovered.Some? && view.tableAt(view.hovered.value.pos)
             && view.hovered.value.pos != st.target.value) ==> Tick(st, phase, view).1 == None
  {
    if phase == EndPhase && view.worldLoaded && !view.screenOpen {
      UpdateTargetKeepsDrag(st, view.hovered, view.tableAt);
    }
  }

  /**
   * The converse: at the end of a tick with a world and no screen, a drag
   * stops exactly when the refreshed target is lost, the key is up or the
   * held stack is not the dragged one; it then sends its slots to its table
   * exactly when the target survived the refresh, a table stands there and
   * the stack is not empty. Otherwise the drag goes on and nothing is sent.
   */
  lemma TickStopsAndCommits(st: DragState, view: ClientView)
    requires Valid(st) && st.dragging && view.worldLoaded && !view.screenOpen
    ensures var u := UpdateTarget(st, view.hovered, view.tableAt);
      var (n, message) := Tick(st, EndPhase, view);
      && ((u.target.None? || !view.keyDown || st.stack != view.held) ==>
            && n == Idle
            && (message.Some? <==> u.target == st.target && view.tableAt(st.target.value) && !IsEmpty(st.stack))
            && (message.Some? ==> message.value == DragMessage(st.target.value, st.slots)))
      && (!(u.target.None? || !view.keyDown || st.stack != view.held) ==> n.dragging && message.None?)
  {
    StopResetsAndCommits(UpdateTarget(st, view.hovered, view.tableAt), st.target, view.tableAt);
  }

  /**
   * Releasing the key over the top of the table a drag started on, with a
   * non-empty stack, ends the drag and commits the slots collected so far.
   */
  lemma ReleaseCommits(st: DragState, view: ClientView)
    requires Valid(st) && st.dragging && view.worldLoaded && !view.screenOpen && !view.keyDown
    requires view.hovered.Some? && view.hovered.value.side == Up
    requires view.hovered.value.pos == st.target.value && view.tableAt(st.target.value)
    requires !IsEmpty(st.stack)
    ensures Tick(st, EndPhase, view) == (Idle, Some(DragMessage(st.target.value, st.slots)))
  {
    TickStopsAndCommits(st, view);
  }

  /**
   * What a tick collects: at the end of a tick, a drag whose key is still
   * down, whose held stack is the dragged one and whose cursor is on a grid
   * cell of its own table's top appends that cell's slot when it is not yet
   * listed, keeps the list otherwise, and sends nothing.
   */
  lemma TickDragsHoveredCell(st: DragState, view: ClientView, cell: (int, int))
    requires Valid(st) && st.dragging && view.worldLoaded && !view.screenOpen
    requires view.keyDown && st.stack == view.held
    requires view.hovered.Some? && view.hovered.value.side == Up && view.tableAt(view.hovered.value.pos)
    requires st.target == Some(view.hovered.value.pos)
    requires PixelToGrid(view.hovered.value.pixelX, view.hovered.value.pixelY) == Some(cell)
    ensures Tick(st, EndPhase, view).1 == None
    ensures Tick(st, EndPhase, view).0.dragging
    ensures Tick(st, EndPhase, view).0.slots
              == if SlotOf(cell.0, cell.1) in st.slots then st.slots else st.slots + [SlotOf(cell.0, cell.1)]
  {
    var u := UpdateTarget(st, view.hovered, view.tableAt);
    assert u.target == st.target && u.position == Some(cell);
  }

  /** Every grid slot can be collected: dragging over its cell puts it in the list. */
  lemma EverySlotCanBeDragged(st: DragState, slot: int, split: SplitDrag)
    requires 0 <= slot < 9
    ensures slot in Drag(st, CellOf(slot).0, CellOf(slot).1, split).slots
  {
  }

  /** Every event keeps the invariant, so any run of events does, and every message sent carries a duplicate-free list of grid slots. */
  lemma {:induction false} RunKeepsValid(st: DragState, events: seq<Event>)
    requires Valid(st)
    ensures Valid(Run(st, events).0)
    ensures forall m :: m in Run(st, events).1 ==> NoDuplicates(m.slots) && GridSlots(m.slots)
    decreases |events|
  {
    if events != [] {
      var (s, message) := Step(st, events[0]);
      match events[0] {
        case Press(view) => PressStartsOnlyOnGrid(st, view);
        case ClientTick(phase, view) =>
          TickNeverStarts(st, phase, view);
          TickCommitsOnlyOnSameTable(st, phase, view);
      }
      RunKeepsValid(s, events[1..]);
    }
  }

  /** Ticks alone never start a drag: a drag still in progress after any run of ticks has only extended its slot list. */
  lemma {:induction false} TicksOnlyExtendSlots(st: DragState, ticks: seq<(Phase, ClientView)>)
    requires Valid(st)
    ensures var final := RunTicks(st, ticks);
      final.dragging ==> st.dragging && st.slots <= final.slots && final.stack == st.stack && final.target == st.target
    decreases |ticks|
  {
    if ticks != [] {
      var n := Tick(st, ticks[0].0, ticks[0].1).0;
      TickNeverStarts(st, ticks[0].0, ticks[0].1);
      TicksOnlyExtendSlots(n, ticks[1..]);
    }
  }

  /** The state after a run of ticks. */
  function RunTicks(st: DragState, ticks: seq<(Phase, ClientView)>): DragState
    decreases |ticks|
  {
    if ticks == [] then st else RunTicks(Tick(st, ticks[0].0, ticks[0].1).0, ticks[1..])
  }

  // ------------------------------------------------------------ the object

  /** CraftingDragHandler: the session held in six fields the event methods reassign. */
  class DragHandler {
    var dragPosition: Option<(int, int)>
    var dragTarget: Option<BlockPos>
    var dragging: bool
    var dragStack: ItemStack
    var dragSlots: seq<int>
    var dragAmounts: map<int, int>

    /** The fields as a value. */
    function State(): DragState
      reads this
    {
      DragState(dragPosition, dragTarget, dragging, dragStack, dragSlots, dragAmounts)
    }

    constructor ()
      ensures State() == Idle
    {
      dragPosition, dragTarget, dragging := None, None, false;
      dragStack, dragSlots, dragAmounts := Empty, [], map[];
    }

    /** onRightClick (both events), following CancelsRightClick. */
    method OnRightClick() returns (cancel: bool)
      ensures cancel == CancelsRightClick(State())
    {
      cancel := dragging;
    }

    /** updateDragTarget, following UpdateTarget. */
    method UpdateDragTarget(hovered: Option<BlockHit>, tableAt: BlockPos -> bool)
      modifies this
      ensures State() == UpdateTarget(old(State()), hovered, tableAt)
    {
      if hovered.Some? && tableAt(hovered.value.pos) {
        var hit := hovered.value;
        if dragTarget.None? {
          dragTarget := Some(hit.pos);
        } else if dragTarget.value != hit.pos {
          dragTarget := None;
          return;
        }
        if hit.side == Up {
          var x, y := hit.pixelX, hit.pixelY;
          if !(0 <= x <= 7) || !(0 <= y <= 7) {
            dragPosition := None;
            return;
          }
          var slotX, modX := x / 3, x % 3;
          var slotY, modY := y / 3, y % 3;
          if modX == 2 || modY == 2 {
            dragPosition := None;
            return;
          }
          dragPosition := Some((slotX, slotY));
          return;
        }
      }
      dragTarget := None;
    }

    /** startDragging, following Start. */
    method StartDragging(held: ItemStack)
      modifies this
      ensures State() == Start(old(State()), held)
    {
      dragging := true;
      dragStack := held;
      dragSlots := [];
      dragAmounts := map[];
    }

    /** onStartDragging, following StartOnPress. */
    method OnStartDragging(view: ClientView)
      modifies this
      ensures State() == StartOnPress(old(State()), view)
    {
      if dragging {
        return;
      }
      UpdateDragTarget(view.hovered, view.tableAt);
      if dragTarget.Some? && dragPosition.Some? {
        var (x, y) := dragPosition.value;
        if 0 <= x <= 7 && 0 <= y <= 7 {
          StartDragging(view.held);
        }
      }
    }

    /** onDrag, following Drag: the amounts map is refilled slot by slot. */
    method OnDrag(x: int, y: int, split: SplitDrag)
      modifies this
      ensures State() == Drag(old(State()), x, y, split)
    {
      var slot := x + y * 3;
      if slot !in dragSlots {
        dragSlots := dragSlots + [x + y * 3];
        dragAmounts := map[];
        var slots := dragSlots;
        for i := 0 to |slots|
          invariant dragSlots == slots
          invariant dragPosition == old(dragPosition) && dragTarget == old(dragTarget)
          invariant dragging == old(dragging) && dragStack == old(dragStack)
          invariant dragAmounts == map s | s in slots[..i] :: split(dragStack, slots, s)
        {
          var s := slots[i];
          dragAmounts := dragAmounts[s := split(dragStack, slots, s)];
          assert slots[..i + 1] == slots[..i] + [s];
        }
        assert slots[..|slots|] == slots;
      }
    }

    /** stopDragging(pos), following Stop. */
    method StopDragging(pos: Option<BlockPos>, tableAt: BlockPos -> bool) returns (message: Option<DragMessage>)
      modifies this
      ensures (State(), message) == Stop(old(State()), pos, tableAt)
    {
      message := None;
      if pos.Some? && dragTarget == pos {
        if tableAt(pos.value) && !IsEmpty(dragStack) {
          message := Some(DragMessage(pos.value, dragSlots));
        }
      }
      dragSlots := [];
      dragAmounts := map[];
      dragging := false;
      dragTarget := None;
      dragPosition := None;
      dragStack := Empty;
    }

    /** onClientTick, following Tick. */
    method OnClientTick(phase: Phase, view: ClientView) returns (message: Option<DragMessage>)
      modifies this
      ensures (State(), message) == Tick(old(State()), phase, view)
    {
      message := None;
      if phase == StartPhase {
        return;
      }
      if !view.worldLoaded || view.screenOpen {
        message := StopDragging(None, view.tableAt);
        return;
      }
      var keyDown := view.keyDown;
      var wasDragging := dragging;
      var target := dragTarget;
      UpdateDragTarget(view.hovered, view.tableAt);
      var heldItem := view.held;
      if wasDragging && (dragTarget.None? || !keyDown || dragStack != heldItem) {
        message := StopDragging(target, view.tableAt);
      }
      if dragging && dragTarget.Some? && dragPosition.Some? && keyDown {
        OnDrag(dragPosition.value.0, dragPosition.value.1, view.split);
      }
    }
  }
}
