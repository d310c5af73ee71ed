/**
 * The player's inventory: 27 slots in a 9-column grid whose first row is the hotbar.  A slot is
 * empty or holds a stack (an item id and a positive count); stacks have no size limit.
 */
module Inventories {
  import opened Basics

  const GridCols: nat := 9
  const GridRows: nat := 3
  const SlotCount: nat := 27

  datatype Stack = Stack(id: string, count: int)

  type Slots = seq<Option<Stack>>

  // ---------------------------------------------------------------------------------------
  // The slots as values

  /** The slot holds a stack of item `id`. */
  predicate Holds(slot: Option<Stack>, id: string) {
    slot.Some? && slot.value.id == id
  }

  /** Every stack in the slots has a positive count. */
  predicate StacksPositive(s: Slots) {
    forall i | 0 <= i < |s| :: s[i].Some? ==> s[i].value.count > 0
  }

  /** The first slot in [i, end) holding `id`, if any. */
  function FirstHolding(s: Slots, id: string, i: nat, end: nat): (r: Option<nat>)
    requires end <= |s|
    ensures r.Some? ==> i <= r.value < end && Holds(s[r.value], id)
    ensures r.Some? ==> forall j | i <= j < r.value :: !Holds(s[j], id)
    ensures r.None? ==> forall j | i <= j < end :: !Holds(s[j], id)
    decreases end - i
  {
    if i >= end then None
    else if Holds(s[i], id) then Some(i)
    else FirstHolding(s, id, i + 1, end)
  }

  /** The first empty slot in [i, end), if any. */
  function FirstEmpty(s: Slots, i: nat, end: nat): (r: Option<nat>)
    requires end <= |s|
    ensures r.Some? ==> i <= r.value < end && s[r.value].None?
    ensures r.Some? ==> forall j | i <= j < r.value :: s[j].Some?
    ensures r.None? ==> forall j | i <= j < end :: s[j].Some?
    decreases end - i
  {
    if i >= end then None
    else if s[i].None? then Some(i)
    else FirstEmpty(s, i + 1, end)
  }

  /**
   * `tryMerge(start, end)` of `addItem`: while items are left, the first stack of `id` in the
   * range takes them all.  The result is the new slots and the count still to place.
   */
  function Merged(s: Slots, id: string, count: int, start: nat, end: nat): (Slots, int)
    requires end <= |s|
  {
    if count <= 0 then (s, count)
    else match FirstHolding(s, id, start, end)
      case Some(k) => (s[k := Some(Stack(id, s[k].value.count + count))], 0)
      case None => (s, count)
  }

  /**
   * `tryPlaceEmpty(start, end)` of `addItem`: while items are left, the first empty slot in the
   * range takes them all as a new stack.
   */
  function Placed(s: Slots, id: string, count: int, start: nat, end: nat): (Slots, int)
    requires end <= |s|
  {
    if count <= 0 then (s, count)
    else match FirstEmpty(s, start, end)
      case Some(k) => (s[k := Some(Stack(id, count))], 0)
      case None => (s, count)
  }

  /** Merge, then place, within [start, end). */
  function MergedPlaced(s: Slots, id: string, count: int, start: nat, end: nat): (Slots, int)
    requires end <= |s|
  {
    var (t, c) := Merged(s, id, count, start, end);
    Placed(t, id, c, start, end)
  }

  /**
   * `addItem(id, count)`: merge into, then place in, the hotbar, and with the items left merge
   * into, then place in, the rest of the grid.  The source guards the second half with
   * `count > 0`, which each loop already tests, so the guard is left implicit here.
   */
  function AddedTo(s: Slots, id: string, count: int): Slots
    requires |s| == SlotCount
  {
    var (s2, c2) := MergedPlaced(s, id, count, 0, GridCols);
    MergedPlaced(s2, id, c2, GridCols, SlotCount).0
  }

  /** The slot after `removeFromActive(count)` took from it. */
  function Taken(slot: Option<Stack>, count: int): Option<Stack> {
    match slot
      case None => None
      case Some(st) => if st.count - count <= 0 then None else Some(Stack(st.id, st.count - count))
  }

  /** The number of items `id` in the slots. */
  function Total(s: Slots, id: string): int {
    if s == [] then 0 else Total(s[..|s| - 1], id) + Amount(s[|s| - 1], id)
  }

  /** The items `id` in one slot. */
  function Amount(slot: Option<Stack>, id: string): int {
    if Holds(slot, id) then slot.value.count else 0
  }

  /** The slot holding `id` or empty: a place `addItem` can put items `id`. */
  predicate Room(slot: Option<Stack>, id: string) {
    slot.None? || Holds(slot, id)
  }

  /** Some slot in [start, end) can take items `id`. */
  predicate HasRoom(s: Slots, id: string, start: nat, end: nat)
    requires end <= |s|
  {
    exists j | start <= j < end :: Room(s[j], id)
  }

  // ---------------------------------------------------------------------------------------
  // Counting items

  /** Replacing one slot changes the total by the difference of the two slots. */
  lemma {:induction false} TotalUpdate(s: Slots, k: nat, v: Option<Stack>, id: string)
    requires k < |s|
    ensures Total(s[k := v], id) == Total(s, id) - Amount(s[k], id) + Amount(v, id)
  {
    var n := |s| - 1;
    var t := s[k := v];
    assert t[..n] == if k < n then s[..n][k := v] else s[..n];
    if k < n {
      TotalUpdate(s[..n], k, v, id);
    }
  }

  /**
   * What one step of `addItem` does, from slots `s` with `count` items to place to slots `t`
   * with `left` still to place: either nothing, or all items go to one slot of [start, end);
   * stacks stay positive, the total of `id` grows by the items placed and no other total moves.
   */
  ghost predicate OneStep(s: Slots, t: Slots, id: string, count: int, left: int, start: nat, end: nat) {
    && |t| == |s| && StacksPositive(t)
    && (left == count ==> t == s)
    && (left != count ==> count > 0 && left == 0)
    && (forall j | 0 <= j < |s| && t[j] != s[j] :: start <= j < end)
    && (forall i, j | 0 <= i < j < |s| :: t[i] == s[i] || t[j] == s[j])
    && Total(t, id) == Total(s, id) + (count - left)
    && (forall other | other != id :: Total(t, other) == Total(s, other))
  }

  /** A slot write seen as a step: the totals move by the difference of the two slots. */
  lemma WriteStep(s: Slots, k: nat, v: Option<Stack>, id: string, count: int, start: nat, end: nat)
    requires StacksPositive(s) && start <= k < end <= |s| && count > 0 && Room(s[k], id)
    requires v.Some? && v.value.id == id && v.value.count > 0
    requires v.value.count == Amount(s[k], id) + count
    ensures OneStep(s, s[k := v], id, count, 0, start, end)
  {
    TotalUpdate(s, k, v, id);
    forall other | other != id
      ensures Total(s[k := v], other) == Total(s, other)
    {
      TotalUpdate(s, k, v, other);
    }
  }

  /** tryMerge is one step; it leaves the items alone exactly when no slot in range holds `id`. */
  lemma MergedSpec(s: Slots, id: string, count: int, start: nat, end: nat)
    requires start <= end <= |s| && StacksPositive(s)
    ensures OneStep(s, Merged(s, id, count, start, end).0, id, count, Merged(s, id, count, start, end).1, start, end)
    ensures Merged(s, id, count, start, end).1 == count <==>
      count <= 0 || forall j | start <= j < end :: !Holds(s[j], id)
  {
    if count > 0 {
      var r := FirstHolding(s, id, start, end);
      if r.Some? {
        var k := r.value;
        WriteStep(s, k, Some(Stack(id, s[k].value.count + count)), id, count, start, end);
      }
    }
  }

  /** tryPlaceEmpty is one step; it leaves the items alone exactly when the range is full. */
  lemma PlacedSpec(s: Slots, id: string, count: int, start: nat, end: nat)
    requires start <= end <= |s| && StacksPositive(s)
    ensures OneStep(s, Placed(s, id, count, start, end).0, id, count, Placed(s, id, count, start, end).1, start, end)
    ensures Placed(s, id, count, start, end).1 == count <==>
      count <= 0 || forall j | start <= j < end :: s[j].Some?
  {
    if count > 0 {
      var r := FirstEmpty(s, start, end);
      if r.Some? {
        WriteStep(s, r.value, Some(Stack(id, count)), id, count, start, end);
      }
    }
  }

  // ---------------------------------------------------------------------------------------
  // What addItem promises

  /**
   * Adding a positive count of `id` puts all of it in one slot when some slot holds `id` or is
   * empty, and loses it otherwise; no other item's total changes and stacks stay positive.
   */
  lemma AddItemTotals(s: Slots, id: string, count: int)
    requires |s| == SlotCount && StacksPositive(s)
    ensures StacksPositive(AddedTo(s, id, count))
    ensures Total(AddedTo(s, id, count), id) ==
      Total(s, id) + if count > 0 && HasRoom(s, id, 0, SlotCount) then count else 0
    ensures forall other | other != id :: Total(AddedTo(s, id, count), other) == Total(s, other)
  {
    AddItemSteps(s, id, count);
  }

  /** At most one slot changes, and none outside the hotbar while the hotbar has room for `id`. */
  lemma AddItemOneSlot(s: Slots, id: string, count: int)
    requires |s| == SlotCount && StacksPositive(s)
    ensures forall i, j | 0 <= i < j < SlotCount :: AddedTo(s, id, count)[i] == s[i] || AddedTo(s, id, count)[j] == s[j]
    ensures HasRoom(s, id, 0, GridCols) ==>
      forall j | GridCols <= j < SlotCount :: AddedTo(s, id, count)[j] == s[j]
  {
    AddItemSteps(s, id, count);
  }

  /**
   * A stack of `id` already on the hotbar takes the items, the first one from the left, even
   * when an empty slot comes before it.
   */
  lemma AddItemMergesFirst(s: Slots, id: string, count: int, k: nat)
    requires |s| == SlotCount && StacksPositive(s) && count > 0
    requires k < GridCols && Holds(s[k], id) && forall j | 0 <= j < k :: !Holds(s[j], id)
    ensures AddedTo(s, id, count)[k] == Some(Stack(id, s[k].value.count + count))
  {
    assert FirstHolding(s, id, 0, GridCols) == Some(k);
  }

  /** Two steps in a row make one step: the second does nothing once the first placed the items. */
  lemma ComposeSteps(s: Slots, t: Slots, u: Slots, id: string, count: int, mid: int, left: int, start: nat, end: nat)
    requires OneStep(s, t, id, count, mid, start, end) && OneStep(t, u, id, mid, left, start, end)
    ensures OneStep(s, u, id, count, left, start, end)
  {
    if mid != count {
      assert u == t;
    }
  }

  /** A step within [start, end) is a step within any wider range. */
  lemma WidenStep(s: Slots, t: Slots, id: string, count: int, left: int, start: nat, end: nat, start': nat, end': nat)
    requires OneStep(s, t, id, count, left, start, end) && start' <= start && end <= end'
    ensures OneStep(s, t, id, count, left, start', end')
  {
  }

  /** Either half of `addItem` is one step, which places the items iff its range has room. */
  lemma MergedPlacedSpec(s: Slots, id: string, count: int, start: nat, end: nat)
    requires start <= end <= |s| && StacksPositive(s)
    ensures var (t, left) := MergedPlaced(s, id, count, start, end);
      && OneStep(s, t, id, count, left, start, end)
      && (left == count <==> count <= 0 || !HasRoom(s, id, start, end))
  {
    var (s1, c1) := Merged(s, id, count, start, end);
    MergedSpec(s, id, count, start, end);
    PlacedSpec(s1, id, c1, start, end);
    var (s2, c2) := Placed(s1, id, c1, start, end);
    ComposeSteps(s, s1, s2, id, count, c1, c2, start, end);
  }

  /**
   * A hotbar step followed by a grid step is one step over the whole grid, which places the
   * items iff some slot has room; the grid step changes nothing while the hotbar has room.
   */
  lemma HotbarThenGrid(s: Slots, t: Slots, u: Slots, id: string, count: int, mid: int, left: int)
    requires |s| == SlotCount
    requires OneStep(s, t, id, count, mid, 0, GridCols)
    requires mid == count <==> count <= 0 || !HasRoom(s, id, 0, GridCols)
    requires OneStep(t, u, id, mid, left, GridCols, SlotCount)
    requires left == mid <==> mid <= 0 || !HasRoom(t, id, GridCols, SlotCount)
    ensures OneStep(s, u, id, count,
      if count > 0 && HasRoom(s, id, 0, SlotCount) then 0 else count, 0, SlotCount)
    ensures HasRoom(s, id, 0, GridCols) ==>
      forall j | GridCols <= j < SlotCount :: u[j] == s[j]
  {
    WidenStep(s, t, id, count, mid, 0, GridCols, 0, SlotCount);
    WidenStep(t, u, id, mid, left, GridCols, SlotCount, 0, SlotCount);
    ComposeSteps(s, t, u, id, count, mid, left, 0, SlotCount);
    if left == count && count > 0 {
      assert t == s;
      assert !HasRoom(s, id, 0, SlotCount);
    }
  }

  /**
   * `addItem` is one step over the whole grid, which places the items iff some slot has room,
   * and touches nothing outside the hotbar while the hotbar has room for `id`.
   */
  lemma AddItemSteps(s: Slots, id: string, count: int)
    requires |s| == SlotCount && StacksPositive(s)
    ensures OneStep(s, AddedTo(s, id, count), id, count,
      if count > 0 && HasRoom(s, id, 0, SlotCount) then 0 else count, 0, SlotCount)
    ensures HasRoom(s, id, 0, GridCols) ==>
      forall j | GridCols <= j < SlotCount :: AddedTo(s, id, count)[j] == s[j]
  {
    var (s2, c2) := MergedPlaced(s, id, count, 0, GridCols);
    var (s4, c4) := MergedPlaced(s2, id, c2, GridCols, SlotCount);
    assert AddedTo(s, id, count) == s4;
    MergedPlacedSpec(s, id, count, 0, GridCols);
    MergedPlacedSpec(s2, id, c2, GridCols, SlotCount);
    HotbarThenGrid(s, s2, AddedTo(s, id, count), id, count, c2, c4);
  }

  // ---------------------------------------------------------------------------------------
  // The inventory object

  class Inventory {
    /** The grid, row by row; slots 0 .. 8 are the hotbar. */
    const slots: array<Option<Stack>>
    /** The selected hotbar slot. */
    var activeIndex: int

    ghost predicate Valid()
      reads this, slots
    {
      slots.Length == SlotCount && 0 <= activeIndex < GridCols && StacksPositive(slots[..])
    }

    /** An empty grid with the first hotbar slot selected. */
    constructor ()
      ensures Valid() && fresh(slots)
      ensures forall i | 0 <= i < SlotCount :: slots[i] == None
      ensures activeIndex == 0
    {
      slots := new Option<Stack>[SlotCount](_ => None);
      activeIndex := 0;
    }

    /** The loop of `tryMerge`. */
    method TryMerge(id: string, count: int, start: nat, end: nat) returns (left: int)
      requires slots.Length == SlotCount && start <= end <= SlotCount
      modifies slots
      ensures (slots[..], left) == Merged(old(slots[..]), id, count, start, end)
    {
      ghost var s0 := slots[..];
      left := count;
      var i := start;
      while i < end && left > 0
        invariant start <= i <= end
        invariant left == count ==> slots[..] == s0
        invariant left == count && count > 0 ==> FirstHolding(s0, id, start, end) == FirstHolding(s0, id, i, end)
        invariant left != count ==> count > 0 && (slots[..], left) == Merged(s0, id, count, start, end)
        decreases end - i
      {
        var s := slots[i];
        if s.Some? && s.value.id == id {
          slots[i] := Some(Stack(id, s.value.count + left));
          left := 0;
        }
        i := i + 1;
      }
    }

    /** The loop of `tryPlaceEmpty`. */
    method TryPlaceEmpty(id: string, count: int, start: nat, end: nat) returns (left: int)
      requires slots.Length == SlotCount && start <= end <= SlotCount
      modifies slots
      ensures (slots[..], left) == Placed(old(slots[..]), id, count, start, end)
    {
      ghost var s0 := slots[..];
      left := count;
      var i := start;
      while i < end && left > 0
        invariant start <= i <= end
        invariant left == count ==> slots[..] == s0
        invariant left == count && count > 0 ==> FirstEmpty(s0, start, end) == FirstEmpty(s0, i, end)
        invariant left != count ==> count > 0 && (slots[..], left) == Placed(s0, id, count, start, end)
        decreases end - i
      {
        if slots[i].None? {
          slots[i] := Some(Stack(id, left));
          left := 0;
        }
        i := i + 1;
      }
    }

    /** `addItem(id, count)`; the listeners it notifies are not modelled. */
    method AddItem(id: string, count: int)
      requires Valid()
      modifies slots
      ensures Valid()
      ensures slots[..] == AddedTo(old(slots[..]), id, count)
    {
      var left := TryMerge(id, count, 0, GridCols);
      left := TryPlaceEmpty(id, left, 0, GridCols);
      if left > 0 {
        left := TryMerge(id, left, GridCols, SlotCount);
      }
      if left > 0 {
        left := TryPlaceEmpty(id, left, GridCols, SlotCount);
      }
      AddItemSteps(old(slots[..]), id, count);
    }

    /**
     * `removeFromActive(count)`: false on an empty active slot; otherwise `count` items leave
     * the active stack, which empties once its count drops to zero or below.
     */
    method RemoveFromActive(count: int) returns (removed: bool)
      requires Valid()
      modifies slots
      ensures Valid()
      ensures removed <==> old(slots[activeIndex]).Some?
      ensures slots[..] == old(slots[..])[activeIndex := Taken(old(slots[activeIndex]), count)]
    {
      var s := slots[activeIndex];
      if s.None? {
        return false;
      }
      var left := s.value.count - count;
      if left <= 0 {
        slots[activeIndex] := None;
      } else {
        slots[activeIndex] := Some(Stack(s.value.id, left));
      }
      return true;
    }

    /** `getActive()`: the stack in the selected hotbar slot, never an empty one. */
    function GetActive(): (r: Option<Stack>)
      reads this, slots
      requires Valid()
      ensures r.Some? ==> r.value.count > 0
      ensures r == None <==> slots[activeIndex].None?
    {
      slots[activeIndex]
    }

    /** `setActiveIndex(i)`: select hotbar slot i, clamped into 0 .. 8. */
    method SetActiveIndex(i: int)
      requires Valid()
      modifies this`activeIndex
      ensures Valid()
      ensures 0 <= i < GridCols ==> activeIndex == i
      ensures i < 0 ==> activeIndex == 0
      ensures i >= GridCols ==> activeIndex == GridCols - 1
    {
      activeIndex := Max(0, Min(GridCols - 1, i));
    }
  }

  /**
   * Removing `count` items from a stack of `id` lowers its total by `count`, or by the whole
   * stack when that is not more than `count`; other items are untouched.
   */
  lemma RemoveTotals(s: Slots, k: nat, count: int, id: string)
    requires k < |s| && StacksPositive(s) && Holds(s[k], id)
    ensures StacksPositive(s[k := Taken(s[k], count)])
    ensures Total(s[k := Taken(s[k], count)], id) ==
      Total(s, id) - if s[k].value.count <= count then s[k].value.count else count
    ensures forall other | other != id :: Total(s[k := Taken(s[k], count)], other) == Total(s, other)
  {
    TotalUpdate(s, k, Taken(s[k], count), id);
    forall other | other != id
      ensures Total(s[k := Taken(s[k], count)], other) == Total(s, other)
    {
      TotalUpdate(s, k, Taken(s[k], count), other);
    }
  }
}
