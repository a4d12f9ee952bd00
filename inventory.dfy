/**
 * The inventory and shop state of `InventoryManager` with the engine's
 * display objects abstracted away: a table of 20 slots that each may hold
 * an item, the skin and house carousels, the visibility of the four panels,
 * and the slot layout relative to the grid's origin.
 */
module Inventory {
  import opened Wrappers

  /** The identity of an item sprite; the source compares sprites with `===`. */
  type ItemId = nat

  const InventoryRows: nat := 4
  const InventoryCols: nat := 5
  const SlotCount: nat := 20
  const GridSize: nat := 64

  const AvailableSkins: seq<string> :=
    ["0", "1", "2", "3", "4", "5", "6", "7", "8", "9", "10", "11", "12", "13", "14", "15"]
  const AvailableHouses: seq<string> := ["0", "1", "2", "3"]

  /** The position of a slot's rectangle relative to the top-left corner of the grid. */
  datatype Offset = Offset(dx: int, dy: int)

  /** Where `updateInventoryPosition` puts slot `i`: column `i % 5`, row `floor(i / 5)`. */
  function SlotOffset(i: nat): Offset {
    Offset((i % InventoryCols) * GridSize, (i / InventoryCols) * GridSize)
  }

  // ---------------------------------------------------------------------
  // The slot table as a value

  /** The lowest index at or after `from` whose slot is empty, as `slots.find(slot => !slot.item)` finds it. */
  function FirstEmptyFrom(s: seq<Option<ItemId>>, from: nat): (k: Option<nat>)
    requires from <= |s|
    ensures k.Some? ==> from <= k.value < |s| && s[k.value].None?
    ensures k.Some? ==> forall j :: from <= j < k.value ==> s[j].Some?
    ensures k.None? ==> forall j :: from <= j < |s| ==> s[j].Some?
    decreases |s| - from
  {
    if from == |s| then None
    else if s[from].None? then Some(from)
    else FirstEmptyFrom(s, from + 1)
  }

  function FirstEmpty(s: seq<Option<ItemId>>): Option<nat> {
    FirstEmptyFrom(s, 0)
  }

  /** The lowest index at or after `from` whose slot holds `item`. */
  function FirstHoldingFrom(s: seq<Option<ItemId>>, item: ItemId, from: nat): (k: Option<nat>)
    requires from <= |s|
    ensures k.Some? ==> from <= k.value < |s| && s[k.value] == Some(item)
    ensures k.Some? ==> forall j :: from <= j < k.value ==> s[j] != Some(item)
    ensures k.None? ==> forall j :: from <= j < |s| ==> s[j] != Some(item)
    decreases |s| - from
  {
    if from == |s| then None
    else if s[from] == Some(item) then Some(from)
    else FirstHoldingFrom(s, item, from + 1)
  }

  function FirstHolding(s: seq<Option<ItemId>>, item: ItemId): Option<nat> {
    FirstHoldingFrom(s, item, 0)
  }

  /** The table after `addItem(item)`: the item in the first empty slot, or no change when all are full. */
  function Added(s: seq<Option<ItemId>>, item: ItemId): seq<Option<ItemId>> {
    match FirstEmpty(s)
    case Some(k) => s[k := Some(item)]
    case None => s
  }

  /** The table after `removeItem(item)`: the first slot holding the item cleared, or no change. */
  function Removed(s: seq<Option<ItemId>>, item: ItemId): seq<Option<ItemId>> {
    match FirstHolding(s, item)
    case Some(k) => s[k := None]
    case None => s
  }

  /** The number of slots that hold an item. */
  function Filled(s: seq<Option<ItemId>>): (n: nat)
    ensures n <= |s|
  {
    if s == [] then 0 else (if s[0].Some? then 1 else 0) + Filled(s[1..])
  }

  /** `addItem` fails exactly when every slot is filled. */
  lemma {:induction false} NoEmptySlotIffFull(s: seq<Option<ItemId>>)
    ensures FirstEmpty(s).None? <==> Filled(s) == |s|
  {
    FilledAllLemma(s);
  }

  lemma {:induction false} FilledAllLemma(s: seq<Option<ItemId>>)
    ensures Filled(s) == |s| <==> forall j :: 0 <= j < |s| ==> s[j].Some?
  {
    if s != [] {
      FilledAllLemma(s[1..]);
      if s[0].Some? {
        assert forall j :: 1 <= j < |s| ==> s[j] == s[1..][j - 1];
      }
    }
  }

  /** Setting slot `k` from empty to full raises the count by one; clearing a full one lowers it by one. */
  lemma {:induction false} FilledUpdate(s: seq<Option<ItemId>>, k: nat, v: Option<ItemId>)
    requires k < |s|
    ensures Filled(s[k := v]) == Filled(s) - (if s[k].Some? then 1 else 0) + (if v.Some? then 1 else 0)
  {
    if k > 0 {
      FilledUpdate(s[1..], k - 1, v);
      assert s[k := v][1..] == s[1..][k - 1 := v];
    } else {
      assert s[k := v][1..] == s[1..];
    }
  }

  /** A successful `addItem` fills one more slot; a failed one leaves the table full. */
  lemma AddedCount(s: seq<Option<ItemId>>, item: ItemId)
    ensures FirstEmpty(s).Some? ==> Filled(Added(s, item)) == Filled(s) + 1
    ensures FirstEmpty(s).None? ==> Added(s, item) == s && Filled(s) == |s|
  {
    NoEmptySlotIffFull(s);
    if FirstEmpty(s).Some? {
      FilledUpdate(s, FirstEmpty(s).value, Some(item));
    }
  }

  /** `removeItem` of an item that is present empties one slot; of an absent one changes nothing. */
  lemma RemovedCount(s: seq<Option<ItemId>>, item: ItemId)
    ensures FirstHolding(s, item).Some? ==> Filled(Removed(s, item)) == Filled(s) - 1
    ensures FirstHolding(s, item).None? ==> Removed(s, item) == s
  {
    if FirstHolding(s, item).Some? {
      FilledUpdate(s, FirstHolding(s, item).value, None);
    }
  }

  /** Removing an item that was not in the table right after adding it restores the table. */
  lemma RemoveUndoesAdd(s: seq<Option<ItemId>>, item: ItemId)
    requires forall j :: 0 <= j < |s| ==> s[j] != Some(item)
    ensures Removed(Added(s, item), item) == s
  {
    match FirstEmpty(s)
    case None =>
    case Some(k) =>
      var t := s[k := Some(item)];
      assert t[k] == Some(item);
      assert FirstHolding(t, item) == Some(k);
      assert t[k := None] == s;
  }

  // ---------------------------------------------------------------------
  // The carousels

  /** JavaScript's `%`, whose remainder takes the sign of the dividend. */
  function JsRem(a: int, b: int): (r: int)
    requires b > 0
    ensures a >= 0 ==> r == a % b
    ensures a < 0 ==> -b < r <= 0
  {
    if a >= 0 then a % b else -((-a) % b)
  }

  /** `(i + 1) % n`, the index the `>` button moves to. */
  function NextIndex(i: int, n: int): (r: int)
    requires 0 <= i < n
    ensures 0 <= r < n
    ensures r == if i == n - 1 then 0 else i + 1
  {
    JsRem(i + 1, n)
  }

  /** `(i - 1 + n) % n`, the index the `<` button moves to. */
  function PrevIndex(i: int, n: int): (r: int)
    requires 0 <= i < n
    ensures 0 <= r < n
    ensures r == if i == 0 then n - 1 else i - 1
  {
    JsRem(i - 1 + n, n)
  }

  /** Each button undoes the other. */
  lemma PrevUndoesNext(i: int, n: int)
    requires 0 <= i < n
    ensures PrevIndex(NextIndex(i, n), n) == i
    ensures NextIndex(PrevIndex(i, n), n) == i
  {
  }

  /** The index after pressing `>` `k` times. */
  function NextTimes(i: int, n: int, k: nat): (r: int)
    requires 0 <= i < n
    ensures 0 <= r < n
  {
    if k == 0 then i else NextIndex(NextTimes(i, n, k - 1), n)
  }

  /** Before the end of the carousel, `k` presses of `>` advance by `k` places. */
  lemma {:induction false} NextTimesNoWrap(i: int, n: int, k: nat)
    requires 0 <= i && i + k < n
    ensures NextTimes(i, n, k) == i + k
  {
    if k > 0 {
      NextTimesNoWrap(i, n, k - 1);
    }
  }

  /** Pressing `a` times and then `b` times is pressing `a + b` times. */
  lemma {:induction false} NextTimesAdd(i: int, n: int, a: nat, b: nat)
    requires 0 <= i < n
    ensures NextTimes(i, n, a + b) == NextTimes(NextTimes(i, n, a), n, b)
  {
    if b > 0 {
      NextTimesAdd(i, n, a, b - 1);
    }
  }

  /** `n` presses of `>` go once around a carousel of `n` entries and back to the start. */
  lemma FullTurn(i: int, n: int)
    requires 0 <= i < n
    ensures NextTimes(i, n, n) == i
  {
    NextTimesNoWrap(i, n, n - 1 - i);
    assert NextTimes(i, n, n - i) == 0;
    NextTimesAdd(i, n, n - i, i);
    NextTimesNoWrap(0, n, i);
  }

  /** A price as `prices.get(id) || 0` yields it: the stored price, or 0 when there is none. */
  function PriceOrZero(prices: map<string, int>, id: string): (p: int)
    ensures id in prices ==> p == prices[id]
    ensures id !in prices ==> p == 0
  {
    var found: Option<int> := if id in prices then Some(prices[id]) else None;
    // `||` falls back to 0 for every falsy left operand: `undefined` and `0` alike.
    if found.None? || found.value == 0 then 0 else found.value
  }

  // ---------------------------------------------------------------------
  // The panels

  /** Whether the inventory is open and which of the four panels are shown. */
  datatype Panels = Panels(isOpen: bool, inventory: bool, sellArea: bool, skinShop: bool, houseShop: bool)

  /** The panels after the backpack button's `toggle`. */
  function Toggled(p: Panels): Panels {
    var open := !p.isOpen;
    p.(isOpen := open, inventory := open, sellArea := open)
  }

  /** The panels after the shirt button's `toggleSkinShop`. */
  function SkinShopToggled(p: Panels): Panels {
    p.(skinShop := !p.skinShop, houseShop := false, inventory := false, sellArea := false)
  }

  /** The panels after the house button's `toggleHouseShop`. */
  function HouseShopToggled(p: Panels): Panels {
    p.(houseShop := !p.houseShop, skinShop := false, inventory := false, sellArea := false)
  }

  /** `toggle` opens or closes the inventory and shows exactly what is open; twice restores `isOpen`. */
  lemma ToggleProperties(p: Panels)
    ensures Toggled(p).isOpen == !p.isOpen
    ensures Toggled(p).inventory == Toggled(p).isOpen && Toggled(p).sellArea == Toggled(p).isOpen
    ensures Toggled(p).skinShop == p.skinShop && Toggled(p).houseShop == p.houseShop
    ensures Toggled(Toggled(p)).isOpen == p.isOpen
  {
  }

  /** A shop toggle flips its own shop, hides everything else and leaves `isOpen` alone. */
  lemma ShopToggleProperties(p: Panels)
    ensures var q := SkinShopToggled(p);
      q.skinShop == !p.skinShop && !q.houseShop && !q.inventory && !q.sellArea && q.isOpen == p.isOpen
    ensures var q := HouseShopToggled(p);
      q.houseShop == !p.houseShop && !q.skinShop && !q.inventory && !q.sellArea && q.isOpen == p.isOpen
  {
  }

  /** After any shop toggle at most one shop is shown, and the other toggles keep it so. */
  lemma AtMostOneShop(p: Panels)
    ensures !(SkinShopToggled(p).skinShop && SkinShopToggled(p).houseShop)
    ensures !(HouseShopToggled(p).skinShop && HouseShopToggled(p).houseShop)
    ensures !(p.skinShop && p.houseShop) ==> !(Toggled(p).skinShop && Toggled(p).houseShop)
  {
  }

  /**
   * A shop toggle hides the inventory without closing it, so the next
   * backpack press closes the inventory and leaves it hidden: showing it
   * again takes a second press.
   */
  lemma BackpackAfterShopHidesInventory(p: Panels)
    requires p.isOpen
    ensures var q := Toggled(SkinShopToggled(p)); !q.isOpen && !q.inventory
    ensures Toggled(Toggled(SkinShopToggled(p))).inventory
    ensures var q := Toggled(HouseShopToggled(p)); !q.isOpen && !q.inventory
    ensures Toggled(Toggled(HouseShopToggled(p))).inventory
  {
  }

  // ---------------------------------------------------------------------
  // The grid built by `createInventoryGrid`

  /** The slot rectangles in the order the nested row/column loop creates them. */
  method CreateInventoryGrid() returns (offsets: seq<Offset>)
    ensures |offsets| == SlotCount
    ensures forall i :: 0 <= i < |offsets| ==> offsets[i] == SlotOffset(i)
  {
    offsets := [];
    var row := 0;
    while row < InventoryRows
      invariant 0 <= row <= InventoryRows
      invariant |offsets| == row * InventoryCols
      invariant forall i :: 0 <= i < |offsets| ==> offsets[i] == SlotOffset(i)
    {
      var col := 0;
      while col < InventoryCols
        invariant 0 <= col <= InventoryCols
        invariant |offsets| == row * InventoryCols + col
        invariant forall i :: 0 <= i < |offsets| ==> offsets[i] == SlotOffset(i)
      {
        assert SlotOffset(row * InventoryCols + col) == Offset(col * GridSize, row * GridSize);
        offsets := offsets + [Offset(col * GridSize, row * GridSize)];
        col := col + 1;
      }
      row := row + 1;
    }
  }

  class InventoryManager {
    /** The item of each slot; `None` is a slot whose `item` is `null`. */
    var slots: array<Option<ItemId>>
    /** Each slot rectangle's position relative to the grid's origin. */
    var slotOffsets: seq<Offset>

    var isOpen: bool
    var inventoryVisible: bool
    var sellAreaVisible: bool
    var skinShopVisible: bool
    var houseShopVisible: bool

    var currentSkinIndex: int
    var currentHouseIndex: int
    const skinPrices: map<string, int>
    const housePrices: map<string, int>

    /** The frame shown by the skin preview sprite. */
    var skinPreviewFrame: string
    /** The frame shown by the house preview sprite. */
    var housePreviewFrame: string
    /** The price on the skin shop's buy button; `None` while it still reads "Buy now". */
    var skinPriceLabel: Option<int>
    /** The price on the house shop's buy button; `None` while it still reads "Buy House". */
    var housePriceLabel: Option<int>

    ghost predicate Valid()
      reads this
    {
      && slots.Length == SlotCount
      && |slotOffsets| == SlotCount
      && (forall i :: 0 <= i < SlotCount ==> slotOffsets[i] == SlotOffset(i))
      && 0 <= currentSkinIndex < |AvailableSkins|
      && 0 <= currentHouseIndex < |AvailableHouses|
      && skinPreviewFrame == AvailableSkins[currentSkinIndex]
      && housePreviewFrame == AvailableHouses[currentHouseIndex]
      && (skinPriceLabel.Some? ==> skinPriceLabel.value == PriceOrZero(skinPrices, AvailableSkins[currentSkinIndex]))
      && (housePriceLabel.Some? ==> housePriceLabel.value == PriceOrZero(housePrices, AvailableHouses[currentHouseIndex]))
    }

    ghost function Contents(): seq<Option<ItemId>>
      reads this, slots
    {
      slots[..]
    }

    ghost function PanelState(): Panels
      reads this
    {
      Panels(isOpen, inventoryVisible, sellAreaVisible, skinShopVisible, houseShopVisible)
    }

    /** A fresh manager: 20 empty slots laid out row by row, both carousels at their first entry, closed. */
    constructor (skinPrices: map<string, int>, housePrices: map<string, int>,
                 inventoryVisible: bool, sellAreaVisible: bool, skinShopVisible: bool, houseShopVisible: bool)
      ensures Valid() && fresh(slots)
      ensures Contents() == seq(SlotCount, _ => None)
      ensures PanelState() == Panels(false, inventoryVisible, sellAreaVisible, skinShopVisible, houseShopVisible)
      ensures currentSkinIndex == 0 && currentHouseIndex == 0
      ensures skinPriceLabel.None? && housePriceLabel.None?
      ensures this.skinPrices == skinPrices && this.housePrices == housePrices
    {
      this.skinPrices := skinPrices;
      this.housePrices := housePrices;
      this.isOpen := false;
      this.inventoryVisible := inventoryVisible;
      this.sellAreaVisible := sellAreaVisible;
      this.skinShopVisible := skinShopVisible;
      this.houseShopVisible := houseShopVisible;
      slots := new Option<ItemId>[SlotCount](_ => None);
      var offsets := CreateInventoryGrid();
      slotOffsets := offsets;
      currentSkinIndex := 0;
      currentHouseIndex := 0;
      skinPreviewFrame := AvailableSkins[0];
      housePreviewFrame := AvailableHouses[0];
      skinPriceLabel := None;
      housePriceLabel := None;
    }

    /** `updateInventoryPosition` after a resize: every slot goes back to where the grid put it. */
    method UpdateInventoryPosition()
      requires Valid()
      modifies this`slotOffsets
      ensures Valid()
      ensures slotOffsets == old(slotOffsets)
    {
      var index := 0;
      while index < slots.Length
        invariant 0 <= index <= slots.Length
        invariant |slotOffsets| == SlotCount
        invariant forall i :: 0 <= i < SlotCount ==> slotOffsets[i] == SlotOffset(i)
      {
        var col := index % InventoryCols;
        var row := index / InventoryCols;
        slotOffsets := slotOffsets[index := Offset(col * GridSize, row * GridSize)];
        index := index + 1;
      }
    }

    method Toggle()
      requires Valid()
      modifies this`isOpen, this`inventoryVisible, this`sellAreaVisible
      ensures Valid()
      ensures isOpen == !old(isOpen) && inventoryVisible == isOpen && sellAreaVisible == isOpen
      ensures PanelState() == Toggled(old(PanelState()))
    {
      isOpen := !isOpen;
      inventoryVisible := isOpen;
      sellAreaVisible := isOpen;
    }

    method ToggleSkinShop()
      requires Valid()
      modifies this`skinShopVisible, this`houseShopVisible, this`inventoryVisible, this`sellAreaVisible
      ensures Valid()
      ensures skinShopVisible == !old(skinShopVisible)
      ensures !houseShopVisible && !inventoryVisible && !sellAreaVisible
      ensures PanelState() == SkinShopToggled(old(PanelState()))
    {
      var isVisible := !skinShopVisible;
      skinShopVisible := isVisible;
      houseShopVisible := false;
      inventoryVisible := false;
      sellAreaVisible := false;
    }

    method ToggleHouseShop()
      requires Valid()
      modifies this`skinShopVisible, this`houseShopVisible, this`inventoryVisible, this`sellAreaVisible
      ensures Valid()
      ensures houseShopVisible == !old(houseShopVisible)
      ensures !skinShopVisible && !inventoryVisible && !sellAreaVisible
      ensures PanelState() == HouseShopToggled(old(PanelState()))
    {
      var isVisible := !houseShopVisible;
      houseShopVisible := isVisible;
      skinShopVisible := false;
      inventoryVisible := false;
      sellAreaVisible := false;
    }

    /** `slots.find(slot => !slot.item)`: the lowest empty slot, if any. */
    method FindEmptySlot() returns (k: Option<nat>)
      requires Valid()
      ensures k.Some? ==> k.value < slots.Length && slots[k.value].None?
      ensures k.Some? ==> forall j :: 0 <= j < k.value ==> slots[j].Some?
      ensures k.None? ==> forall j :: 0 <= j < slots.Length ==> slots[j].Some?
      ensures k == FirstEmpty(slots[..])
    {
      var i := 0;
      while i < slots.Length
        invariant 0 <= i <= slots.Length
        invariant FirstEmptyFrom(slots[..], i) == FirstEmpty(slots[..])
      {
        if slots[i].None? {
          return Some(i);
        }
        i := i + 1;
      }
      return None;
    }

    /** `slots.find(slot => slot.item === item)`: the lowest slot holding `item`, if any. */
    method FindSlotOf(item: ItemId) returns (k: Option<nat>)
      requires Valid()
      ensures k.Some? ==> k.value < slots.Length && slots[k.value] == Some(item)
      ensures k.Some? ==> forall j :: 0 <= j < k.value ==> slots[j] != Some(item)
      ensures k.None? ==> forall j :: 0 <= j < slots.Length ==> slots[j] != Some(item)
      ensures k == FirstHolding(slots[..], item)
    {
      var i := 0;
      while i < slots.Length
        invariant 0 <= i <= slots.Length
        invariant FirstHoldingFrom(slots[..], item, i) == FirstHolding(slots[..], item)
      {
        if slots[i] == Some(item) {
          return Some(i);
        }
        i := i + 1;
      }
      return None;
    }

    /** `InventorySlot.setItem` on slot `k`. */
    method SetSlotItem(k: nat, item: ItemId)
      requires Valid() && k < slots.Length
      modifies slots
      ensures Valid()
      ensures Contents() == old(Contents())[k := Some(item)]
    {
      slots[k] := Some(item);
    }

    /** `InventorySlot.clearItem` on slot `k`. */
    method ClearSlotItem(k: nat)
      requires Valid() && k < slots.Length
      modifies slots
      ensures Valid()
      ensures Contents() == old(Contents())[k := None]
    {
      slots[k] := None;
    }

    /**
     * `addItem`: the item goes into the lowest empty slot and the answer is
     * true; with all 20 slots filled the answer is false and nothing changes.
     */
    method AddItem(item: ItemId) returns (added: bool)
      requires Valid()
      modifies slots
      ensures Valid()
      ensures added == (Filled(old(Contents())) < SlotCount)
      ensures Contents() == Added(old(Contents()), item)
      ensures added ==> exists k :: 0 <= k < SlotCount && old(Contents())[k].None? && Contents()[k] == Some(item)
                          && (forall j :: 0 <= j < k ==> old(Contents())[j].Some?)
                          && (forall j :: 0 <= j < SlotCount && j != k ==> Contents()[j] == old(Contents())[j])
      ensures !added ==> Contents() == old(Contents())
    {
      NoEmptySlotIffFull(slots[..]);
      var emptySlot := FindEmptySlot();
      if emptySlot.Some? {
        SetSlotItem(emptySlot.value, item);
        return true;
      }
      return false;
    }

    /** `removeItem`: the first slot holding the item is cleared; without such a slot nothing changes. */
    method RemoveItem(item: ItemId)
      requires Valid()
      modifies slots
      ensures Valid()
      ensures Contents() == Removed(old(Contents()), item)
      ensures (forall j :: 0 <= j < SlotCount ==> old(Contents())[j] != Some(item)) ==> Contents() == old(Contents())
    {
      var slot := FindSlotOf(item);
      if slot.Some? {
        ClearSlotItem(slot.value);
      }
    }

    /** `nextSkin`: one place forward around the 16 skins, then the preview and its price follow. */
    method NextSkin()
      requires Valid()
      modifies this`currentSkinIndex, this`skinPreviewFrame, this`skinPriceLabel
      ensures Valid()
      ensures currentSkinIndex == NextIndex(old(currentSkinIndex), |AvailableSkins|)
      ensures skinPreviewFrame == AvailableSkins[currentSkinIndex]
      ensures skinPriceLabel == Some(PriceOrZero(skinPrices, AvailableSkins[currentSkinIndex]))
    {
      currentSkinIndex := JsRem(currentSkinIndex + 1, |AvailableSkins|);
      UpdateSkinPreview();
      UpdateSkinShopDisplay();
    }

    /** `prevSkin`: one place back around the 16 skins, then the preview and its price follow. */
    method PrevSkin()
      requires Valid()
      modifies this`currentSkinIndex, this`skinPreviewFrame, this`skinPriceLabel
      ensures Valid()
      ensures currentSkinIndex == PrevIndex(old(currentSkinIndex), |AvailableSkins|)
      ensures skinPreviewFrame == AvailableSkins[currentSkinIndex]
      ensures skinPriceLabel == Some(PriceOrZero(skinPrices, AvailableSkins[currentSkinIndex]))
    {
      currentSkinIndex := JsRem(currentSkinIndex - 1 + |AvailableSkins|, |AvailableSkins|);
      UpdateSkinPreview();
      UpdateSkinShopDisplay();
    }

    /** `updateSkinPreview`: the preview shows the current skin. */
    method UpdateSkinPreview()
      requires 0 <= currentSkinIndex < |AvailableSkins|
      modifies this`skinPreviewFrame
      ensures skinPreviewFrame == AvailableSkins[currentSkinIndex]
    {
      skinPreviewFrame := AvailableSkins[currentSkinIndex];
    }

    /** `updateSkinShopDisplay`: the buy button shows the current skin's price, 0 when unknown. */
    method UpdateSkinShopDisplay()
      requires 0 <= currentSkinIndex < |AvailableSkins|
      modifies this`skinPriceLabel, this`skinPreviewFrame
      ensures skinPriceLabel == Some(PriceOrZero(skinPrices, AvailableSkins[currentSkinIndex]))
      ensures skinPreviewFrame == AvailableSkins[currentSkinIndex]
    {
      var currentSkin := AvailableSkins[currentSkinIndex];
      skinPriceLabel := Some(PriceOrZero(skinPrices, currentSkin));
      skinPreviewFrame := currentSkin;
    }

    /** `nextHouse`: one place forward around the 4 houses, then the preview and its price follow. */
    method NextHouse()
      requires Valid()
      modifies this`currentHouseIndex, this`housePreviewFrame, this`housePriceLabel
      ensures Valid()
      ensures currentHouseIndex == NextIndex(old(currentHouseIndex), |AvailableHouses|)
      ensures housePreviewFrame == AvailableHouses[currentHouseIndex]
      ensures housePriceLabel == Some(PriceOrZero(housePrices, AvailableHouses[currentHouseIndex]))
    {
      currentHouseIndex := JsRem(currentHouseIndex + 1, |AvailableHouses|);
      UpdateHousePreview();
    }

    /** `prevHouse`: one place back around the 4 houses, then the preview and its price follow. */
    method PrevHouse()
      requires Valid()
      modifies this`currentHouseIndex, this`housePreviewFrame, this`housePriceLabel
      ensures Valid()
      ensures currentHouseIndex == PrevIndex(old(currentHouseIndex), |AvailableHouses|)
      ensures housePreviewFrame == AvailableHouses[currentHouseIndex]
      ensures housePriceLabel == Some(PriceOrZero(housePrices, AvailableHouses[currentHouseIndex]))
    {
      currentHouseIndex := JsRem(currentHouseIndex - 1 + |AvailableHouses|, |AvailableHouses|);
      UpdateHousePreview();
    }

    /** `updateHousePreview`: the preview shows the current house and the button its price, 0 when unknown. */
    method UpdateHousePreview()
      requires 0 <= currentHouseIndex < |AvailableHouses|
      modifies this`housePreviewFrame, this`housePriceLabel
      ensures housePreviewFrame == AvailableHouses[currentHouseIndex]
      ensures housePriceLabel == Some(PriceOrZero(housePrices, AvailableHouses[currentHouseIndex]))
    {
      housePreviewFrame := AvailableHouses[currentHouseIndex];
      housePriceLabel := Some(PriceOrZero(housePrices, AvailableHouses[currentHouseIndex]));
    }

    /** The price `buyHouse` reports with a purchase: that of the house being previewed, 0 when unknown. */
    function SelectedHousePrice(): (price: int)
      reads this
      requires Valid()
      ensures AvailableHouses[currentHouseIndex] in housePrices ==> price == housePrices[AvailableHouses[currentHouseIndex]]
      ensures AvailableHouses[currentHouseIndex] !in housePrices ==> price == 0
    {
      PriceOrZero(housePrices, AvailableHouses[currentHouseIndex])
    }
  }
}
