/** The toolbar's dropdown: a trigger button and, while open, a list of item
    buttons. Items register themselves with the list in mount order; the
    list keeps one highlighted item that the arrow keys move with
    wrap-around; Escape and clicks outside close it.

    An item is identified by its button ref, modelled as an opaque id. A
    JavaScript array read past either end yields `undefined`, modelled as
    `None`, and so does an empty highlight. */
module Dropdown {
  import opened Wrappers

  type ItemId = nat

  /** The state of the mounted list: registered items in order and the
      highlighted item, if any. */
  datatype List = List(items: seq<ItemId>, highlighted: Option<ItemId>)

  const EmptyList := List([], None)

  predicate Distinct(items: seq<ItemId>) {
    forall i, j :: 0 <= i < j < |items| ==> items[i] != items[j]
  }

  /** `Array.prototype.indexOf`: the first position of `x`, or -1. */
  function IndexOf(items: seq<ItemId>, x: ItemId): (i: int)
    ensures -1 <= i < |items|
    ensures i == -1 <==> x !in items
    ensures 0 <= i ==> items[i] == x && forall j :: 0 <= j < i ==> items[j] != x
  {
    if |items| == 0 then -1
    else if items[0] == x then 0
    else
      var k := IndexOf(items[1..], x);
      if k == -1 then -1 else k + 1
  }

  /** In a list without repetitions, the position of the item at `i` is `i`. */
  lemma IndexOfDistinct(items: seq<ItemId>, i: int)
    requires Distinct(items) && 0 <= i < |items|
    ensures IndexOf(items, items[i]) == i
  {
  }

  /** `items[i]`, which is `undefined` outside the array. */
  function At(items: seq<ItemId>, i: int): (r: Option<ItemId>)
    ensures r.Some? <==> 0 <= i < |items|
    ensures r.Some? ==> r.value == items[i]
  {
    if 0 <= i < |items| then Some(items[i]) else None
  }

  // ---------------------------------------------------------------------
  // Registration and the initial highlight
  // ---------------------------------------------------------------------

  /** An item mounting: it is appended to the registered items. */
  function Register(l: List, id: ItemId): (r: List)
    ensures r.items == l.items + [id]
    ensures r.highlighted == l.highlighted
  {
    l.(items := l.items + [id])
  }

  /** The list's effect after a render: with nothing highlighted, highlight
      the first item (which is `undefined` while there are no items). */
  function SettleHighlight(l: List): (r: List)
    ensures r.items == l.items
    ensures l.highlighted.Some? ==> r == l
    ensures l.highlighted.None? ==> r.highlighted == At(l.items, 0)
  {
    if l.highlighted.None? then l.(highlighted := At(l.items, 0)) else l
  }

  /** Items mounting one after another, in order. */
  function RegisterAll(l: List, ids: seq<ItemId>): List
    decreases |ids|
  {
    if |ids| == 0 then l else RegisterAll(Register(l, ids[0]), ids[1..])
  }

  /** Registration keeps mount order and does not touch the highlight. */
  lemma {:induction false} RegisterAllAppends(l: List, ids: seq<ItemId>)
    ensures RegisterAll(l, ids).items == l.items + ids
    ensures RegisterAll(l, ids).highlighted == l.highlighted
    decreases |ids|
  {
    if |ids| > 0 {
      RegisterAllAppends(Register(l, ids[0]), ids[1..]);
      assert l.items + [ids[0]] + ids[1..] == l.items + ids;
    }
  }

  /** Items mounting one per render, the highlight effect running after each. */
  function RegisterEachSettled(l: List, ids: seq<ItemId>): List
    decreases |ids|
  {
    if |ids| == 0 then l else RegisterEachSettled(SettleHighlight(Register(l, ids[0])), ids[1..])
  }

  /** Whether the items mount in one render or one per render, a freshly
      opened list ends with exactly the mounted items, in order, and the
      first of them highlighted. */
  lemma FirstRegisteredIsHighlighted(ids: seq<ItemId>)
    requires |ids| > 0
    ensures SettleHighlight(RegisterAll(EmptyList, ids)) == List(ids, Some(ids[0]))
    ensures RegisterEachSettled(EmptyList, ids) == List(ids, Some(ids[0]))
  {
    RegisterAllAppends(EmptyList, ids);
    var first := SettleHighlight(Register(EmptyList, ids[0]));
    assert first == List([ids[0]], Some(ids[0]));
    RegisterEachKeepsHighlight(first, ids[1..]);
    assert [ids[0]] + ids[1..] == ids;
  }

  /** Once something is highlighted, later registrations only append. */
  lemma {:induction false} RegisterEachKeepsHighlight(l: List, ids: seq<ItemId>)
    requires l.highlighted.Some?
    ensures RegisterEachSettled(l, ids) == List(l.items + ids, l.highlighted)
    decreases |ids|
  {
    if |ids| > 0 {
      var next := SettleHighlight(Register(l, ids[0]));
      assert next == List(l.items + [ids[0]], l.highlighted);
      RegisterEachKeepsHighlight(next, ids[1..]);
      assert l.items + [ids[0]] + ids[1..] == l.items + ids;
    }
  }

  // ---------------------------------------------------------------------
  // Keyboard navigation
  // ---------------------------------------------------------------------

  /** ArrowUp: from nothing to the first item; otherwise one position back,
      the position before the first being the last. */
  function ArrowUpTarget(items: seq<ItemId>, prev: Option<ItemId>): Option<ItemId> {
    if prev.None? then At(items, 0)
    else
      var index := IndexOf(items, prev.value) - 1;
      At(items, if index == -1 then |items| - 1 else index)
  }

  /** ArrowDown: from nothing to the first item; otherwise one position
      forward, the position after the last being the first. */
  function ArrowDownTarget(items: seq<ItemId>, prev: Option<ItemId>): Option<ItemId> {
    if prev.None? then At(items, 0)
    else
      var index := IndexOf(items, prev.value) + 1;
      At(items, if index == |items| then 0 else index)
  }

  /** `event.key`: the three keys the list handles, and any other key. */
  datatype Key = Escape | ArrowUp | ArrowDown | OtherKey

  /** What a key press does to the list, and whether it asks the dropdown
      to close (`onClose`). */
  datatype KeyResult = KeyResult(list: List, close: bool)

  function HandleKey(l: List, key: Key): (r: KeyResult)
    ensures r.close <==> key == Escape
    ensures r.list.items == l.items
    ensures key == Escape || key.OtherKey? ==> r.list == l
    ensures key == ArrowUp ==> r.list.highlighted == ArrowUpTarget(l.items, l.highlighted)
    ensures key == ArrowDown ==> r.list.highlighted == ArrowDownTarget(l.items, l.highlighted)
  {
    match key
    case Escape => KeyResult(l, true)
    case ArrowUp => KeyResult(l.(highlighted := ArrowUpTarget(l.items, l.highlighted)), false)
    case ArrowDown => KeyResult(l.(highlighted := ArrowDownTarget(l.items, l.highlighted)), false)
    case OtherKey => KeyResult(l, false)
  }

  /** With nothing highlighted, either arrow highlights the first item. */
  lemma ArrowsFromNothing(items: seq<ItemId>)
    requires |items| > 0
    ensures ArrowUpTarget(items, None) == Some(items[0])
    ensures ArrowDownTarget(items, None) == Some(items[0])
  {
  }

  lemma ArrowDownSteps(items: seq<ItemId>, i: int)
    requires Distinct(items) && 0 <= i < |items| - 1
    ensures ArrowDownTarget(items, Some(items[i])) == Some(items[i + 1])
  {
    IndexOfDistinct(items, i);
  }

  lemma ArrowDownWraps(items: seq<ItemId>)
    requires Distinct(items) && |items| > 0
    ensures ArrowDownTarget(items, Some(items[|items| - 1])) == Some(items[0])
  {
    IndexOfDistinct(items, |items| - 1);
  }

  lemma ArrowUpSteps(items: seq<ItemId>, i: int)
    requires Distinct(items) && 0 < i < |items|
    ensures ArrowUpTarget(items, Some(items[i])) == Some(items[i - 1])
  {
    IndexOfDistinct(items, i);
  }

  lemma ArrowUpWraps(items: seq<ItemId>)
    requires |items| > 0
    ensures ArrowUpTarget(items, Some(items[0])) == Some(items[|items| - 1])
  {
  }

  lemma ModOfSmall(a: int, n: int)
    requires 0 <= a < n
    ensures a % n == a
  {
  }

  lemma ModShift(a: int, n: int)
    requires 0 <= a < n
    ensures (a + n) % n == a
  {
  }

  lemma ModOfModulus(n: int)
    requires 0 < n
    ensures n % n == 0
  {
  }

  /** Reference definition: for a registered item, ArrowDown moves to the
      cyclic successor of its first position. */
  lemma ArrowDownIsSuccessor(items: seq<ItemId>, x: ItemId)
    requires x in items
    ensures ArrowDownTarget(items, Some(x)) == Some(items[(IndexOf(items, x) + 1) % |items|])
  {
    var n := |items|;
    var i := IndexOf(items, x);
    if i + 1 < n {
      ModOfSmall(i + 1, n);
    } else {
      ModOfModulus(n);
    }
  }

  /** Reference definition: for a registered item, ArrowUp moves to the
      cyclic predecessor of its first position. */
  lemma ArrowUpIsPredecessor(items: seq<ItemId>, x: ItemId)
    requires x in items
    ensures ArrowUpTarget(items, Some(x)) == Some(items[(IndexOf(items, x) - 1 + |items|) % |items|])
  {
    var n := |items|;
    var i := IndexOf(items, x);
    if i > 0 {
      ModShift(i - 1, n);
    } else {
      ModOfSmall(n - 1, n);
    }
  }

  /** In a list without repetitions, ArrowDown then ArrowUp, or ArrowUp then
      ArrowDown, returns to the item that was highlighted. */
  lemma ArrowsUndoEachOther(items: seq<ItemId>, x: ItemId)
    requires Distinct(items) && x in items
    ensures ArrowUpTarget(items, ArrowDownTarget(items, Some(x))) == Some(x)
    ensures ArrowDownTarget(items, ArrowUpTarget(items, Some(x))) == Some(x)
  {
    var n := |items|;
    var i := IndexOf(items, x);
    ArrowDownIsSuccessor(items, x);
    ArrowUpIsPredecessor(items, x);
    var j := (i + 1) % n;
    var k := (i - 1 + n) % n;
    IndexOfDistinct(items, j);
    IndexOfDistinct(items, k);
    ArrowUpIsPredecessor(items, items[j]);
    ArrowDownIsSuccessor(items, items[k]);
    if i + 1 < n { assert j == i + 1; } else { assert j == 0; }
    if i > 0 { assert k == i - 1; } else { assert k == n - 1; }
  }

  /** Arrow keys keep the highlight on a registered item: from nothing or a
      registered item, a non-empty list always ends on a registered item. */
  lemma ArrowsStayOnItems(items: seq<ItemId>, prev: Option<ItemId>)
    requires |items| > 0
    requires prev.None? || prev.value in items
    ensures ArrowUpTarget(items, prev).Some? && ArrowUpTarget(items, prev).value in items
    ensures ArrowDownTarget(items, prev).Some? && ArrowDownTarget(items, prev).value in items
  {
  }

  /** A highlighted item that is not registered, a state the list never
      reaches (see `HighlightIsRegistered`): ArrowUp reads position -2 and
      clears the highlight, ArrowDown reads position 0, and either way the
      settling effect then highlights the first item again. */
  lemma ArrowsFromUnregistered(items: seq<ItemId>, x: ItemId)
    requires x !in items
    ensures ArrowUpTarget(items, Some(x)) == None
    ensures ArrowDownTarget(items, Some(x)) == At(items, 0)
    ensures SettleHighlight(HandleKey(List(items, Some(x)), ArrowUp).list).highlighted == At(items, 0)
    ensures SettleHighlight(HandleKey(List(items, Some(x)), ArrowDown).list).highlighted == At(items, 0)
  {
  }

  /** The list's invariant: nothing is highlighted, or a registered item is. */
  predicate HighlightIsRegistered(l: List) {
    l.highlighted.None? || l.highlighted.value in l.items
  }

  /** The invariant holds for a freshly mounted list and is preserved by
      registration, the settling effect and every key press. */
  lemma HighlightStaysRegistered(l: List, id: ItemId, key: Key)
    requires HighlightIsRegistered(l)
    ensures HighlightIsRegistered(EmptyList)
    ensures HighlightIsRegistered(Register(l, id))
    ensures HighlightIsRegistered(SettleHighlight(l))
    ensures HighlightIsRegistered(HandleKey(l, key).list)
  {
    if |l.items| > 0 {
      ArrowsStayOnItems(l.items, l.highlighted);
    }
  }

  // ---------------------------------------------------------------------
  // Opening and closing
  // ---------------------------------------------------------------------

  /** The dropdown: whether it is shown, and the state of its list. The list
      component is mounted only while the dropdown is shown, so it starts
      empty on every opening. */
  datatype Dropdown = Dropdown(open: bool, list: List)

  const Closed := Dropdown(false, EmptyList)

  /** Trigger click: show the dropdown; a shown dropdown stays as it is. */
  function OpenDropdown(d: Dropdown): (r: Dropdown)
    ensures r.open
    ensures d.open ==> r == d
    ensures !d.open ==> r.list == EmptyList
  {
    if d.open then d else Dropdown(true, EmptyList)
  }

  /** Key press inside the list; Escape closes the dropdown. */
  function KeyDown(d: Dropdown, key: Key): (r: Dropdown)
    ensures !d.open ==> r == d
    ensures d.open ==> (r.open <==> key != Escape)
    ensures d.open && key != Escape ==> r.list == HandleKey(d.list, key).list
    ensures d.open && key == Escape ==> r == Closed
  {
    if !d.open then d
    else
      var k := HandleKey(d.list, key);
      if k.close then Closed else Dropdown(true, k.list)
  }

  /** Where a document click lands. */
  datatype ClickTarget = NotANode | InList | InTrigger | Elsewhere

  /** The document click rule: a target that is not a DOM node is ignored; a
      click inside the list is ignored when `stopOnClickSelf` is set;
      otherwise the dropdown closes unless the click is on the trigger. */
  function ClickCloses(target: ClickTarget, stopOnClickSelf: bool): (r: bool)
    ensures r <==> target == Elsewhere || (target == InList && !stopOnClickSelf)
  {
    if target == NotANode then false
    else if stopOnClickSelf && target == InList then false
    else target != InTrigger
  }

  /** A document click. The listener exists only while the dropdown is shown. */
  function DocumentClick(d: Dropdown, target: ClickTarget, stopOnClickSelf: bool): (r: Dropdown)
    ensures !d.open ==> r == d
    ensures d.open ==> (r.open <==> !ClickCloses(target, stopOnClickSelf))
    ensures r.open ==> r == d
    ensures d.open && ClickCloses(target, stopOnClickSelf) ==> r == Closed
  {
    if d.open && ClickCloses(target, stopOnClickSelf) then Closed else d
  }

  /** Clicking the trigger of a shown dropdown opens it again (no change)
      and the document listener sees a click on the trigger: it stays
      shown with its list intact. */
  lemma TriggerClickKeepsOpen(d: Dropdown, stopOnClickSelf: bool)
    requires d.open
    ensures DocumentClick(OpenDropdown(d), InTrigger, stopOnClickSelf) == d
  {
  }

  // ---------------------------------------------------------------------
  // Popup position
  // ---------------------------------------------------------------------

  /** Gap between the trigger and the popup, also the popup's padding. */
  const DropdownPadding := 8.0
  /** Space kept between the popup and the window's right edge. */
  const RightMargin := 20.0

  datatype Position = Position(top: real, left: real)

  /** Popup position from the trigger's bounding box, the popup's width and
      the window's inner width. */
  function PopupPosition(buttonTop: real, buttonLeft: real, buttonHeight: real,
                         popupWidth: real, innerWidth: real): (p: Position)
    ensures p.top == buttonTop + buttonHeight + DropdownPadding
    ensures p.left <= buttonLeft
    ensures p.left + popupWidth + RightMargin <= innerWidth
    ensures p.left == buttonLeft || p.left + popupWidth + RightMargin == innerWidth
    ensures buttonLeft + popupWidth + RightMargin <= innerWidth ==> p.left == buttonLeft
  {
    var limit := innerWidth - popupWidth - RightMargin;
    Position(buttonTop + buttonHeight + DropdownPadding, if buttonLeft <= limit then buttonLeft else limit)
  }
}
