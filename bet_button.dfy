/** The bet selector widget: an index into a fixed list of bet amounts, a
    text showing the chosen amount, plus and minus buttons that step the index
    within the list, an overlay list that opens and closes on a click of the
    text and lets the player jump to any amount, and drag-to-scroll inside that
    overlay. Drawing (shapes, gradients, masks, hit areas, text styles) is not
    modelled; what is kept is the state the widget owns and the values it hands
    to the scene graph: the text, the overlay's visibility and children, each
    list item's caption, position, colour and bound index, and the content's
    scroll offset. */
module Bets {
  import NumberText

  datatype Option<T> = None | Some(value: T)

  /** The constructor's options; the sizes are optional. */
  datatype BetButtonOptions = BetButtonOptions(
    betAmounts: seq<int>,
    width: Option<int>,
    height: Option<int>,
    listWidth: Option<int>,
    listHeight: Option<int>)

  /** JavaScript's `option || fallback` on an optional number: an absent size or 0 falls back. */
  function OrElse(o: Option<int>, fallback: int): int
  {
    if o.Some? && o.value != 0 then o.value else fallback
  }

  const DefaultWidth := 200
  const DefaultListHeight := 150
  const ItemHeight := 30
  const ItemX := 10
  const HighlightFill := 0xffcc00
  const ItemFill := 0xffffff

  function ListWidth(options: BetButtonOptions): int {
    OrElse(options.listWidth, OrElse(options.width, DefaultWidth))
  }

  function ListHeight(options: BetButtonOptions): int {
    OrElse(options.listHeight, DefaultListHeight)
  }

  function Min(a: int, b: int): int { if a <= b then a else b }
  function Max(a: int, b: int): int { if a >= b then a else b }

  /** The text `$${betAmounts[index]}`: a dollar sign and the amount, or
      `$undefined` when the index lies outside the list, since reading an
      array out of range gives `undefined` in JavaScript. */
  function AmountText(amounts: seq<int>, index: int): (s: string)
    ensures |s| > 1 && s[0] == '$'
    ensures 0 <= index < |amounts| ==> s[1..] == NumberText.Show(amounts[index])
    ensures !(0 <= index < |amounts|) ==> s[1..] == "undefined"
  {
    "$" + (if 0 <= index < |amounts| then NumberText.Show(amounts[index]) else "undefined")
  }

  /** The amount a text shows can be read back from it: showing different
      amounts, the text differs. */
  lemma AmountTextReadsBack(amounts: seq<int>, index: int)
    requires 0 <= index < |amounts|
    ensures NumberText.Parse(AmountText(amounts, index)[1..]) == amounts[index]
  {
    NumberText.ParseShow(amounts[index]);
  }

  /** The new index after `changeBet(delta)`: `Math.min(Math.max(index + delta, 0), length - 1)`. */
  function ChangedIndex(index: int, delta: int, count: nat): (r: int)
    ensures count > 0 ==> 0 <= r < count
    ensures 0 <= index + delta < count ==> r == index + delta
    ensures count > 0 && index + delta < 0 ==> r == 0
    ensures index + delta >= count ==> r == count - 1
    ensures count == 0 ==> r == -1
  {
    Min(Max(index + delta, 0), count - 1)
  }

  /** What the plus and minus buttons do from an index inside the list: one
      step up or down, except at the ends, where nothing changes. */
  lemma PlusMinusSteps(index: int, count: nat)
    requires 0 <= index < count
    ensures ChangedIndex(index, 1, count) == if index < count - 1 then index + 1 else index
    ensures ChangedIndex(index, -1, count) == if index > 0 then index - 1 else index
  {
  }

  /** One entry of the overlay list: its text, position, fill colour and the
      index its pointer-down handler selects. */
  datatype BetItem = BetItem(caption: string, x: int, y: int, fill: int, selects: int)

  /** The children of the overlay container, in the order they are added. */
  datatype ListChild =
    | Background(width: int, height: int)
    | Content(items: seq<BetItem>)
    | Mask(width: int, height: int)

  /** One item per amount, item `i` labelled with amount `i`, placed `ItemHeight * i`
      down the list and bound to select index `i`. */
  predicate ListsAmounts(items: seq<BetItem>, amounts: seq<int>) {
    && |items| == |amounts|
    && forall i :: 0 <= i < |items| ==>
         && items[i].caption == AmountText(amounts, i)
         && items[i].x == ItemX
         && items[i].y == ItemHeight * i
         && items[i].selects == i
  }

  /** Only the item at `current` carries the highlight colour. */
  predicate HighlightsOnly(items: seq<BetItem>, current: int) {
    forall i :: 0 <= i < |items| ==> items[i].fill == if i == current then HighlightFill else ItemFill
  }

  /** The item loop of `populateBetList`. */
  method BuildBetItems(amounts: seq<int>, current: int) returns (items: seq<BetItem>)
    ensures ListsAmounts(items, amounts)
    ensures HighlightsOnly(items, current)
  {
    items := [];
    var i := 0;
    while i < |amounts|
      invariant 0 <= i <= |amounts| && |items| == i
      invariant forall k :: 0 <= k < i ==>
        && items[k].caption == AmountText(amounts, k)
        && items[k].x == ItemX
        && items[k].y == ItemHeight * k
        && items[k].selects == k
        && items[k].fill == if k == current then HighlightFill else ItemFill
    {
      var fill := if i == current then HighlightFill else ItemFill;
      var item := BetItem("$" + NumberText.Show(amounts[i]), ItemX, i * ItemHeight, fill, i);
      items := items + [item];
      i := i + 1;
    }
  }

  /** The overlay as `populateBetList` fills it: a background, the scrollable
      content listing every amount, and the mask. */
  predicate ShowsList(children: seq<ListChild>, options: BetButtonOptions, amounts: seq<int>) {
    && |children| == 3
    && children[0] == Background(ListWidth(options), ListHeight(options))
    && children[1].Content?
    && ListsAmounts(children[1].items, amounts)
    && children[2] == Mask(ListWidth(options), ListHeight(options))
  }

  class BetButton {
    const options: BetButtonOptions
    const betAmounts: seq<int>
    var currentBetIndex: int
    /** The text of the amount display. */
    var betText: string
    var isListOpen: bool
    /** Whether the overlay container is visible. */
    var listVisible: bool
    /** The overlay container's children. */
    var listChildren: seq<ListChild>
    /** The vertical offset of the scrollable content container. */
    var contentY: real
    var dragging: bool
    var dragStartY: real
    var contentStartY: real

    /** The display shows the amount at the index; the open flag is the
        overlay's visibility; a closed overlay has no children and an open one
        lists every amount. */
    ghost predicate Valid()
      reads this
    {
      && betText == AmountText(betAmounts, currentBetIndex)
      && listVisible == isListOpen
      && (!isListOpen ==> listChildren == [])
      && (isListOpen ==> ShowsList(listChildren, options, betAmounts))
    }

    constructor (options: BetButtonOptions)
      ensures Valid()
      ensures this.options == options && betAmounts == options.betAmounts
      ensures currentBetIndex == 0 && betText == AmountText(betAmounts, 0)
      ensures !isListOpen && !listVisible && listChildren == []
      ensures !dragging && dragStartY == 0.0 && contentStartY == 0.0 && contentY == 0.0
    {
      this.options := options;
      betAmounts := options.betAmounts;
      currentBetIndex := 0;
      betText := "";
      isListOpen := false;
      listVisible := false;
      listChildren := [];
      contentY := 0.0;
      dragging := false;
      dragStartY := 0.0;
      contentStartY := 0.0;
      new;
      UpdateBetDisplay();
    }

    method UpdateBetDisplay()
      modifies this`betText
      ensures betText == AmountText(betAmounts, currentBetIndex)
    {
      betText := "$" + (if 0 <= currentBetIndex < |betAmounts| then NumberText.Show(betAmounts[currentBetIndex]) else "undefined");
    }

    /** The plus button calls this with 1, the minus button with -1. */
    method ChangeBet(delta: int)
      requires Valid()
      modifies this`currentBetIndex, this`betText
      ensures Valid()
      ensures currentBetIndex == ChangedIndex(old(currentBetIndex), delta, |betAmounts|)
    {
      currentBetIndex := Min(Max(currentBetIndex + delta, 0), |betAmounts| - 1);
      UpdateBetDisplay();
    }

    /** The amount text's pointer-down handler. */
    method ToggleBetList()
      requires Valid()
      modifies this`isListOpen, this`listVisible, this`listChildren, this`contentY
      ensures Valid()
      ensures isListOpen == !old(isListOpen)
      ensures old(isListOpen) ==> listChildren == [] && contentY == old(contentY)
      ensures !old(isListOpen) ==> HighlightsOnly(listChildren[1].items, currentBetIndex) && contentY == 0.0
    {
      if isListOpen {
        CloseBetList();
      } else {
        OpenBetList();
      }
    }

    method OpenBetList()
      requires Valid() && !isListOpen
      modifies this`isListOpen, this`listVisible, this`listChildren, this`contentY
      ensures Valid()
      ensures isListOpen && contentY == 0.0
      ensures HighlightsOnly(listChildren[1].items, currentBetIndex)
    {
      isListOpen := true;
      PopulateBetList();
      listVisible := true;
    }

    method CloseBetList()
      requires Valid()
      modifies this`isListOpen, this`listVisible, this`listChildren
      ensures Valid()
      ensures !isListOpen && !listVisible && listChildren == []
    {
      isListOpen := false;
      listVisible := false;
      listChildren := [];
    }

    /** Appends the background, the content listing every amount (the current
        one highlighted) and the mask to the overlay; the content container is
        new, so its offset starts at 0. */
    method PopulateBetList()
      modifies this`listChildren, this`contentY
      ensures |listChildren| == |old(listChildren)| + 3
      ensures listChildren[..|old(listChildren)|] == old(listChildren)
      ensures ShowsList(listChildren[|old(listChildren)|..], options, betAmounts)
      ensures HighlightsOnly(listChildren[|old(listChildren)| + 1].items, currentBetIndex)
      ensures contentY == 0.0
    {
      var listWidth := OrElse(options.listWidth, OrElse(options.width, DefaultWidth));
      var listHeight := OrElse(options.listHeight, DefaultListHeight);
      var items := BuildBetItems(betAmounts, currentBetIndex);
      listChildren := listChildren + [Background(listWidth, listHeight), Content(items), Mask(listWidth, listHeight)];
      contentY := 0.0;
    }

    method SelectBet(index: int)
      requires Valid()
      modifies this`currentBetIndex, this`betText, this`isListOpen, this`listVisible, this`listChildren
      ensures Valid()
      ensures currentBetIndex == index
      ensures !isListOpen && !listVisible && listChildren == []
    {
      currentBetIndex := index;
      UpdateBetDisplay();
      CloseBetList();
    }

    /** The pointer-down handler of list item `k`, which calls `selectBet` with
        the index bound when the item was built: always an index of the list. */
    method PressBetItem(k: int)
      requires Valid() && isListOpen
      requires 0 <= k < |listChildren[1].items|
      modifies this`currentBetIndex, this`betText, this`isListOpen, this`listVisible, this`listChildren
      ensures Valid()
      ensures 0 <= currentBetIndex < |betAmounts| && currentBetIndex == k
      ensures betText[1..] == NumberText.Show(betAmounts[k])
      ensures !isListOpen && listChildren == []
    {
      SelectBet(listChildren[1].items[k].selects);
    }

    method OnDragStart(pointerY: real)
      requires Valid()
      modifies this`dragging, this`dragStartY, this`contentStartY
      ensures Valid()
      ensures dragging && dragStartY == pointerY && contentStartY == contentY
    {
      dragging := true;
      dragStartY := pointerY;
      contentStartY := contentY;
    }

    method OnDragEnd()
      requires Valid()
      modifies this`dragging
      ensures Valid()
      ensures !dragging
    {
      dragging := false;
    }

    /** While dragging, the content follows the pointer: it sits as far from
        where it started as the pointer is from where the drag started. */
    method OnDragMove(pointerY: real)
      requires Valid()
      modifies this`contentY
      ensures Valid()
      ensures dragging ==> contentY - contentStartY == pointerY - dragStartY
      ensures !dragging ==> contentY == old(contentY)
    {
      if dragging {
        var deltaY := pointerY - dragStartY;
        contentY := contentStartY + deltaY;
      }
    }
  }

  /** A session with seven amounts, the third of them 50 (as in 10, 20, 50,
      100, 200, 500, 1000): the display starts at the first amount, the plus
      and minus buttons step and stop at the ends, the text click opens and
      closes the list, and choosing the third item shows its amount. */
  method BetSession(amounts: seq<int>)
    requires |amounts| == 7 && amounts[2] == 50
  {
    var b := new BetButton(BetButtonOptions(amounts, None, None, None, None));
    assert b.currentBetIndex == 0;
    b.ChangeBet(-1);
    assert b.currentBetIndex == 0;
    b.ChangeBet(1);
    assert b.currentBetIndex == 1;
    b.ToggleBetList();
    assert b.isListOpen && b.listVisible && |b.listChildren[1].items| == 7;
    b.ToggleBetList();
    assert !b.isListOpen && !b.listVisible;
    b.ToggleBetList();
    b.PressBetItem(2);
    assert b.currentBetIndex == 2 && !b.listVisible;
    assert b.betText == "$50";
    b.SelectBet(6);
    b.ChangeBet(1);
    assert b.currentBetIndex == 6;
  }
}
