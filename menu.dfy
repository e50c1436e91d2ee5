/**
 * The suggestion menus (`MentionList` and `SlashCommandMenu`): the same
 * selection logic over a list of items, driven by the editor's key events,
 * and the row layout of the mention menu.
 */
module SuggestionMenu {
  import opened Wrappers
  import opened Text
  import opened MentionSuggest

  /** The selected index, a JavaScript number: `x % 0` makes it `NaN`. */
  datatype Index = At(i: nat) | NaN

  /** `(selectedIndex + 1) % items.length` */
  function Down(sel: Index, n: nat): (r: Index)
    ensures n == 0 ==> r == NaN
    ensures n > 0 && sel.At? && sel.i < n ==> r == At(if sel.i == n - 1 then 0 else sel.i + 1)
  {
    if n == 0 then NaN
    else match sel
      case NaN => NaN
      case At(i) => At((i + 1) % n)
  }

  /** `(selectedIndex + items.length - 1) % items.length`; both operands are non-negative. */
  function Up(sel: Index, n: nat): (r: Index)
    ensures n == 0 ==> r == NaN
    ensures n > 0 && sel.At? && sel.i < n ==> r == At(if sel.i == 0 then n - 1 else sel.i - 1)
  {
    if n == 0 then NaN
    else match sel
      case NaN => NaN
      case At(i) => At((i + n - 1) % n)
  }

  /** `items[index]`: absent outside the list, and for `NaN`. */
  function ItemAt<T>(items: seq<T>, sel: Index): (r: Option<T>)
    ensures r.Some? <==> sel.At? && sel.i < |items|
    ensures r.Some? ==> r.value == items[sel.i]
  {
    if sel.At? && sel.i < |items| then Some(items[sel.i]) else None
  }

  /** ArrowUp undoes ArrowDown and the other way round. */
  lemma UpUndoesDown(sel: Index, n: nat)
    requires n > 0 && sel.At? && sel.i < n
    ensures Up(Down(sel, n), n) == sel && Down(Up(sel, n), n) == sel
  {
  }

  /** `k` presses of ArrowDown. */
  function DownTimes(sel: Index, n: nat, k: nat): Index
  {
    if k == 0 then sel else Down(DownTimes(sel, n, k - 1), n)
  }

  /** Up to `n` presses of ArrowDown advance the selection by that many places, wrapping around once. */
  lemma {:induction false} DownTimesAdvances(i: nat, n: nat, k: nat)
    requires i < n && k <= n
    ensures DownTimes(At(i), n, k) == At(if i + k < n then i + k else i + k - n)
  {
    if k > 0 {
      DownTimesAdvances(i, n, k - 1);
    }
  }

  /** A full round of ArrowDown presses comes back to the starting item. */
  lemma DownRoundTrip(i: nat, n: nat)
    requires i < n
    ensures DownTimes(At(i), n, n) == At(i)
  {
    DownTimesAdvances(i, n, n);
  }

  /** The selection state of one open menu. */
  class Menu<T> {
    var items: seq<T>
    var selected: Index

    /** While the list is non-empty the selection points into it. */
    predicate Valid()
      reads this
    {
      |items| > 0 ==> selected.At? && selected.i < |items|
    }

    /** The menu opens with the first item selected. */
    constructor(initial: seq<T>)
      ensures items == initial && selected == At(0)
      ensures Valid()
    {
      items := initial;
      selected := At(0);
    }

    /** `useEffect(() => setSelectedIndex(0), [items])`: a new list resets the selection. */
    method SetItems(newItems: seq<T>)
      modifies this
      ensures items == newItems && selected == At(0)
      ensures Valid()
    {
      items := newItems;
      selected := At(0);
    }

    /**
     * `onKeyDown`: ArrowUp and ArrowDown move the selection, Enter chooses
     * the selected item when there is one; these three report handled,
     * every other key is left to the editor and changes nothing.
     */
    method OnKeyDown(key: string) returns (handled: bool, chosen: Option<T>)
      requires Valid()
      modifies this
      ensures Valid() && items == old(items)
      ensures handled <==> key == "ArrowUp" || key == "ArrowDown" || key == "Enter"
      ensures key == "ArrowUp" ==> selected == Up(old(selected), |items|)
      ensures key == "ArrowDown" ==> selected == Down(old(selected), |items|)
      ensures key != "ArrowUp" && key != "ArrowDown" ==> selected == old(selected)
      ensures chosen == (if key == "Enter" then ItemAt(items, selected) else None)
    {
      chosen := None;
      if key == "ArrowUp" {
        selected := Up(selected, |items|);
        return true, None;
      }
      if key == "ArrowDown" {
        selected := Down(selected, |items|);
        return true, None;
      }
      if key == "Enter" {
        chosen := ItemAt(items, selected);
        return true, chosen;
      }
      return false, None;
    }
  }

  // ---------------------------------------------------------------------
  // The rows of the mention menu.
  // ---------------------------------------------------------------------

  /** `displayName || username || label` */
  function PrimaryText(item: MentionItem): (text: string)
    ensures HasText(item.displayName) ==> text == item.displayName.value
    ensures !HasText(item.displayName) && HasText(item.username) ==> text == item.username.value
    ensures !HasText(item.displayName) && !HasText(item.username) ==> text == item.labelText.GetOr("")
  {
    FirstTruthy(item.displayName, FirstTruthy(item.username, item.labelText.GetOr("")))
  }

  /** The `@username` line, shown only when both username and displayName are non-empty. */
  function SubLine(item: MentionItem): (line: Option<string>)
    ensures line.Some? <==> HasText(item.username) && HasText(item.displayName)
    ensures line.Some? ==> line.value == "@" + item.username.value
  {
    if HasText(item.username) && HasText(item.displayName) then Some("@" + item.username.value) else None
  }

  /** `displayName?.[0]?.toUpperCase() || username?.[0]?.toUpperCase() || '@'` */
  function Initial(item: MentionItem): (letter: string)
    ensures |letter| == 1
    ensures HasText(item.displayName) ==> letter == [UpperChar(item.displayName.value[0])]
    ensures !HasText(item.displayName) && HasText(item.username) ==> letter == [UpperChar(item.username.value[0])]
    ensures !HasText(item.displayName) && !HasText(item.username) ==> letter == "@"
  {
    match UpperInitial(item.displayName.GetOr(""))
    case Some(d) => d
    case None =>
      match UpperInitial(item.username.GetOr(""))
      case Some(u) => u
      case None => "@"
  }

  datatype Row = Row(
    value: string,              // the `Command.Item` value: the item id
    index: nat,                 // `data-selected-index`, also what a click selects
    highlighted: bool,
    avatar: Option<string>,     // an image with this source ...
    initial: Option<string>,    // ... or a placeholder with this letter
    primary: string,
    subLine: Option<string>,
    badge: bool)

  function RowOf(item: MentionItem, index: nat, sel: Index): Row
  {
    Row(item.id, index, sel == At(index),
        if HasText(item.avatar) then item.avatar else None,
        if HasText(item.avatar) then None else Some(Initial(item)),
        PrimaryText(item), SubLine(item), item.verified == Some(true))
  }

  /** `MentionList`'s output: nothing for an empty list, else one row per item in list order. */
  function MentionRows(items: seq<MentionItem>, sel: Index): (rows: Option<seq<Row>>)
    ensures rows.None? <==> items == []
    ensures rows.Some? ==> |rows.value| == |items|
    ensures rows.Some? ==> forall i :: 0 <= i < |items| ==> rows.value[i] == RowOf(items[i], i, sel)
  {
    if items == [] then None else Some(seq(|items|, i requires 0 <= i < |items| => RowOf(items[i], i, sel)))
  }

  /** Each row shows exactly one of the avatar and the placeholder; only the selected row is highlighted. */
  lemma RowShape(items: seq<MentionItem>, sel: Index, i: nat)
    requires i < |items|
    ensures var r := MentionRows(items, sel).value[i];
      (r.avatar.Some? <==> r.initial.None?) && (r.avatar.Some? <==> HasText(items[i].avatar)) &&
      (r.highlighted <==> sel == At(i)) && r.index == i && r.value == items[i].id
  {
  }

  /** Clicking a row selects the same item as pressing Enter while that row is selected. */
  lemma ClickMatchesEnter(items: seq<MentionItem>, sel: Index, i: nat)
    requires i < |items|
    ensures ItemAt(items, At(MentionRows(items, sel).value[i].index)) == Some(items[i])
  {
  }
}
