/**
 * The gallery strip's selection state: a selection mode flag and the set of
 * selected item ids, the two handlers that change them, the guards that show
 * the "select" and "create collage" buttons, and the newest-first order the
 * items are shown in.
 */
module Gallery {

  import opened Util

  datatype Item = Item(id: string, mimeType: string, data: string)

  predicate Distinct(s: seq<string>) {
    forall i, j :: 0 <= i < j < |s| ==> s[i] != s[j]
  }

  /** `s` without `x`, the order of the rest kept. */
  function Remove(s: seq<string>, x: string): (r: seq<string>)
    ensures forall y :: y in r <==> y in s && y != x
    ensures x !in s ==> r == s
    ensures Distinct(s) ==> Distinct(r)
    ensures Distinct(s) && x in s ==> |r| == |s| - 1
    decreases |s|
  {
    if s == [] then []
    else
      var init := s[..|s| - 1];
      var last := s[|s| - 1];
      assert s == init + [last];
      assert Distinct(s) ==> Distinct(init) && last !in init;
      assert Distinct(s) && x in s && x != last ==> x in init;
      Remove(init, x) + (if last == x then [] else [last])
  }

  /**
   * A JavaScript `Set<string>`: its elements, each once, in insertion order
   * (the order `Array.from` lists them in).
   */
  class IdSet {
    var elems: seq<string>

    ghost predicate Valid()
      reads this
    {
      Distinct(elems)
    }

    /** `new Set(source)`: a copy, so later changes leave `source` alone. */
    constructor (source: seq<string>)
      requires Distinct(source)
      ensures Valid() && elems == source
    {
      elems := source;
    }

    function Has(id: string): (b: bool)
      reads this
      ensures b <==> id in elems
    {
      id in elems
    }

    function Size(): (n: nat)
      reads this
      ensures n == |elems|
    {
      |elems|
    }

    /** `add(id)`: appends `id` unless it is already there. */
    method Add(id: string)
      requires Valid()
      modifies this
      ensures Valid()
      ensures elems == if id in old(elems) then old(elems) else old(elems) + [id]
    {
      if id !in elems {
        elems := elems + [id];
      }
    }

    /** `delete(id)`: removes `id`, keeping the order of the others. */
    method Delete(id: string)
      requires Valid()
      modifies this
      ensures Valid()
      ensures elems == Remove(old(elems), id)
    {
      elems := Remove(elems, id);
    }

    /** `Array.from(set)`. */
    function ToArray(): (a: seq<string>)
      reads this
      requires Valid()
      ensures Distinct(a) && |a| == Size()
      ensures forall id :: id in a <==> Has(id)
    {
      elems
    }
  }

  /** The selection state of the component. */
  datatype View = View(selectionMode: bool, selected: seq<string>)

  const InitialView: View := View(false, [])

  /** What a handler asks of the parent: report the selection, open an item, or nothing. */
  datatype Effect = NoEffect | MultiSelect(ids: seq<string>) | Open(item: Item)

  /** `toggleSelectionMode`: leaving clears the selection (and reports it if someone listens); entering keeps it. */
  function ToggleSelectionMode(v: View, hasOnMultiSelect: bool): (r: (View, Effect))
    ensures r.0.selectionMode == !v.selectionMode
    ensures v.selectionMode ==> r.0.selected == [] && r.1 == (if hasOnMultiSelect then MultiSelect([]) else NoEffect)
    ensures !v.selectionMode ==> r.0.selected == v.selected && r.1 == NoEffect
  {
    if v.selectionMode then
      (View(false, []), if hasOnMultiSelect then MultiSelect([]) else NoEffect)
    else
      (v.(selectionMode := true), NoEffect)
  }

  /** The selection after a click on `id`: `id` leaves it when present and joins it, last, when absent. */
  function Toggle(s: seq<string>, id: string): (r: seq<string>)
    ensures forall x :: x in r <==> (x in s) != (x == id)
    ensures Distinct(s) ==> Distinct(r)
  {
    if id in s then Remove(s, id) else s + [id]
  }

  /** `handleItemClick`, as a value. */
  function Click(v: View, item: Item, hasOnMultiSelect: bool): (r: (View, Effect))
    ensures r.0.selectionMode == v.selectionMode
    ensures v.selectionMode ==> forall x :: x in r.0.selected <==> (x in v.selected) != (x == item.id)
    ensures v.selectionMode ==> r.1 == if hasOnMultiSelect then MultiSelect(r.0.selected) else NoEffect
    ensures !v.selectionMode ==> r == (v, Open(item))
  {
    if v.selectionMode then
      var s := Toggle(v.selected, item.id);
      (v.(selected := s), if hasOnMultiSelect then MultiSelect(s) else NoEffect)
    else
      (v, Open(item))
  }

  /** `handleItemClick`: toggles a copy of the set, installs it and reports it; outside selection mode it opens the item. */
  method HandleItemClick(v: View, item: Item, hasOnMultiSelect: bool) returns (next: View, effect: Effect)
    requires Distinct(v.selected)
    ensures (next, effect) == Click(v, item, hasOnMultiSelect)
  {
    if v.selectionMode {
      var newSet := new IdSet(v.selected);
      if newSet.Has(item.id) {
        newSet.Delete(item.id);
      } else {
        newSet.Add(item.id);
      }
      next := v.(selected := newSet.elems);
      effect := if hasOnMultiSelect then MultiSelect(newSet.ToArray()) else NoEffect;
    } else {
      next := v;
      effect := Open(item);
    }
  }

  // ---------------------------------------------------------------------------
  // Properties of a click

  /** A click changes the membership of the clicked id and of no other. */
  lemma ClickTogglesOnlyItsId(v: View, item: Item, hasOnMultiSelect: bool, other: string)
    requires v.selectionMode
    ensures var next := Click(v, item, hasOnMultiSelect).0;
      && (item.id in next.selected <==> item.id !in v.selected)
      && (other != item.id ==> (other in next.selected <==> other in v.selected))
      && next.selectionMode
  {
  }

  /** The listener is handed exactly the new selection, without repeats. */
  lemma ClickReportsSelection(v: View, item: Item)
    requires v.selectionMode && Distinct(v.selected)
    ensures var r := Click(v, item, true);
      r.1 == MultiSelect(r.0.selected) && Distinct(r.1.ids)
  {
  }

  /** Outside selection mode a click opens the item and changes nothing. */
  lemma ClickOutsideModeOpens(v: View, item: Item, hasOnMultiSelect: bool)
    requires !v.selectionMode
    ensures Click(v, item, hasOnMultiSelect) == (v, Open(item))
  {
  }

  /** A selected id is removed, an unselected one added: the size changes by one. */
  lemma ToggleSize(s: seq<string>, id: string)
    requires Distinct(s)
    ensures |Toggle(s, id)| == if id in s then |s| - 1 else |s| + 1
  {
  }

  /**
   * Clicking the same item twice gives back the same set of ids; when the id
   * was not selected before, even the same order.
   */
  lemma ToggleTwice(s: seq<string>, id: string)
    requires Distinct(s)
    ensures forall x :: x in Toggle(Toggle(s, id), id) <==> x in s
    ensures id !in s ==> Toggle(Toggle(s, id), id) == s
  {
    if id !in s {
      var t := s + [id];
      assert t[..|t| - 1] == s;
    }
  }

  /** Deselecting and reselecting moves the id to the end of the insertion order. */
  lemma ToggleTwiceReorders()
    ensures Toggle(Toggle(["a", "b"], "a"), "a") == ["b", "a"]
  {
    var s: seq<string> := ["a", "b"];
    assert s[..1] == ["a"] && s[..1][..0] == [];
    assert Remove(s, "a") == ["b"];
  }

  // ---------------------------------------------------------------------------
  // Buttons and display order

  /** The "select" button is offered only when there is more than one item: exactly when the strip shows two or more. */
  function SelectButtonShown(items: seq<Item>): (shown: bool)
    ensures shown <==> Displayed(items).Some? && |Displayed(items).value| >= 2
  {
    |items| > 1
  }

  /** The "create collage" button: in selection mode, with more than one id selected, and a handler to call. */
  function CollageButtonShown(v: View, hasOnCreateCollage: bool): (shown: bool)
    ensures shown ==> v.selectionMode && hasOnCreateCollage
    ensures Distinct(v.selected) ==> (shown <==> v.selectionMode && hasOnCreateCollage && |v.selected| >= 2)
  {
    v.selectionMode && |v.selected| > 1 && hasOnCreateCollage
  }

  /** The gallery offers the mode toggle only through the "select" button, and clicks only on the items it shows. */
  predicate Offered(items: seq<Item>, e: Event) {
    match e
    case ToggleMode => SelectButtonShown(items)
    case ClickItem(item) => item in items
  }

  /** With at most one item there is no "select" button, so the gallery never enters selection mode and every click opens the item. */
  lemma {:induction false} NoSelectionWithoutButton(items: seq<Item>, events: seq<Event>, hasOnMultiSelect: bool)
    requires !SelectButtonShown(items)
    requires forall k :: 0 <= k < |events| ==> Offered(items, events[k])
    ensures Run(InitialView, events, hasOnMultiSelect) == InitialView
    decreases |events|
  {
    if events != [] {
      NoSelectionWithoutButton(items, events[..|events| - 1], hasOnMultiSelect);
      assert Offered(items, events[|events| - 1]);
    }
  }

  /** From an empty selection, clicking two different items shows the collage button; one click does not. */
  lemma TwoClicksShowCollageButton(v: View, a: Item, b: Item, hasOnMultiSelect: bool)
    requires v.selectionMode && v.selected == [] && a.id != b.id
    ensures !CollageButtonShown(Click(v, a, hasOnMultiSelect).0, true)
    ensures CollageButtonShown(Click(Click(v, a, hasOnMultiSelect).0, b, hasOnMultiSelect).0, true)
  {
    assert Click(v, a, hasOnMultiSelect).0.selected == [a.id];
  }

  /** Whenever the collage button shows, at least two different items are selected. */
  lemma CollageButtonMeansTwo(v: View, hasOnCreateCollage: bool)
    requires Distinct(v.selected) && CollageButtonShown(v, hasOnCreateCollage)
    ensures v.selected[0] != v.selected[1]
  {
  }

  /** Leaving selection mode hides the collage button. */
  lemma LeavingHidesCollageButton(v: View, hasOnMultiSelect: bool, hasOnCreateCollage: bool)
    requires v.selectionMode
    ensures !CollageButtonShown(ToggleSelectionMode(v, hasOnMultiSelect).0, hasOnCreateCollage)
  {
  }

  function Reverse(s: seq<Item>): (r: seq<Item>)
    ensures |r| == |s|
    ensures forall i :: 0 <= i < |s| ==> r[i] == s[|s| - 1 - i]
    decreases |s|
  {
    if s == [] then [] else [s[|s| - 1]] + Reverse(s[..|s| - 1])
  }

  /** `items.slice().reverse()`, after the early return for an empty list: newest item first. */
  function Displayed(items: seq<Item>): (d: Option<seq<Item>>)
    ensures items == [] <==> d.None?
  {
    if items == [] then None else Some(Reverse(items))
  }

  /** Reversing twice gives back the items: the display order loses nothing and leaves `items` as it was. */
  lemma ReverseInvolution(s: seq<Item>)
    ensures Reverse(Reverse(s)) == s
    ensures multiset(Reverse(s)) == multiset(s)
  {
    ReverseMultiset(s);
  }

  lemma {:induction false} ReverseMultiset(s: seq<Item>)
    ensures multiset(Reverse(s)) == multiset(s)
    decreases |s|
  {
    if s != [] {
      var init, last := s[..|s| - 1], s[|s| - 1];
      ReverseMultiset(init);
      assert s == init + [last];
      assert Reverse(s) == [last] + Reverse(init);
      assert multiset(s) == multiset(init) + multiset([last]);
      assert multiset(Reverse(s)) == multiset([last]) + multiset(Reverse(init));
    }
  }

  // ---------------------------------------------------------------------------
  // Any sequence of clicks

  datatype Event = ToggleMode | ClickItem(item: Item)

  function Step(v: View, e: Event, hasOnMultiSelect: bool): View {
    match e
    case ToggleMode => ToggleSelectionMode(v, hasOnMultiSelect).0
    case ClickItem(item) => Click(v, item, hasOnMultiSelect).0
  }

  function Run(v: View, events: seq<Event>, hasOnMultiSelect: bool): View
    decreases |events|
  {
    if events == [] then v else Step(Run(v, events[..|events| - 1], hasOnMultiSelect), events[|events| - 1], hasOnMultiSelect)
  }

  /** The selection has no repeats, and nothing is selected outside selection mode. */
  predicate Consistent(v: View) {
    Distinct(v.selected) && (!v.selectionMode ==> v.selected == [])
  }

  /** From the initial view, every sequence of mode toggles and clicks keeps the view consistent. */
  lemma {:induction false} RunConsistent(events: seq<Event>, hasOnMultiSelect: bool)
    ensures Consistent(Run(InitialView, events, hasOnMultiSelect))
    decreases |events|
  {
    if events != [] {
      RunConsistent(events[..|events| - 1], hasOnMultiSelect);
    }
  }
}
