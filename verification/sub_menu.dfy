/**
 * The cast, summon and item menus (SubMenu.cs): the same wrap-around cursor
 * over a fixed number of arrows, a character whose casts, summons or items
 * fill the slots, and a confirm that hands the selection on without checking
 * it against that list.
 */
module SubMenu {
  import opened Wrappers
  import opened Characters
  import Cursor

  datatype Kind = CastMenu | SummonMenu | ItemMenu

  /** `type`, `character`, the number of arrows, and `currentSelection`. */
  datatype Menu = Menu(kind: Kind, character: Character, arrows: nat, selection: int)

  /** One entry of a sub-menu's list. */
  datatype Entry = CastEntry(cast: Cast) | SummonEntry(summon: Summon) | ItemEntry(item: Item)

  /** `GetMenuItems`: the character's casts, summons or items, by the kind of menu. */
  function MenuItems(kind: Kind, c: Character): (r: seq<Entry>)
    ensures kind.CastMenu? ==> |r| == |c.casts| && forall i :: 0 <= i < |r| ==> r[i] == CastEntry(c.casts[i])
    ensures kind.SummonMenu? ==> |r| == |c.summons| && forall i :: 0 <= i < |r| ==> r[i] == SummonEntry(c.summons[i])
    ensures kind.ItemMenu? ==> |r| == |c.items| && forall i :: 0 <= i < |r| ==> r[i] == ItemEntry(c.items[i])
  {
    match kind
    case CastMenu => seq(|c.casts|, i requires 0 <= i < |c.casts| => CastEntry(c.casts[i]))
    case SummonMenu => seq(|c.summons|, i requires 0 <= i < |c.summons| => SummonEntry(c.summons[i]))
    case ItemMenu => seq(|c.items|, i requires 0 <= i < |c.items| => ItemEntry(c.items[i]))
  }

  /** A menu has entries exactly when the character has casts, summons or items of its kind. */
  lemma MenuItemsMatchHas(kind: Kind, c: Character)
    ensures kind.CastMenu? ==> (|MenuItems(kind, c)| > 0 <==> HasCasts(c))
    ensures kind.SummonMenu? ==> (|MenuItems(kind, c)| > 0 <==> HasSummons(c))
    ensures kind.ItemMenu? ==> (|MenuItems(kind, c)| > 0 <==> HasItems(c))
  {
  }

  /** `ResetSelection`: the cursor back on the first entry. */
  function ResetSelection(m: Menu): (r: Menu)
    ensures r.selection == 0
    ensures r == m.(selection := r.selection)
  {
    m.(selection := 0)
  }

  /** `Init`: kind, character and callbacks are stored and the selection reset. */
  function Init(c: Character, kind: Kind, arrows: nat): (r: Menu)
    ensures r.kind == kind && r.character == c && r.arrows == arrows
    ensures r.selection == 0
  {
    ResetSelection(Menu(kind, c, arrows, -1))
  }

  /** `Open`: shown, with the selection reset. */
  function Open(m: Menu): (r: Menu)
    ensures r.selection == 0 && r == m.(selection := 0)
  {
    ResetSelection(m)
  }

  /** `UpdateCharacter`: a new character fills the slots; the cursor stays where it was. */
  function UpdateCharacter(m: Menu, c: Character): (r: Menu)
    ensures r.character == c && r.selection == m.selection
    ensures r.kind == m.kind && r.arrows == m.arrows
  {
    m.(character := c)
  }

  /**
   * `Next`/`Previous`: the cursor wraps to its new place, and reading the
   * arrow under it throws when it is off the arrows, after the cursor has
   * moved.
   */
  function Move(m: Menu, down: bool): (r: Outcome<Menu>)
    ensures var sel := if down then Cursor.Next(m.selection, m.arrows) else Cursor.Previous(m.selection, m.arrows);
            r.state == m.(selection := sel) && (r.threw <==> !Cursor.InRange(sel, m.arrows))
  {
    var sel := if down then Cursor.Next(m.selection, m.arrows) else Cursor.Previous(m.selection, m.arrows);
    Outcome(m.(selection := sel), !Cursor.InRange(sel, m.arrows))
  }

  /** From an arrow, moves always succeed and down and up undo each other. */
  lemma MoveRoundTrip(m: Menu, down: bool)
    requires Cursor.InRange(m.selection, m.arrows)
    ensures !Move(m, down).threw && Cursor.InRange(Move(m, down).state.selection, m.arrows)
    ensures Move(Move(m, down).state, !down) == Outcome(m, false)
  {
    Cursor.NextPreviousInverse(m.selection, m.arrows);
  }

  /**
   * `Execute`: `OnExecute(currentSelection)` whenever the selection is not
   * negative, whether or not the character has that many entries.
   */
  function Execute(m: Menu): (r: Option<int>)
    ensures r.Some? <==> m.selection >= 0
    ensures r.Some? ==> r.value == m.selection
  {
    if m.selection >= 0 then Some(m.selection) else None
  }

  /** Nothing bounds the confirmed index by the list: a menu with more arrows than entries hands on a missing one. */
  lemma ExecutePastTheList(m: Menu)
    requires m.selection == |MenuItems(m.kind, m.character)| && m.selection < m.arrows
    ensures Execute(m) == Some(|MenuItems(m.kind, m.character)|)
  {
  }
}
