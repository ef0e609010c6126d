/**
 * The target menu (TargetMenu.cs): a cursor over the enemy party's arrows,
 * whose number follows the enemy roster, and a report of the chosen action
 * and target back to the battle manager.
 */
module TargetMenu {
  import opened Wrappers
  import Cursor

  /**
   * `ActionType`, in declaration order; `NoAction` is the 0 that
   * `SetupTargetMenu` passes and `Cancel` reports.
   */
  datatype ActionType = NoAction | Attack | Cast | Summon | UseItem

  /** Which enemy arrows are on display. */
  datatype View = Hidden | One(index: int) | All

  /** `currentSelection`, `actionType` and the arrows on display. */
  datatype Menu = Menu(selection: int, actionType: ActionType, view: View)

  /** What the menu hands to its callback: an action type and a target list (None for C# null). */
  datatype Report = Report(actionType: ActionType, targets: Option<seq<int>>)

  /** `ResetSelection` over n enemy arrows: the first enemy selected, and its arrow alone shown. */
  function ResetSelection(m: Menu, n: nat): (r: Menu)
    ensures r.selection == 0 && r.actionType == m.actionType
    ensures n > 0 ==> r.view == One(0)
  {
    m.(selection := 0, view := if n > 0 then One(0) else Hidden)
  }

  /** `SelectAll`: every enemy arrow shown; the cursor does not move. */
  function SelectAll(m: Menu): (r: Menu)
    ensures r.view == All
    ensures r.selection == m.selection && r.actionType == m.actionType
  {
    m.(view := All)
  }

  /** `Init`: the action type stored; a summon selects every enemy, anything else the first. */
  function Init(n: nat, actionType: ActionType): (r: Menu)
    ensures r.actionType == actionType && r.selection == 0
    ensures actionType == Summon ==> r.view == All
    ensures actionType != Summon && n > 0 ==> r.view == One(0)
  {
    var m := Menu(0, actionType, Hidden);
    if actionType == Summon then SelectAll(m) else ResetSelection(m, n)
  }

  /** `Show(true)`: the selection reset. */
  function Show(m: Menu, n: nat): (r: Menu)
    ensures r.selection == 0 && r.actionType == m.actionType
  {
    ResetSelection(m, n)
  }

  /**
   * `Next`/`Previous` over n enemy arrows: the cursor wraps to its new place,
   * and then the arrow under it is read and shown. Off the arrows that read
   * throws, after the cursor has moved and before the arrows on display
   * change.
   */
  function Move(m: Menu, n: nat, down: bool): (r: Outcome<Menu>)
    ensures var sel := if down then Cursor.Next(m.selection, n) else Cursor.Previous(m.selection, n);
            r.state.selection == sel && (r.threw <==> !Cursor.InRange(sel, n)) &&
            (r.threw ==> r.state == m.(selection := sel)) &&
            (!r.threw ==> r.state == m.(selection := sel, view := One(sel)))
  {
    var sel := if down then Cursor.Next(m.selection, n) else Cursor.Previous(m.selection, n);
    if Cursor.InRange(sel, n) then Outcome(m.(selection := sel, view := One(sel)), false)
    else Outcome(m.(selection := sel), true)
  }

  /**
   * A cursor left past the end of a roster that has since shrunk: `Next`
   * recovers at once; `Previous` recovers only from exactly one past the
   * end, and otherwise throws with the cursor one place nearer, so repeated
   * presses walk it back onto the arrows.
   */
  lemma MoveAfterShrink(m: Menu, n: nat)
    requires n > 0 && m.selection >= n
    ensures Move(m, n, true) == Outcome(m.(selection := 0, view := One(0)), false)
    ensures !Move(m, n, false).threw <==> m.selection == n
    ensures Move(m, n, false).state.selection == m.selection - 1
  {
    Cursor.StrayCursor(m.selection, n);
  }

  /** `Execute`: the arrows hidden, and the action type reported with the one selected target. */
  function Execute(m: Menu): (r: (Menu, Report))
    ensures r.1.actionType == m.actionType && r.1.targets == Some([m.selection])
    ensures r.0 == m.(view := Hidden)
  {
    (m.(view := Hidden), Report(m.actionType, Some([m.selection])))
  }

  /** `Cancel`: the arrows hidden, and 0 reported with no targets. */
  function Cancel(m: Menu): (r: (Menu, Report))
    ensures r.1 == Report(NoAction, None)
    ensures r.0 == m.(view := Hidden)
  {
    (m.(view := Hidden), Report(NoAction, None))
  }
}
