/**
 * The action menu (ActionMenu.cs): four choices, one arrow each, a cursor
 * that wraps, and a confirm that runs the callback under the cursor. The
 * arrow shown and the cursor itself are kept apart, as the C# keeps them.
 */
module ActionMenu {
  import opened Wrappers
  import Cursor

  /** The callbacks `SetupActionMenu` installs, in this order. */
  datatype Choice = Attack | Cast | Summon | Item

  /** Which of the two behaviours of a resettable cursor to follow (see `ResetSelection`). */
  datatype Build = AsWritten | Corrected

  /**
   * `callbacks`, the number of arrows, `currentSelection`, and the one arrow
   * on display (-1 when none is).
   */
  datatype Menu = Menu(callbacks: seq<Choice>, arrows: nat, selection: int, shown: int)

  /** The callbacks in the order `SetupActionMenu` hands them over. */
  function Callbacks(): (r: seq<Choice>)
    ensures |r| == 4 && forall i, j :: 0 <= i < j < 4 ==> r[i] != r[j]
  {
    [Attack, Cast, Summon, Item]
  }

  /** The arrow under the cursor is the one on display. */
  predicate Consistent(m: Menu) {
    Cursor.InRange(m.selection, m.arrows) && m.shown == m.selection
  }

  /**
   * `ResetSelection`, which is all that `Open(true)` and `Cancel` do to the
   * state modelled here (they also show or hide the menu): the first arrow
   * is shown and every other hidden. As
   * written it leaves `currentSelection` where it was; corrected, the cursor
   * goes back to the first choice as well, as `BattleMenu.ResetMenu` means
   * it to.
   */
  function ResetSelection(m: Menu, build: Build): (r: Menu)
    ensures r.shown == (if m.arrows > 0 then 0 else -1)
    ensures build.AsWritten? ==> r.selection == m.selection
    ensures build.Corrected? ==> r.selection == 0
    ensures r.callbacks == m.callbacks && r.arrows == m.arrows
  {
    var shown := if m.arrows > 0 then 0 else -1;
    match build
    case AsWritten => m.(shown := shown)
    case Corrected => m.(shown := shown, selection := 0)
  }

  /** `Init`: the callbacks are stored and the selection reset; the cursor starts on the first choice. */
  function Init(callbacks: seq<Choice>, arrows: nat, build: Build): (r: Menu)
    ensures r.callbacks == callbacks && r.selection == 0
    ensures arrows > 0 ==> Consistent(r)
  {
    ResetSelection(Menu(callbacks, arrows, 0, -1), build)
  }

  /**
   * `Next`/`Previous`: the cursor wraps to its new place, and then the arrow
   * under it is read and shown. Off the arrows that read throws, after the
   * cursor has moved and before the arrow on display changes.
   */
  function Move(m: Menu, down: bool): (r: Outcome<Menu>)
    ensures var sel := if down then Cursor.Next(m.selection, m.arrows) else Cursor.Previous(m.selection, m.arrows);
            r.state.selection == sel && (r.threw <==> !Cursor.InRange(sel, m.arrows)) &&
            (r.threw ==> r.state == m.(selection := sel)) &&
            (!r.threw ==> r.state == m.(selection := sel, shown := sel) && Consistent(r.state))
  {
    var sel := if down then Cursor.Next(m.selection, m.arrows) else Cursor.Previous(m.selection, m.arrows);
    if Cursor.InRange(sel, m.arrows) then Outcome(m.(selection := sel, shown := sel), false)
    else Outcome(m.(selection := sel), true)
  }

  /** A consistent menu never fails to move, and down then up (or up then down) restores it. */
  lemma MoveRoundTrip(m: Menu, down: bool)
    requires Consistent(m)
    ensures !Move(m, down).threw
    ensures Move(Move(m, down).state, !down) == Outcome(m, false)
  {
    Cursor.NextPreviousInverse(m.selection, m.arrows);
  }

  /** `Execute`: the callback under the cursor, when the cursor is on one. */
  function Execute(m: Menu): (r: Option<Choice>)
    ensures r.Some? <==> 0 <= m.selection < |m.callbacks|
    ensures r.Some? ==> r.value == m.callbacks[m.selection]
  {
    if -1 < m.selection < |m.callbacks| then Some(m.callbacks[m.selection]) else None
  }

  /** Under the installed callbacks, the choice run is the one at the cursor's place. */
  lemma ExecuteRunsChoiceAtCursor(m: Menu, i: int)
    requires m.callbacks == Callbacks() && m.selection == i
    ensures 0 <= i < 4 ==> Execute(m) == Some([Attack, Cast, Summon, Item][i])
    ensures (i < 0 || i >= 4) ==> Execute(m) == None
  {
  }

  /**
   * As written, two presses of Down and a reset show the Attack arrow while
   * a confirm runs Summon.
   */
  lemma ResetShowsAttackButRunsSummon()
    ensures var m0 := Init(Callbacks(), 4, AsWritten);
            var m1 := Move(Move(m0, true).state, true).state;
            var m2 := ResetSelection(m1, AsWritten);
            m2.shown == 0 && m2.callbacks[m2.shown] == Attack && Execute(m2) == Some(Summon)
  {
  }

  /** Corrected, a reset leaves a consistent menu whose confirm runs the choice on display. */
  lemma ResetKeepsArrowAndCursorTogether(m: Menu)
    requires m.arrows > 0
    ensures Consistent(ResetSelection(m, Corrected))
    ensures |m.callbacks| > 0 ==>
              Execute(ResetSelection(m, Corrected)) == Some(m.callbacks[ResetSelection(m, Corrected).shown])
  {
  }
}
