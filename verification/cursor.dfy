/**
 * The wrap-around cursor shared by the action, sub- and target menus
 * (`Next`/`Previous` in ActionMenu.cs, SubMenu.cs and TargetMenu.cs): the
 * selection moves over `len` arrows and wraps at both ends.
 */
module Cursor {

  predicate InRange(sel: int, len: int) {
    0 <= sel < len
  }

  /**
   * `Next`: from the last arrow (or beyond) back to the first, otherwise one
   * down. It lands on an arrow exactly when there is one and the cursor was
   * not before the place ahead of the first.
   */
  function Next(sel: int, len: int): (r: int)
    ensures InRange(r, len) <==> len > 0 && sel >= -1
    ensures InRange(sel, len) && sel < len - 1 ==> r == sel + 1
    ensures sel >= len - 1 ==> r == 0
  {
    if sel >= len - 1 then 0 else sel + 1
  }

  /**
   * `Previous`: from the first arrow (or before) to the last, otherwise one
   * up. It lands on an arrow exactly when there is one and the cursor was at
   * most one past the end.
   */
  function Previous(sel: int, len: int): (r: int)
    ensures InRange(r, len) <==> len > 0 && sel <= len
    ensures 0 < sel ==> r == sel - 1
    ensures sel <= 0 ==> r == len - 1
  {
    if sel <= 0 then len - 1 else sel - 1
  }

  /** On a non-empty menu, both moves keep the selection on an arrow and undo each other. */
  lemma NextPreviousInverse(sel: int, len: int)
    requires InRange(sel, len)
    ensures InRange(Next(sel, len), len) && InRange(Previous(sel, len), len)
    ensures Previous(Next(sel, len), len) == sel
    ensures Next(Previous(sel, len), len) == sel
  {
  }

  /**
   * A selection off the arrows: past the end, `Next` lands on the first
   * arrow; `Previous` lands on an arrow only from before the start or from
   * just past the end.
   */
  lemma StrayCursor(sel: int, len: int)
    requires len > 0 && !InRange(sel, len)
    ensures sel >= len ==> Next(sel, len) == 0
    ensures InRange(Previous(sel, len), len) <==> sel <= 0 || sel == len
  {
  }

  /** k presses of `Next`. */
  function Advance(sel: int, len: int, k: nat): int
    decreases k
  {
    if k == 0 then sel else Advance(Next(sel, len), len, k - 1)
  }

  lemma {:induction false} AdvanceSplit(sel: int, len: int, j: nat, k: nat)
    ensures Advance(sel, len, j + k) == Advance(Advance(sel, len, j), len, k)
    decreases j
  {
    if j > 0 {
      AdvanceSplit(Next(sel, len), len, j - 1, k);
      assert j + k - 1 == (j - 1) + k;
    }
  }

  /** Pressing `Next` k times from an arrow, without reaching the end, moves the selection k arrows down. */
  lemma {:induction false} AdvanceWithin(sel: int, len: int, k: nat)
    requires 0 <= sel && sel + k < len
    ensures Advance(sel, len, k) == sel + k
    decreases k
  {
    if k > 0 {
      AdvanceWithin(sel + 1, len, k - 1);
    }
  }

  /** Pressing `Next` once per arrow brings the selection back where it was. */
  lemma {:induction false} FullCycle(sel: int, len: int)
    requires InRange(sel, len)
    ensures Advance(sel, len, len as nat) == sel
  {
    var rest: nat := len - 1 - sel;
    AdvanceSplit(sel, len, rest, 1 + sel);
    AdvanceWithin(sel, len, rest);
    assert Advance(len - 1, len, 1) == 0;
    AdvanceSplit(len - 1, len, 1, sel);
    AdvanceWithin(0, len, sel);
  }
}
