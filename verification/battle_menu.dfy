/**
 * The battle menu (BattleMenu.cs): the current and the one remembered
 * previous menu state, the state handed to the controls, and the five menus
 * it opens and closes.
 */
module BattleMenu {
  import opened ControlManager
  import ActionMenu
  import SubMenu
  import TargetMenu

  /** `currentState`, `previousState`, the controls' `state`, and the menus. */
  datatype Menu = Menu(
    current: State,
    previous: State,
    control: State,
    action: ActionMenu.Menu,
    cast: SubMenu.Menu,
    summon: SubMenu.Menu,
    item: SubMenu.Menu,
    target: TargetMenu.Menu)

  /** Only the three states fields move; every menu stays as it is. */
  predicate SameMenus(a: Menu, b: Menu) {
    a.action == b.action && a.cast == b.cast && a.summon == b.summon &&
    a.item == b.item && a.target == b.target
  }

  /** `Init`: the controls are switched off. */
  function Init(m: Menu): (r: Menu)
    ensures r.control == NoState
    ensures r == m.(control := r.control)
  {
    m.(control := NoState)
  }

  /**
   * `SetStateToAction`, `SetStateToCast`, `SetStateToSummon`,
   * `SetStateToItem` and `SetStateToTarget`, with the state as a parameter:
   * the current state is remembered as the previous one, and the new state
   * becomes current and goes to the controls.
   */
  function SetStateTo(m: Menu, s: State): (r: Menu)
    ensures r.previous == m.current && r.current == s && r.control == s
    ensures SameMenus(r, m)
  {
    m.(previous := m.current, current := s, control := s)
  }

  /**
   * `SetStateToPrevious`: back to the remembered state, which goes to the
   * controls, and the memory falls back to the action menu.
   */
  function SetStateToPrevious(m: Menu): (r: Menu)
    ensures r.current == m.previous && r.control == m.previous
    ensures r.previous == ActionSelection
    ensures SameMenus(r, m)
  {
    m.(current := m.previous, previous := ActionSelection, control := m.previous)
  }

  /** One step forward and one back restore the current state and the controls. */
  lemma ForwardThenBack(m: Menu, s: State)
    ensures SetStateToPrevious(SetStateTo(m, s)).current == m.current
    ensures SetStateToPrevious(SetStateTo(m, s)).control == m.current
  {
  }

  /** Only one state is remembered: a second step back always lands on the action menu. */
  lemma SecondBackIsAction(m: Menu)
    ensures SetStateToPrevious(SetStateToPrevious(m)).current == ActionSelection
    ensures SetStateToPrevious(SetStateToPrevious(m)).control == ActionSelection
  {
  }

  /** Action, then Cast, then Target: one step back is Cast, a second is Action. */
  lemma CastTargetBackTwice(m: Menu)
    requires m.current == ActionSelection
    ensures var t := SetStateTo(SetStateTo(m, CastSelection), TargetSelection);
            SetStateToPrevious(t).current == CastSelection &&
            SetStateToPrevious(SetStateToPrevious(t)).current == ActionSelection
  {
  }

  /** `ShowActionMenu(true)`: into the action menu, which is opened (its selection reset). */
  function ShowActionMenu(m: Menu, build: ActionMenu.Build): (r: Menu)
    ensures r.current == ActionSelection && r.control == ActionSelection && r.previous == m.current
    ensures r.action == ActionMenu.ResetSelection(m.action, build)
    ensures r == m.(current := r.current, previous := r.previous, control := r.control, action := r.action)
  {
    SetStateTo(m, ActionSelection).(action := ActionMenu.ResetSelection(m.action, build))
  }

  /** `ShowCastMenu(true)`: into the cast menu; its cursor is not reset. */
  function ShowCastMenu(m: Menu): (r: Menu)
    ensures r.current == CastSelection && r.control == CastSelection && r.previous == m.current
    ensures SameMenus(r, m)
  {
    SetStateTo(m, CastSelection)
  }

  /** `ShowSummonMenu(true)`: into the summon menu, opened on its first entry. */
  function ShowSummonMenu(m: Menu): (r: Menu)
    ensures r.current == SummonSelection && r.control == SummonSelection && r.previous == m.current
    ensures r.summon == m.summon.(selection := 0)
    ensures r == m.(current := r.current, previous := r.previous, control := r.control, summon := r.summon)
  {
    SetStateTo(m, SummonSelection).(summon := SubMenu.Open(m.summon))
  }

  /** `ShowItemMenu(true)`: into the item menu; its cursor is not reset. */
  function ShowItemMenu(m: Menu): (r: Menu)
    ensures r.current == ItemSelection && r.control == ItemSelection && r.previous == m.current
    ensures SameMenus(r, m)
  {
    SetStateTo(m, ItemSelection)
  }

  /**
   * `ShowTargetMenu(t, true)` over n enemy arrows: the target menu takes the
   * action type, the state before the call is remembered, and the target
   * cursor is reset.
   */
  function ShowTargetMenu(m: Menu, t: TargetMenu.ActionType, n: nat): (r: Menu)
    ensures r.target.actionType == t && r.target.selection == 0
    ensures r.current == TargetSelection && r.control == TargetSelection && r.previous == m.current
    ensures r == m.(current := r.current, previous := r.previous, control := r.control, target := r.target)
  {
    var m1 := m.(target := m.target.(actionType := t), control := TargetSelection);
    var m2 := SetStateTo(m1, TargetSelection);
    m2.(target := TargetMenu.Show(m2.target, n))
  }

  /**
   * `CloseAll`: the previous state falls back to the action menu, the action
   * menu's selection is reset, every menu is hidden (the target menu keeps
   * its action type and cursor) and the controls are switched off; the
   * current state is left as it was.
   */
  function CloseAll(m: Menu, build: ActionMenu.Build): (r: Menu)
    ensures r.previous == ActionSelection && r.control == NoState && r.current == m.current
    ensures r.action == ActionMenu.ResetSelection(m.action, build)
    ensures r.target == m.target && r.cast == m.cast && r.summon == m.summon && r.item == m.item
  {
    m.(previous := ActionSelection, action := ActionMenu.ResetSelection(m.action, build), control := NoState)
  }
}
