/**
 * The on-screen controls (ControlManager.cs): the menu state, and the four
 * button handlers that route a press to the menu the state names.
 */
module ControlManager {

  /** `ControlManager.State`. */
  datatype State =
    | NoState | PartySelection | ActionSelection | CastSelection
    | SummonSelection | ItemSelection | TargetSelection

  datatype Button = Up | Down | Confirm | Cancel

  datatype MenuName = ActionMenu | CastMenu | SummonMenu | ItemMenu | TargetMenu

  /** The menu operation a handler invokes. */
  datatype Call = PreviousCall | NextCall | ExecuteCall | CancelCall

  datatype Op = Ignore | Invoke(menu: MenuName, call: Call)

  /** `Init`: the controls start on the action menu. */
  function Init(): (s: State)
    ensures s == ActionSelection
  {
    ActionSelection
  }

  /** `OnClickUp`, `OnClickDown`, `OnClickExecute` and `OnClickCancel`, one table each. */
  function Dispatch(s: State, b: Button): (r: Op)
    ensures s.NoState? || s.PartySelection? ==> r == Ignore
  {
    match s
    case NoState => Ignore
    case PartySelection => Ignore
    case ActionSelection =>
      (match b
       case Up => Invoke(ActionMenu, PreviousCall)
       case Down => Invoke(ActionMenu, NextCall)
       case Confirm => Invoke(ActionMenu, ExecuteCall)
       case Cancel => Ignore)
    case CastSelection => Invoke(CastMenu, CallOf(b))
    case SummonSelection => Invoke(SummonMenu, CallOf(b))
    case ItemSelection => Invoke(ItemMenu, CallOf(b))
    case TargetSelection => Invoke(TargetMenu, CallOf(b))
  }

  /** Up calls `Previous`, Down `Next`, Confirm `Execute`, Cancel `Cancel`. */
  function CallOf(b: Button): (c: Call)
    ensures b == ButtonOf(c)
  {
    match b
    case Up => PreviousCall
    case Down => NextCall
    case Confirm => ExecuteCall
    case Cancel => CancelCall
  }

  function ButtonOf(c: Call): Button {
    match c
    case PreviousCall => Up
    case NextCall => Down
    case ExecuteCall => Confirm
    case CancelCall => Cancel
  }

  /** The state in which a menu has the controls. */
  function StateOf(m: MenuName): (s: State)
    ensures !s.NoState? && !s.PartySelection?
  {
    match m
    case ActionMenu => ActionSelection
    case CastMenu => CastSelection
    case SummonMenu => SummonSelection
    case ItemMenu => ItemSelection
    case TargetMenu => TargetSelection
  }

  /**
   * The dispatch tables in both directions: a press reaches the menu of the
   * current state with the call of its button, and it is ignored exactly in
   * the states without a menu and for Cancel on the action menu.
   */
  lemma DispatchRoutesToStateMenu(s: State, b: Button)
    ensures Dispatch(s, b).Invoke? ==>
              StateOf(Dispatch(s, b).menu) == s && ButtonOf(Dispatch(s, b).call) == b
    ensures Dispatch(s, b) == Ignore <==>
              s.NoState? || s.PartySelection? || (s.ActionSelection? && b == Cancel)
    ensures forall m: MenuName :: StateOf(m) == s && !(s.ActionSelection? && b == Cancel) ==>
              Dispatch(s, b) == Invoke(m, CallOf(b))
  {
  }
}
