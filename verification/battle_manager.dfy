/**
 * The battle manager's menu callbacks (BattleManager.cs): what each menu's
 * confirm leads to, the guards on the way into target selection, and the
 * dispatch of a confirmed target to an attack or a summon. `Press` runs one
 * button press through the controls, the menus and these callbacks.
 *
 * Two defects of the as-written callbacks are modelled beside their
 * corrections, chosen with `ActionMenu.Build` (which also selects the
 * action menu's reset): `PostCastCallback` leaves the target menu's action
 * type as it was, and `PostSummonCallback` leaves the target cursor where
 * an earlier attack left it.
 */
module BattleManager {
  import opened Wrappers
  import opened Characters
  import opened ControlManager
  import ActionMenu
  import SubMenu
  import TargetMenu
  import BattleMenu
  import TurnBasedSystem
  import Cursor

  type Build = ActionMenu.Build

  /** The menus, `currentCharacter` and `subMenuSelection`. */
  datatype Ui = Ui(menu: BattleMenu.Menu, hero: Character, subMenuSelection: int)

  /** What a press starts beyond the menus. */
  datatype Command =
    | Idle                                            // nothing
    | ErrorIndicator                                  // `ShowErrorIndicator`
    | Fault                                           // the C# throws (index out of range, null)
    | StartAttack(target: int)                        // the hero attacks `enemyParty.characters[target]`
    | StartSummon(id: nat, targets: seq<Character>)   // `Summon(enemyParty.characters, id)`

  /** `SetupRewards`: 11 gold and 27 experience per enemy of the battle. */
  datatype Rewards = Rewards(gold: int, experience: int)

  function SetupRewards(enemyCount: nat): (r: Rewards)
    ensures r.gold >= 0 && r.experience >= 0
  {
    Rewards(enemyCount * 11, enemyCount * 27)
  }

  /** Rewards grow in step with the enemies: additive, and always 11 gold for every 27 experience. */
  lemma RewardsPerEnemy(a: nat, b: nat)
    ensures SetupRewards(0) == Rewards(0, 0)
    ensures SetupRewards(1) == Rewards(11, 27)
    ensures SetupRewards(a + b).gold == SetupRewards(a).gold + SetupRewards(b).gold
    ensures SetupRewards(a + b).experience == SetupRewards(a).experience + SetupRewards(b).experience
    ensures 27 * SetupRewards(a).gold == 11 * SetupRewards(a).experience
  {
  }

  // ---------------------------------------------------------------------------
  // Action menu callbacks

  /** `AttackMenuCallback`: straight into target selection for an attack. */
  function AttackMenuCallback(ui: Ui, n: nat): (r: Ui)
    ensures r.menu.control == TargetSelection && r.menu.previous == ui.menu.current
    ensures r.menu.target.actionType == TargetMenu.Attack && r.menu.target.selection == 0
    ensures r.hero == ui.hero && r.subMenuSelection == ui.subMenuSelection
  {
    ui.(menu := BattleMenu.ShowTargetMenu(ui.menu, TargetMenu.Attack, n))
  }

  /** `CastMenuCallback`: the cast menu takes the current character and opens, cursor kept. */
  function CastMenuCallback(ui: Ui): (r: Ui)
    ensures r.menu.control == CastSelection && r.menu.cast.character == ui.hero
    ensures r.menu.cast.selection == ui.menu.cast.selection
  {
    ui.(menu := BattleMenu.ShowCastMenu(ui.menu.(cast := SubMenu.UpdateCharacter(ui.menu.cast, ui.hero))))
  }

  /** `SummonMenuCallback`: the summon menu takes the current character and opens on its first entry. */
  function SummonMenuCallback(ui: Ui): (r: Ui)
    ensures r.menu.control == SummonSelection && r.menu.summon.character == ui.hero
    ensures r.menu.summon.selection == 0
  {
    ui.(menu := BattleMenu.ShowSummonMenu(ui.menu.(summon := SubMenu.UpdateCharacter(ui.menu.summon, ui.hero))))
  }

  /** `ItemMenuCallback`: the item menu takes the current character and opens, cursor kept. */
  function ItemMenuCallback(ui: Ui): (r: Ui)
    ensures r.menu.control == ItemSelection && r.menu.item.character == ui.hero
    ensures r.menu.item.selection == ui.menu.item.selection
  {
    ui.(menu := BattleMenu.ShowItemMenu(ui.menu.(item := SubMenu.UpdateCharacter(ui.menu.item, ui.hero))))
  }

  /** The callback `SetupActionMenu` installed for a choice. */
  function ActionCallback(ui: Ui, choice: ActionMenu.Choice, n: nat): (r: Ui)
    ensures r.menu.control == match choice
                              case Attack => TargetSelection
                              case Cast => CastSelection
                              case Summon => SummonSelection
                              case Item => ItemSelection
  {
    match choice
    case Attack => AttackMenuCallback(ui, n)
    case Cast => CastMenuCallback(ui)
    case Summon => SummonMenuCallback(ui)
    case Item => ItemMenuCallback(ui)
  }

  /** `GoBackToActionMenu`, every sub-menu's `OnBack`. */
  function GoBackToActionMenu(ui: Ui): (r: Ui)
    ensures r.menu.current == ActionSelection && r.menu.control == ActionSelection
    ensures r.menu.previous == ui.menu.current
    ensures r.hero == ui.hero && r.subMenuSelection == ui.subMenuSelection
  {
    ui.(menu := BattleMenu.SetStateTo(ui.menu, ActionSelection))
  }

  // ---------------------------------------------------------------------------
  // Sub-menu callbacks

  /**
   * `PostCastCallback(castId)`: with casts, the id is kept and target
   * selection opens on the first enemy; without, the error indicator. As
   * written the target menu keeps whatever action type it last had;
   * corrected, it is set to Cast.
   */
  function PostCastCallback(ui: Ui, castId: int, n: nat, build: Build): (r: (Ui, Command))
    ensures HasCasts(ui.hero) ==> (r.1 == Idle && r.0.subMenuSelection == castId &&
               r.0.menu.control == TargetSelection && r.0.menu.previous == ui.menu.current &&
               r.0.menu.target.selection == 0)
    ensures HasCasts(ui.hero) && build.AsWritten? ==> r.0.menu.target.actionType == ui.menu.target.actionType
    ensures HasCasts(ui.hero) && build.Corrected? ==> r.0.menu.target.actionType == TargetMenu.Cast
    ensures !HasCasts(ui.hero) ==> r == (ui, ErrorIndicator)
    ensures r.0.hero == ui.hero
  {
    if HasCasts(ui.hero) then
      var m := BattleMenu.SetStateTo(ui.menu, TargetSelection);
      var t := TargetMenu.ResetSelection(m.target, n);
      var t' := if build.Corrected? then t.(actionType := TargetMenu.Cast) else t;
      (ui.(menu := m.(target := t'), subMenuSelection := castId), Idle)
    else (ui, ErrorIndicator)
  }

  /** The hero can pay for summon `id`. */
  predicate Affordable(c: Character, id: int) {
    0 <= id < |c.summons| && c.summons[id].mpCost <= c.mp
  }

  /**
   * `PostSummonCallback(summonId)`: with summons and enough mp for the
   * chosen one, the id is kept, target selection opens for a summon and
   * every enemy is selected; without summons, or short of mp, the error
   * indicator; an id past the character's summons makes the C# index
   * out of range. As written the target cursor stays where it was;
   * corrected, it is reset first.
   */
  function PostSummonCallback(ui: Ui, id: int, n: nat, build: Build): (r: (Ui, Command))
    ensures r.1 == Idle <==> HasSummons(ui.hero) && Affordable(ui.hero, id)
    ensures r.1 == Fault <==> HasSummons(ui.hero) && !(0 <= id < |ui.hero.summons|)
    ensures r.1 == ErrorIndicator ==> r.0 == ui
    ensures !HasSummons(ui.hero) || (0 <= id < |ui.hero.summons| && !Affordable(ui.hero, id)) ==>
              r == (ui, ErrorIndicator)
    ensures r.1 == Fault ==> r.0 == ui
    ensures r.1 == Idle ==> (r.0.subMenuSelection == id && r.0.menu.control == TargetSelection &&
               r.0.menu.previous == ui.menu.current &&
               r.0.menu.target.actionType == TargetMenu.Summon && r.0.menu.target.view == TargetMenu.All)
    ensures r.1 == Idle && build.AsWritten? ==> r.0.menu.target.selection == ui.menu.target.selection
    ensures r.1 == Idle && build.Corrected? ==> r.0.menu.target.selection == 0
    ensures r.0.hero == ui.hero
  {
    if !HasSummons(ui.hero) then (ui, ErrorIndicator)
    else if !(0 <= id < |ui.hero.summons|) then (ui, Fault)
    else if ui.hero.mp >= ui.hero.summons[id].mpCost then
      var m := BattleMenu.SetStateTo(ui.menu, TargetSelection);
      var t := m.target.(actionType := TargetMenu.Summon);
      var t' := if build.Corrected? then TargetMenu.ResetSelection(t, n) else t;
      (ui.(menu := m.(target := TargetMenu.SelectAll(t')), subMenuSelection := id), Idle)
    else (ui, ErrorIndicator)
  }

  /**
   * `PostItemCallback(itemId)`: with items, the id is kept and the target
   * menu's action type becomes UseItem, while the menus stay in item
   * selection; without, the error indicator.
   */
  function PostItemCallback(ui: Ui, itemId: int): (r: (Ui, Command))
    ensures HasItems(ui.hero) ==> (r.1 == Idle && r.0.subMenuSelection == itemId &&
               r.0.menu == ui.menu.(target := ui.menu.target.(actionType := TargetMenu.UseItem)))
    ensures !HasItems(ui.hero) ==> r == (ui, ErrorIndicator)
  {
    if HasItems(ui.hero) then
      (ui.(menu := ui.menu.(target := ui.menu.target.(actionType := TargetMenu.UseItem)), subMenuSelection := itemId), Idle)
    else (ui, ErrorIndicator)
  }

  // ---------------------------------------------------------------------------
  // Target dispatch

  /**
   * The guard `targets.Length > 0 && enemyParty.characters.Length >
   * targets[0]`: Some(true/false), or None where the C# dereferences null.
   */
  function TargetGuard(targets: Option<seq<int>>, enemies: Option<seq<Character>>): (r: Option<bool>)
    ensures r == Some(true) <==> targets.Some? && |targets.value| > 0 && enemies.Some? && targets.value[0] < |enemies.value|
    ensures r.None? <==> targets.None? || (|targets.value| > 0 && enemies.None?)
  {
    if targets.None? then None
    else if |targets.value| == 0 then Some(false)
    else if enemies.None? then None
    else Some(|enemies.value| > targets.value[0])
  }

  /**
   * `TargetCallback(actionType, targets)`: 0 (cancel) steps back to the
   * previous menu; Attack closes the menus and, past the guard, attacks the
   * first target; Cast and UseItem do nothing; Summon closes the menus and,
   * past the guard, pays the summon's cost and summons against the whole
   * current enemy roster.
   */
  function TargetCallback(ui: Ui, report: TargetMenu.Report, enemies: Option<seq<Character>>, build: Build): (r: (Ui, Command))
    ensures report.actionType.NoAction? ==> r == (ui.(menu := BattleMenu.SetStateToPrevious(ui.menu)), Idle)
    ensures report.actionType.Cast? || report.actionType.UseItem? ==> r == (ui, Idle)
    ensures report.actionType.Attack? || report.actionType.Summon? ==>
              r.0.menu == BattleMenu.CloseAll(ui.menu, build) && r.0.subMenuSelection == ui.subMenuSelection
    ensures r.1.StartAttack? <==> (report.actionType.Attack? && TargetGuard(report.targets, enemies) == Some(true) &&
               report.targets.value[0] >= 0)
    ensures r.1.StartAttack? ==> r.1.target == report.targets.value[0] && r.0.hero == ui.hero
    ensures r.1.StartSummon? <==> (report.actionType.Summon? && TargetGuard(report.targets, enemies) == Some(true) &&
               0 <= ui.subMenuSelection < |ui.hero.summons|)
    ensures r.1.StartSummon? ==> (r.1.id == ui.subMenuSelection && r.1.targets == enemies.value &&
               r.0.hero == ui.hero.(mp := ui.hero.mp - ui.hero.summons[ui.subMenuSelection].mpCost))
    ensures !r.1.StartSummon? ==> r.0.hero == ui.hero
  {
    match report.actionType
    case NoAction => (ui.(menu := BattleMenu.SetStateToPrevious(ui.menu)), Idle)
    case Attack =>
      var closed := ui.(menu := BattleMenu.CloseAll(ui.menu, build));
      var guard := TargetGuard(report.targets, enemies);
      if guard.None? then (closed, Fault)
      else if !guard.value then (closed, Idle)
      else if report.targets.value[0] < 0 then (closed, Fault)
      else (closed, StartAttack(report.targets.value[0]))
    case Cast => (ui, Idle)
    case Summon =>
      var closed := ui.(menu := BattleMenu.CloseAll(ui.menu, build));
      var guard := TargetGuard(report.targets, enemies);
      if guard.None? then (closed, Fault)
      else if !guard.value then (closed, Idle)
      else if !(0 <= ui.subMenuSelection < |ui.hero.summons|) then (closed, Fault)
      else
        var id := ui.subMenuSelection;
        var hero := ui.hero.(mp := ui.hero.mp - ui.hero.summons[id].mpCost);
        (closed.(hero := hero), StartSummon(id, enemies.value))
    case UseItem => (ui, Idle)
  }

  // ---------------------------------------------------------------------------
  // One button press

  function SubMenuOf(m: BattleMenu.Menu, name: MenuName): SubMenu.Menu
    requires name.CastMenu? || name.SummonMenu? || name.ItemMenu?
  {
    match name
    case CastMenu => m.cast
    case SummonMenu => m.summon
    case ItemMenu => m.item
  }

  function WithSubMenu(m: BattleMenu.Menu, name: MenuName, s: SubMenu.Menu): BattleMenu.Menu
    requires name.CastMenu? || name.SummonMenu? || name.ItemMenu?
  {
    match name
    case CastMenu => m.(cast := s)
    case SummonMenu => m.(summon := s)
    case ItemMenu => m.(item := s)
  }

  /**
   * A press routed to the action menu: Up and Down move its cursor, which
   * stays moved when reading its arrow throws; Confirm runs the callback
   * under the cursor, if any; Cancel does nothing, the party menu it would
   * lead to being unwritten.
   */
  function PressAction(ui: Ui, call: Call, n: nat): (r: (Ui, Command))
    ensures r.1 == Idle || r.1 == Fault
    ensures r.0.hero == ui.hero && r.0.subMenuSelection == ui.subMenuSelection
    ensures (call.PreviousCall? || call.NextCall?) ==>
              var moved := ActionMenu.Move(ui.menu.action, call.NextCall?);
              r.0 == ui.(menu := ui.menu.(action := moved.state)) && (r.1 == Fault <==> moved.threw)
    ensures call.ExecuteCall? ==>
              r == (if ActionMenu.Execute(ui.menu.action).Some?
                    then ActionCallback(ui, ActionMenu.Execute(ui.menu.action).value, n) else ui, Idle)
    ensures call.CancelCall? ==> r == (ui, Idle)
  {
    match call
    case PreviousCall | NextCall =>
      var moved := ActionMenu.Move(ui.menu.action, call.NextCall?);
      (ui.(menu := ui.menu.(action := moved.state)), if moved.threw then Fault else Idle)
    case ExecuteCall =>
      var choice := ActionMenu.Execute(ui.menu.action);
      if choice.None? then (ui, Idle) else (ActionCallback(ui, choice.value, n), Idle)
    case CancelCall => (ui, Idle)
  }

  /**
   * A press routed to the cast, summon or item menu: Up and Down move its
   * cursor, which stays moved when reading its arrow throws; Confirm hands
   * the cursor to the menu's callback; Cancel goes back to the action menu.
   */
  function PressSubMenu(ui: Ui, name: MenuName, call: Call, n: nat, build: Build): (r: (Ui, Command))
    requires name.CastMenu? || name.SummonMenu? || name.ItemMenu?
    ensures r.1 == Idle || r.1 == ErrorIndicator || r.1 == Fault
    ensures r.0.hero == ui.hero
    ensures (call.PreviousCall? || call.NextCall?) ==>
              var moved := SubMenu.Move(SubMenuOf(ui.menu, name), call.NextCall?);
              r.0 == ui.(menu := WithSubMenu(ui.menu, name, moved.state)) && (r.1 == Fault <==> moved.threw)
    ensures call.CancelCall? ==> r == (GoBackToActionMenu(ui), Idle)
  {
    var sub := SubMenuOf(ui.menu, name);
    match call
    case PreviousCall | NextCall =>
      var moved := SubMenu.Move(sub, call.NextCall?);
      (ui.(menu := WithSubMenu(ui.menu, name, moved.state)), if moved.threw then Fault else Idle)
    case ExecuteCall =>
      var id := SubMenu.Execute(sub);
      if id.None? then (ui, Idle)
      else if name.CastMenu? then PostCastCallback(ui, id.value, n, build)
      else if name.SummonMenu? then PostSummonCallback(ui, id.value, n, build)
      else PostItemCallback(ui, id.value)
    case CancelCall => (GoBackToActionMenu(ui), Idle)
  }

  /**
   * A press routed to the target menu, over the current enemy roster: Up
   * and Down move its cursor, which stays moved when reading its arrow
   * throws; Confirm and Cancel report to `TargetCallback`.
   */
  function PressTarget(ui: Ui, call: Call, enemies: Option<seq<Character>>, build: Build): (r: (Ui, Command))
    ensures (call.PreviousCall? || call.NextCall?) ==>
              var moved := TargetMenu.Move(ui.menu.target, TurnBasedSystem.Size(enemies), call.NextCall?);
              r.0 == ui.(menu := ui.menu.(target := moved.state)) && (r.1 == Fault <==> moved.threw)
    ensures call.CancelCall? ==> r == (ui.(menu := BattleMenu.SetStateToPrevious(ui.menu.(target := ui.menu.target.(view := TargetMenu.Hidden)))), Idle)
    ensures call.ExecuteCall? ==>
              r == TargetCallback(ui.(menu := ui.menu.(target := ui.menu.target.(view := TargetMenu.Hidden))),
                                  TargetMenu.Report(ui.menu.target.actionType, Some([ui.menu.target.selection])),
                                  enemies, build)
  {
    var n := TurnBasedSystem.Size(enemies);
    match call
    case PreviousCall | NextCall =>
      var moved := TargetMenu.Move(ui.menu.target, n, call.NextCall?);
      (ui.(menu := ui.menu.(target := moved.state)), if moved.threw then Fault else Idle)
    case ExecuteCall =>
      var (t, report) := TargetMenu.Execute(ui.menu.target);
      TargetCallback(ui.(menu := ui.menu.(target := t)), report, enemies, build)
    case CancelCall =>
      var (t, report) := TargetMenu.Cancel(ui.menu.target);
      TargetCallback(ui.(menu := ui.menu.(target := t)), report, enemies, build)
  }

  /**
   * One press of a button: the controls route it by their state, and the
   * menu and callbacks it reaches do the rest. The target menu's arrows are
   * the enemy party's, one per member of the current roster.
   */
  function Press(ui: Ui, b: Button, enemies: Option<seq<Character>>, build: Build): (r: (Ui, Command))
    ensures Dispatch(ui.menu.control, b) == Ignore ==> r == (ui, Idle)
    ensures r.1.StartAttack? || r.1.StartSummon? ==> ui.menu.control == TargetSelection && b == Confirm
  {
    var n := TurnBasedSystem.Size(enemies);
    match Dispatch(ui.menu.control, b)
    case Ignore => (ui, Idle)
    case Invoke(name, call) =>
      if name.ActionMenu? then PressAction(ui, call, n)
      else if name.TargetMenu? then PressTarget(ui, call, enemies, build)
      else PressSubMenu(ui, name, call, n, build)
  }

  /**
   * A new ally turn (`SetCurrentCharacter`, then `ShowActionMenu`): the
   * character becomes the hero and the action menu opens.
   */
  function StartAllyTurn(ui: Ui, hero: Character, build: Build): (r: Ui)
    ensures r.hero == hero && r.subMenuSelection == ui.subMenuSelection
    ensures r.menu.control == ActionSelection && r.menu.current == ActionSelection
    ensures r.menu.action == ActionMenu.ResetSelection(ui.menu.action, build)
  {
    ui.(hero := hero, menu := BattleMenu.ShowActionMenu(ui.menu, build))
  }

  /**
   * The menu part of `Init` before the first turn: the action menu gets its
   * four callbacks, each sub-menu the first character, the target menu
   * action type 0; `BattleMenu.Init` switches the controls off and
   * `ControlManager.Init` then puts them on the action menu.
   */
  function Setup(hero: Character, enemyCount: nat, actionArrows: nat, castArrows: nat, summonArrows: nat, itemArrows: nat, build: Build): (r: Ui)
    ensures r.hero == hero && r.menu.control == ActionSelection
    ensures r.menu.current == NoState && r.menu.previous == NoState
    ensures r.menu.action.callbacks == ActionMenu.Callbacks() && r.menu.action.selection == 0
    ensures r.menu.cast.selection == 0 && r.menu.summon.selection == 0 && r.menu.item.selection == 0
    ensures r.menu.target.actionType == TargetMenu.NoAction && r.menu.target.selection == 0
  {
    var menu := BattleMenu.Menu(
      NoState, NoState, NoState,
      ActionMenu.Init(ActionMenu.Callbacks(), actionArrows, build),
      SubMenu.Init(hero, SubMenu.CastMenu, castArrows),
      SubMenu.Init(hero, SubMenu.SummonMenu, summonArrows),
      SubMenu.Init(hero, SubMenu.ItemMenu, itemArrows),
      TargetMenu.Init(enemyCount, TargetMenu.NoAction));
    Ui(BattleMenu.Init(menu).(control := ControlManager.Init()), hero, 0)
  }

  // ---------------------------------------------------------------------------
  // What the corrected callbacks keep true

  /** A sub-menu's cursor sits on one of its arrows. */
  predicate SubMenuReady(s: SubMenu.Menu) {
    0 <= s.selection < s.arrows
  }

  /**
   * The menus agree with each other and with the hero: the action menu shows
   * the arrow it would run, every cursor is on an arrow, the controls follow
   * the current state, and in target selection the cursor is on an enemy,
   * the way back leads to the menu that came before, and a pending summon is
   * one the hero can pay for. The hero's mp is not negative.
   */
  predicate Coherent(ui: Ui, n: nat) {
    var m := ui.menu;
    ui.hero.mp >= 0 &&
    m.action.callbacks == ActionMenu.Callbacks() && ActionMenu.Consistent(m.action) &&
    SubMenuReady(m.cast) && SubMenuReady(m.summon) && SubMenuReady(m.item) &&
    (m.control != NoState ==> m.current == m.control) &&
    (m.control == TargetSelection ==>
       0 <= m.target.selection < n &&
       m.previous in {ActionSelection, CastSelection, SummonSelection} &&
       m.target.actionType in {TargetMenu.Attack, TargetMenu.Cast, TargetMenu.Summon} &&
       (m.target.actionType == TargetMenu.Summon ==> Affordable(ui.hero, ui.subMenuSelection)))
  }

  /** Setup and the first ally turn leave the menus coherent. */
  lemma SetupIsCoherent(hero: Character, first: Character, enemyCount: nat, actionArrows: nat, castArrows: nat, summonArrows: nat, itemArrows: nat, n: nat)
    requires actionArrows > 0 && castArrows > 0 && summonArrows > 0 && itemArrows > 0
    requires first.mp >= 0
    ensures Coherent(StartAllyTurn(Setup(hero, enemyCount, actionArrows, castArrows, summonArrows, itemArrows, ActionMenu.Corrected), first, ActionMenu.Corrected), n)
  {
  }

  /** Every ally turn starts coherent, whatever the roster has become. */
  lemma StartAllyTurnIsCoherent(ui: Ui, hero: Character, n: nat, n': nat)
    requires Coherent(ui, n) && hero.mp >= 0
    ensures Coherent(StartAllyTurn(ui, hero, ActionMenu.Corrected), n')
  {
  }

  lemma PressActionIsCoherent(ui: Ui, call: Call, n: nat)
    requires Coherent(ui, n) && n >= 1 && ui.menu.control == ActionSelection
    ensures Coherent(PressAction(ui, call, n).0, n) && PressAction(ui, call, n).1 == Idle
  {
    match call
    case PreviousCall =>
      ActionMenu.MoveRoundTrip(ui.menu.action, false);
    case NextCall =>
      ActionMenu.MoveRoundTrip(ui.menu.action, true);
    case ExecuteCall =>
    case CancelCall =>
  }

  lemma PressSubMenuIsCoherent(ui: Ui, name: MenuName, call: Call, n: nat)
    requires name.CastMenu? || name.SummonMenu? || name.ItemMenu?
    requires Coherent(ui, n) && n >= 1 && ui.menu.control == StateOf(name)
    ensures var (ui', cmd) := PressSubMenu(ui, name, call, n, ActionMenu.Corrected);
            Coherent(ui', n) &&
            (cmd == Fault <==> name.SummonMenu? && call.ExecuteCall? && HasSummons(ui.hero) &&
                               ui.menu.summon.selection >= |ui.hero.summons|)
  {
    var sub := SubMenuOf(ui.menu, name);
    match call
    case PreviousCall =>
      SubMenu.MoveRoundTrip(sub, false);
    case NextCall =>
      SubMenu.MoveRoundTrip(sub, true);
    case ExecuteCall =>
    case CancelCall =>
  }

  lemma PressTargetIsCoherent(ui: Ui, call: Call, enemies: Option<seq<Character>>)
    requires Coherent(ui, TurnBasedSystem.Size(enemies)) && TurnBasedSystem.Size(enemies) >= 1
    requires ui.menu.control == TargetSelection
    ensures var (ui', cmd) := PressTarget(ui, call, enemies, ActionMenu.Corrected);
            Coherent(ui', TurnBasedSystem.Size(enemies)) && cmd != Fault &&
            (cmd.StartAttack? ==> 0 <= cmd.target < TurnBasedSystem.Size(enemies)) &&
            (cmd.StartSummon? ==> ui'.hero.mp == ui.hero.mp - ui.hero.summons[cmd.id].mpCost) &&
            (cmd.StartAttack? || cmd.StartSummon? ==> ui'.menu.control == NoState)
  {
    var n := TurnBasedSystem.Size(enemies);
    match call
    case PreviousCall =>
      Cursor.NextPreviousInverse(ui.menu.target.selection, n);
    case NextCall =>
      Cursor.NextPreviousInverse(ui.menu.target.selection, n);
    case ExecuteCall =>
    case CancelCall =>
  }

  /**
   * With the corrected callbacks and a standing enemy roster, every press
   * keeps the menus coherent, so the hero's mp never goes negative; a
   * summon is paid at exactly its cost; an attack targets a member of the
   * roster; either one closes the menus; and the only fault left is a
   * summon chosen past the hero's list.
   */
  lemma PressIsCoherent(ui: Ui, b: Button, enemies: Option<seq<Character>>)
    requires Coherent(ui, TurnBasedSystem.Size(enemies)) && TurnBasedSystem.Size(enemies) >= 1
    ensures var (ui', cmd) := Press(ui, b, enemies, ActionMenu.Corrected);
            Coherent(ui', TurnBasedSystem.Size(enemies)) && ui'.hero.mp >= 0 &&
            (cmd == Fault ==> ui.menu.control == SummonSelection && b == Confirm &&
                              ui.menu.summon.selection >= |ui.hero.summons|) &&
            (cmd.StartAttack? ==> 0 <= cmd.target < TurnBasedSystem.Size(enemies)) &&
            (cmd.StartSummon? ==> ui'.hero.mp == ui.hero.mp - ui.hero.summons[cmd.id].mpCost) &&
            (cmd.StartAttack? || cmd.StartSummon? ==> ui'.menu.control == NoState)
  {
    var n := TurnBasedSystem.Size(enemies);
    DispatchRoutesToStateMenu(ui.menu.control, b);
    match Dispatch(ui.menu.control, b)
    case Ignore =>
    case Invoke(name, call) =>
      if name.ActionMenu? {
        PressActionIsCoherent(ui, call, n);
      } else if name.TargetMenu? {
        PressTargetIsCoherent(ui, call, enemies);
      } else {
        PressSubMenuIsCoherent(ui, name, call, n);
      }
  }

  /**
   * With the corrected callbacks, confirming a pending summon always starts
   * it against the whole roster: the target cursor cannot have been left
   * past the end of the roster.
   */
  lemma ConfirmedSummonStarts(ui: Ui, enemies: Option<seq<Character>>)
    requires Coherent(ui, TurnBasedSystem.Size(enemies)) && TurnBasedSystem.Size(enemies) >= 1
    requires ui.menu.control == TargetSelection && ui.menu.target.actionType == TargetMenu.Summon
    ensures Press(ui, Confirm, enemies, ActionMenu.Corrected).1 == StartSummon(ui.subMenuSelection, enemies.value)
  {
  }
}
