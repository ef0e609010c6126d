/**
 * Whole battles and menu sessions on concrete characters: two attacks that
 * win a battle, a summon the hero cannot pay for, and the two menu defects
 * of the as-written callbacks played out from the start of a battle.
 */
module Scenarios {
  import opened Wrappers
  import opened Characters
  import opened ControlManager
  import Attacker
  import Attackable
  import Party
  import TurnBasedSystem
  import ActionMenu
  import TargetMenu
  import BattleManager

  const Sword := Weapon(false, 40, 40)
  const Axe := Weapon(false, 70, 70)

  /** A started character with the given pools and lists, at roster position `memberId`. */
  function Fighter(uid: nat, memberId: int, hp: int, mp: int, casts: seq<Cast>, summons: seq<Summon>, weapon: Weapon): (c: Character)
    ensures c.uid == uid && c.memberId == memberId && c.hp == hp && c.mp == mp
    ensures c.casts == casts && c.summons == summons && c.items == [] && c.weapon == weapon
    ensures GetArmorRate(c) == 0.0
  {
    Start(Spawn(uid, hp, mp, casts, summons, [], weapon, uid)).(memberId := memberId)
  }

  /**
   * Two allies against one enemy of 100 hp without armor: the first ally's
   * 40 leaves it at 60 and the turn passes to the second ally, whose 70
   * terminates it; the enemy roster becomes null and the next turn is a
   * victory.
   */
  lemma TwoAttacksWinTheBattle()
    ensures var a0 := Fighter(1, 0, 100, 0, [], [], Sword);
            var a1 := Fighter(2, 1, 100, 0, [], [], Axe);
            var foe := Fighter(3, 0, 100, 0, [], [], Sword);
            var allies := Some([a0, a1]);
            var enemies0 := Party.Party(Some([foe]), Some([3]), 1, None, None, true);
            var step1 := TurnBasedSystem.Next(allies, enemies0.characters, TurnBasedSystem.Counters(0, 0));
            var enemies1 := Party.EndureMember(enemies0, 0, 40);
            var step2 := TurnBasedSystem.Next(allies, enemies1.characters, step1.turn);
            var enemies2 := Party.EndureMember(enemies1, 0, 70);
            step1.decision == TurnBasedSystem.AllyTurn(0, a0) &&
            Attacker.AttackEffects(InitWeapon(Sword), Attacker.AttackSignals(Sword)) == [Attacker.Damage(40), Attacker.DoneWithTurn] &&
            enemies1.characters.Some? && enemies1.characters.value[0].hp == 60 &&
            step2.decision == TurnBasedSystem.AllyTurn(1, a1) &&
            Attacker.AttackEffects(InitWeapon(Axe), Attacker.AttackSignals(Axe)) == [Attacker.Damage(70), Attacker.DoneWithTurn] &&
            enemies2.characters == None && enemies2.arrows == None &&
            TurnBasedSystem.Next(allies, enemies2.characters, step2.turn).decision == TurnBasedSystem.Victory
  {
    Attacker.OneDamagePerAttack(Sword);
    Attacker.OneDamagePerAttack(Axe);
    var foe := Fighter(3, 0, 100, 0, [], [], Sword);
    var enemies0 := Party.Party(Some([foe]), Some([3]), 1, None, None, true);
    var enemies1 := Party.EndureMember(enemies0, 0, 40);
    assert enemies1.characters.value[0].hp == 60;
    var enemies2 := Party.EndureMember(enemies1, 0, 70);
    assert enemies2.characters == None;
  }

  const Ifrit := Summon("Ifrit", 20, 30)
  const Fire := Cast("Fire")

  /**
   * A summon costing 20 chosen by a hero with 10 mp: the error indicator,
   * and nothing else changes, so the menus stay in summon selection and
   * the mp stays 10.
   */
  lemma SummonShortOfMp(build: ActionMenu.Build)
    ensures var hero := Fighter(1, 0, 100, 10, [], [Ifrit], Sword);
            var ui0 := BattleManager.StartAllyTurn(BattleManager.Setup(hero, 1, 4, 3, 3, 3, build), hero, build);
            var (ui1, _) := BattleManager.Press(ui0, Down, Some([hero]), build);
            var (ui2, _) := BattleManager.Press(ui1, Down, Some([hero]), build);
            var (ui3, c3) := BattleManager.Press(ui2, Confirm, Some([hero]), build);
            var (ui4, c4) := BattleManager.Press(ui3, Confirm, Some([hero]), build);
            ui3.menu.control == SummonSelection && c3 == BattleManager.Idle &&
            c4 == BattleManager.ErrorIndicator && ui4 == ui3 &&
            ui4.menu.control == SummonSelection && ui4.hero.mp == 10
  {
  }

  /**
   * As written, a summon leaves both stale values behind: a lone hero with
   * one cast, one 20-mp summon and 20 mp summons in the first turn (Down,
   * Down, Confirm, Confirm, Confirm), paying all its mp; afterwards the
   * action cursor is still on Summon and the target menu still holds Summon.
   */
  lemma SummonLeavesStaleChoice()
    ensures var hero := Fighter(1, 0, 100, 20, [Fire], [Ifrit], Sword);
            var foes := Some([Fighter(2, 0, 500, 0, [], [], Sword)]);
            var w := ActionMenu.AsWritten;
            var ui0 := BattleManager.StartAllyTurn(BattleManager.Setup(hero, 1, 4, 3, 3, 3, w), hero, w);
            var (ui1, _) := BattleManager.Press(ui0, Down, foes, w);
            var (ui2, _) := BattleManager.Press(ui1, Down, foes, w);
            var (ui3, _) := BattleManager.Press(ui2, Confirm, foes, w);
            var (ui4, _) := BattleManager.Press(ui3, Confirm, foes, w);
            var (ui5, c5) := BattleManager.Press(ui4, Confirm, foes, w);
            c5 == BattleManager.StartSummon(0, foes.value) && ui5.hero.mp == 0 &&
            ui5.hero == hero.(mp := 0) && ui5.menu.control == NoState &&
            ui5.menu.action == ActionMenu.Menu(ActionMenu.Callbacks(), 4, 2, 0) &&
            ui5.menu.cast.arrows == 3 && ui5.menu.cast.selection == 0 &&
            ui5.menu.target.actionType == TargetMenu.Summon
  {
  }

  /**
   * As written, a cast chosen while the target menu still holds Summon
   * replays a summon. In an ally turn that starts with the action cursor
   * left on Summon, the Attack arrow shows, so Up moves to Cast; confirming
   * the cast and its target starts the summon whose index is the cast's,
   * and charges its cost whatever mp is left.
   */
  lemma StaleSummonReplaysOnCast(ui: BattleManager.Ui, hero: Character, enemies: Option<seq<Character>>)
    requires ui.menu.action == ActionMenu.Menu(ActionMenu.Callbacks(), 4, 2, ui.menu.action.shown)
    requires ui.menu.cast.arrows > 0 && ui.menu.cast.selection == 0
    requires ui.menu.target.actionType == TargetMenu.Summon
    requires HasCasts(hero) && HasSummons(hero)
    requires TurnBasedSystem.Size(enemies) > 0
    ensures var w := ActionMenu.AsWritten;
            var ui6 := BattleManager.StartAllyTurn(ui, hero, w);
            var (ui7, _) := BattleManager.Press(ui6, Up, enemies, w);
            var (ui8, _) := BattleManager.Press(ui7, Confirm, enemies, w);
            var (ui9, _) := BattleManager.Press(ui8, Confirm, enemies, w);
            var (ui10, c10) := BattleManager.Press(ui9, Confirm, enemies, w);
            ui6.menu.action.shown == 0 && ui7.menu.action.selection == 1 &&
            ui8.menu.control == CastSelection &&
            ui9.menu.control == TargetSelection && ui9.menu.target.actionType == TargetMenu.Summon &&
            c10 == BattleManager.StartSummon(0, enemies.value) &&
            ui10.hero.mp == hero.mp - hero.summons[0].mpCost
  {
  }

  /**
   * The two turns together: with the hero's mp at 0 after the first summon,
   * the cast in the next turn pays the summon again, and mp goes to -20.
   */
  lemma CastReplaysStaleSummon()
    ensures var hero := Fighter(1, 0, 100, 20, [Fire], [Ifrit], Sword);
            var foes := Some([Fighter(2, 0, 500, 0, [], [], Sword)]);
            var w := ActionMenu.AsWritten;
            var ui0 := BattleManager.StartAllyTurn(BattleManager.Setup(hero, 1, 4, 3, 3, 3, w), hero, w);
            var (ui1, _) := BattleManager.Press(ui0, Down, foes, w);
            var (ui2, _) := BattleManager.Press(ui1, Down, foes, w);
            var (ui3, _) := BattleManager.Press(ui2, Confirm, foes, w);
            var (ui4, _) := BattleManager.Press(ui3, Confirm, foes, w);
            var (ui5, _) := BattleManager.Press(ui4, Confirm, foes, w);
            var ui6 := BattleManager.StartAllyTurn(ui5, ui5.hero, w);
            var (ui7, _) := BattleManager.Press(ui6, Up, foes, w);
            var (ui8, _) := BattleManager.Press(ui7, Confirm, foes, w);
            var (ui9, _) := BattleManager.Press(ui8, Confirm, foes, w);
            var (ui10, c10) := BattleManager.Press(ui9, Confirm, foes, w);
            c10 == BattleManager.StartSummon(0, foes.value) && ui10.hero.mp == -20
  {
    var hero := Fighter(1, 0, 100, 20, [Fire], [Ifrit], Sword);
    var foes := Some([Fighter(2, 0, 500, 0, [], [], Sword)]);
    var w := ActionMenu.AsWritten;
    var ui0 := BattleManager.StartAllyTurn(BattleManager.Setup(hero, 1, 4, 3, 3, 3, w), hero, w);
    var (ui1, _) := BattleManager.Press(ui0, Down, foes, w);
    var (ui2, _) := BattleManager.Press(ui1, Down, foes, w);
    var (ui3, _) := BattleManager.Press(ui2, Confirm, foes, w);
    var (ui4, _) := BattleManager.Press(ui3, Confirm, foes, w);
    var (ui5, _) := BattleManager.Press(ui4, Confirm, foes, w);
    SummonLeavesStaleChoice();
    StaleSummonReplaysOnCast(ui5, ui5.hero, foes);
  }

  /**
   * As written, an attack leaves the target cursor where it was: against
   * two enemies the hero attacks the second (Confirm, Down, Confirm), whose
   * 50 hp fall to the axe's 70, leaving one enemy while the cursor stays on
   * the second place.
   */
  lemma AttackLeavesTargetCursorBehind()
    ensures var hero := Fighter(1, 0, 100, 20, [], [Ifrit], Axe);
            var e0 := Fighter(2, 0, 500, 0, [], [], Sword);
            var e1 := Fighter(3, 1, 50, 0, [], [], Sword);
            var w := ActionMenu.AsWritten;
            var foes := Party.Party(Some([e0, e1]), Some([2, 3]), 2, None, None, true);
            var ui0 := BattleManager.StartAllyTurn(BattleManager.Setup(hero, 2, 4, 3, 3, 3, w), hero, w);
            var (ui1, _) := BattleManager.Press(ui0, Confirm, foes.characters, w);
            var (ui2, _) := BattleManager.Press(ui1, Down, foes.characters, w);
            var (ui3, c3) := BattleManager.Press(ui2, Confirm, foes.characters, w);
            var left := Party.EndureMember(foes, 1, hero.weapon.ap);
            c3 == BattleManager.StartAttack(1) && left.characters == Some([e0]) &&
            ui3.menu.control == NoState && ui3.menu.target.selection == 1 &&
            ui3.menu.action == ActionMenu.Menu(ActionMenu.Callbacks(), 4, 0, 0) &&
            ui3.menu.summon.arrows == 3
  {
    var e0 := Fighter(2, 0, 500, 0, [], [], Sword);
    var e1 := Fighter(3, 1, 50, 0, [], [], Sword);
    assert Attackable.Endure(e1, 70).terminated;
    assert Party.Indexed([e0, e1]);
    assert [e0, e1][..1] + [e0, e1][2..] == [e0];
    assert Party.Reindex([e0]) == [e0];
  }

  /**
   * As written, a summon confirmed with the target cursor past the end of
   * a shrunken roster locks the battle up. From an ally turn with the action
   * cursor on Attack, Down, Down, Confirm, Confirm, Confirm reaches the
   * target menu for an affordable summon with the cursor unmoved; the guard
   * fails after the menus have closed, nothing starts, no turn ends, and
   * every further press is ignored.
   */
  lemma SummonPastShrunkRosterLocksUp(ui: BattleManager.Ui, hero: Character, enemies: Option<seq<Character>>)
    requires ui.menu.action == ActionMenu.Menu(ActionMenu.Callbacks(), 4, 0, ui.menu.action.shown)
    requires ui.menu.summon.arrows > 0
    requires BattleManager.Affordable(hero, 0)
    requires 0 < TurnBasedSystem.Size(enemies) <= ui.menu.target.selection
    ensures var w := ActionMenu.AsWritten;
            var ui4 := BattleManager.StartAllyTurn(ui, hero, w);
            var (ui5, _) := BattleManager.Press(ui4, Down, enemies, w);
            var (ui6, _) := BattleManager.Press(ui5, Down, enemies, w);
            var (ui7, _) := BattleManager.Press(ui6, Confirm, enemies, w);
            var (ui8, _) := BattleManager.Press(ui7, Confirm, enemies, w);
            var (ui9, c9) := BattleManager.Press(ui8, Confirm, enemies, w);
            ui8.menu.control == TargetSelection && ui8.menu.target.actionType == TargetMenu.Summon &&
            ui8.menu.target.selection == ui.menu.target.selection &&
            c9 == BattleManager.Idle && ui9.menu.control == NoState && ui9.hero == hero &&
            forall b: Button :: BattleManager.Press(ui9, b, enemies, w) == (ui9, BattleManager.Idle)
  {
  }

  /**
   * The two turns together: after the kill, the next turn's summon is
   * swallowed and the battle cannot go on.
   */
  lemma SummonAfterKillLocksUp()
    ensures var hero := Fighter(1, 0, 100, 20, [], [Ifrit], Axe);
            var e0 := Fighter(2, 0, 500, 0, [], [], Sword);
            var e1 := Fighter(3, 1, 50, 0, [], [], Sword);
            var w := ActionMenu.AsWritten;
            var foes := Party.Party(Some([e0, e1]), Some([2, 3]), 2, None, None, true);
            var ui0 := BattleManager.StartAllyTurn(BattleManager.Setup(hero, 2, 4, 3, 3, 3, w), hero, w);
            var (ui1, _) := BattleManager.Press(ui0, Confirm, foes.characters, w);
            var (ui2, _) := BattleManager.Press(ui1, Down, foes.characters, w);
            var (ui3, _) := BattleManager.Press(ui2, Confirm, foes.characters, w);
            var left := Party.EndureMember(foes, 1, hero.weapon.ap);
            var ui4 := BattleManager.StartAllyTurn(ui3, hero, w);
            var (ui5, _) := BattleManager.Press(ui4, Down, left.characters, w);
            var (ui6, _) := BattleManager.Press(ui5, Down, left.characters, w);
            var (ui7, _) := BattleManager.Press(ui6, Confirm, left.characters, w);
            var (ui8, _) := BattleManager.Press(ui7, Confirm, left.characters, w);
            var (ui9, c9) := BattleManager.Press(ui8, Confirm, left.characters, w);
            c9 == BattleManager.Idle && ui9.menu.control == NoState &&
            forall b: Button :: BattleManager.Press(ui9, b, left.characters, w) == (ui9, BattleManager.Idle)
  {
    var hero := Fighter(1, 0, 100, 20, [], [Ifrit], Axe);
    var e0 := Fighter(2, 0, 500, 0, [], [], Sword);
    var e1 := Fighter(3, 1, 50, 0, [], [], Sword);
    var w := ActionMenu.AsWritten;
    var foes := Party.Party(Some([e0, e1]), Some([2, 3]), 2, None, None, true);
    var ui0 := BattleManager.StartAllyTurn(BattleManager.Setup(hero, 2, 4, 3, 3, 3, w), hero, w);
    var (ui1, _) := BattleManager.Press(ui0, Confirm, foes.characters, w);
    var (ui2, _) := BattleManager.Press(ui1, Down, foes.characters, w);
    var (ui3, _) := BattleManager.Press(ui2, Confirm, foes.characters, w);
    var left := Party.EndureMember(foes, 1, hero.weapon.ap);
    AttackLeavesTargetCursorBehind();
    SummonPastShrunkRosterLocksUp(ui3, hero, left.characters);
  }

  /**
   * A target cursor three places past a one-enemy roster: each Up throws
   * while the cursor is still off the arrows, yet steps it one place back,
   * so the third press lands on the enemy.
   */
  lemma StrayTargetCursorWalksBack(ui: BattleManager.Ui, enemies: Option<seq<Character>>, build: ActionMenu.Build)
    requires ui.menu.control == TargetSelection && ui.menu.target.selection == 3
    requires TurnBasedSystem.Size(enemies) == 1
    ensures var (ui1, c1) := BattleManager.Press(ui, Up, enemies, build);
            var (ui2, c2) := BattleManager.Press(ui1, Up, enemies, build);
            var (ui3, c3) := BattleManager.Press(ui2, Up, enemies, build);
            c1 == BattleManager.Fault && ui1.menu.target.selection == 2 &&
            c2 == BattleManager.Fault && ui2.menu.target.selection == 1 &&
            c3 == BattleManager.Idle && ui3.menu.target.selection == 0 &&
            ui3.menu.target.view == TargetMenu.One(0)
  {
  }
}
