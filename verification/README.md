# Turn-based battle core, modelled in Dafny

A model of the discrete battle logic of a Unity turn-based RPG battle system (C#), with the engine plumbing stripped away. The model has six parts:

- **Characters and parties** (`characters.dfy`, `party.dfy`). A character is an immutable record. Its `uid` stands for the C# object identity, and `arrow` stands for the selection arrow it serves. A party roster is `Option<seq<Character>>`, where `None` is the C# null array. The roster keeps the invariant `memberId == index`, and its arrow array is rebuilt from the roster after every change.
- **Damage** (`attackable.dfy`, `attacker.dfy`).
  - Armor adjustment truncates toward zero, as the C# `(int)` cast does.
  - `Endure` clamps hp at 0 and reports termination. A terminated member is removed from its party by memberId.
  - Which completion signal of an attack applies the damage: the animation end is caller id 1, the projectile arrival is caller id 2.
  - The summon guard.
  - The summon's area damage over the enemy array captured when the summon starts. Each captured target is found again by identity in the live roster.
- **Turn scheduler** (`turns.dfy`). `Next` is a pure decision over the two rosters and the `playerTurn`/`enemyTurn` counters. The checks run in order: Victory, Defeat, the next ally, reset and recurse, then an enemy turn. `Random.Range` becomes a predicate on the drawn value.
- **Menus** (`cursor.dfy`, `action_menu.dfy`, `sub_menu.dfy`, `target_menu.dfy`, `battle_menu.dfy`, `control_manager.dfy`).
  - A wrap-around cursor per menu.
  - The battle menu's current state and single remembered previous state.
  - The control manager's four dispatch tables.
  - A cursor move first assigns the wrapped selection and then reads the arrow under it, which throws when that place is off the arrows. The move returns the moved menu with `Outcome.threw` set, and a press reports the throw as `Fault` while keeping the moved cursor.
- **Battle manager callbacks** (`battle_manager.dfy`).
  - What each menu's confirm leads to, and the guards on entry to target selection.
  - The target dispatch to an attack or a summon, with the summon's mana cost.
  - Rewards.
  - `Press` runs one button press through controls, menus and callbacks. It returns the new menu state and the command the press starts: nothing, the error indicator, a C# fault, an attack, or a summon.
- **Scenarios** (`scenarios.dfy`). Whole battles and menu sessions on concrete characters.

Four defects of the code are modelled as written and corrected (see "## Findings"). Three of them concern the menus. They are selected by `ActionMenu.Build` (`AsWritten` or `Corrected`), which every menu operation they touch takes as a parameter. The coherence invariant `BattleManager.Coherent` is proved for the corrected build.

Three behaviours of the C# worth knowing before reading the model:

- **Party setup.** `Party.Init` skips `Setup` and `UpdateArrows` without any error when the status-bar arrays do not match the roster (Party.cs:30-41). `Party.Init` models that skip.
- **Enemy targets.** An enemy turn draws an index into the current ally roster (TurnBasedSystem.cs:94). Fallen allies have already been removed from that roster, so the draw is among the allies still standing.
- **`ActionType`.** The enum is not defined in the modelled sources. The model takes the order `None = 0, Attack, Cast, Summon, UseItem`, inferred from the `0` passed at BattleManager.cs line 167 and handled as cancel at line 359.

## Model

| member | source | states |
|---|---|---|
| Characters.Spawn | Assets/Scripts/Character/Character.cs:157 | a character before `Start` has its inspector data and an armor rate of 0 |
| Characters.Start | Assets/Scripts/Character/Character.cs:182-192 | hp and maxHp become initialHp, mp and maxMp become initialMp, nothing else changes; the character is terminated exactly when initialHp <= 0 |
| Characters.InitWeapon | Assets/Scripts/Character/Weapon.cs:88-93 | the weapon's attack points are its initial attack points |
| Characters.GetArmorRate | Assets/Scripts/Character/Character.cs:318-321 | the armor rate getter |
| Characters.IsTerminated | Assets/Scripts/Character/Character.cs:323-326 | a character is terminated exactly when its hp is at most 0 |
| Characters.HasCasts | Assets/Scripts/Character/Character.cs:333-336 | a character has casts exactly when its list is non-empty |
| Characters.HasSummons | Assets/Scripts/Character/Character.cs:338-341 | a character has summons exactly when its list is non-empty |
| Characters.HasItems | Assets/Scripts/Character/Character.cs:343-346 | a character has items exactly when its list is non-empty |
| Attackable.Truncate | Assets/Scripts/Character/Attackable.cs:67 | the `(int)` cast rounds toward zero from either side |
| Attackable.AdjustAttackToArmor | Assets/Scripts/Character/Attackable.cs:65-68 | at armor rate 0 the full attack is endured; for ap >= 0 and a rate in [0, 1] the endured points lie in [0, ap] |
| Attackable.Endure | Assets/Scripts/Character/Attackable.cs:41-57 | hp becomes max(0, hp - endured); termination happens exactly when hp - endured <= 0, which is exactly when the result is terminated; only hp changes; a healthy target stays healthy |
| Attackable.EndureOnFallenTerminatesAgain | Assets/Scripts/Character/Attackable.cs:44-49 | a target already at hp 0 hit for 0 is terminated again and left unchanged |
| Party.Reindex | Assets/Scripts/Party.cs:99-111 | survivors are renumbered densely: memberId equals position, and nothing else changes |
| Party.ArrowsOf | Assets/Scripts/Party.cs:67-85 | the arrow array is null exactly when the roster is; otherwise it has one arrow per member, in roster order |
| Party.UpdateArrows | Assets/Scripts/Party.cs:67-86 | the loop builds exactly the arrow array of the roster, and only the arrows change |
| Party.WithSlotIds | Assets/Scripts/Party.cs:45-57 | a character with a slot gets its position as memberId; characters beyond the slot count keep theirs; with enough slots the roster is indexed |
| Party.Setup | Assets/Scripts/Party.cs:43-59 | the placement loop gives memberId k to the character at each position k below the slot count and leaves the others unchanged |
| Party.Init | Assets/Scripts/Party.cs:30-41 | for an enemy party, or bar arrays matching the roster, the roster is placed and the arrows rebuilt; otherwise the roster is stored with no memberIds and old arrows |
| Party.Removal | Assets/Scripts/Party.cs:97-117 | a roster of one becomes null; otherwise one member fewer, the survivors in order with position `index` deleted, and indexed |
| Party.Removed | Assets/Scripts/Party.cs:93-119 | the roster is the removal's and the arrows are rebuilt to match; nothing else changes |
| Party.RemoveFromParty | Assets/Scripts/Party.cs:93-119 | the copying loop deletes position `index`, keeps the order, renumbers survivors to their new positions, nulls a roster of one, and rebuilds the arrows |
| Party.EndureMember | Assets/Scripts/Character/Character.cs:282-284 | a surviving member changes only its hp in place; a fallen member is removed by its memberId; the index invariant and the arrow array are kept |
| Attacker.AttackSignals | Assets/Scripts/Character/Attacker.cs:66-71 | an attack always receives the animation end, and the projectile arrival exactly for a long-range weapon, each once |
| Attacker.PostAttackEffects | Assets/Scripts/Character/Attacker.cs:92-104 | nothing happens exactly for caller id 1 on a long-range weapon; otherwise the damage is applied before the turn ends |
| Attacker.InflictAttackDamage | Assets/Scripts/Character/Attacker.cs:136-139 | one hit at the weapon's attack points |
| Attacker.AttackEffects | Assets/Scripts/Character/Attacker.cs:92-104 | whatever signals fire, each one that gets past the early return deals the weapon's attack points and then ends the turn: the effects alternate damage and end of turn, two per landing signal |
| Attacker.AttackEffectsConcat | Assets/Scripts/Character/Attacker.cs:92-104 | each callback acts on its own, so the effects of signals firing one batch after another are the effects of each batch in turn |
| Attacker.OneDamagePerAttack | Assets/Scripts/Character/Attacker.cs:66-104 | melee or long range, a whole attack deals its initial attack points exactly once, then ends the turn |
| Attacker.SummonEffects | Assets/Scripts/Character/Attacker.cs:73-116 | an id past the summons does nothing; otherwise one hit of the summon's points per captured target, in order, and then the turn ends |
| Attacker.Volley | Assets/Scripts/Character/Attacker.cs:157-163 | the captured targets the volley leaves standing are all alive and were all captured |
| Attacker.VolleyKeepsExactlySurvivors | Assets/Scripts/Character/Attacker.cs:157-163 | a captured target is in the result exactly when its hit does not terminate it, as the hit leaves it |
| Attacker.SummonStep | Assets/Scripts/Character/Attacker.cs:159-162 | the next captured target, found by identity, sits just past the survivors so far, and hitting it advances the roster by one target |
| Attacker.HitCapturedTarget | Assets/Scripts/Character/Attacker.cs:159-162 | one loop step: the next captured target is hit through the live roster, which then holds the survivors so far followed by the targets not yet hit, renumbered; nothing else in the party changes and arrows follow |
| Attacker.InflictSummonDamage | Assets/Scripts/Character/Attacker.cs:157-163 | after the loop, the enemy roster is the captured roster filtered to the survivors of the hit, in order and renumbered, or null if none survive; arrows follow |
| TurnBasedSystem.Size | Assets/Scripts/TurnBasedSystem.cs:46 | a roster counts as empty exactly when it is null or of length 0 |
| TurnBasedSystem.Next | Assets/Scripts/TurnBasedSystem.cs:44-73 | Victory exactly when no enemy is left; Defeat exactly when enemies remain and no ally; otherwise the next ally in order moves and playerTurn advances; an enemy turn only after all allies moved and while enemies remain |
| TurnBasedSystem.ResetCounters | Assets/Scripts/TurnBasedSystem.cs:98-102 | both counters become 0 |
| TurnBasedSystem.VictoryFirst | Assets/Scripts/TurnBasedSystem.cs:46-49 | an empty enemy roster wins whatever the allies and counters |
| TurnBasedSystem.DefeatSecond | Assets/Scripts/TurnBasedSystem.cs:50-53 | with enemies left, an empty ally roster loses, counters unchanged |
| TurnBasedSystem.AllyThird | Assets/Scripts/TurnBasedSystem.cs:54-60 | the ally at playerTurn becomes current; only playerTurn advances |
| TurnBasedSystem.ResetReachesFirstAlly | Assets/Scripts/TurnBasedSystem.cs:63-67 | when every ally and enemy has moved, the reset and recursion land on the first ally in one step |
| TurnBasedSystem.EnemyLast | Assets/Scripts/TurnBasedSystem.cs:68-71 | an enemy turn starts when the allies are done and an enemy is due |
| TurnBasedSystem.PickAsWrittenMissesLastAlly | Assets/Scripts/TurnBasedSystem.cs:92-96 | the drawn index is a valid ally, but with two or more allies never the last |
| TurnBasedSystem.PickCoversEveryAlly | Assets/Scripts/TurnBasedSystem.cs:94 | the corrected draw ranges over exactly the allies and includes every as-written draw |
| TurnBasedSystem.EnemyTurnStep | Assets/Scripts/TurnBasedSystem.cs:85-131 | the enemy at enemyTurn strikes a valid ally only while enemyTurn is in range, and enemyTurn advances either way |
| TurnBasedSystem.RoundRobin | Assets/Scripts/TurnBasedSystem.cs:44-73 | with both rosters standing, the turns from fresh counters are allies in order, then enemies in order, round after round |
| TurnBasedSystem.RunFrom | Assets/Scripts/TurnBasedSystem.cs:54-71 | from any point in a round, the scheduler follows the round-robin schedule from the matching place |
| TurnBasedSystem.EndEvents | Assets/Scripts/TurnBasedSystem.cs:109-147 | defeat signals the end UI with false first and calls the defeat callback; victory signals it with true and dances, without the defeat callback |
| Cursor.Next | Assets/Scripts/Menu/TargetMenu.cs:101-109 | Next wraps from the last arrow (or beyond) to the first and otherwise steps one down; it lands on an arrow exactly when there are arrows and the cursor was at least -1 |
| Cursor.Previous | Assets/Scripts/Menu/TargetMenu.cs:93-99 | Previous wraps from the first arrow (or before) to the last and otherwise steps one up; it lands on an arrow exactly when there are arrows and the cursor was at most one past the end |
| Cursor.NextPreviousInverse | Assets/Scripts/Menu/ActionMenu.cs:112-131 | on a cursor in range, Next and Previous stay in range and undo each other |
| Cursor.StrayCursor | Assets/Scripts/Menu/TargetMenu.cs:93-109 | a cursor past the end wraps to 0 on Next; Previous lands in range only from at most 0 or exactly one past the end |
| Cursor.AdvanceWithin | Assets/Scripts/Menu/ActionMenu.cs:124-131 | k presses of Next that do not reach the end add k |
| Cursor.FullCycle | Assets/Scripts/Menu/ActionMenu.cs:124-131 | as many presses of Next as there are arrows bring the cursor back |
| ActionMenu.Callbacks | Assets/Scripts/BattleManager.cs:149-159 | four distinct callbacks, Attack, Cast, Summon, Item |
| ActionMenu.ResetSelection | Assets/Scripts/Menu/ActionMenu.cs:45-107 | the first arrow is shown and every other hidden, with callbacks and arrows kept; as written the cursor is kept, corrected it returns to 0; opening the menu and cancelling it come down to this reset |
| ActionMenu.Init | Assets/Scripts/Menu/ActionMenu.cs:19-24 | the callbacks are stored and a menu with arrows starts consistent on the first choice |
| ActionMenu.Move | Assets/Scripts/Menu/ActionMenu.cs:112-131 | the cursor moves to its wrapped place whether or not the move throws; it throws exactly when that place is off the arrows, and then the arrow on display is left as it was; otherwise the arrow follows the cursor |
| ActionMenu.MoveRoundTrip | Assets/Scripts/Menu/ActionMenu.cs:112-131 | from a consistent menu any move succeeds and the opposite move restores the menu |
| ActionMenu.Execute | Assets/Scripts/Menu/ActionMenu.cs:136-142 | a callback runs exactly when the cursor is within the callbacks, and it is the one at the cursor |
| ActionMenu.ExecuteRunsChoiceAtCursor | Assets/Scripts/Menu/ActionMenu.cs:136-142 | with the installed callbacks, cursor i runs the i-th of Attack, Cast, Summon, Item, and nothing outside 0..3 |
| ActionMenu.ResetShowsAttackButRunsSummon | Assets/Scripts/Menu/ActionMenu.cs:45-56 | as written, Down, Down and a reset show Attack while a confirm runs Summon |
| ActionMenu.ResetKeepsArrowAndCursorTogether | Assets/Scripts/Menu/ActionMenu.cs:45-56 | corrected, a reset leaves the menu consistent and a confirm runs the choice on display |
| SubMenu.MenuItems | Assets/Scripts/Menu/SubMenu.cs:58-79 | the entries are the character's casts, summons or items, by menu kind, in order |
| SubMenu.MenuItemsMatchHas | Assets/Scripts/Character/Character.cs:333-346 | a menu has entries exactly when the character has casts, summons or items respectively |
| SubMenu.ResetSelection | Assets/Scripts/Menu/SubMenu.cs:95-107 | the cursor returns to 0 and nothing else changes |
| SubMenu.Init | Assets/Scripts/Menu/SubMenu.cs:23-31 | kind, character and arrows are stored and the cursor starts at 0 |
| SubMenu.Open | Assets/Scripts/Menu/SubMenu.cs:151-155 | opening resets the cursor to 0 |
| SubMenu.UpdateCharacter | Assets/Scripts/Menu/SubMenu.cs:86-90 | the character is replaced and the cursor is kept |
| SubMenu.Move | Assets/Scripts/Menu/SubMenu.cs:170-189 | the cursor moves to its wrapped place whether or not the move throws, and it throws exactly when that place is off the arrows |
| SubMenu.MoveRoundTrip | Assets/Scripts/Menu/SubMenu.cs:170-189 | from a cursor in range any move succeeds and the opposite move restores the menu |
| SubMenu.Execute | Assets/Scripts/Menu/SubMenu.cs:194-200 | the cursor is passed on exactly when it is not negative, with no bound against the list |
| SubMenu.ExecutePastTheList | Assets/Scripts/Menu/SubMenu.cs:194-200 | a cursor on an arrow past the character's list still passes an id one past the list |
| TargetMenu.ResetSelection | Assets/Scripts/Menu/TargetMenu.cs:34-49 | the first enemy is selected and its arrow alone shown |
| TargetMenu.SelectAll | Assets/Scripts/Menu/TargetMenu.cs:111-117 | every arrow is shown and the cursor does not move |
| TargetMenu.Init | Assets/Scripts/Menu/TargetMenu.cs:18-32 | the action type is stored; Summon shows every arrow, anything else selects the first enemy |
| TargetMenu.Show | Assets/Scripts/Menu/TargetMenu.cs:78-83 | showing resets the cursor |
| TargetMenu.Move | Assets/Scripts/Menu/TargetMenu.cs:93-109 | over the current roster size, the cursor moves to its wrapped place whether or not the move throws; it throws exactly when that place is off the enemy arrows, and then the arrows on display are left as they were |
| TargetMenu.MoveAfterShrink | Assets/Scripts/Menu/TargetMenu.cs:93-109 | after the roster shrinks below the cursor, Next recovers to 0; Previous throws unless the cursor was exactly one past, but always steps the cursor one place back, so repeated presses recover |
| TargetMenu.Execute | Assets/Scripts/Menu/TargetMenu.cs:119-123 | the action type is reported with the one selected target |
| TargetMenu.Cancel | Assets/Scripts/Menu/TargetMenu.cs:85-91 | action 0 is reported with null targets |
| ControlManager.Init | Assets/Scripts/ControlManager.cs:25-29 | the controls start on the action menu |
| ControlManager.Dispatch | Assets/Scripts/ControlManager.cs:31-179 | in no state and in party selection every button is ignored |
| ControlManager.DispatchRoutesToStateMenu | Assets/Scripts/ControlManager.cs:31-179 | a press reaches the menu of the current state with its button's call, and is ignored exactly without a menu or for Cancel on the action menu |
| BattleMenu.Init | Assets/Scripts/Menu/BattleMenu.cs:37-41 | the controls are switched off and nothing else changes |
| BattleMenu.SetStateTo | Assets/Scripts/Menu/BattleMenu.cs:113-146 | the old current state is remembered, the new one is current and goes to the controls, no menu changes |
| BattleMenu.SetStateToPrevious | Assets/Scripts/Menu/BattleMenu.cs:106-111 | back to the remembered state, which goes to the controls; the memory falls back to the action menu |
| BattleMenu.ForwardThenBack | Assets/Scripts/Menu/BattleMenu.cs:106-146 | a step forward and a step back restore the current state |
| BattleMenu.SecondBackIsAction | Assets/Scripts/Menu/BattleMenu.cs:106-111 | a second step back always lands on the action menu |
| BattleMenu.CastTargetBackTwice | Assets/Scripts/Menu/BattleMenu.cs:106-125 | Action, Cast, Target: one step back is Cast, two are Action |
| BattleMenu.ShowActionMenu | Assets/Scripts/Menu/BattleMenu.cs:57-62 | into the action menu, which is opened |
| BattleMenu.ShowCastMenu | Assets/Scripts/Menu/BattleMenu.cs:64-69 | into the cast menu: it is current and has the controls, the state before is remembered, and no menu changes |
| BattleMenu.ShowSummonMenu | Assets/Scripts/Menu/BattleMenu.cs:71-82 | into the summon menu: it is current and has the controls, the state before is remembered, and the summon menu opens on its first entry; nothing else changes |
| BattleMenu.ShowItemMenu | Assets/Scripts/Menu/BattleMenu.cs:84-89 | into the item menu: it is current and has the controls, the state before is remembered, and no menu changes |
| BattleMenu.ShowTargetMenu | Assets/Scripts/Menu/BattleMenu.cs:91-100 | the action type is recorded, the state before the call is remembered, target selection takes the controls with the cursor reset |
| BattleMenu.CloseAll | Assets/Scripts/Menu/BattleMenu.cs:185-204 | previous falls back to the action menu, the action menu is reset, the controls are switched off, and the current state and the target menu are kept |
| BattleManager.SetupRewards | Assets/Scripts/BattleManager.cs:219-224 | gold and experience are not negative |
| BattleManager.RewardsPerEnemy | Assets/Scripts/BattleManager.cs:219-224 | 11 gold and 27 experience per enemy, additive over enemies |
| BattleManager.AttackMenuCallback | Assets/Scripts/BattleManager.cs:247-250 | straight into target selection for an attack on the first enemy |
| BattleManager.CastMenuCallback | Assets/Scripts/BattleManager.cs:255-259 | the cast menu takes the current character and opens with its cursor kept |
| BattleManager.SummonMenuCallback | Assets/Scripts/BattleManager.cs:264-268 | the summon menu takes the current character and opens on its first entry |
| BattleManager.ItemMenuCallback | Assets/Scripts/BattleManager.cs:273-278 | the item menu takes the current character and opens with its cursor kept |
| BattleManager.ActionCallback | Assets/Scripts/BattleManager.cs:149-159 | each choice leads to its own selection state |
| BattleManager.GoBackToActionMenu | Assets/Scripts/BattleManager.cs:283-286 | back to the action menu, remembering where from |
| BattleManager.PostCastCallback | Assets/Scripts/BattleManager.cs:292-307 | with casts: id kept, target selection on the first enemy, action type kept (as written) or Cast (corrected); without: error and no change |
| BattleManager.PostSummonCallback | Assets/Scripts/BattleManager.cs:313-326 | target selection for a summon with every enemy selected exactly when the hero has summons and can pay; without summons, or short of mp for a listed summon, the error indicator and no change; a fault, with no change, exactly for an id past a non-empty list; the target cursor kept (as written) or reset (corrected) |
| BattleManager.PostItemCallback | Assets/Scripts/BattleManager.cs:332-347 | with items: id kept and action type UseItem while staying in item selection; without: error and no change |
| BattleManager.TargetGuard | Assets/Scripts/BattleManager.cs:368 | the guard passes exactly for a non-empty target list whose first target is below the enemy count; null is dereferenced otherwise |
| BattleManager.TargetCallback | Assets/Scripts/BattleManager.cs:355-393 | cancel steps back; an attack or a summon closes the menus and starts only past the guard; a summon is paid at its cost and hits the whole current roster; cast and item do nothing |
| BattleManager.PressAction | Assets/Scripts/Menu/ActionMenu.cs:112-142 | Up and Down move the action cursor, which stays moved when the move throws, and fault exactly then; Confirm runs the callback of the choice under the cursor, or nothing; Cancel does nothing; the hero is never touched |
| BattleManager.PressSubMenu | Assets/Scripts/Menu/SubMenu.cs:160-200 | Up and Down move the sub-menu cursor, which stays moved when the move throws, and fault exactly then; Cancel goes back to the action menu; no press starts an attack or summon or touches the hero |
| BattleManager.PressTarget | Assets/Scripts/Menu/TargetMenu.cs:85-123 | Up and Down move the target cursor over the current roster, which stays moved when the move throws, and fault exactly then; Confirm hides the arrows and reports the action type with the target under the cursor to `TargetCallback`; Cancel hides the arrows and steps back to the previous menu |
| BattleManager.Press | Assets/Scripts/ControlManager.cs:31-179 | an ignored press changes nothing; an attack or a summon starts only from a confirm in target selection |
| BattleManager.StartAllyTurn | Assets/Scripts/TurnBasedSystem.cs:56-58 | the ally becomes the hero and the action menu opens and takes the controls |
| BattleManager.Setup | Assets/Scripts/BattleManager.cs:67-89 | before the first turn the controls are on the action menu with its four callbacks and every cursor at 0, and the target menu's action type is 0 |
| BattleManager.SetupIsCoherent | Assets/Scripts/BattleManager.cs:67-89 | setup and the first ally turn leave the menus coherent |
| BattleManager.StartAllyTurnIsCoherent | Assets/Scripts/TurnBasedSystem.cs:54-60 | every ally turn starts coherent, whatever the roster has become |
| BattleManager.PressActionIsCoherent | Assets/Scripts/Menu/ActionMenu.cs:112-142 | an action-menu press keeps the menus coherent and never faults |
| BattleManager.PressSubMenuIsCoherent | Assets/Scripts/Menu/SubMenu.cs:160-200 | a sub-menu press keeps the menus coherent and faults only for a summon confirmed past the hero's list |
| BattleManager.PressTargetIsCoherent | Assets/Scripts/BattleManager.cs:355-393 | a target press keeps the menus coherent, never faults, attacks an enemy in the roster and pays a summon at its cost |
| BattleManager.PressIsCoherent | Assets/Scripts/BattleManager.cs:292-393 | corrected, every press keeps the menus coherent: mp never goes negative, an attack targets a roster member, a summon is paid at exactly its cost, and both close the menus |
| BattleManager.ConfirmedSummonStarts | Assets/Scripts/BattleManager.cs:313-391 | corrected, confirming a pending summon always starts it against the whole roster |
| Scenarios.TwoAttacksWinTheBattle | Assets/Scripts/TurnBasedSystem.cs:44-73 | two allies hit a 100 hp enemy for 40 and 70: hp 60, then the roster is null and the battle is won |
| Scenarios.SummonShortOfMp | Assets/Scripts/BattleManager.cs:313-325 | a 20 mp summon chosen with 10 mp gives the error indicator and changes nothing |
| Scenarios.SummonLeavesStaleChoice | Assets/Scripts/BattleManager.cs:313-325 | as written, a summon that spends all 20 mp leaves the action cursor on Summon and the target menu holding Summon |
| Scenarios.StaleSummonReplaysOnCast | Assets/Scripts/BattleManager.cs:292-307 | as written, whenever the target menu still holds Summon and the action cursor sits on Summon, Up then confirming a cast and a target starts the summon with the cast's index and charges its cost, whatever mp is left |
| Scenarios.CastReplaysStaleSummon | Assets/Scripts/BattleManager.cs:292-307 | as written, a cast in the turn after a summon pays the summon again and drives mp to -20 |
| Scenarios.AttackLeavesTargetCursorBehind | Assets/Scripts/BattleManager.cs:355-373 | as written, attacking and killing the second of two enemies leaves one enemy and the target cursor still on the second place |
| Scenarios.SummonPastShrunkRosterLocksUp | Assets/Scripts/BattleManager.cs:381-391 | as written, whenever the target cursor is at or past the end of a non-empty roster, choosing an affordable summon closes the menus, starts nothing, leaves the hero unchanged, and every further press is ignored |
| Scenarios.SummonAfterKillLocksUp | Assets/Scripts/BattleManager.cs:381-391 | as written, a summon after a kill behind the cursor closes the menus without starting anything, and every later press is ignored |
| Scenarios.StrayTargetCursorWalksBack | Assets/Scripts/Menu/TargetMenu.cs:93-99 | with the target cursor three past a one-enemy roster, Up faults twice while stepping the cursor back, and the third Up lands on the enemy |

## Left out

- Animation, sprites, transforms, positions, status bars, damage text and the decorative spawners. They are engine rendering. An attack's animation and projectile become the two completion signals.
- Coroutine delays (`WaitForSeconds`). Each delayed continuation is one atomic step; nothing runs concurrently.
- `Random.Range` internals. The drawn enemy target is a parameter constrained by a predicate.
- Float32 arithmetic. The armor rate is a `real`, and float rounding is not modelled.
- ExperienceSystem. It is floating-point numerics with divisions by a zero rate, and nothing in the battle calls it.
- Cast and item resolution, `CollectRewards`, `EndOfBattle` and the manager's `Defeat`. They are unimplemented in the code. The model has cast and item targets do nothing, and `EndEvents` stops at the end-of-battle signals.
- `Character.Init` callback registration and `SetFirstCharacter`. `BattleManager.Setup` takes the first hero as a parameter.
- The party indicator and party menu. Party selection has no behaviour in the code beyond ignoring every button.
- Faults. A C# exception is reported as `Fault`. A menu move that throws keeps the cursor it had already moved (`Outcome.threw`), and a target callback that throws keeps the menus it had already closed; every other throw happens before any assignment, so the state from before the press is kept. What Unity does after an exception in a callback is not modelled.
- 32-bit wrap-around. C# `int` arithmetic wraps: hp minus the endured points (Attackable.cs:41-57), mp minus a summon's cost (BattleManager.cs:386) and the enemy count times 11 (BattleManager.cs:219-224). The model's integers are unbounded.
- Object identity of the hero. In the C#, `currentCharacter` is the roster's own object (BattleManager.cs:117 and 241), so the roster sees a summon's mp payment. The model's `Ui.hero` is a copy that is not written back; the caller passes the next turn's hero to `StartAllyTurn`, as `Scenarios.CastReplaysStaleSummon` passes the hero that paid.
- Visibility. Which menu boxes are visible is left out. The arrows on display are modelled only for the action menu (`shown`) and the target menu (`view`).
- TurnBasedSystem.EnemyTurnStep: it draws with the corrected range. The as-written range is covered separately by `PickAsWrittenMissesLastAlly`.
- TurnBasedSystem.RoundRobin: it holds only while both rosters stay unchanged. Removals during a round are covered step by step by `TurnBasedSystem.Next`.
- BattleManager.PressIsCoherent: it is proved for the corrected build and a non-empty enemy roster. The as-written build breaks it, as the findings show.
- BattleManager.Press: its own contract is weaker than the corrected-build behaviour, which `BattleManager.PressIsCoherent` states.
- BattleManager.PressSubMenu: its own contract is weaker than the corrected-build behaviour, which `BattleManager.PressSubMenuIsCoherent` states.

## Findings

| source | as written | input that shows it | evidently intended | confidence | as-written member | corrected member |
|---|---|---|---|---|---|---|
| Assets/Scripts/TurnBasedSystem.cs:94 | `Random.Range(0, n - 1)` on integers excludes its maximum | two allies: only ally 0 can ever be attacked | any of the n allies, `Random.Range(0, n)` | high; not executed | TurnBasedSystem.PickAsWrittenMissesLastAlly | TurnBasedSystem.PickCoversEveryAlly |
| Assets/Scripts/Menu/ActionMenu.cs:45-56 | `ResetSelection` re-shows the first arrow but keeps `currentSelection` | Down, Down, then `CloseAll`: the Attack arrow shows, and Confirm runs Summon | the cursor returns to the first choice with its arrow | high; not executed | ActionMenu.ResetShowsAttackButRunsSummon | ActionMenu.ResetKeepsArrowAndCursorTogether |
| Assets/Scripts/BattleManager.cs:292-307 | `PostCastCallback` never sets the target menu's action type | summon in one turn; next turn Up, Confirm, Confirm, Confirm: the summon is paid again and mp goes to -20 | the target menu's action type becomes Cast | high; not executed | Scenarios.StaleSummonReplaysOnCast | BattleManager.PressIsCoherent |
| Assets/Scripts/BattleManager.cs:313-325 | `PostSummonCallback` leaves the target cursor where an earlier attack left it | attack the second of two enemies and kill it; next turn summon: the guard fails after `CloseAll`, nothing starts, and every press is ignored | the target cursor is reset, so the guard passes | high; not executed | Scenarios.SummonPastShrunkRosterLocksUp | BattleManager.ConfirmedSummonStarts |
