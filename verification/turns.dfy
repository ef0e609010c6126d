/**
 * The turn scheduler (TurnBasedSystem.cs): every ally takes a turn in roster
 * order, then every enemy, then the counters reset; the battle ends in
 * victory as soon as the enemy roster is empty and in defeat when the ally
 * roster is. The coroutine delays are single atomic steps here.
 */
module TurnBasedSystem {
  import opened Wrappers
  import opened Characters

  /** `playerTurn` and `enemyTurn`. */
  datatype Counters = Counters(playerTurn: nat, enemyTurn: nat)

  /** What one call of `Next` starts. */
  datatype Decision =
    | Victory                            // the end-battle coroutine, victorious
    | Defeat                             // the end scene is told `false`, then the end-battle coroutine
    | AllyTurn(index: nat, ally: Character) // current character, party indicator and action menu
    | EnemyTurn                          // the enemy-turn coroutine

  datatype Step = Step(decision: Decision, turn: Counters)

  /** Number of characters in a roster; the null roster counts as empty. */
  function Size(roster: Option<seq<Character>>): (n: nat)
    ensures n == 0 <==> roster.None? || roster.value == []
  {
    if roster.None? then 0 else |roster.value|
  }

  /** `Next` (and `DoneWithTurn`, which is exactly `Next`). */
  function Next(allies: Option<seq<Character>>, enemies: Option<seq<Character>>, t: Counters): (r: Step)
    ensures r.decision.Victory? <==> Size(enemies) == 0
    ensures r.decision.Defeat? <==> Size(enemies) > 0 && Size(allies) == 0
    ensures r.decision.AllyTurn? ==>
              (r.decision.index < Size(allies) &&
               r.decision.ally == allies.value[r.decision.index] &&
               (r.turn == t.(playerTurn := r.decision.index + 1) || r.turn == Counters(r.decision.index + 1, 0)))
    ensures r.decision.EnemyTurn? ==> r.turn == t && t.playerTurn >= Size(allies) && t.enemyTurn < Size(enemies)
    ensures r.decision.Victory? || r.decision.Defeat? ==> r.turn == t
    decreases if t.playerTurn == 0 && t.enemyTurn == 0 then 0 else 1
  {
    if Size(enemies) == 0 then Step(Victory, t)
    else if Size(allies) == 0 then Step(Defeat, t)
    else if t.playerTurn < Size(allies) then
      Step(AllyTurn(t.playerTurn, allies.value[t.playerTurn]), t.(playerTurn := t.playerTurn + 1))
    else if t.enemyTurn > Size(enemies) - 1 then
      Next(allies, enemies, ResetCounters(t))
    else Step(EnemyTurn, t)
  }

  /** `ResetCounters`: both counters back to zero. */
  function ResetCounters(t: Counters): (r: Counters)
    ensures r.playerTurn == 0 && r.enemyTurn == 0
  {
    Counters(0, 0)
  }

  /** An empty enemy roster wins the battle whatever the allies and the counters. */
  lemma VictoryFirst(allies: Option<seq<Character>>, enemies: Option<seq<Character>>, t: Counters)
    requires enemies.None? || enemies.value == []
    ensures Next(allies, enemies, t) == Step(Victory, t)
  {
  }

  /** With enemies left, an empty ally roster loses it, and the counters stay. */
  lemma DefeatSecond(allies: Option<seq<Character>>, enemies: Option<seq<Character>>, t: Counters)
    requires Size(enemies) > 0
    requires allies.None? || allies.value == []
    ensures Next(allies, enemies, t) == Step(Defeat, t)
  {
  }

  /** With both sides standing, the next ally in roster order moves and only `playerTurn` advances. */
  lemma AllyThird(allies: Option<seq<Character>>, enemies: Option<seq<Character>>, t: Counters)
    requires Size(enemies) > 0 && t.playerTurn < Size(allies)
    ensures Next(allies, enemies, t) ==
              Step(AllyTurn(t.playerTurn, allies.value[t.playerTurn]), Counters(t.playerTurn + 1, t.enemyTurn))
  {
  }

  /**
   * When every ally and every enemy has moved, the counters reset and the
   * recursive `Next` lands on the first ally at once.
   */
  lemma {:induction false} ResetReachesFirstAlly(allies: Option<seq<Character>>, enemies: Option<seq<Character>>, t: Counters)
    requires Size(enemies) > 0 && Size(allies) > 0
    requires t.playerTurn >= Size(allies) && t.enemyTurn >= Size(enemies)
    ensures Next(allies, enemies, t) == Step(AllyTurn(0, allies.value[0]), Counters(1, 0))
  {
    assert Next(allies, enemies, t) == Next(allies, enemies, Counters(0, 0));
  }

  /** Once the allies have moved, an enemy whose turn it is gets it, and `Next` itself leaves the counters alone. */
  lemma EnemyLast(allies: Option<seq<Character>>, enemies: Option<seq<Character>>, t: Counters)
    requires Size(enemies) > 0 && Size(allies) > 0
    requires t.playerTurn >= Size(allies) && t.enemyTurn < Size(enemies)
    ensures Next(allies, enemies, t) == Step(EnemyTurn, t)
  {
  }

  // ---------------------------------------------------------------------------
  // The enemy turn

  /**
   * `UnityEngine.Random.Range(min, max)` on integers: a value in [min, max),
   * or min itself when the range is empty.
   */
  predicate RandomRange(min: int, max: int, x: int) {
    if max <= min then x == min else min <= x < max
  }

  /** `GetRandomPartyMember` as written: `Random.Range(0, n - 1)` over n allies. */
  predicate PickAsWritten(n: nat, x: int) {
    RandomRange(0, n - 1, x)
  }

  /** The evident intent: any of the n allies. */
  predicate Pick(n: nat, x: int) {
    RandomRange(0, n, x)
  }

  /** As written, the pick is a valid ally, but with two or more allies the last one is never picked. */
  lemma PickAsWrittenMissesLastAlly(n: nat, x: int)
    requires n >= 1 && PickAsWritten(n, x)
    ensures 0 <= x < n
    ensures n >= 2 ==> x != n - 1
  {
  }

  /** The corrected pick ranges over exactly the allies, and contains every as-written pick. */
  lemma PickCoversEveryAlly(n: nat, x: int)
    requires n >= 1
    ensures Pick(n, x) <==> 0 <= x < n
    ensures PickAsWritten(n, x) ==> Pick(n, x)
  {
  }

  /** Who attacks whom in an enemy turn. */
  datatype Strike = Strike(enemy: nat, target: nat)

  /**
   * The `EnemyTurn` coroutine after its delay: `EnemyAction` draws an ally,
   * the enemy at `enemyTurn` attacks it only if there is one, and then
   * `enemyTurn` advances. The attack's own completion later calls
   * `DoneWithTurn`.
   */
  function EnemyTurnStep(allies: seq<Character>, enemies: seq<Character>, t: Counters, pick: int): (r: (Option<Strike>, Counters))
    requires Pick(|allies|, pick) && |allies| > 0
    ensures r.1 == Counters(t.playerTurn, t.enemyTurn + 1)
    ensures r.0.Some? <==> t.enemyTurn < |enemies|
    ensures r.0.Some? ==> r.0.value.enemy == t.enemyTurn && r.0.value.target < |allies|
  {
    var strike := if t.enemyTurn < |enemies| then Some(Strike(t.enemyTurn, pick)) else None;
    (strike, t.(enemyTurn := t.enemyTurn + 1))
  }

  // ---------------------------------------------------------------------------
  // A round

  /** Whose turn one scheduler step gives, and the counters once that turn is over. */
  datatype Turn = Ally(index: nat) | Enemy(index: nat)

  /**
   * One full turn with both rosters standing and unchanged: `Next`, and for
   * an enemy turn the coroutine's increment of `enemyTurn`.
   */
  function Take(a: nat, e: nat, allies: seq<Character>, enemies: seq<Character>, t: Counters): (Turn, Counters)
    requires |allies| == a > 0 && |enemies| == e > 0
  {
    var s := Next(Some(allies), Some(enemies), t);
    if s.decision.AllyTurn? then (Ally(s.decision.index), s.turn)
    else (Enemy(t.enemyTurn), t.(enemyTurn := t.enemyTurn + 1))
  }

  /** The turns of k scheduler steps from the given counters. */
  function Run(allies: seq<Character>, enemies: seq<Character>, t: Counters, k: nat): (r: seq<Turn>)
    requires |allies| > 0 && |enemies| > 0
    ensures |r| == k
    decreases k
  {
    if k == 0 then []
    else
      var (turn, t') := Take(|allies|, |enemies|, allies, enemies, t);
      [turn] + Run(allies, enemies, t', k - 1)
  }

  /** The turn at place m of a round: allies 0..a-1, then enemies from 0. */
  function Slot(a: nat, m: nat): Turn {
    if m < a then Ally(m) else Enemy(m - a)
  }

  /** Place of turn j within its round of n turns (j modulo n, by repeated subtraction). */
  function Place(n: nat, j: nat): (m: nat)
    requires n > 0
    ensures m < n
    decreases j
  {
    if j < n then j else Place(n, j - n)
  }

  /** The reference schedule: rounds of a + e turns, one per ally and then one per enemy. */
  function Expected(a: nat, e: nat, j: nat): Turn
    requires a > 0
  {
    Slot(a, Place(a + e, j))
  }

  lemma {:induction false} PlaceStep(n: nat, j: nat)
    requires n > 0
    ensures Place(n, j + 1) == if Place(n, j) + 1 < n then Place(n, j) + 1 else 0
    decreases j
  {
    if j + 1 > n {
      PlaceStep(n, j - n);
      assert j + 1 - n == (j - n) + 1;
    }
  }

  /** The counters after m turns of a round. */
  function Position(a: nat, m: nat): Counters {
    if m <= a then Counters(m, 0) else Counters(a, m - a)
  }

  lemma {:induction false} TakeAtPosition(allies: seq<Character>, enemies: seq<Character>, m: nat)
    requires |allies| > 0 && |enemies| > 0 && m <= |allies| + |enemies|
    ensures var a, e := |allies|, |enemies|;
            var (turn, t') := Take(a, e, allies, enemies, Position(a, m));
            (m < a + e ==> turn == Slot(a, m) && t' == Position(a, m + 1)) &&
            (m == a + e ==> turn == Slot(a, 0) && t' == Position(a, 1))
  {
    var a, e := |allies|, |enemies|;
    var t := Position(a, m);
    if m < a {
      AllyThird(Some(allies), Some(enemies), t);
    } else if m < a + e {
      EnemyLast(Some(allies), Some(enemies), t);
    } else {
      ResetReachesFirstAlly(Some(allies), Some(enemies), t);
    }
  }

  /**
   * From fresh counters and with both rosters unchanged, the scheduler gives
   * the turns round-robin: allies in roster order, then enemies in roster
   * order, and again.
   */
  lemma {:induction false} RoundRobin(allies: seq<Character>, enemies: seq<Character>, k: nat)
    requires |allies| > 0 && |enemies| > 0
    ensures var r := Run(allies, enemies, Counters(0, 0), k);
            forall j :: 0 <= j < k ==> r[j] == Expected(|allies|, |enemies|, j)
  {
    assert Place(|allies| + |enemies|, 0) == 0;
    assert Position(|allies|, 0) == Counters(0, 0);
    RunFrom(allies, enemies, 0, 0, k);
  }

  /**
   * From counters m turns into a round (m == a + e: the round just ended,
   * before the reset), the turns follow the reference schedule from its j0-th
   * turn, for j0 at the same place of its round.
   */
  lemma {:induction false} RunFrom(allies: seq<Character>, enemies: seq<Character>, m: nat, j0: nat, k: nat)
    requires |allies| > 0 && |enemies| > 0 && m <= |allies| + |enemies|
    requires (if m == |allies| + |enemies| then 0 else m) == Place(|allies| + |enemies|, j0)
    ensures forall j :: 0 <= j < k ==>
              Run(allies, enemies, Position(|allies|, m), k)[j] == Expected(|allies|, |enemies|, j0 + j)
    decreases k
  {
    var a, e := |allies|, |enemies|;
    if k > 0 {
      TakeAtPosition(allies, enemies, m);
      var (turn, t') := Take(a, e, allies, enemies, Position(a, m));
      PlaceStep(a + e, j0);
      var m' := if m == a + e then 1 else m + 1;
      assert t' == Position(a, m');
      RunFrom(allies, enemies, m', j0 + 1, k - 1);
      var r := Run(allies, enemies, Position(a, m), k);
      assert r == [turn] + Run(allies, enemies, t', k - 1);
      forall j | 0 <= j < k
        ensures r[j] == Expected(a, e, j0 + j)
      {
        if j > 0 {
          assert r[j] == Run(allies, enemies, Position(a, m'), k - 1)[j - 1];
          assert j0 + 1 + (j - 1) == j0 + j;
        } else {
          assert r[0] == turn == Slot(a, Place(a + e, j0));
        }
      }
    }
  }

  // ---------------------------------------------------------------------------
  // End of battle

  datatype EndEvent =
    | EndSceneUi(victorious: bool) // `SetEndSceneUi`
    | HideParties                 // both parties' game objects deactivated
    | VictoryDance
    | DefeatCallback

  /**
   * What `Victory` and `Defeat` signal, in order, the end-battle coroutine's
   * delay taken as one step.
   */
  function EndEvents(d: Decision): (r: seq<EndEvent>)
    requires d.Victory? || d.Defeat?
    ensures d.Defeat? ==> |r| > 0 && r[0] == EndSceneUi(false) && EndSceneUi(true) !in r
    ensures d.Victory? ==> EndSceneUi(true) in r && EndSceneUi(false) !in r && VictoryDance in r
    ensures DefeatCallback in r <==> d.Defeat?
  {
    if d.Victory? then [HideParties, EndSceneUi(true), VictoryDance]
    else [EndSceneUi(false), DefeatCallback]
  }
}
