/**
 * Dealing damage (Attacker.cs): which completion signal of an attack applies
 * the damage, the summon guard, and the area damage a summon deals to the
 * enemy roster captured when it was called.
 */
module Attacker {
  import opened Wrappers
  import opened Characters
  import Attackable
  import Party

  /** Completion signals; the C# callbacks receive them as caller ids 1 and 2. */
  datatype Signal = AnimationEnd | ProjectileArrival

  function CallerId(s: Signal): int {
    match s
    case AnimationEnd => 1
    case ProjectileArrival => 2
  }

  /** What a continuation does to the battle, in order. */
  datatype Effect =
    | Damage(points: int)               // `Endure` on the single attack target
    | AreaDamage(uid: nat, points: int) // `Endure` on one summon target
    | DoneWithTurn                      // hand control back to the turn scheduler

  /**
   * The signals `Attack`/`Strike` arrange to receive: the weapon animation's
   * end always, the projectile's arrival only when the weapon is long-range
   * (only then is the projectile callback registered). Each fires once, in
   * this order.
   */
  function AttackSignals(w: Weapon): (r: seq<Signal>)
    ensures AnimationEnd in r
    ensures ProjectileArrival in r <==> w.longRange
    ensures forall i, j :: 0 <= i < j < |r| ==> r[i] != r[j]
  {
    if w.longRange then [AnimationEnd, ProjectileArrival] else [AnimationEnd]
  }

  /**
   * `PostAttackEffects(callerId)`: the end of the animation of a long-range
   * weapon is too early and does nothing; any other signal inflicts the
   * weapon's attack points and then ends the turn.
   */
  function PostAttackEffects(w: Weapon, callerId: int): (r: seq<Effect>)
    ensures r == [] <==> w.longRange && callerId == 1
    ensures r != [] ==> r == [Damage(w.ap), DoneWithTurn]
  {
    if !(w.longRange && callerId == 1) then InflictAttackDamage(w) + [DoneWithTurn] else []
  }

  /** `InflictAttackDamage`: one `Endure` with the weapon's attack points. */
  function InflictAttackDamage(w: Weapon): (r: seq<Effect>)
    ensures |r| == 1 && r[0].Damage? && r[0].points == w.ap
  {
    [Damage(w.ap)]
  }

  /** A signal that gets past the early-return of `PostAttackEffects`. */
  predicate Lands(w: Weapon, s: Signal) {
    !(w.longRange && s == AnimationEnd)
  }

  /** How many of the signals land. */
  function Landing(w: Weapon, signals: seq<Signal>): nat
    decreases |signals|
  {
    if |signals| == 0 then 0 else (if Lands(w, signals[0]) then 1 else 0) + Landing(w, signals[1..])
  }

  /**
   * The effects of an attack whose signals fire in the given order: every
   * signal that lands deals the weapon's attack points and then ends the
   * turn, and the others do nothing.
   */
  function AttackEffects(w: Weapon, signals: seq<Signal>): (r: seq<Effect>)
    ensures |r| == 2 * Landing(w, signals)
    ensures forall k :: 0 <= k < |r| ==> r[k] == if k % 2 == 0 then Damage(w.ap) else DoneWithTurn
    decreases |signals|
  {
    if |signals| == 0 then []
    else
      var rest := AttackEffects(w, signals[1..]);
      var first := PostAttackEffects(w, CallerId(signals[0]));
      assert forall k :: 0 <= k < |rest| ==> (first + rest)[|first| + k] == rest[k];
      first + rest
  }

  /** Signals firing one after another add up: the effects of each batch follow each other. */
  lemma {:induction false} AttackEffectsConcat(w: Weapon, a: seq<Signal>, b: seq<Signal>)
    ensures AttackEffects(w, a + b) == AttackEffects(w, a) + AttackEffects(w, b)
    decreases |a|
  {
    if |a| > 0 {
      assert (a + b)[1..] == a[1..] + b;
      AttackEffectsConcat(w, a[1..], b);
    } else {
      assert a + b == b;
    }
  }

  /**
   * With each registered signal firing once, an attack produces exactly one
   * `Endure`, for the weapon's initial attack points, before the turn ends.
   */
  lemma {:induction false} OneDamagePerAttack(w: Weapon)
    ensures AttackEffects(InitWeapon(w), AttackSignals(InitWeapon(w))) == [Damage(w.initialAp), DoneWithTurn]
  {
    var v := InitWeapon(w);
    if v.longRange {
      assert AttackSignals(v)[1..] == [ProjectileArrival];
      assert AttackEffects(v, [ProjectileArrival]) == [Damage(v.ap), DoneWithTurn] + AttackEffects(v, []);
    } else {
      assert AttackEffects(v, [AnimationEnd]) == [Damage(v.ap), DoneWithTurn] + AttackEffects(v, []);
    }
  }

  /**
   * `Summon(targets, id)` followed by the summon animations and
   * `PostSummonEffects`: nothing when id is past the character's summons,
   * otherwise one `Endure` of the summon's attack points per captured target,
   * in order, and then the end of the turn.
   */
  function SummonEffects(c: Character, targets: seq<Character>, id: int): (r: seq<Effect>)
    requires 0 <= id
    ensures id >= |c.summons| ==> r == []
    ensures id < |c.summons| ==> |r| == |targets| + 1 && r[|targets|] == DoneWithTurn
    ensures id < |c.summons| ==> forall k :: 0 <= k < |targets| ==>
              r[k] == AreaDamage(targets[k].uid, c.summons[id].ap)
  {
    if id < |c.summons| then
      seq(|targets|, k requires 0 <= k < |targets| => AreaDamage(targets[k].uid, c.summons[id].ap)) + [DoneWithTurn]
    else []
  }

  function UidsOf(s: seq<Character>): set<nat> {
    set c | c in s :: c.uid
  }

  /**
   * The members of `s` left standing after an area hit of `points` on each,
   * in their original order and with their reduced hp.
   */
  function Volley(s: seq<Character>, points: int): (r: seq<Character>)
    ensures |r| <= |s|
    ensures forall k :: 0 <= k < |r| ==> r[k].hp > 0
    ensures UidsOf(r) <= UidsOf(s)
    decreases |s|
  {
    if |s| == 0 then []
    else
      var init := s[..|s| - 1];
      var hit := Attackable.Endure(s[|s| - 1], points);
      assert s == init + [s[|s| - 1]];
      assert UidsOf(init) <= UidsOf(s);
      assert hit.target.uid in UidsOf(s);
      Volley(init, points) + (if hit.terminated then [] else [hit.target])
  }

  /** The volley keeps exactly the members the hit does not terminate, each as the hit leaves it. */
  lemma {:induction false} VolleyKeepsExactlySurvivors(s: seq<Character>, points: int)
    ensures forall c :: c in s && !Attackable.Endure(c, points).terminated ==>
              Attackable.Endure(c, points).target in Volley(s, points)
    ensures forall x :: x in Volley(s, points) ==>
              exists c :: c in s && !Attackable.Endure(c, points).terminated && x == Attackable.Endure(c, points).target
    decreases |s|
  {
    if |s| > 0 {
      var init := s[..|s| - 1];
      assert s == init + [s[|s| - 1]];
      VolleyKeepsExactlySurvivors(init, points);
    }
  }

  /** Position of the first member with the given identity, or -1. */
  function Find(s: seq<Character>, uid: nat): (k: int)
    ensures -1 <= k < |s|
    ensures 0 <= k ==> s[k].uid == uid && forall j :: 0 <= j < k ==> s[j].uid != uid
    ensures k == -1 ==> forall j :: 0 <= j < |s| ==> s[j].uid != uid
  {
    if |s| == 0 then -1
    else if s[0].uid == uid then 0
    else
      var k := Find(s[1..], uid);
      if k == -1 then -1 else k + 1
  }

  /** The enemy roster after the first i captured targets of a summon have been hit. */
  function Remaining(s: seq<Character>, i: nat, points: int): seq<Character>
    requires i <= |s|
  {
    Party.Reindex(Volley(s[..i], points) + s[i..])
  }

  lemma VolleyExtend(s: seq<Character>, i: nat, points: int)
    requires i < |s|
    ensures Volley(s[..i + 1], points) ==
              Volley(s[..i], points) + (if Attackable.Endure(s[i], points).terminated then [] else [Attackable.Endure(s[i], points).target])
  {
    assert s[..i + 1][..i] == s[..i];
  }

  /** In the roster after i hits, the i-th captured target sits at the position just past the survivors so far. */
  lemma {:induction false} NextTargetPosition(s: seq<Character>, i: nat, points: int)
    requires Party.DistinctUids(s)
    requires i < |s|
    ensures Find(Remaining(s, i, points), s[i].uid) == |Volley(s[..i], points)|
    ensures Remaining(s, i, points)[|Volley(s[..i], points)|] == s[i].(memberId := |Volley(s[..i], points)|)
  {
    var v := Volley(s[..i], points);
    var m := |v|;
    var live := Remaining(s, i, points);
    assert (v + s[i..])[m] == s[i];
    forall j | 0 <= j < m
      ensures live[j].uid != s[i].uid
    {
      assert live[j].uid == v[j].uid;
      assert v[j] in v;
      assert v[j].uid in UidsOf(s[..i]);
      var c :| c in s[..i] && c.uid == v[j].uid;
      var t :| 0 <= t < i && s[..i][t] == c;
      assert s[t].uid != s[i].uid;
    }
  }

  /** A captured target that survives keeps its place with its reduced hp. */
  lemma {:induction false} SurvivorStep(s: seq<Character>, i: nat, points: int)
    requires i < |s|
    requires !Attackable.Endure(s[i], points).terminated
    ensures var m := |Volley(s[..i], points)|;
            Remaining(s, i, points)[m := Attackable.Endure(s[i], points).target.(memberId := m)] ==
              Remaining(s, i + 1, points)
  {
    var v := Volley(s[..i], points);
    var m := |v|;
    var hit := Attackable.Endure(s[i], points);
    VolleyExtend(s, i, points);
    var live := Remaining(s, i, points);
    var rest := v + [hit.target] + s[i + 1..];
    assert Remaining(s, i + 1, points) == Party.Reindex(rest);
    var after := live[m := hit.target.(memberId := m)];
    assert |after| == |rest|;
    forall j | 0 <= j < |after|
      ensures after[j] == Party.Reindex(rest)[j]
    {
      if j != m {
        assert rest[j] == (v + s[i..])[j];
      }
    }
  }

  /** A captured target that falls leaves the roster, and everyone behind it moves up one place. */
  lemma {:induction false} FallenStep(s: seq<Character>, i: nat, points: int)
    requires i < |s|
    requires Attackable.Endure(s[i], points).terminated
    ensures var m := |Volley(s[..i], points)|;
            var live := Remaining(s, i, points);
            Party.CanRemove(|live|, m) &&
            Party.Removal(live, m) == Party.RosterOf(Remaining(s, i + 1, points))
  {
    var v := Volley(s[..i], points);
    var m := |v|;
    VolleyExtend(s, i, points);
    var live := Remaining(s, i, points);
    var rest := v + s[i + 1..];
    assert Remaining(s, i + 1, points) == Party.Reindex(rest);
    assert |live| == |rest| + 1;
    if |live| > 1 {
      var cut := live[..m] + live[m + 1..];
      assert |cut| == |rest|;
      forall j | 0 <= j < |cut|
        ensures Party.SameBut(cut[j], rest[j])
      {
        if j < m {
          assert cut[j] == live[j];
          assert rest[j] == (v + s[i..])[j];
        } else {
          assert cut[j] == live[j + 1];
          assert rest[j] == (v + s[i..])[j + 1];
        }
      }
      Party.ReindexIgnoresOldIds(cut, rest);
    }
  }

  /** Hitting the next captured target, found by identity, advances the roster by one step. */
  lemma {:induction false} SummonStep(p: Party.Party, s: seq<Character>, i: nat, points: int)
    requires Party.DistinctUids(s)
    requires i < |s|
    requires p.characters == Some(Remaining(s, i, points))
    ensures Find(Remaining(s, i, points), s[i].uid) == |Volley(s[..i], points)|
    ensures Party.EndureMember(p, |Volley(s[..i], points)|, points).characters ==
              Party.RosterOf(Remaining(s, i + 1, points))
  {
    var m := |Volley(s[..i], points)|;
    NextTargetPosition(s, i, points);
    Attackable.EndureIgnoresMemberId(s[i], m, points);
    if Attackable.Endure(s[i], points).terminated {
      FallenStep(s, i, points);
    } else {
      SurvivorStep(s, i, points);
    }
  }

  /**
   * One pass of the `foreach` in `InflictSummonDamage`: the next captured
   * target, found by identity in the current roster, endures the points.
   * Only the roster and its arrows move, and the roster advances one step.
   */
  method HitCapturedTarget(p: Party.Party, q: Party.Party, s: seq<Character>, i: nat, points: int) returns (r: Party.Party)
    requires Party.DistinctUids(s)
    requires i < |s|
    requires q.characters == Party.RosterOf(Remaining(s, i, points))
    requires q == p.(characters := q.characters, arrows := q.arrows)
    requires p.arrows == Party.ArrowsOf(p.characters) ==> q.arrows == Party.ArrowsOf(q.characters)
    ensures r.characters == Party.RosterOf(Remaining(s, i + 1, points))
    ensures r == p.(characters := r.characters, arrows := r.arrows)
    ensures p.arrows == Party.ArrowsOf(p.characters) ==> r.arrows == Party.ArrowsOf(r.characters)
  {
    SummonStep(q, s, i, points);
    r := Party.EndureMember(q, Find(q.characters.value, s[i].uid), points);
  }

  /** Before the first hit, an indexed captured roster is the roster itself. */
  lemma RemainingAtStart(s: seq<Character>, points: int)
    requires Party.Indexed(s)
    ensures Remaining(s, 0, points) == s
  {
    Party.ReindexOfIndexed(s);
    assert s[..0] == [] && s[0..] == s;
    assert Volley([], points) + s == s;
  }

  lemma RemainingAtEnd(s: seq<Character>, points: int)
    ensures Remaining(s, |s|, points) == Party.Reindex(Volley(s, points))
  {
    assert s[..|s|] == s && s[|s|..] == [];
    assert Volley(s, points) + [] == Volley(s, points);
  }

  /**
   * `InflictSummonDamage` over the roster captured by `Summon`: each captured
   * target, found by identity in the current roster, endures the summon's
   * points, and a fallen one leaves the party through its memberId.
   */
  method InflictSummonDamage(p: Party.Party, targets: seq<Character>, points: int) returns (q: Party.Party)
    requires p.characters == Some(targets)
    requires Party.Indexed(targets) && Party.DistinctUids(targets)
    ensures |targets| == 0 ==> q == p
    ensures |targets| > 0 ==> q.characters == Party.RosterOf(Party.Reindex(Volley(targets, points)))
    ensures q == p.(characters := q.characters, arrows := q.arrows)
    ensures p.arrows == Party.ArrowsOf(p.characters) ==> q.arrows == Party.ArrowsOf(q.characters)
  {
    q := p;
    if |targets| == 0 {
      return;
    }
    RemainingAtStart(targets, points);
    var i := 0;
    while i < |targets|
      invariant 0 <= i <= |targets|
      invariant q.characters == Party.RosterOf(Remaining(targets, i, points))
      invariant q == p.(characters := q.characters, arrows := q.arrows)
      invariant p.arrows == Party.ArrowsOf(p.characters) ==> q.arrows == Party.ArrowsOf(q.characters)
    {
      q := HitCapturedTarget(p, q, targets, i, points);
      i := i + 1;
    }
    RemainingAtEnd(targets, points);
  }
}
