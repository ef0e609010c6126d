/**
 * Receiving damage (Attackable.cs): armor mitigation, the hp update with its
 * clamp at zero, and the decision to terminate the character.
 */
module Attackable {
  import opened Characters

  /** C#'s `(int)` conversion of a finite value: truncation toward zero. */
  function Truncate(x: real): (r: int)
    ensures 0.0 <= x ==> 0 <= r && r as real <= x < r as real + 1.0
    ensures x < 0.0 ==> r <= 0 && r as real - 1.0 < x <= r as real
  {
    if x >= 0.0 then x.Floor else -((-x).Floor)
  }

  /** The attack points left after the character's armor absorbs its share. */
  function AdjustAttackToArmor(c: Character, attackPoints: int): (r: int)
    ensures GetArmorRate(c) == 0.0 ==> r == attackPoints
    ensures 0 <= attackPoints && 0.0 <= GetArmorRate(c) <= 1.0 ==> 0 <= r <= attackPoints
  {
    var absorbed := attackPoints as real * GetArmorRate(c);
    ScaledStaysWithin(attackPoints, GetArmorRate(c));
    attackPoints - Truncate(absorbed)
  }

  lemma ScaledStaysWithin(n: int, rate: real)
    ensures 0 <= n && 0.0 <= rate <= 1.0 ==> 0.0 <= n as real * rate <= n as real
  {
    if 0 <= n && 0.0 <= rate <= 1.0 {
      assert n as real * rate <= n as real * 1.0;
    }
  }

  /** The outcome of one `Endure`: the character afterwards, the points it took, and whether `Terminate` ran. */
  datatype Hit = Hit(target: Character, endured: int, terminated: bool)

  function Endure(c: Character, attackPoints: int): (r: Hit)
    ensures r.endured == AdjustAttackToArmor(c, attackPoints)
    // only hp changes: mp, pools, armor and identity are untouched
    ensures r.target == c.(hp := r.target.hp)
    ensures r.target.hp >= 0
    ensures r.terminated <==> c.hp - r.endured <= 0
    ensures !r.terminated ==> r.target.hp == c.hp - r.endured
    // Terminate runs exactly when the character is left terminated
    ensures r.terminated <==> IsTerminated(r.target)
    ensures Healthy(c) && 0 <= attackPoints && 0.0 <= c.armorRate <= 1.0 ==>
              Healthy(r.target) && r.target.hp <= c.hp
  {
    var endured := AdjustAttackToArmor(c, attackPoints);
    var left := c.hp - endured;
    if left <= 0 then Hit(c.(hp := 0), endured, true)
    else Hit(c.(hp := left), endured, false)
  }

  /**
   * A character already at 0 hp that takes 0 adjusted points is terminated
   * again, so callers must only aim at characters still in play.
   */
  lemma EndureOnFallenTerminatesAgain(c: Character, attackPoints: int)
    requires c.hp == 0 && AdjustAttackToArmor(c, attackPoints) == 0
    ensures Endure(c, attackPoints).terminated
    ensures Endure(c, attackPoints).target == c
  {
  }

  /** The hit does not depend on which slot the character occupies. */
  lemma EndureIgnoresMemberId(c: Character, m: int, attackPoints: int)
    ensures Endure(c.(memberId := m), attackPoints).terminated == Endure(c, attackPoints).terminated
    ensures Endure(c.(memberId := m), attackPoints).target == Endure(c, attackPoints).target.(memberId := m)
  {
    var d := c.(memberId := m);
    assert GetArmorRate(d) == GetArmorRate(c);
    assert AdjustAttackToArmor(d, attackPoints) == AdjustAttackToArmor(c, attackPoints);
  }
}
