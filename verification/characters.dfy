/**
 * The combat-relevant state of one battle character (Character.cs), with the
 * action descriptors it carries (Cast.cs, Summon.cs, Item.cs) and its weapon
 * (Weapon.cs). Object identity, which the C# code gets from references, is the
 * `uid` field.
 */
module Characters {

  /** A castable spell; only its name matters to the battle logic. */
  datatype Cast = Cast(name: string)

  /** A usable item; only its name matters to the battle logic. */
  datatype Item = Item(name: string)

  /** A summon: what it costs to call and the attack points it deals to every target. */
  datatype Summon = Summon(name: string, mpCost: int, ap: int)

  /** A weapon: whether damage waits for a projectile, and its attack points. */
  datatype Weapon = Weapon(longRange: bool, initialAp: int, ap: int)

  datatype Character = Character(
    uid: nat,          // identity of the scene object
    memberId: int,     // index in the owning party's array
    hp: int, maxHp: int, initialHp: int,
    mp: int, maxMp: int, initialMp: int,
    armorRate: real,   // fraction of incoming attack points absorbed
    casts: seq<Cast>, summons: seq<Summon>, items: seq<Item>,
    weapon: Weapon,
    arrow: nat)        // identity of the selection-arrow sprite of its Attackable

  /** Both pools within [0, their maximum]; `Endure` keeps it, and in the corrected build `BattleManager.Coherent` keeps mp from going negative. */
  predicate Healthy(c: Character) {
    0 <= c.hp <= c.maxHp && 0 <= c.mp <= c.maxMp
  }

  /**
   * A freshly instantiated character as the inspector configures it, before
   * `Start`: private fields hold their initialisers, so the armor rate is 0.
   */
  function Spawn(uid: nat, initialHp: int, initialMp: int, casts: seq<Cast>,
                 summons: seq<Summon>, items: seq<Item>, weapon: Weapon, arrow: nat): (c: Character)
    ensures c.uid == uid && c.arrow == arrow && c.weapon == weapon
    ensures c.casts == casts && c.summons == summons && c.items == items
    ensures c.initialHp == initialHp && c.initialMp == initialMp
    ensures GetArmorRate(c) == 0.0
  {
    Character(uid, 0, 0, 0, initialHp, 0, 0, initialMp, 0.0, casts, summons, items, weapon, arrow)
  }

  /** `Start`: both pools begin full at their configured initial values. */
  function Start(c: Character): (r: Character)
    ensures r.hp == r.maxHp == c.initialHp
    ensures r.mp == r.maxMp == c.initialMp
    ensures r == c.(hp := r.hp, maxHp := r.maxHp, mp := r.mp, maxMp := r.maxMp)
    ensures c.initialHp >= 0 && c.initialMp >= 0 ==> Healthy(r)
    ensures IsTerminated(r) <==> c.initialHp <= 0
  {
    c.(hp := c.initialHp, maxHp := c.initialHp, mp := c.initialMp, maxMp := c.initialMp)
  }

  /** `Weapon.Init`: the attack points start at the configured initial value. */
  function InitWeapon(w: Weapon): (r: Weapon)
    ensures r.ap == w.initialAp && r.longRange == w.longRange && r.initialAp == w.initialAp
  {
    w.(ap := w.initialAp)
  }

  function GetArmorRate(c: Character): real {
    c.armorRate
  }

  predicate IsTerminated(c: Character) {
    c.hp <= 0
  }

  predicate HasCasts(c: Character) {
    |c.casts| > 0
  }

  predicate HasSummons(c: Character) {
    |c.summons| > 0
  }

  predicate HasItems(c: Character) {
    |c.items| > 0
  }
}
