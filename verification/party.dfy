/**
 * One side's roster (Party.cs): the characters in array order, the
 * selection arrows derived from them, and removal of a fallen member. A null
 * array is `None`.
 */
module Party {
  import opened Wrappers
  import opened Characters
  import Attackable

  datatype Party = Party(
    characters: Option<seq<Character>>,
    arrows: Option<seq<nat>>,
    slots: nat,              // number of physical placement slots
    hpBars: Option<nat>,     // length of the HP status-bar array, None when null
    mpBars: Option<nat>,     // length of the MP status-bar array, None when null
    isEnemy: bool)

  /** The roster invariant: every member's memberId is its index. */
  predicate Indexed(s: seq<Character>) {
    forall k :: 0 <= k < |s| ==> s[k].memberId == k
  }

  /** No scene object appears twice. */
  predicate DistinctUids(s: seq<Character>) {
    forall i, j :: 0 <= i < j < |s| ==> s[i].uid != s[j].uid
  }

  /** The same character state, except possibly for memberId. */
  predicate SameBut(a: Character, b: Character) {
    a.(memberId := 0) == b.(memberId := 0)
  }

  /** Dense renumbering: the k-th character gets memberId k. */
  function Reindex(s: seq<Character>): (r: seq<Character>)
    ensures |r| == |s| && Indexed(r)
    ensures forall k :: 0 <= k < |s| ==> SameBut(r[k], s[k])
  {
    seq(|s|, k requires 0 <= k < |s| => s[k].(memberId := k))
  }

  /** Renumbering depends only on the characters, not on their old memberIds. */
  lemma ReindexIgnoresOldIds(a: seq<Character>, b: seq<Character>)
    requires |a| == |b|
    requires forall k :: 0 <= k < |a| ==> SameBut(a[k], b[k])
    ensures Reindex(a) == Reindex(b)
  {
    forall k | 0 <= k < |a|
      ensures Reindex(a)[k] == Reindex(b)[k]
    {
      assert a[k].(memberId := k) == a[k].(memberId := 0).(memberId := k);
      assert b[k].(memberId := k) == b[k].(memberId := 0).(memberId := k);
    }
  }

  lemma ReindexOfIndexed(s: seq<Character>)
    requires Indexed(s)
    ensures Reindex(s) == s
  {
  }

  /** The arrow array `UpdateArrows` builds: null exactly when the roster is. */
  function ArrowsOf(characters: Option<seq<Character>>): (r: Option<seq<nat>>)
    ensures r.None? <==> characters.None?
    ensures characters.Some? ==> |r.value| == |characters.value|
    ensures characters.Some? ==>
              forall k :: 0 <= k < |r.value| ==> r.value[k] == characters.value[k].arrow
  {
    match characters
    case None => None
    case Some(s) => Some(seq(|s|, k requires 0 <= k < |s| => s[k].arrow))
  }

  method UpdateArrows(p: Party) returns (q: Party)
    ensures q.arrows.None? <==> q.characters.None?
    ensures q.characters.Some? ==> |q.arrows.value| == |q.characters.value|
    ensures q.characters.Some? ==>
              forall k :: 0 <= k < |q.arrows.value| ==> q.arrows.value[k] == q.characters.value[k].arrow
    ensures q == p.(arrows := ArrowsOf(p.characters))
  {
    if p.characters.None? {
      q := p.(arrows := None);
      return;
    }
    var characters := p.characters.value;
    var arrows: seq<nat> := seq(|characters|, _ => 0);
    var count := 0;
    var i := 0;
    while i < |characters|
      invariant 0 <= i <= |characters| && count == i
      invariant |arrows| == |characters|
      invariant forall k :: 0 <= k < count ==> arrows[k] == characters[k].arrow
    {
      if count < |arrows| {
        arrows := arrows[count := characters[i].arrow];
        count := count + 1;
      }
      i := i + 1;
    }
    assert arrows == ArrowsOf(p.characters).value;
    q := p.(arrows := Some(arrows));
  }

  /** The roster after `Setup`: each character at a position with a slot gets that position as memberId. */
  function WithSlotIds(s: seq<Character>, slots: nat): (r: seq<Character>)
    ensures |r| == |s|
    ensures forall k :: 0 <= k < |s| && k < slots ==> r[k].memberId == k && SameBut(r[k], s[k])
    ensures forall k :: slots <= k < |s| ==> r[k] == s[k]
    ensures |s| <= slots ==> Indexed(r)
  {
    seq(|s|, k requires 0 <= k < |s| => if k < slots then s[k].(memberId := k) else s[k])
  }

  /** The guard of `Init`: enemies always, allies only when both bar arrays match the roster. */
  predicate Ready(characters: seq<Character>, isEnemy: bool, hpBars: Option<nat>, mpBars: Option<nat>)
    requires isEnemy || (hpBars.Some? && mpBars.Some?)
  {
    isEnemy || (|characters| == hpBars.value && |characters| == mpBars.value)
  }

  method Setup(p: Party) returns (q: Party)
    requires p.characters.Some?
    requires p.isEnemy || (p.hpBars.Some? && p.mpBars.Some?)
    requires Ready(p.characters.value, p.isEnemy, p.hpBars, p.mpBars)
    ensures q.characters.Some? && |q.characters.value| == |p.characters.value|
    ensures forall k :: 0 <= k < |p.characters.value| && k < p.slots ==>
              q.characters.value[k].memberId == k
    ensures forall k :: p.slots <= k < |p.characters.value| ==>
              q.characters.value[k] == p.characters.value[k]
    ensures q == p.(characters := Some(WithSlotIds(p.characters.value, p.slots)))
  {
    var characters := p.characters.value;
    var placed := characters;
    var count := 0;
    var i := 0;
    while i < |characters|
      invariant 0 <= i <= |characters|
      invariant count == if i <= p.slots then i else p.slots
      invariant |placed| == |characters|
      invariant forall k :: 0 <= k < |characters| ==>
                  placed[k] == if k < count then characters[k].(memberId := k) else characters[k]
    {
      if count < p.slots {
        // allies also take hpBars[count] and mpBars[count], which exist because the arrays match
        assert !p.isEnemy ==> count < p.hpBars.value && count < p.mpBars.value;
        placed := placed[i := characters[i].(memberId := count)];
        count := count + 1;
      }
      i := i + 1;
    }
    assert placed == WithSlotIds(characters, p.slots);
    q := p.(characters := Some(placed));
  }

  method Init(p: Party, characters: seq<Character>, isEnemy: bool, hpBars: Option<nat>, mpBars: Option<nat>)
    returns (q: Party)
    requires isEnemy || (hpBars.Some? && mpBars.Some?)
    ensures q.isEnemy == isEnemy && q.hpBars == hpBars && q.mpBars == mpBars && q.slots == p.slots
    ensures Ready(characters, isEnemy, hpBars, mpBars) ==>
              q.characters == Some(WithSlotIds(characters, p.slots)) && q.arrows == ArrowsOf(q.characters)
    ensures Ready(characters, isEnemy, hpBars, mpBars) && |characters| <= p.slots ==>
              Indexed(q.characters.value)
    // no memberId is placed and the arrows are left as they were
    ensures !Ready(characters, isEnemy, hpBars, mpBars) ==>
              q.characters == Some(characters) && q.arrows == p.arrows
  {
    q := p.(characters := Some(characters), isEnemy := isEnemy, hpBars := hpBars, mpBars := mpBars);
    if Ready(characters, isEnemy, hpBars, mpBars) {
      q := Setup(q);
      q := UpdateArrows(q);
    }
  }

  /** A roster array as the party stores it: an emptied roster is null. */
  function RosterOf(s: seq<Character>): (r: Option<seq<Character>>)
    ensures r.None? <==> |s| == 0
    ensures r.Some? ==> r.value == s
  {
    if |s| == 0 then None else Some(s)
  }

  /** What `RemoveFromParty` needs of its index: in range whenever a new array is built. */
  predicate CanRemove(n: int, index: int) {
    n > 1 ==> 0 <= index < n
  }

  /** The roster after removing position `index`: survivors in order, densely renumbered, or null. */
  function Removal(s: seq<Character>, index: int): (r: Option<seq<Character>>)
    requires CanRemove(|s|, index)
    ensures |s| <= 1 <==> r.None?
    ensures r.Some? ==> |r.value| == |s| - 1 && Indexed(r.value)
    ensures r.Some? ==> forall k :: 0 <= k < |r.value| ==>
              SameBut(r.value[k], s[if k < index then k else k + 1])
  {
    if |s| > 1 then Some(Reindex(s[..index] + s[index + 1..])) else None
  }

  function Removed(p: Party, index: int): (q: Party)
    requires p.characters.Some? && CanRemove(|p.characters.value|, index)
    ensures q.characters == Removal(p.characters.value, index)
    ensures q.arrows == ArrowsOf(q.characters)
    ensures q == p.(characters := q.characters, arrows := q.arrows)
  {
    var rest := Removal(p.characters.value, index);
    p.(characters := rest, arrows := ArrowsOf(rest))
  }

  method RemoveFromParty(p: Party, index: int) returns (q: Party)
    requires p.characters.Some?
    requires CanRemove(|p.characters.value|, index)
    ensures |p.characters.value| <= 1 ==> q.characters.None? && q.arrows.None?
    ensures |p.characters.value| > 1 ==>
              q.characters.Some? && |q.characters.value| == |p.characters.value| - 1
    ensures q.characters.Some? ==> Indexed(q.characters.value)
    ensures q.characters.Some? ==> forall k :: 0 <= k < |q.characters.value| ==>
              SameBut(q.characters.value[k], p.characters.value[if k < index then k else k + 1])
    ensures q.arrows == ArrowsOf(q.characters)
    ensures q == Removed(p, index)
  {
    var characters := p.characters.value;
    var rest: Option<seq<Character>>;
    if |characters| > 1 {
      var i := 0;
      var j := 0;
      var newParty := seq(|characters| - 1, _ => characters[0]);
      while i < |characters|
        invariant 0 <= i <= |characters|
        invariant j == if i <= index then i else i - 1
        invariant |newParty| == |characters| - 1
        invariant forall k :: 0 <= k < j ==>
                    newParty[k] == characters[if k < index then k else k + 1].(memberId := k)
      {
        if i != index {
          newParty := newParty[j := characters[i].(memberId := j)];
          j := j + 1;
        }
        i := i + 1;
      }
      assert newParty == Reindex(characters[..index] + characters[index + 1..]);
      rest := Some(newParty);
    } else {
      rest := None;
    }
    q := UpdateArrows(p.(characters := rest));
  }

  /**
   * `Endure` on the member at position k of the roster, with `Terminate`
   * calling back into the party with the member's memberId.
   */
  function EndureMember(p: Party, k: int, attackPoints: int): (q: Party)
    requires p.characters.Some? && 0 <= k < |p.characters.value|
    requires Attackable.Endure(p.characters.value[k], attackPoints).terminated ==>
               CanRemove(|p.characters.value|, p.characters.value[k].memberId)
    // a survivor only has its hp changed in place
    ensures !Attackable.Endure(p.characters.value[k], attackPoints).terminated ==>
              q == p.(characters := Some(p.characters.value[k := Attackable.Endure(p.characters.value[k], attackPoints).target]))
    // a fallen member's slot is deleted, the rest shift down
    ensures Attackable.Endure(p.characters.value[k], attackPoints).terminated && Indexed(p.characters.value) ==>
              q == Removed(p, k)
    ensures Indexed(p.characters.value) && q.characters.Some? ==> Indexed(q.characters.value)
    ensures p.arrows == ArrowsOf(p.characters) ==> q.arrows == ArrowsOf(q.characters)
    ensures q == p.(characters := q.characters, arrows := q.arrows)
  {
    var s := p.characters.value;
    var hit := Attackable.Endure(s[k], attackPoints);
    var s' := s[k := hit.target];
    if hit.terminated then
      assert s'[..k] + s'[k + 1..] == s[..k] + s[k + 1..];
      Removed(p.(characters := Some(s')), hit.target.memberId)
    else
      assert ArrowsOf(Some(s')).value == ArrowsOf(p.characters).value;
      p.(characters := Some(s'))
  }
}
