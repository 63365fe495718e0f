/** Skill proficiency levels (main.py:18 and the level normalisation at main.py:81-83). */
module Levels {
  import opened Text

  /** The three buckets the dashboard knows, in display order. */
  datatype Level = Advanced | Intermediate | Fundamental

  function Name(l: Level): string {
    match l
    case Advanced => "Advanced"
    case Intermediate => "Intermediate"
    case Fundamental => "Fundamental"
  }

  /** `LEVEL_ORDER[name]`: the position of a level in display order. */
  function Rank(l: Level): (r: nat)
    ensures r < 3
    ensures l == Advanced <==> r == 0
    ensures l == Fundamental <==> r == 2
  {
    match l
    case Advanced => 0
    case Intermediate => 1
    case Fundamental => 2
  }

  /** The ranks order the levels Advanced, Intermediate, Fundamental, and
      no two levels share a rank. */
  lemma RankOrder(l: Level, m: Level)
    ensures Rank(Advanced) < Rank(Intermediate) < Rank(Fundamental)
    ensures Rank(l) == Rank(m) ==> l == m
  {
  }

  /** The level a raw bucket name from the skill payload is filed under: the
      capitalized name when it is one of the three, Fundamental otherwise. */
  function Normalize(raw: string): (l: Level)
    ensures Capitalize(raw) == Name(l) || (l == Fundamental && forall m :: Capitalize(raw) != Name(m))
  {
    var c := Capitalize(raw);
    if c == "Advanced" then Advanced
    else if c == "Intermediate" then Intermediate
    else Fundamental
  }

  /** Each level's own name is already capitalized. */
  lemma NameCapitalized(l: Level)
    ensures Capitalize(Name(l)) == Name(l)
  {
    var n := Name(l);
    var tail := n[1..];
    assert forall i :: 0 <= i < |tail| ==> 'a' <= tail[i] <= 'z' by {
      match l
      case Advanced => assert tail == "dvanced";
      case Intermediate => assert tail == "ntermediate";
      case Fundamental => assert tail == "undamental";
    }
    LowerAllLower(tail);
    assert Upper(n[0]) == n[0];
    assert n == [n[0]] + tail;
  }

  /** A raw name is recognised as a level exactly when it spells that level's
      name in any mixture of upper and lower case. */
  lemma NormalizeCaseInsensitive(raw: string, l: Level)
    ensures Capitalize(raw) == Name(l) <==> LowerAll(raw) == LowerAll(Name(l))
  {
    NameCapitalized(l);
    LowerAllCapitalize(raw);
    CapitalizeLowerAll(raw);
    CapitalizeLowerAll(Name(l));
  }

  /** Every level's name normalises back to that level. */
  lemma NormalizeName(l: Level)
    ensures Normalize(Name(l)) == l
  {
    NameCapitalized(l);
  }
}
