/**
 * The difficulty enumeration of common.py.
 *
 * The members carry the values 0, 1 and 2.  The enumeration overrides
 * only `>=`, and that override compares the values with a STRICT `>`;
 * `Ge` below is that comparison as written, and `AtLeast` is the
 * conventional `>=` that the operator's name promises.
 */
module Common {

  datatype OptionDiffLevel = Easy | Medium | Hard

  /** Every member, in declaration order (what `list(OptionDiffLevel)` yields). */
  const Members: seq<OptionDiffLevel> := [Easy, Medium, Hard]

  /** The `.value` of a member. */
  function Value(l: OptionDiffLevel): (v: nat)
    ensures v < |Members| && Members[v] == l
  {
    match l
    case Easy => 0
    case Medium => 1
    case Hard => 2
  }

  /** `a >= b` as the enumeration defines it: the values compared with `>`. */
  function Ge(a: OptionDiffLevel, b: OptionDiffLevel): (r: bool)
    ensures r <==> (a == Medium && b == Easy) || (a == Hard && b != Hard)
  {
    Value(a) > Value(b)
  }

  /** The enumeration has exactly the three members, with distinct values 0, 1, 2. */
  lemma MembersAreExactly(l: OptionDiffLevel)
    ensures l in Members && |Members| == 3
    ensures Value(Easy) == 0 && Value(Medium) == 1 && Value(Hard) == 2
    ensures forall i, j :: 0 <= i < j < |Members| ==> Members[i] != Members[j]
  {
  }

  /** As written, `x >= x` never holds: the relation is irreflexive. */
  lemma GeIrreflexive(x: OptionDiffLevel)
    ensures !Ge(x, x)
  {
  }

  /** As written, the relation is a strict order: asymmetric and transitive. */
  lemma GeStrictOrder(a: OptionDiffLevel, b: OptionDiffLevel, c: OptionDiffLevel)
    ensures Ge(a, b) ==> !Ge(b, a)
    ensures Ge(a, b) && Ge(b, c) ==> Ge(a, c)
    ensures a != b ==> Ge(a, b) || Ge(b, a)
  {
  }

  /** The conventional greater-or-equal that the operator name promises. */
  function AtLeast(a: OptionDiffLevel, b: OptionDiffLevel): (r: bool)
    ensures r <==> a == b || Ge(a, b)
  {
    Value(a) >= Value(b)
  }

  /** The corrected comparison is a total order: reflexive, antisymmetric, transitive, total. */
  lemma AtLeastTotalOrder(a: OptionDiffLevel, b: OptionDiffLevel, c: OptionDiffLevel)
    ensures AtLeast(a, a)
    ensures AtLeast(a, b) && AtLeast(b, a) ==> a == b
    ensures AtLeast(a, b) && AtLeast(b, c) ==> AtLeast(a, c)
    ensures AtLeast(a, b) || AtLeast(b, a)
  {
  }
}
