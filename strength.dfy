/** The strength rating of the App component (`getPasswordStrength`) and the
    width of the strength bar drawn from it. The rating depends on the
    configuration only, never on the generated characters.
 */
module Strength {

  datatype Label = Weak | Medium | Strong

  /** First match wins: shorter than 8 is Weak; shorter than 12, or both
      toggles off, is Medium; everything else is Strong. */
  function Classify(length: int, isNumber: bool, isChar: bool): (s: Label)
    ensures s == Weak <==> length < 8
    ensures s == Medium <==> length >= 8 && (length < 12 || (!isNumber && !isChar))
    ensures s == Strong <==> length >= 12 && (isNumber || isChar)
  {
    if length < 8 then Weak
    else if length < 12 || (!isNumber && !isChar) then Medium
    else Strong
  }

  /** The fill of the strength bar, in percent: a third of the bar per step
      up from Weak, and the full bar only for Strong. */
  function BarWidth(s: Label): (w: nat)
    ensures w / 33 == Rank(s) + 1
    ensures w == 33 <==> s == Weak
    ensures w == 66 <==> s == Medium
    ensures w == 100 <==> s == Strong
    ensures 0 < w <= 100
  {
    if s == Weak then 33 else if s == Medium then 66 else 100
  }

  /** The position of a label in Weak < Medium < Strong. */
  function Rank(s: Label): nat
  {
    match s
    case Weak => 0
    case Medium => 1
    case Strong => 2
  }

  /** The bar is a proportional indicator: a stronger label never gets a
      narrower bar, distinct labels get distinct widths, and it never
      overflows 100 percent. */
  lemma BarWidthFollowsRank(s: Label, t: Label)
    ensures Rank(s) <= Rank(t) <==> BarWidth(s) <= BarWidth(t)
    ensures BarWidth(s) == BarWidth(t) ==> s == t
    ensures 0 < BarWidth(s) <= 100
  {
  }

  /** For fixed toggles the rating, and so the bar width, never drops as the
      length grows. */
  lemma ClassifyMonotoneInLength(l1: int, l2: int, isNumber: bool, isChar: bool)
    requires l1 <= l2
    ensures Rank(Classify(l1, isNumber, isChar)) <= Rank(Classify(l2, isNumber, isChar))
    ensures BarWidth(Classify(l1, isNumber, isChar)) <= BarWidth(Classify(l2, isNumber, isChar))
  {
  }

  /** Turning a toggle on never lowers the rating. */
  lemma ClassifyMonotoneInToggles(length: int, n1: bool, c1: bool, n2: bool, c2: bool)
    requires (n1 ==> n2) && (c1 ==> c2)
    ensures Rank(Classify(length, n1, c1)) <= Rank(Classify(length, n2, c2))
  {
  }

  /** The rating at each end of the decision table. */
  lemma ClassifyExamples()
    ensures forall n: bool, c: bool :: Classify(6, n, c) == Weak && Classify(7, n, c) == Weak
    ensures Classify(8, false, false) == Medium
    ensures Classify(12, true, true) == Strong
    ensures Classify(20, false, false) == Medium
    ensures BarWidth(Classify(20, false, false)) == 66
  {
  }
}
