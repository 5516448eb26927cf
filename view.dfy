/** The view state of the App component: the length slider, the two toggles,
    the displayed password and the "copied" flag. Each setter changes one
    field and then regenerates the password, the net effect of the
    `useEffect` that calls `passwordGenerator` whenever a dependency changes.

    Every operation that generates takes the draws that stand in for
    `Math.random()`; they must index the alphabet of the toggles in force.
 */
module View {
  import opened Generator
  import opened Strength

  /** The draws suffice for `length` iterations and each indexes the
      alphabet of the given toggles. */
  predicate DrawsFit(isNumber: bool, isChar: bool, length: int, draws: seq<nat>)
  {
    Iterations(length) <= |draws| && InRange(Alphabet(isNumber, isChar), draws[..Iterations(length)])
  }

  const MinLength: int := 6
  const MaxLength: int := 32
  const InitialLength: int := 12

  class PasswordView {
    var length: int
    var isNumber: bool
    var isChar: bool
    var password: string
    var copied: bool

    /** The slider keeps the length in [6, 32], and the displayed password
        always fits the current configuration: exactly `length` characters,
        each from the current alphabet. */
    ghost predicate Valid()
      reads this
    {
      MinLength <= length <= MaxLength &&
      |password| == length &&
      forall ch :: ch in password ==> ch in Alphabet(isNumber, isChar)
    }

    /** The rating shown under the password. It is computed from the
        configuration, and in a valid state it tracks the length of the
        displayed password. */
    function Rating(): (s: Label)
      reads this
      ensures Valid() ==> (s == Weak <==> |password| < 8)
      ensures Valid() ==> (s == Strong <==> |password| >= 12 && (isNumber || isChar))
      ensures Valid() ==> (s == Medium <==> |password| >= 8 && (|password| < 12 || (!isNumber && !isChar)))
    {
      Classify(length, isNumber, isChar)
    }

    /** The width of the strength bar, in percent, read off the current
        configuration. */
    function Width(): (w: nat)
      reads this
      ensures w == 33 <==> length < 8
      ensures w == 66 <==> length >= 8 && (length < 12 || (!isNumber && !isChar))
      ensures w == 100 <==> length >= 12 && (isNumber || isChar)
    {
      BarWidth(Rating())
    }

    /** The state after mounting: length 12, both toggles on, and the
        password the mount-time effect generates. */
    constructor (draws: seq<nat>)
      requires DrawsFit(true, true, InitialLength, draws)
      ensures Valid()
      ensures length == InitialLength && isNumber && isChar && !copied
      ensures password == Password(true, true, InitialLength, draws)
    {
      var pass := GeneratePassword(true, true, InitialLength, draws);
      length := InitialLength;
      isNumber := true;
      isChar := true;
      copied := false;
      password := pass;
      PasswordShape(true, true, InitialLength, draws);
      PasswordInAlphabet(true, true, InitialLength, draws);
    }

    /** `passwordGenerator`, also what the refresh button runs: a new
        password from the current configuration, and `copied` cleared.
        Whatever the old password was, this re-establishes `Valid()`. */
    method Regenerate(draws: seq<nat>)
      requires MinLength <= length <= MaxLength
      requires DrawsFit(isNumber, isChar, length, draws)
      modifies this
      ensures length == old(length) && isNumber == old(isNumber) && isChar == old(isChar)
      ensures password == Password(isNumber, isChar, length, draws) && !copied
      ensures Valid()
    {
      password := GeneratePassword(isNumber, isChar, length, draws);
      copied := false;
      PasswordShape(isNumber, isChar, length, draws);
      PasswordInAlphabet(isNumber, isChar, length, draws);
    }

    /** Moving the slider to `value`, then the regeneration it triggers. */
    method SetLength(value: int, draws: seq<nat>)
      requires Valid()
      requires MinLength <= value <= MaxLength
      requires DrawsFit(isNumber, isChar, value, draws)
      modifies this
      ensures Valid()
      ensures length == value && isNumber == old(isNumber) && isChar == old(isChar)
      ensures password == Password(isNumber, isChar, value, draws) && !copied
    {
      length := value;
      Regenerate(draws);
    }

    /** Flipping "Include Numbers", then the regeneration it triggers. */
    method ToggleNumber(draws: seq<nat>)
      requires Valid()
      requires DrawsFit(!isNumber, isChar, length, draws)
      modifies this
      ensures Valid()
      ensures isNumber == !old(isNumber) && isChar == old(isChar) && length == old(length)
      ensures password == Password(isNumber, isChar, length, draws) && !copied
    {
      isNumber := !isNumber;
      Regenerate(draws);
    }

    /** Flipping "Include Symbols", then the regeneration it triggers. */
    method ToggleChar(draws: seq<nat>)
      requires Valid()
      requires DrawsFit(isNumber, !isChar, length, draws)
      modifies this
      ensures Valid()
      ensures isChar == !old(isChar) && isNumber == old(isNumber) && length == old(length)
      ensures password == Password(isNumber, isChar, length, draws) && !copied
    {
      isChar := !isChar;
      Regenerate(draws);
    }
  }
}
