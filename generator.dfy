/** The password generator of the App component: the alphabet it samples from
    and the loop that appends one sampled character per position.

    `Math.random()` is replaced by an injected sequence of draws: the i-th
    iteration of the loop uses `draws[i-1]` where the component computes
    `Math.floor(Math.random() * str.length)`.
 */
module Generator {

  /** The 52 letters the alphabet always starts with, upper case first. */
  const Letters: string := "ABCDEFGHIJKLMNOPQRSTUVWXYZabcdefghijklmnopqrstuvwxyz"
  /** Appended when "Include Numbers" is on. */
  const Digits: string := "0123456789"
  /** Appended when "Include Symbols" is on. */
  const Symbols: string := "`~@#$%^&*_-+="

  const UpperCase: string := "ABCDEFGHIJKLMNOPQRSTUVWXYZ"
  const LowerCase: string := "abcdefghijklmnopqrstuvwxyz"

  predicate IsLetter(ch: char) { 'A' <= ch <= 'Z' || 'a' <= ch <= 'z' }
  predicate IsDigit(ch: char) { '0' <= ch <= '9' }
  predicate IsSymbol(ch: char) { ch in Symbols }

  /** The alphabet built from the two toggles: letters, then digits if
      `isNumber`, then symbols if `isChar`. */
  function Alphabet(isNumber: bool, isChar: bool): (r: string)
    ensures |r| == 52 + (if isNumber then 10 else 0) + (if isChar then 13 else 0)
    ensures |r| in {52, 62, 65, 75}
    ensures r[..52] == Letters
  {
    Letters + (if isNumber then Digits else "") + (if isChar then Symbols else "")
  }

  /** `str.charAt(i)`: the one-character string at `i`, or the empty string
      when `i` is past the end. */
  function CharAt(s: string, i: nat): (r: string)
    ensures |r| <= 1
    ensures |r| == 1 <==> i < |s|
    ensures forall ch :: ch in r ==> ch in s
  {
    if i < |s| then [s[i]] else ""
  }

  /** The number of iterations of `for (let i = 1; i <= length; i++)`. */
  function Iterations(length: int): (n: nat)
    ensures length >= 1 ==> n == length
    ensures length < 1 ==> n == 0
  {
    if length < 0 then 0 else length
  }

  /** What the loop has appended after consuming the draws `ds` in order. */
  function Picks(alphabet: string, ds: seq<nat>): (r: string)
    ensures |r| <= |ds|
    ensures forall ch :: ch in r ==> ch in alphabet
  {
    if ds == [] then "" else Picks(alphabet, ds[..|ds| - 1]) + CharAt(alphabet, ds[|ds| - 1])
  }

  /** The password the generator produces for the given toggles, length and
      draws: only the first `Iterations(length)` draws are consumed. */
  function Password(isNumber: bool, isChar: bool, length: int, draws: seq<nat>): (r: string)
    requires Iterations(length) <= |draws|
    ensures |r| <= Iterations(length)
    ensures forall ch :: ch in r ==> ch in Alphabet(isNumber, isChar)
  {
    Picks(Alphabet(isNumber, isChar), draws[..Iterations(length)])
  }

  /** Every draw in `ds` is a valid index into `alphabet` -- what
      `Math.floor(Math.random() * str.length)` guarantees. */
  predicate InRange(alphabet: string, ds: seq<nat>)
  {
    forall k :: 0 <= k < |ds| ==> ds[k] < |alphabet|
  }

  /** `passwordGenerator` without its two state updates: build the alphabet
      with `+=`, then append one character per iteration of the loop. */
  method GeneratePassword(isNumber: bool, isChar: bool, length: int, draws: seq<nat>) returns (pass: string)
    requires Iterations(length) <= |draws|
    ensures pass == Password(isNumber, isChar, length, draws)
  {
    pass := "";
    var str := Letters;
    if isNumber {
      str := str + Digits;
    }
    if isChar {
      str := str + Symbols;
    }
    assert str == Alphabet(isNumber, isChar);
    var i := 1;
    while i <= length
      invariant 1 <= i <= Iterations(length) + 1
      invariant pass == Picks(str, draws[..i - 1])
    {
      assert draws[..i][..i - 1] == draws[..i - 1];
      pass := pass + CharAt(str, draws[i - 1]);
      i := i + 1;
    }
  }

  // ---------------------------------------------------------------------
  // The alphabet

  lemma LettersSpelledOut()
    ensures Letters == UpperCase + LowerCase
    ensures forall k :: 0 <= k < 26 ==>
      UpperCase[k] == ('A' as int + k) as char && LowerCase[k] == ('a' as int + k) as char
  {
  }

  /** The alphabet begins with A-Z then a-z, whatever the toggles, so it is
      never empty. */
  lemma AlphabetStartsWithLetters(isNumber: bool, isChar: bool)
    ensures forall k :: 0 <= k < 26 ==> Alphabet(isNumber, isChar)[k] == ('A' as int + k) as char
    ensures forall k :: 26 <= k < 52 ==> Alphabet(isNumber, isChar)[k] == ('a' as int + (k - 26)) as char
    ensures |Alphabet(isNumber, isChar)| > 0
  {
    var a := Alphabet(isNumber, isChar);
    LettersSpelledOut();
    assert forall k :: 0 <= k < 52 ==> a[k] == a[..52][k] == Letters[k];
    forall k | 26 <= k < 52
      ensures a[k] == ('a' as int + (k - 26)) as char
    {
      assert Letters[k] == LowerCase[k - 26];
    }
  }

  /** No symbol is a letter or a digit. */
  lemma SymbolClass()
    ensures forall k :: 0 <= k < |Symbols| ==> !IsLetter(Symbols[k]) && !IsDigit(Symbols[k])
  {
  }

  /** The digit string holds digits only. */
  lemma DigitClass()
    ensures forall k :: 0 <= k < |Digits| ==> IsDigit(Digits[k]) && !IsLetter(Digits[k]) && !IsSymbol(Digits[k])
  {
    SymbolClass();
    forall k | 0 <= k < |Digits|
      ensures !IsSymbol(Digits[k])
    {
      assert forall j :: 0 <= j < |Symbols| ==> Symbols[j] != Digits[k];
    }
  }

  /** The letter string holds letters only. */
  lemma LetterClass()
    ensures forall k :: 0 <= k < |Letters| ==> IsLetter(Letters[k]) && !IsDigit(Letters[k]) && !IsSymbol(Letters[k])
  {
    LettersSpelledOut();
    SymbolClass();
    forall k | 0 <= k < |Letters|
      ensures IsLetter(Letters[k]) && !IsSymbol(Letters[k])
    {
      if k < 26 {
        assert Letters[k] == UpperCase[k];
      } else {
        assert Letters[k] == LowerCase[k - 26];
      }
      assert forall j :: 0 <= j < |Symbols| ==> Symbols[j] != Letters[k];
    }
  }

  /** Where each class sits: letters at [0, 52), digits (if any) right after
      them, symbols (if any) last. */
  lemma AlphabetLayout(isNumber: bool, isChar: bool, k: nat)
    requires k < |Alphabet(isNumber, isChar)|
    ensures k < 52 ==> Alphabet(isNumber, isChar)[k] == Letters[k]
    ensures isNumber && 52 <= k < 62 ==> Alphabet(isNumber, isChar)[k] == Digits[k - 52]
    ensures isChar ==> (k >= |Alphabet(isNumber, isChar)| - 13 ==> Alphabet(isNumber, isChar)[k] == Symbols[k - (|Alphabet(isNumber, isChar)| - 13)])
  {
    var a := Alphabet(isNumber, isChar);
    var d := if isNumber then Digits else "";
    var s := if isChar then Symbols else "";
    assert a == Letters + d + s;
  }

  /** Every character of the alphabet is a letter, a digit when
      `isNumber`, or a symbol when `isChar`. */
  lemma AlphabetMembers(isNumber: bool, isChar: bool, k: nat)
    requires k < |Alphabet(isNumber, isChar)|
    ensures var ch := Alphabet(isNumber, isChar)[k];
      IsLetter(ch) || (isNumber && IsDigit(ch)) || (isChar && IsSymbol(ch))
    ensures IsDigit(Alphabet(isNumber, isChar)[k]) ==> isNumber
    ensures IsSymbol(Alphabet(isNumber, isChar)[k]) ==> isChar
  {
    LetterClass();
    DigitClass();
    SymbolClass();
    AlphabetLayout(isNumber, isChar, k);
  }

  /** The alphabet holds a digit exactly when "Include Numbers" is on. */
  lemma AlphabetHasDigitIff(isNumber: bool, isChar: bool)
    ensures (exists k :: 0 <= k < |Alphabet(isNumber, isChar)| && IsDigit(Alphabet(isNumber, isChar)[k])) <==> isNumber
  {
    var a := Alphabet(isNumber, isChar);
    if isNumber {
      AlphabetLayout(isNumber, isChar, 52);
      assert IsDigit(a[52]);
    } else {
      forall k | 0 <= k < |a| ensures !IsDigit(a[k]) {
        AlphabetMembers(isNumber, isChar, k);
      }
    }
  }

  /** The alphabet holds a symbol exactly when "Include Symbols" is on. */
  lemma AlphabetHasSymbolIff(isNumber: bool, isChar: bool)
    ensures (exists k :: 0 <= k < |Alphabet(isNumber, isChar)| && IsSymbol(Alphabet(isNumber, isChar)[k])) <==> isChar
  {
    var a := Alphabet(isNumber, isChar);
    if isChar {
      AlphabetLayout(isNumber, isChar, |a| - 1);
      assert IsSymbol(a[|a| - 1]);
    } else {
      forall k | 0 <= k < |a| ensures !IsSymbol(a[k]) {
        AlphabetMembers(isNumber, isChar, k);
      }
    }
  }

  /** Digits always come before symbols, and letters before both. */
  lemma AlphabetOrder(isNumber: bool, isChar: bool, i: nat, j: nat)
    requires i < |Alphabet(isNumber, isChar)| && j < |Alphabet(isNumber, isChar)|
    ensures IsLetter(Alphabet(isNumber, isChar)[i]) && !IsLetter(Alphabet(isNumber, isChar)[j]) ==> i < j
    ensures IsDigit(Alphabet(isNumber, isChar)[i]) && IsSymbol(Alphabet(isNumber, isChar)[j]) ==> i < j
  {
    var a := Alphabet(isNumber, isChar);
    LetterClass();
    DigitClass();
    SymbolClass();
    AlphabetLayout(isNumber, isChar, i);
    AlphabetLayout(isNumber, isChar, j);
  }

  // ---------------------------------------------------------------------
  // The generation loop

  /** Position `k` of the picks is the character at draw `k`, and nothing is
      dropped, when every draw is in range. */
  lemma {:induction false} PicksInRange(alphabet: string, ds: seq<nat>)
    requires InRange(alphabet, ds)
    ensures |Picks(alphabet, ds)| == |ds|
    ensures forall k :: 0 <= k < |ds| ==> Picks(alphabet, ds)[k] == alphabet[ds[k]]
  {
    if ds != [] {
      var init := ds[..|ds| - 1];
      PicksInRange(alphabet, init);
    }
  }

  /** A draw past the end of the alphabet appends nothing, so the picks are
      as long as the draws exactly when every draw is in range. */
  lemma {:induction false} PicksLength(alphabet: string, ds: seq<nat>)
    ensures |Picks(alphabet, ds)| <= |ds|
    ensures |Picks(alphabet, ds)| == |ds| <==> InRange(alphabet, ds)
  {
    if ds != [] {
      var init := ds[..|ds| - 1];
      PicksLength(alphabet, init);
      if InRange(alphabet, ds) {
        assert InRange(alphabet, init);
      }
    }
  }

  /** The number of draws in `ds` that index `alphabet`. */
  function CountInRange(alphabet: string, ds: seq<nat>): (n: nat)
    ensures n <= |ds|
  {
    if ds == [] then 0
    else CountInRange(alphabet, ds[..|ds| - 1]) + (if ds[|ds| - 1] < |alphabet| then 1 else 0)
  }

  /** Each in-range draw appends one character and each out-of-range draw
      none, so the picks are exactly as long as the in-range draws are many. */
  lemma {:induction false} PicksLengthCounts(alphabet: string, ds: seq<nat>)
    ensures |Picks(alphabet, ds)| == CountInRange(alphabet, ds)
  {
    if ds != [] {
      PicksLengthCounts(alphabet, ds[..|ds| - 1]);
    }
  }

  /** One draw past the end among otherwise in-range draws leaves the
      password exactly one character short. */
  lemma PasswordOneShort(isNumber: bool, isChar: bool, length: int, draws: seq<nat>, j: nat)
    requires Iterations(length) <= |draws|
    requires j < Iterations(length) && draws[j] >= |Alphabet(isNumber, isChar)|
    requires forall k :: 0 <= k < Iterations(length) && k != j ==> draws[k] < |Alphabet(isNumber, isChar)|
    ensures |Password(isNumber, isChar, length, draws)| == Iterations(length) - 1
  {
    var a := Alphabet(isNumber, isChar);
    var ds := draws[..Iterations(length)];
    PicksLengthCounts(a, ds);
    OneOutOfRange(a, ds, j);
  }

  lemma {:induction false} OneOutOfRange(alphabet: string, ds: seq<nat>, j: nat)
    requires j < |ds| && ds[j] >= |alphabet|
    requires forall k :: 0 <= k < |ds| && k != j ==> ds[k] < |alphabet|
    ensures CountInRange(alphabet, ds) == |ds| - 1
  {
    var init := ds[..|ds| - 1];
    if j == |ds| - 1 {
      AllInRangeCount(alphabet, init);
    } else {
      OneOutOfRange(alphabet, init, j);
    }
  }

  lemma {:induction false} AllInRangeCount(alphabet: string, ds: seq<nat>)
    requires InRange(alphabet, ds)
    ensures CountInRange(alphabet, ds) == |ds|
  {
    if ds != [] {
      AllInRangeCount(alphabet, ds[..|ds| - 1]);
    }
  }

  /** With in-range draws the password has exactly `length` characters (none
      when `length` is below 1) and character `k` is the alphabet at draw `k`. */
  lemma PasswordShape(isNumber: bool, isChar: bool, length: int, draws: seq<nat>)
    requires Iterations(length) <= |draws|
    requires InRange(Alphabet(isNumber, isChar), draws[..Iterations(length)])
    ensures |Password(isNumber, isChar, length, draws)| == Iterations(length)
    ensures forall k :: 0 <= k < Iterations(length) ==>
      Password(isNumber, isChar, length, draws)[k] == Alphabet(isNumber, isChar)[draws[k]]
  {
    PicksInRange(Alphabet(isNumber, isChar), draws[..Iterations(length)]);
  }

  /** The password has full length exactly when every consumed draw indexes
      the alphabet; an out-of-range draw would make `charAt` return "". */
  lemma PasswordLengthIff(isNumber: bool, isChar: bool, length: int, draws: seq<nat>)
    requires Iterations(length) <= |draws|
    ensures |Password(isNumber, isChar, length, draws)| == Iterations(length)
      <==> InRange(Alphabet(isNumber, isChar), draws[..Iterations(length)])
  {
    PicksLength(Alphabet(isNumber, isChar), draws[..Iterations(length)]);
  }

  /** Every password character belongs to the alphabet of the same toggles:
      a letter, a digit only if `isNumber`, a symbol only if `isChar`. */
  lemma PasswordInAlphabet(isNumber: bool, isChar: bool, length: int, draws: seq<nat>)
    requires Iterations(length) <= |draws|
    ensures forall ch :: ch in Password(isNumber, isChar, length, draws) ==> ch in Alphabet(isNumber, isChar)
    ensures forall ch :: ch in Password(isNumber, isChar, length, draws) ==>
      IsLetter(ch) || (isNumber && IsDigit(ch)) || (isChar && IsSymbol(ch))
  {
    var p := Password(isNumber, isChar, length, draws);
    var a := Alphabet(isNumber, isChar);
    forall ch | ch in p
      ensures IsLetter(ch) || (isNumber && IsDigit(ch)) || (isChar && IsSymbol(ch))
    {
      var k :| 0 <= k < |a| && a[k] == ch;
      AlphabetMembers(isNumber, isChar, k);
    }
  }

  /** With both toggles off the password is letters only. */
  lemma LettersOnlyWhenTogglesOff(length: int, draws: seq<nat>)
    requires Iterations(length) <= |draws|
    ensures forall ch :: ch in Password(false, false, length, draws) ==> IsLetter(ch) && !IsDigit(ch) && !IsSymbol(ch)
  {
    PasswordInAlphabet(false, false, length, draws);
    LetterClass();
    DigitClass();
    SymbolClass();
    forall ch | ch in Password(false, false, length, draws)
      ensures !IsSymbol(ch)
    {
      assert IsLetter(ch);
    }
  }

  /** The password depends on the first `Iterations(length)` draws alone. */
  lemma PasswordUsesOnlyConsumedDraws(isNumber: bool, isChar: bool, length: int, d1: seq<nat>, d2: seq<nat>)
    requires Iterations(length) <= |d1| && Iterations(length) <= |d2|
    requires forall k :: 0 <= k < Iterations(length) ==> d1[k] == d2[k]
    ensures Password(isNumber, isChar, length, d1) == Password(isNumber, isChar, length, d2)
  {
    assert d1[..Iterations(length)] == d2[..Iterations(length)];
  }
}
