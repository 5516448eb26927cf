# Random Password Generator — a Dafny model of its generation and rating logic

The repository is a single React component, `App` in `src/App.jsx`, that
generates a random password client-side. This project models the logic inside
that component, leaving out the rendering:

- `Generator` (`generator.dfy`): the alphabet the component samples from. It
  always starts with the 52 letters `A-Z` then `a-z`, appends `0-9` when
  "Include Numbers" is on and ``"`~@#$%^&*_-+="`` when "Include Symbols" is
  on. It also models `passwordGenerator`'s loop, which runs `i` from 1 to
  `length` and appends the character of `str` at a random index each time
  (`src/App.jsx:18-21`). The loop is an imperative method
  (`GeneratePassword`) proved equal to the specification function
  `Password`. The lemmas about `Password` give its length, its characters
  and its alphabet membership.
- `Strength` (`strength.dfy`): `getPasswordStrength`, the first-match table
  over `(length, IsNumber, IsChar)` that gives Weak, Medium or Strong. It also
  models the bar width of 33, 66 or 100 percent drawn from that label.
- `View` (`view.dfy`): the component's state (`length`, `IsNumber`, `IsChar`,
  `password`, `copied`) as a class `PasswordView`. The slider and the two
  toggles each change one field and then regenerate the password. The
  regeneration is the net effect of the `useEffect` at `src/App.jsx:33-35`.
  The class invariant `Valid()` says that the length is within the slider's
  bounds [6, 32] and that the displayed password has exactly `length`
  characters, all from the current alphabet. Every setter preserves it.

Randomness: `Math.floor(Math.random() * str.length)` is replaced by a sequence
of natural-number draws passed in by the caller. Iteration `i` of the loop
uses `draws[i-1]` as the index `char`. `str.charAt(char)` is modelled as
JavaScript defines it: an index past the end yields the empty string. The
generator therefore needs no bound on the draws. The lemmas assume the bound (`InRange`) where the result
depends on it, and `PasswordLengthIff` shows that the bound is exactly what
makes the password full-length.

Length as an integer: after the first slider move, `setLength(e.target.value)`
(`src/App.jsx:123`) stores a string. Every use of `length` in the logic is a
relational comparison with a number (`i <= length`, `length < 8`,
`length < 12`), which JavaScript evaluates numerically. The slider only
produces the integers 6..32. The model therefore keeps `length` as an `int`.

Short lengths and out-of-range indices: the code has no check for
`length < 1`. The loop runs zero times and the password is empty, which
`Iterations` models. If a draw equals the alphabet length, `charAt` returns
`""`. The password is then as long as the number of in-range draws
(`PicksLengthCounts`), so a single such draw leaves it exactly one character
short (`PasswordOneShort`).

## Model

| member | source | states |
|---|---|---|
| Generator.Alphabet | src/App.jsx:14-16 | the alphabet has 52 characters, plus 10 with numbers, plus 13 with symbols (so 52, 62, 65 or 75), and its first 52 are the letter string |
| Generator.CharAt | src/App.jsx:20 | `str.charAt(char)` yields at most one character, exactly one if and only if the index is within `str`, and that character comes from `str` |
| Generator.Iterations | src/App.jsx:18 | the loop from 1 to `length` runs `length` times when `length >= 1` and not at all otherwise |
| Generator.Picks | src/App.jsx:19-20 | the text appended over a run of draws is no longer than the draws, and every character of it comes from the alphabet |
| Generator.Password | src/App.jsx:18-21 | the generated password is at most `length` characters long, and every character of it comes from the alphabet of the same toggles, whatever the draws |
| Generator.GeneratePassword | src/App.jsx:12-21 | building `str` with `+=` and running the `for` loop from 1 to `length` yields exactly `Password(flags, length, draws)` |
| Generator.LettersSpelledOut | src/App.jsx:14 | the letter string is `A`..`Z` followed by `a`..`z`, character by character |
| Generator.AlphabetStartsWithLetters | src/App.jsx:14 | whatever the toggles, positions 0-25 of the alphabet are `A`-`Z` and 26-51 are `a`-`z`, so the alphabet is never empty |
| Generator.SymbolClass | src/App.jsx:16 | no character of the symbol string is a letter or a digit |
| Generator.DigitClass | src/App.jsx:15 | every character of the digit string is a digit and neither a letter nor a symbol |
| Generator.LetterClass | src/App.jsx:14 | every character of the letter string is a letter and neither a digit nor a symbol |
| Generator.AlphabetLayout | src/App.jsx:14-16 | letters sit at [0, 52), digits (when on) at [52, 62), symbols (when on) in the last 13 positions |
| Generator.AlphabetMembers | src/App.jsx:14-16 | every alphabet character is a letter, a digit only when numbers are on, or a symbol only when symbols are on |
| Generator.AlphabetHasDigitIff | src/App.jsx:15 | the alphabet contains a digit if and only if "Include Numbers" is on |
| Generator.AlphabetHasSymbolIff | src/App.jsx:16 | the alphabet contains a symbol if and only if "Include Symbols" is on |
| Generator.AlphabetOrder | src/App.jsx:14-16 | letters come before every other character, and digits come before symbols |
| Generator.PicksInRange | src/App.jsx:18-21 | with in-range draws, the loop appends one character per draw, and character k is the alphabet at draw k |
| Generator.PicksLength | src/App.jsx:19-20 | the appended text is never longer than the draws, and it is as long as the draws if and only if every draw is in range |
| Generator.PasswordShape | src/App.jsx:18-21 | with in-range draws, the password has exactly `length` characters (none for length below 1), and character k is the alphabet at draw k |
| Generator.PasswordLengthIff | src/App.jsx:18-20 | the password has full length if and only if every consumed draw indexes the alphabet |
| Generator.PasswordInAlphabet | src/App.jsx:14-20 | whatever the draws, every password character belongs to the alphabet built from the same toggles, so it is a digit only with numbers on and a symbol only with symbols on |
| Generator.LettersOnlyWhenTogglesOff | src/App.jsx:14-20 | whatever the draws, with both toggles off the password has only letters, with no digit and no symbol |
| Generator.CountInRange | src/App.jsx:19-20 | the number of draws that `charAt` accepts never exceeds the number of draws |
| Generator.PicksLengthCounts | src/App.jsx:19-20 | the appended text is exactly as long as the number of draws that index the alphabet |
| Generator.AllInRangeCount | src/App.jsx:19-20 | when every draw indexes the alphabet, all of them are counted |
| Generator.OneOutOfRange | src/App.jsx:19-20 | when exactly one draw is past the end of the alphabet, the count is one less than the number of draws |
| Generator.PasswordOneShort | src/App.jsx:18-21 | one draw past the end among otherwise in-range draws leaves the password exactly one character shorter than `length` |
| Generator.PasswordUsesOnlyConsumedDraws | src/App.jsx:12-21 | the password is determined by the toggles, the length and the first `length` draws alone |
| Strength.Classify | src/App.jsx:37-41 | Weak if and only if length < 8; Medium if and only if length >= 8 and (length < 12 or both toggles off); Strong if and only if length >= 12 and some toggle is on |
| Strength.BarWidth | src/App.jsx:104 | the bar is exactly 33 percent if and only if Weak, 66 if and only if Medium, 100 if and only if Strong (a third per step: width / 33 is the rank plus one), within (0, 100] |
| Strength.BarWidthFollowsRank | src/App.jsx:104 | the bar width follows the order Weak < Medium < Strong in both directions, differs for distinct labels and stays within (0, 100] |
| Strength.ClassifyMonotoneInLength | src/App.jsx:38-40 | with the toggles fixed, a longer length never gives a lower label or a narrower bar |
| Strength.ClassifyMonotoneInToggles | src/App.jsx:38-40 | turning a toggle on never lowers the label |
| Strength.ClassifyExamples | src/App.jsx:37-41 | lengths 6 and 7 are Weak with any toggles; 8 with both off is Medium; 12 with both on is Strong; 20 with both off is Medium, with a 66 percent bar |
| View.PasswordView.Rating | src/App.jsx:43 | in a valid state, the rating is Weak if and only if the displayed password is shorter than 8 characters; Strong if and only if it has at least 12 and a toggle is on; Medium if and only if it has at least 8 and either fewer than 12 or both toggles off |
| View.PasswordView.Width | src/App.jsx:104 | the bar is 33 percent if and only if length < 8, 100 percent if and only if length >= 12 with a toggle on, and 66 percent otherwise |
| View.PasswordView.constructor | src/App.jsx:5-9 | the initial state is length 12, both toggles on, `copied` false, and the password that the mount-time effect generates; it satisfies the invariant |
| View.PasswordView.Regenerate | src/App.jsx:12-24 | a new password from the current configuration, `copied` cleared, the configuration unchanged, and the invariant restored |
| View.PasswordView.SetLength | src/App.jsx:120-123 | the slider sets `length` to a value in [6, 32], keeps the toggles, regenerates, and keeps the invariant |
| View.PasswordView.ToggleNumber | src/App.jsx:145-149 | flips `IsNumber` only, regenerates with the new alphabet, and keeps the invariant |
| View.PasswordView.ToggleChar | src/App.jsx:161-165 | flips `IsChar` only, regenerates with the new alphabet, and keeps the invariant |

## Left out

- `Math.random()` and `Math.floor` on floating-point values (`src/App.jsx:19`): replaced by injected natural-number draws.
- `copyPasswordToClipboard` (`src/App.jsx:26-31`): the text selection, the clipboard write and the 2000 ms timer that resets `copied` are browser I/O and timer-driven asynchrony. So `copied` is only ever cleared here.
- React hook scheduling (`useState`, `useCallback`, `useEffect` dependency tracking): each setter is modelled as one field update followed by one regeneration. The intermediate render with the stale password is not modelled.
- The colour class strings of the strength result (`color`, `bg`) and all JSX markup, icons and styling (`src/App.jsx:45-180`): presentation only.
- The slider's gradient percentage `((length - 6) / 26) * 100` (`src/App.jsx:126`): floating-point arithmetic used only for styling.
- The string that `setLength` stores after a slider move: modelled as its numeric value, as explained above.
