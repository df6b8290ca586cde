# Password generator screen — Dafny model

The application is one React Native screen that generates a random
password. The user types a length, ticks three checkboxes (lowercase,
digits, symbols; uppercase letters are always used) and presses
Generate. A Reset button restores the initial form. This project models
the logic under that screen as pure Dafny functions:

- `Charset` — the alphabet `generatePassword` builds. It is the 26
  uppercase letters, then the digits, the lowercase letters and the 16
  symbols `@_+=^%$#*():<>/.`, each added only when its flag is set, in
  that order.
- `Sampling` — the loop of `getPassword`. The random indices are an
  explicit input (`draws`, one natural number per iteration). JavaScript's
  `charAt` is modelled as a total function that returns a string of
  length 0 or 1. The loop `for (let i = 0; i < n; i++)` runs
  `Iterations(n)` times, which is `n` rounded up, or 0 when `n <= 0`.
- `Validation` — the length schema as a pure function. A length must be
  present and numeric, with 4 <= n <= 16 (both bounds inclusive). The
  schema has no integer test, so a value such as 4.5 is accepted. The
  loop then runs 5 times.
- `Form` — the screen state as one immutable record: the form's length
  field, the generated password and the three flags. The handlers (edit
  field, three checkboxes, Reset, Generate) are transitions on it, and
  `Run` folds a sequence of user actions. The form library validates
  before it calls the submit handler, so `Submit` changes nothing when
  the field is rejected. This is true whether or not the button is
  disabled.
- `RandomIndex` — how an index comes from `Math.random()`.
  `Math.round(u * len)` can equal `len`. `charAt` then returns `''` and
  the password comes out one character short (see Findings). The
  half-open `Math.floor(u * len)` never does. `Form.Submit` takes index
  draws, so it fits either scheme. The exact-length guarantee is proved
  for the floored scheme.

The code rounds the index, so the model keeps the rounded and the
half-open scheme and proves when the rounded one falls short (see
Findings). The schema has no integer test, so a fractional length is
accepted and the loop runs ⌈n⌉ times. The schema's cast deletes all
whitespace before converting, but the submit handler converts the raw
text again with unary `+`. Text with inner whitespace such as `1 0` is
therefore accepted as 10, yet `+"1 0"` is `NaN`, the loop never runs and
the password becomes empty. The length field records that case
(`innerSpace`) and `Submit` models it.

## Model

| member | source | states |
|---|---|---|
| `Charset.Alphabet` | App.tsx:28-32 | The alphabet has 26 + 10·digits + 26·lower + 16·symbols characters, so it is never empty. It begins with A–Z. Digits, then lowercase, then symbols sit at fixed offsets, each present only when its flag is set. |
| `Charset.AlphabetMembership` | App.tsx:29-32 | A character is in the alphabet if and only if it is an uppercase letter, or a digit / lowercase letter / one of the 16 symbols whose flag is set. |
| `Sampling.CharAt` | App.tsx:39-41 | `charAt` is total: it returns one character exactly when the index is inside the string, that character being the one at the index, and `''` otherwise. |
| `Sampling.Iterations` | App.tsx:38 | The loop runs the least natural number of times that is not below `passwordLength`, and 0 times when `passwordLength <= 0`. |
| `Sampling.IterationsOfWhole` | App.tsx:38 | For a whole, non-negative length `n` the loop runs exactly `n` times. |
| `Sampling.Sample` | App.tsx:38-41 | The appended `charAt` results are shorter than the draws by exactly the number of draws outside the alphabet, and every character is from the alphabet. |
| `Sampling.FullLengthIff` | App.tsx:38-41 | The password has one character per draw if and only if every draw is below the alphabet's length. |
| `Sampling.SampleInRange` | App.tsx:39-41 | When every draw is in range, character `k` of the password is the alphabet character at draw `k`. |
| `Sampling.RoundedMissesAreLength` | App.tsx:39-41 | With draws in `[0, len]`, the characters lost are exactly the draws equal to `len`, one lost character per such draw. |
| `Sampling.GetPassword` | App.tsx:36-43 | The loop returns the sampled string over the first `Iterations(passwordLength)` draws. It is at most that long, and is `''` when `passwordLength <= 0`. All its characters are from `characters`. It has full length if and only if all those draws are in range. |
| `Validation.Validate` | App.tsx:15-19 | The field is accepted, with its own value, if and only if it is a number in [4, 16]. Otherwise the error names the failed test: blank gives Required, not a number gives NotNumeric, below 4 gives TooShort, above 16 gives TooLong. |
| `Validation.BoundaryCases` | App.tsx:16-19 | Blank, 3 and 17 are rejected with Required, TooShort and TooLong. 4, 16, 4.5 and the spaced text `1 0` (cast to 10) are accepted unchanged. |
| `Form.EditLength` | App.tsx:76-78 | Typing in the field replaces the field value and leaves the password and flags unchanged. |
| `Form.Reset` | App.tsx:44-49 | Reset yields an empty password, digits off, lowercase off, symbols on, and a blank field (the form reset at App.tsx:118). |
| `Form.ToggleLower` | App.tsx:92 | The lowercase checkbox negates `includeLower` and leaves the other flags, the password and the field unchanged. |
| `Form.ToggleDigits` | App.tsx:101 | The digits checkbox negates `includeDigits` and leaves the other flags, the password and the field unchanged. |
| `Form.ToggleSymbols` | App.tsx:110 | The symbols checkbox negates `includeSymbols` and leaves the other flags, the password and the field unchanged. |
| `Form.Submit` | App.tsx:59-64 | A rejected field leaves the state unchanged. An accepted one changes only the password, to at most 16 characters. Without inner whitespace it is the sample of the current alphabet over `Iterations(n)` draws. With inner whitespace `+passLen` is `NaN` and the password is `''`. |
| `Form.AcceptedIterations` | App.tsx:15-19 | An accepted length runs the loop 4 to 16 times, and exactly `n` times for a whole `n`. |
| `Form.SubmitLength` | App.tsx:28-43 | After an accepted whole length `n` typed without inner whitespace, the password has exactly `n` characters if and only if the first `n` draws are all below the alphabet's length. With inner whitespace it is empty. Every character is in the current alphabet. |
| `Form.ResetIsInitial` | App.tsx:23-26 | The assignments of `resetPassword` and the form reset, applied to any state, give every field of the mount state (with `initialValues` at App.tsx:60), so Reset is idempotent. |
| `Form.TogglesAreInvolutions` | App.tsx:92-110 | Pressing any checkbox twice restores the state. |
| `Form.TogglesResizeAlphabet` | App.tsx:30-32 | Each checkbox grows or shrinks the alphabet by exactly the size of its class: 26, 10 or 16. |
| `Form.InitialAlphabet` | App.tsx:23-32 | At mount and after Reset, the alphabet is the uppercase letters followed by the symbols, 42 characters. |
| `Form.StepKeepsDisplayable` | App.tsx:34 | No user action can make the displayed password longer than 16 characters or give it a character outside the widest alphabet. |
| `Form.RunKeepsDisplayable` | App.tsx:22-49 | From mount, every sequence of user actions keeps the displayed password within 16 characters of the widest alphabet. |
| `RandomIndex.RoundIndex` | App.tsx:40 | `Math.round(u * len)` is the integer within one half of `u * len` (halves round up), and it lies in `[0, len]`. |
| `RandomIndex.FloorIndex` | App.tsx:40 | The half-open `Math.floor(u * len)` is the integer part of `u * len`, and it is always below `len`. |
| `RandomIndex.RoundIndexHitsLengthIff` | App.tsx:40 | Rounding gives `len` if and only if `u * len >= len - 1/2`. |
| `RandomIndex.RoundIndexReachesLength` | App.tsx:40 | For every non-empty alphabet some `u` in `[0, 1)` (namely `1 - 1/(2·len)`) rounds to `len`. |
| `RandomIndex.RoundIndices` | App.tsx:38-40 | Mapping the random values through rounding gives one index per value, each in `[0, len]`. |
| `RandomIndex.FloorIndices` | App.tsx:38-40 | Mapping the random values through floor gives one index per value, each below `len`. |
| `RandomIndex.GeneratePasswordRounded` | App.tsx:28-43 | `generatePassword` as written, from random values: the password has at most one character per loop iteration, all from the alphabet of the flags. |
| `RandomIndex.GeneratePasswordFloored` | App.tsx:28-43 | `generatePassword` with the half-open index: the password has exactly one character per loop iteration, all from the alphabet of the flags. |
| `RandomIndex.SubmitIsRoundedGenerate` | App.tsx:59-64 | For an accepted field, the Generate button fed with rounded indices produces exactly the as-written `generatePassword` of the current flags and length. The exception is text with inner whitespace, which produces `''`. |
| `RandomIndex.RoundedCanBeShort` | App.tsx:38-41 | As written, with uppercase only, length 4 and values `[1 - 1/52, 0, 0, 0]`, the password is `AAA`: 3 characters instead of 4. |
| `RandomIndex.RoundedFullLengthIff` | App.tsx:38-41 | As written, the password has full length if and only if no random value lands in the top half-step of the alphabet. |
| `RandomIndex.FlooredFullLength` | App.tsx:38-41 | With the half-open index, the password always has one character per iteration, and character `k` is the alphabet entry that value `k` selects. |

## Left out

- Rendering, layout, styles and the checkbox, text-input and button widgets are left out. They are presentation only.
- The form library's string-to-number cast is left out: a blank field counts as absent, and text like `abc` becomes `NaN`. The model starts from the cast value (`LengthField`).
- The `touched`/`errors` display plumbing and the `disabled={!isValid}` flag are left out. Generation is gated by the validation that runs before the submit handler, which `Submit` models.
- The error message texts (App.tsx:17-19) are left out. They are display text shown under the field and never change the state.
- The `Math.random()` values are modelled as exact reals in `[0, 1)`. Floating-point rounding of `u * len` is not modelled.
- Sampling.GetPassword: `passwordLength` is a finite real. The one `NaN` that passes validation, from text with inner whitespace, is handled in `Form.Submit` as zero iterations. `Infinity` is rejected by the maximum.
- Form.Submit: the field's text is not modelled. The only difference between the schema's cast and the handler's unary `+` is inner whitespace, recorded as a flag on the cast value.
- Form.Submit: it requires 16 draws, which is enough for the longest accepted length. The random source itself never runs out.
- The `useEffect` console logging and React's hook scheduling are left out. They are side effects and framework semantics.

## Findings

| source | as written | input that shows it | evidently intended | confidence | as-written member | corrected member |
|---|---|---|---|---|---|---|
| App.tsx:40 | The index is `Math.round(Math.random() * characters.length)`. It can equal `characters.length`, so `charAt` returns `''` and the password is one character short. | Uppercase only, length 4, random values `[1 - 1/52, 0, 0, 0]` give indices `[26, 0, 0, 0]` and the password `AAA`. | A half-open index `Math.floor(Math.random() * characters.length)`, so the password always has the requested length. | not executed; proved about the model | `RandomIndex.GeneratePasswordRounded`, `RandomIndex.RoundedCanBeShort` | `RandomIndex.GeneratePasswordFloored`, `RandomIndex.FlooredFullLength` |
