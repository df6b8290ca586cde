/**
 The state of the password screen and its handlers as pure transitions: the
 length field the form library holds, the generated password, and the three
 inclusion flags. Every handler returns a new state; randomness enters only
 through the index draws given to `Submit`.
 */
module Form {
  import opened Charset
  import opened Sampling
  import opened Validation

  datatype FormState = FormState(
    lengthField: LengthField,
    generatedPassword: string,
    includeDigits: bool,
    includeLower: bool,
    includeSymbols: bool)

  /** The state when the screen mounts. */
  function Initial(): FormState {
    FormState(Blank, "", false, false, true)
  }

  /** The alphabet the current flags select. */
  function Characters(s: FormState): string {
    Alphabet(s.includeDigits, s.includeLower, s.includeSymbols)
  }

  /** Typing in the length field: only the field changes. */
  function EditLength(s: FormState, f: LengthField): (r: FormState)
    ensures r.lengthField == f
    ensures r.generatedPassword == s.generatedPassword
    ensures r.includeDigits == s.includeDigits && r.includeLower == s.includeLower
    ensures r.includeSymbols == s.includeSymbols
  {
    s.(lengthField := f)
  }

  /** The Reset button: the form field is cleared and `resetPassword` clears the
      password and both optional classes and turns symbols back on. */
  function Reset(s: FormState): (r: FormState)
    ensures r.lengthField == Blank
    ensures r.generatedPassword == ""
    ensures !r.includeDigits && !r.includeLower && r.includeSymbols
  {
    s.(lengthField := Blank, generatedPassword := "",
       includeDigits := false, includeLower := false, includeSymbols := true)
  }

  /** The lowercase checkbox: negates its own flag and nothing else. */
  function ToggleLower(s: FormState): (r: FormState)
    ensures r.includeLower == !s.includeLower
    ensures r.includeDigits == s.includeDigits && r.includeSymbols == s.includeSymbols
    ensures r.generatedPassword == s.generatedPassword && r.lengthField == s.lengthField
  {
    s.(includeLower := !s.includeLower)
  }

  /** The digits checkbox: negates its own flag and nothing else. */
  function ToggleDigits(s: FormState): (r: FormState)
    ensures r.includeDigits == !s.includeDigits
    ensures r.includeLower == s.includeLower && r.includeSymbols == s.includeSymbols
    ensures r.generatedPassword == s.generatedPassword && r.lengthField == s.lengthField
  {
    s.(includeDigits := !s.includeDigits)
  }

  /** The symbols checkbox: negates its own flag and nothing else. */
  function ToggleSymbols(s: FormState): (r: FormState)
    ensures r.includeSymbols == !s.includeSymbols
    ensures r.includeDigits == s.includeDigits && r.includeLower == s.includeLower
    ensures r.generatedPassword == s.generatedPassword && r.lengthField == s.lengthField
  {
    s.(includeSymbols := !s.includeSymbols)
  }

  /* How many times the loop runs for `generatePassword(+passLen)`. The unary
     `+` converts the field's text again: text with inner whitespace gives
     `NaN`, and neither `NaN` nor the `0` of blank text passes `i < n`. */
  function SubmittedIterations(f: LengthField): nat {
    if f.Number? && !f.innerSpace then Iterations(f.value) else 0
  }

  /** The Generate button. The form validates the field first and calls
      `generatePassword(+passLen)` only when it is accepted; a rejected field
      leaves the state as it was. On acceptance only the password changes: it
      is sampled from the current alphabet, one draw per loop iteration, so it
      has at most as many characters as the accepted length rounded up. When
      the accepted text has inner whitespace, `+passLen` is `NaN`, the loop
      never runs and the password becomes empty. */
  function Submit(s: FormState, draws: seq<nat>): (r: FormState)
    requires |draws| >= 16
    ensures !Accepted(s.lengthField) ==> r == s
    ensures Accepted(s.lengthField) ==>
      && r == s.(generatedPassword := r.generatedPassword)
      && |r.generatedPassword| <= Iterations(s.lengthField.value) <= 16
      && (s.lengthField.innerSpace ==> r.generatedPassword == "")
      && (!s.lengthField.innerSpace ==>
            r.generatedPassword == Sample(Characters(s), draws[..Iterations(s.lengthField.value)]))
  {
    match Validate(s.lengthField)
    case Err(_) => s
    case Ok(_) =>
      s.(generatedPassword := Sample(Characters(s), draws[..SubmittedIterations(s.lengthField)]))
  }

  /** An accepted length runs the loop between 4 and 16 times, and exactly
      `n` times when `n` is a whole number. */
  lemma AcceptedIterations(f: LengthField)
    requires Accepted(f)
    ensures 4 <= Iterations(f.value) <= 16
    ensures IsWhole(f.value) ==> Iterations(f.value) as real == f.value
  {
  }

  /** After an accepted submission of a whole length `n` typed without inner
      whitespace, the password has exactly `n` characters if and only if none
      of the first `n` draws reaches the alphabet's length; with inner
      whitespace it is empty. Every character is drawn from the current alphabet. */
  lemma SubmitLength(s: FormState, draws: seq<nat>)
    requires |draws| >= 16
    requires Accepted(s.lengthField) && IsWhole(s.lengthField.value)
    ensures var n := s.lengthField.value.Floor;
      var pw := Submit(s, draws).generatedPassword;
      && 4 <= n <= 16
      && (s.lengthField.innerSpace ==> pw == "")
      && (!s.lengthField.innerSpace ==> (|pw| == n <==> AllInRange(|Characters(s)|, draws[..n])))
      && forall k :: 0 <= k < |pw| ==> pw[k] in Characters(s)
  {
    AcceptedIterations(s.lengthField);
    FullLengthIff(Characters(s), draws[..Iterations(s.lengthField.value)]);
  }

  /** Reset reaches the mount state from any state, so resetting twice is resetting once. */
  lemma ResetIsInitial(s: FormState)
    ensures Reset(s) == Initial()
    ensures Reset(Reset(s)) == Reset(s)
  {
  }

  /** Each checkbox undoes itself when pressed twice. */
  lemma TogglesAreInvolutions(s: FormState)
    ensures ToggleLower(ToggleLower(s)) == s
    ensures ToggleDigits(ToggleDigits(s)) == s
    ensures ToggleSymbols(ToggleSymbols(s)) == s
  {
  }

  /** Pressing a checkbox grows or shrinks the alphabet by exactly its class. */
  lemma TogglesResizeAlphabet(s: FormState)
    ensures |Characters(ToggleLower(s))| == |Characters(s)| + (if s.includeLower then -26 else 26)
    ensures |Characters(ToggleDigits(s))| == |Characters(s)| + (if s.includeDigits then -10 else 10)
    ensures |Characters(ToggleSymbols(s))| == |Characters(s)| + (if s.includeSymbols then -16 else 16)
  {
  }

  /** At mount (and after Reset) the alphabet is the uppercase letters followed by the symbols. */
  lemma InitialAlphabet()
    ensures Characters(Initial()) == Upper + Symbols
    ensures |Characters(Initial())| == 42
  {
  }

  /** The user actions the screen offers. */
  datatype Event =
    | Edit(field: LengthField)
    | PressLower
    | PressDigits
    | PressSymbols
    | PressReset
    | PressGenerate(draws: seq<nat>)

  /* A Generate press carries enough draws for the longest accepted length. */
  predicate EnoughDraws(e: Event) {
    e.PressGenerate? ==> |e.draws| >= 16
  }

  function Step(s: FormState, e: Event): (r: FormState)
    requires EnoughDraws(e)
  {
    match e
    case Edit(f) => EditLength(s, f)
    case PressLower => ToggleLower(s)
    case PressDigits => ToggleDigits(s)
    case PressSymbols => ToggleSymbols(s)
    case PressReset => Reset(s)
    case PressGenerate(draws) => Submit(s, draws)
  }

  /** The state after a sequence of user actions, applied in order. */
  function Run(s: FormState, events: seq<Event>): (r: FormState)
    requires forall i :: 0 <= i < |events| ==> EnoughDraws(events[i])
    decreases |events|
  {
    if |events| == 0 then s
    else Step(Run(s, events[..|events| - 1]), events[|events| - 1])
  }

  /** What the screen can ever display: at most 16 characters, all from the
      widest alphabet (uppercase, digits, lowercase and symbols). */
  predicate Displayable(s: FormState) {
    && |s.generatedPassword| <= 16
    && forall k :: 0 <= k < |s.generatedPassword| ==> s.generatedPassword[k] in Alphabet(true, true, true)
  }

  lemma StepKeepsDisplayable(s: FormState, e: Event)
    requires EnoughDraws(e)
    requires Displayable(s)
    ensures Displayable(Step(s, e))
  {
  }

  /** From mount, every sequence of user actions leaves a displayable password. */
  lemma {:induction false} RunKeepsDisplayable(events: seq<Event>)
    requires forall i :: 0 <= i < |events| ==> EnoughDraws(events[i])
    ensures Displayable(Run(Initial(), events))
    decreases |events|
  {
    if |events| > 0 {
      var front := events[..|events| - 1];
      assert forall i :: 0 <= i < |front| ==> EnoughDraws(front[i]) by {
        forall i | 0 <= i < |front| ensures EnoughDraws(front[i]) {
          assert front[i] == events[i];
        }
      }
      RunKeepsDisplayable(front);
      StepKeepsDisplayable(Run(Initial(), front), events[|events| - 1]);
    }
  }
}
