/**
 Where the draws come from. `getPassword` turns a uniform value `u` in
 `[0, 1)` into an index with `Math.round(u * characters.length)`. Rounding
 reaches `characters.length` itself for `u` in the top half-step, where
 `charAt` yields the empty string, so the password can come out short.
 Taking the floor instead keeps every index inside the alphabet, and then
 the password always has one character per iteration.

 The values `u` are ideal reals; floating-point rounding of the product is
 not modelled.
 */
module RandomIndex {
  import opened Charset
  import opened Sampling
  import opened Validation
  import opened Form

  /* The values `Math.random()` returns: each in `[0, 1)`. */
  predicate UnitValues(us: seq<real>) {
    forall i :: 0 <= i < |us| ==> 0.0 <= us[i] < 1.0
  }

  lemma ScaledBelow(u: real, len: nat)
    requires 0.0 <= u < 1.0
    ensures 0.0 <= u * len as real
    ensures len > 0 ==> u * len as real < len as real
  {
  }

  /** `Math.round(u * len)`: the integer nearest to `u * len`, halves rounded up.
      It ranges over `[0, len]`, one more value than the alphabet has indices. */
  function RoundIndex(u: real, len: nat): (i: nat)
    requires 0.0 <= u < 1.0
    ensures (i as real) - 0.5 <= u * len as real < (i as real) + 0.5
    ensures i <= len
  {
    ScaledBelow(u, len);
    var x := u * len as real;
    assert x + 0.5 < len as real + 1.0;
    (x + 0.5).Floor
  }

  /** `Math.floor(u * len)` for a non-empty alphabet: the half-open scheme,
      always an index of the alphabet. */
  function FloorIndex(u: real, len: nat): (i: nat)
    requires 0.0 <= u < 1.0
    requires len > 0
    ensures i as real <= u * len as real < (i as real) + 1.0
    ensures i < len
  {
    ScaledBelow(u, len);
    var x := u * len as real;
    x.Floor
  }

  /** Rounding lands exactly on the alphabet's length when `u * len` is in
      the top half-step `[len - 1/2, len)`. */
  predicate TopHalfStep(u: real, len: nat) {
    u * len as real >= len as real - 0.5
  }

  lemma RoundIndexHitsLengthIff(u: real, len: nat)
    requires 0.0 <= u < 1.0
    ensures RoundIndex(u, len) == len <==> TopHalfStep(u, len)
  {
  }

  /** Such a `u` exists for every non-empty alphabet: `1 - 1/(2 len)`. */
  lemma RoundIndexReachesLength(len: nat)
    requires len > 0
    ensures var u := 1.0 - 1.0 / (2.0 * len as real);
      0.0 <= u < 1.0 && RoundIndex(u, len) == len
  {
  }

  function RoundIndices(us: seq<real>, len: nat): (ds: seq<nat>)
    requires UnitValues(us)
    ensures |ds| == |us|
    ensures forall i :: 0 <= i < |us| ==> ds[i] == RoundIndex(us[i], len)
    ensures RoundedRange(len, ds)
    decreases |us|
  {
    if |us| == 0 then []
    else RoundIndices(us[..|us| - 1], len) + [RoundIndex(us[|us| - 1], len)]
  }

  function FloorIndices(us: seq<real>, len: nat): (ds: seq<nat>)
    requires UnitValues(us)
    requires len > 0
    ensures |ds| == |us|
    ensures forall i :: 0 <= i < |us| ==> ds[i] == FloorIndex(us[i], len)
    ensures AllInRange(len, ds)
    decreases |us|
  {
    if |us| == 0 then []
    else FloorIndices(us[..|us| - 1], len) + [FloorIndex(us[|us| - 1], len)]
  }

  /** `generatePassword` as written: the alphabet of the flags, then one
      rounded index per loop iteration. */
  function GeneratePasswordRounded(
    includeDigits: bool, includeLower: bool, includeSymbols: bool,
    passwordLength: real, us: seq<real>): (pw: string)
    requires UnitValues(us) && |us| >= Iterations(passwordLength)
    ensures |pw| <= Iterations(passwordLength)
    ensures forall k :: 0 <= k < |pw| ==> pw[k] in Alphabet(includeDigits, includeLower, includeSymbols)
  {
    var cs := Alphabet(includeDigits, includeLower, includeSymbols);
    Sample(cs, RoundIndices(us, |cs|)[..Iterations(passwordLength)])
  }

  /** `generatePassword` with the half-open index `Math.floor(u * len)`. */
  function GeneratePasswordFloored(
    includeDigits: bool, includeLower: bool, includeSymbols: bool,
    passwordLength: real, us: seq<real>): (pw: string)
    requires UnitValues(us) && |us| >= Iterations(passwordLength)
    ensures |pw| == Iterations(passwordLength)
    ensures forall k :: 0 <= k < |pw| ==> pw[k] in Alphabet(includeDigits, includeLower, includeSymbols)
  {
    var cs := Alphabet(includeDigits, includeLower, includeSymbols);
    var ds := FloorIndices(us, |cs|)[..Iterations(passwordLength)];
    SampleInRange(cs, ds);
    Sample(cs, ds)
  }

  /** The Generate button fed with rounded indices is `generatePassword` as
      written, applied to the current flags and the accepted length; only
      text with inner whitespace, whose `+text` is `NaN`, gives the empty
      password instead. */
  lemma SubmitIsRoundedGenerate(s: FormState, us: seq<real>)
    requires UnitValues(us) && |us| >= 16
    requires Accepted(s.lengthField)
    ensures var pw := Submit(s, RoundIndices(us, |Characters(s)|)).generatedPassword;
      && (s.lengthField.innerSpace ==> pw == "")
      && (!s.lengthField.innerSpace ==>
            pw == GeneratePasswordRounded(s.includeDigits, s.includeLower, s.includeSymbols,
                                          s.lengthField.value, us))
  {
  }

  /** As written, a single value in the top half-step costs a character:
      with only uppercase letters and length 4, the values
      `[1 - 1/52, 0, 0, 0]` give the indices `[26, 0, 0, 0]` and a
      three-character password `AAA`. */
  lemma RoundedCanBeShort()
    ensures var us := [1.0 - 1.0 / 52.0, 0.0, 0.0, 0.0];
      UnitValues(us) && GeneratePasswordRounded(false, false, false, 4.0, us) == "AAA"
  {
    var us := [1.0 - 1.0 / 52.0, 0.0, 0.0, 0.0];
    var cs := Alphabet(false, false, false);
    RoundIndexReachesLength(26);
    assert RoundIndex(0.0, 26) == 0;
    var ds := RoundIndices(us, |cs|);
    assert ds == [26, 0, 0, 0];
    assert Iterations(4.0) == 4 && ds[..4] == ds;
    assert cs[0] == Upper[0];
    OneMissThreeHits(cs);
  }

  /* Sampling an alphabet of 26 characters starting with `A` at the indices
     `[26, 0, 0, 0]`: the first draw misses and the other three pick `A`. */
  lemma OneMissThreeHits(cs: string)
    requires |cs| == 26 && cs[0] == 'A'
    ensures Sample(cs, [26, 0, 0, 0]) == "AAA"
  {
    assert [26, 0, 0, 0][..3] == [26, 0, 0] && [26, 0, 0][..2] == [26, 0] && [26, 0][..1] == [26];
    assert Sample(cs, [26]) == "";
    assert Sample(cs, [26, 0]) == "A";
    assert Sample(cs, [26, 0, 0]) == "AA";
  }

  /** In general the rounded password is full length exactly when no value
      lands in the top half-step of the alphabet. */
  lemma RoundedFullLengthIff(
    includeDigits: bool, includeLower: bool, includeSymbols: bool,
    passwordLength: real, us: seq<real>)
    requires UnitValues(us) && |us| >= Iterations(passwordLength)
    ensures var len := |Alphabet(includeDigits, includeLower, includeSymbols)|;
      |GeneratePasswordRounded(includeDigits, includeLower, includeSymbols, passwordLength, us)|
        == Iterations(passwordLength)
      <==> forall i :: 0 <= i < Iterations(passwordLength) ==> !TopHalfStep(us[i], len)
  {
    var cs := Alphabet(includeDigits, includeLower, includeSymbols);
    var n := Iterations(passwordLength);
    var ds := RoundIndices(us, |cs|)[..n];
    FullLengthIff(cs, ds);
    forall i | 0 <= i < n
      ensures ds[i] < |cs| <==> !TopHalfStep(us[i], |cs|)
    {
      RoundIndexHitsLengthIff(us[i], |cs|);
    }
  }

  /** With the half-open index the password always has one character per
      iteration, and character `k` is the alphabet entry that value `k` selects. */
  lemma FlooredFullLength(
    includeDigits: bool, includeLower: bool, includeSymbols: bool,
    passwordLength: real, us: seq<real>)
    requires UnitValues(us) && |us| >= Iterations(passwordLength)
    ensures var cs := Alphabet(includeDigits, includeLower, includeSymbols);
      var pw := GeneratePasswordFloored(includeDigits, includeLower, includeSymbols, passwordLength, us);
      && |pw| == Iterations(passwordLength)
      && forall k :: 0 <= k < |pw| ==> pw[k] == cs[FloorIndex(us[k], |cs|)]
  {
    var cs := Alphabet(includeDigits, includeLower, includeSymbols);
    var n := Iterations(passwordLength);
    var ds := FloorIndices(us, |cs|)[..n];
    assert AllInRange(|cs|, ds);
    SampleInRange(cs, ds);
  }
}
