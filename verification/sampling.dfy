/**
 The sampling loop of `getPassword`. Each iteration appends
 `characters.charAt(index)` for one random index; the indices are an explicit
 input here (`draws`), one per iteration. JavaScript's `charAt` is total: an
 index outside the string yields the empty string, so an out-of-range draw
 makes the password one character shorter instead of failing.
 */
module Sampling {

  /** `String.prototype.charAt` for a non-negative index: the one-character
      string at `i`, or the empty string when `i` is past the end. */
  function CharAt(s: string, i: nat): (r: string)
    ensures |r| <= 1
    ensures |r| == 1 <==> i < |s|
    ensures i < |s| ==> r[0] == s[i]
  {
    if i < |s| then [s[i]] else ""
  }

  /** How many times `for (let i = 0; i < n; i++)` runs its body: the least
      natural number not below `n`, and none at all when `n <= 0`. */
  function Iterations(n: real): (k: nat)
    ensures n <= 0.0 ==> k == 0
    ensures n > 0.0 ==> n <= k as real < n + 1.0
  {
    if n <= 0.0 then 0 else -((-n).Floor)
  }

  /** Whether `x` is a whole number (what a typed-in length usually is). */
  predicate IsWhole(x: real) {
    x.Floor as real == x
  }

  lemma IterationsOfWhole(n: real)
    requires IsWhole(n) && n >= 0.0
    ensures Iterations(n) as real == n
  {
    var m := n.Floor;
    var k := Iterations(n);
    if n > 0.0 {
      assert m as real <= k as real < m as real + 1.0;
      assert m <= k < m + 1;
    }
  }

  /* Reference count: how many draws fall outside an alphabet of `len` characters. */
  function OutOfRange(len: nat, draws: seq<nat>): nat
  {
    if |draws| == 0 then 0
    else OutOfRange(len, draws[..|draws| - 1]) + (if draws[|draws| - 1] < len then 0 else 1)
  }

  /* Every draw addresses a character of an alphabet of `len` characters. */
  predicate AllInRange(len: nat, draws: seq<nat>) {
    forall i :: 0 <= i < |draws| ==> draws[i] < len
  }

  /* The draws that rounding can produce for an alphabet of `len` characters: `[0, len]`. */
  predicate RoundedRange(len: nat, draws: seq<nat>) {
    forall i :: 0 <= i < |draws| ==> draws[i] <= len
  }

  /** The password the loop builds from the draws, one `charAt` per draw, in
      draw order. It is shorter than the draws by exactly the number of draws
      that miss the alphabet, and each of its characters is one of `cs`. */
  function Sample(cs: string, draws: seq<nat>): (r: string)
    ensures |r| == |draws| - OutOfRange(|cs|, draws)
    ensures forall k :: 0 <= k < |r| ==> r[k] in cs
    decreases |draws|
  {
    if |draws| == 0 then ""
    else Sample(cs, draws[..|draws| - 1]) + CharAt(cs, draws[|draws| - 1])
  }

  lemma {:induction false} NoneOutOfRange(len: nat, draws: seq<nat>)
    ensures OutOfRange(len, draws) == 0 <==> AllInRange(len, draws)
    decreases |draws|
  {
    if |draws| > 0 {
      var front := draws[..|draws| - 1];
      NoneOutOfRange(len, front);
      assert AllInRange(len, draws) ==> AllInRange(len, front) by {
        forall i | 0 <= i < |front| ensures draws[i] == front[i] { }
      }
    }
  }

  /** The password has one character per draw exactly when no draw misses the alphabet. */
  lemma FullLengthIff(cs: string, draws: seq<nat>)
    ensures |Sample(cs, draws)| == |draws| <==> AllInRange(|cs|, draws)
  {
    NoneOutOfRange(|cs|, draws);
  }

  /** When every draw is in range, position `k` of the password is the
      alphabet character that draw `k` selects. */
  lemma {:induction false} SampleInRange(cs: string, draws: seq<nat>)
    requires AllInRange(|cs|, draws)
    ensures |Sample(cs, draws)| == |draws|
    ensures forall k :: 0 <= k < |draws| ==> Sample(cs, draws)[k] == cs[draws[k]]
    decreases |draws|
  {
    FullLengthIff(cs, draws);
    if |draws| > 0 {
      var front := draws[..|draws| - 1];
      assert AllInRange(|cs|, front) by {
        forall i | 0 <= i < |front| ensures front[i] < |cs| {
          assert front[i] == draws[i];
        }
      }
      SampleInRange(cs, front);
      forall k | 0 <= k < |draws| ensures Sample(cs, draws)[k] == cs[draws[k]] {
        if k < |front| {
          assert draws[k] == front[k];
        }
      }
    }
  }

  /** With rounded draws (each in `[0, len]`), the draws that miss the alphabet
      are exactly those equal to its length. */
  lemma {:induction false} RoundedMissesAreLength(len: nat, draws: seq<nat>)
    requires RoundedRange(len, draws)
    ensures OutOfRange(len, draws) == |set i | 0 <= i < |draws| && draws[i] == len|
    decreases |draws|
  {
    var hits := set i | 0 <= i < |draws| && draws[i] == len;
    if |draws| == 0 {
      assert hits == {};
    } else {
      var n := |draws| - 1;
      var front := draws[..n];
      assert RoundedRange(len, front) by {
        forall i | 0 <= i < |front| ensures front[i] <= len {
          assert front[i] == draws[i];
        }
      }
      RoundedMissesAreLength(len, front);
      var frontHits := set i | 0 <= i < |front| && front[i] == len;
      if draws[n] == len {
        assert hits == frontHits + {n};
      } else {
        assert hits == frontHits;
      }
    }
  }

  /** `getPassword`: one `charAt` of a drawn index per iteration of
      `for (let i = 0; i < passwordLength; i++)`. The result never exceeds
      the iteration count, is empty when `passwordLength <= 0`, and holds
      only characters of `characters`. */
  method GetPassword(characters: string, passwordLength: real, draws: seq<nat>) returns (password: string)
    requires |draws| >= Iterations(passwordLength)
    ensures password == Sample(characters, draws[..Iterations(passwordLength)])
    ensures |password| <= Iterations(passwordLength)
    ensures passwordLength <= 0.0 ==> password == ""
    ensures forall k :: 0 <= k < |password| ==> password[k] in characters
    ensures |password| == Iterations(passwordLength)
        <==> AllInRange(|characters|, draws[..Iterations(passwordLength)])
  {
    password := "";
    var i: nat := 0;
    while (i as real) < passwordLength
      invariant i <= Iterations(passwordLength)
      invariant password == Sample(characters, draws[..i])
      decreases Iterations(passwordLength) - i
    {
      password := password + CharAt(characters, draws[i]);
      assert draws[..i + 1][..i] == draws[..i];
      i := i + 1;
    }
    FullLengthIff(characters, draws[..i]);
  }
}
