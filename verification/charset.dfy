/**
 The character classes of the password generator and the alphabet that
 `generatePassword` builds from them: uppercase letters always, then digits,
 lowercase letters and symbols, each only when its flag is set.
 */
module Charset {

  const Upper: string := "ABCDEFGHIJKLMNOPQRSTUVWXYZ"
  const Digits: string := "0123456789"
  const Lower: string := "abcdefghijklmnopqrstuvwxyz"
  const Symbols: string := "@_+=^%$#*():<>/."

  /* Reference definitions of the classes, independent of the string constants. */
  predicate IsUpper(c: char) { 'A' <= c <= 'Z' }
  predicate IsDigit(c: char) { '0' <= c <= '9' }
  predicate IsLower(c: char) { 'a' <= c <= 'z' }
  predicate IsSymbol(c: char) {
    c == '@' || c == '_' || c == '+' || c == '=' || c == '^' || c == '%' || c == '$' || c == '#'
    || c == '*' || c == '(' || c == ')' || c == ':' || c == '<' || c == '>' || c == '/' || c == '.'
  }

  /* Length contributed by a class that is present when `flag` holds. */
  function Width(flag: bool, n: nat): nat { if flag then n else 0 }

  /** The alphabet of `generatePassword`: the classes concatenated in the fixed
      order uppercase, digits, lowercase, symbols; uppercase is unconditional. */
  function Alphabet(includeDigits: bool, includeLower: bool, includeSymbols: bool): (cs: string)
    ensures |cs| == 26 + Width(includeDigits, 10) + Width(includeLower, 26) + Width(includeSymbols, 16)
    ensures |cs| > 0
    ensures cs[..26] == Upper
    ensures includeDigits ==> cs[26..36] == Digits
    ensures includeLower ==> cs[26 + Width(includeDigits, 10)..52 + Width(includeDigits, 10)] == Lower
    ensures includeSymbols ==> cs[|cs| - 16..] == Symbols
  {
    var withDigits := Upper + (if includeDigits then Digits else "");
    var withLower := withDigits + (if includeLower then Lower else "");
    var cs := withLower + (if includeSymbols then Symbols else "");
    assert cs[..26] == withLower[..26] == withDigits[..26] == Upper;
    assert includeDigits ==> cs[26..36] == withLower[26..36] == withDigits[26..36] == Digits;
    assert includeLower ==> cs[|withDigits|..|withLower|] == withLower[|withDigits|..] == Lower;
    cs
  }

  /* Each class constant holds exactly the characters of its reference predicate. */
  lemma UpperMembership(c: char)
    ensures c in Upper <==> IsUpper(c)
  {
  }

  lemma DigitsMembership(c: char)
    ensures c in Digits <==> IsDigit(c)
  {
  }

  lemma LowerMembership(c: char)
    ensures c in Lower <==> IsLower(c)
  {
  }

  lemma SymbolsMembership(c: char)
    ensures c in Symbols <==> IsSymbol(c)
  {
  }

  /** A character belongs to the alphabet exactly when it belongs to one of
      the classes the flags enable; uppercase letters always belong. */
  lemma AlphabetMembership(includeDigits: bool, includeLower: bool, includeSymbols: bool, c: char)
    ensures c in Alphabet(includeDigits, includeLower, includeSymbols)
        <==> IsUpper(c) || (includeDigits && IsDigit(c)) || (includeLower && IsLower(c))
             || (includeSymbols && IsSymbol(c))
  {
    UpperMembership(c);
    DigitsMembership(c);
    LowerMembership(c);
    SymbolsMembership(c);
    var cs := Alphabet(includeDigits, includeLower, includeSymbols);
    assert cs == Upper + (if includeDigits then Digits else "")
                 + (if includeLower then Lower else "") + (if includeSymbols then Symbols else "");
  }
}
