/** The byte classifiers of utils.go. */
module Utils {
  import opened Bytes

  predicate IsDigit(b: Byte) {
    '0' <= b <= '9'
  }

  predicate IsAlphaUpper(b: Byte) {
    'A' <= b <= 'Z'
  }

  predicate IsAlphaNumericalUpper(b: Byte) {
    IsDigit(b) || IsAlphaUpper(b)
  }

  predicate IsAlphaLower(b: Byte) {
    'a' <= b <= 'z'
  }

  /** Subtracts 'a' - 'A' (32) from a lower-case ASCII letter. */
  function AsciiLowerToUpper(b: Byte): (r: Byte)
    ensures !IsAlphaLower(r)
    ensures IsAlphaLower(b) ==> IsAlphaUpper(r)
  {
    if 'a' <= b <= 'z' then FromCode(b as int - ('a' as int - 'A' as int)) else b
  }

  /** The digit test used by the checksum loops, `int(b - '0') > 9`, agrees
      with `IsDigit` because byte subtraction wraps below '0'. */
  lemma DigitIffWrappedValueBelowTen(b: Byte)
    ensures IsDigit(b) <==> WrapSub(b, '0') <= 9
    ensures IsDigit(b) ==> WrapSub(b, '0') == b as int - '0' as int
  {
  }

  lemma DigitsAndLettersDisjoint(b: Byte)
    ensures !(IsDigit(b) && IsAlphaUpper(b))
  {
  }

  lemma AlphaNumericalUpperIsUnion(b: Byte)
    ensures IsAlphaNumericalUpper(b) <==> '0' <= b <= '9' || 'A' <= b <= 'Z'
    ensures IsAlphaNumericalUpper(b) ==> !IsAlphaLower(b)
  {
  }

  /** Letters move by exactly 32 code points and every other byte is kept. */
  lemma AsciiLowerToUpperMapping(b: Byte)
    ensures IsAlphaLower(b) ==> AsciiLowerToUpper(b) as int == b as int - 32
    ensures !IsAlphaLower(b) ==> AsciiLowerToUpper(b) == b
    ensures IsAlphaUpper(AsciiLowerToUpper(b)) <==> IsAlphaUpper(b) || IsAlphaLower(b)
  {
  }

  lemma AsciiLowerToUpperIdempotent(b: Byte)
    ensures AsciiLowerToUpper(AsciiLowerToUpper(b)) == AsciiLowerToUpper(b)
  {
  }

  /** Bytes i.. of s are all ASCII digits (a form that evaluates on
      literals). */
  predicate DigitsFrom(s: ByteString, i: nat)
    decreases |s| - i
  {
    i >= |s| || (IsDigit(s[i]) && DigitsFrom(s, i + 1))
  }

  lemma {:induction false} DigitsFromIndexed(s: ByteString, i: nat)
    ensures DigitsFrom(s, i) <==> forall k :: i <= k < |s| ==> IsDigit(s[k])
    decreases |s| - i
  {
    if i < |s| {
      DigitsFromIndexed(s, i + 1);
    }
  }

  /** The evaluable form gives the indexed one, for literal test vectors. */
  lemma AllDigits(s: ByteString)
    requires DigitsFrom(s, 0)
    ensures forall k :: 0 <= k < |s| ==> IsDigit(s[k])
  {
    DigitsFromIndexed(s, 0);
  }
}
