/** The positional-weight checksum shared by the CPF, CNPJ and CNH validators:
    a weighted sum of digit values and the mod-11 check digit derived from it. */
module Checksum {
  import opened Bytes
  import opened Utils

  /** The accumulator of the source loops after `n` steps:
      the sum of `w[k] * int(s[k] - '0')` for k < n, with wrapping byte subtraction. */
  function WeightedSum(s: ByteString, w: seq<int>, n: nat): int
    requires n <= |s| && n <= |w|
  {
    if n == 0 then 0 else WeightedSum(s, w, n - 1) + w[n - 1] * WrapSub(s[n - 1], '0')
  }

  /** Nonnegative weights give a nonnegative sum. */
  lemma {:induction false} WeightedSumNonNegative(s: ByteString, w: seq<int>, n: nat)
    requires n <= |s| && n <= |w|
    requires forall k :: 0 <= k < n ==> w[k] >= 0
    ensures WeightedSum(s, w, n) >= 0
  {
    if n > 0 {
      WeightedSumNonNegative(s, w, n - 1);
    }
  }

  /** The check digit of a sum: the digit that makes the sum a multiple of 11,
      or 0 when the remainder is 0 or 1 (10 is not a digit). */
  function CheckDigit(sum: int): (d: int)
    requires sum >= 0
    ensures 0 <= d <= 9
    ensures (sum + d) % 11 == 0 || (sum % 11 == 1 && d == 0)
  {
    var rest := sum % 11;
    if rest >= 2 then 11 - rest else 0
  }

  /** The ASCII digit of a value 0..9 (`byte(d) + '0'`, or '0' for zero). */
  function DigitByte(d: int): (b: Byte)
    requires 0 <= d <= 9
    ensures IsDigit(b) && WrapSub(b, '0') == d
  {
    FromCode('0' as int + d)
  }

  /** A weighted sum only reads the first `n` bytes. */
  lemma {:induction false} WeightedSumPrefix(s: ByteString, t: ByteString, w: seq<int>, n: nat)
    requires n <= |s| && n <= |t| && n <= |w|
    requires s[..n] == t[..n]
    ensures WeightedSum(s, w, n) == WeightedSum(t, w, n)
  {
    if n > 0 {
      assert s[..n - 1] == s[..n][..n - 1] && t[..n - 1] == t[..n][..n - 1];
      assert s[n - 1] == s[..n][n - 1] && t[n - 1] == t[..n][n - 1];
      WeightedSumPrefix(s, t, w, n - 1);
    }
  }

  /** Reading one more byte adds its weighted value to the sum. */
  lemma WeightedSumAppend(s: ByteString, x: Byte, w: seq<int>)
    requires |s| < |w|
    ensures WeightedSum(s + [x], w, |s| + 1) == WeightedSum(s, w, |s|) + w[|s|] * WrapSub(x, '0')
  {
    var n := |s|;
    assert (s + [x])[..n] == s[..n];
    WeightedSumPrefix(s + [x], s, w, n);
    assert (s + [x])[n] == x;
  }

  /** The check digit is the only digit that completes a sum with remainder
      other than 1 to a multiple of 11. */
  lemma CheckDigitUnique(sum: int, d: int)
    requires sum >= 0 && 0 <= d <= 9
    requires (sum + d) % 11 == 0
    ensures d == CheckDigit(sum)
  {
  }

  /** The block that cpf.go, cnpj.go and cnh.go each write twice: sum the
      first |table| bytes of the buffer under the weights, returning false at
      the first byte whose `int(b - '0')` is above 9, and otherwise store the
      check digit of the sum in the byte that follows them. */
  method FillCheckDigit(buf: array<Byte>, table: seq<int>) returns (ok: bool)
    requires |table| < buf.Length
    requires forall k :: 0 <= k < |table| ==> table[k] >= 0
    modifies buf
    ensures ok == (forall k :: 0 <= k < |table| ==> IsDigit(old(buf[k])))
    ensures ok ==> (WeightedSum(old(buf[..]), table, |table|) >= 0 &&
      buf[..] == old(buf[..])[|table| := DigitByte(CheckDigit(WeightedSum(old(buf[..]), table, |table|)))])
    ensures !ok ==> buf[..] == old(buf[..])
  {
    var sum := 0;
    for i := 0 to |table|
      invariant forall k :: 0 <= k < i ==> IsDigit(buf[k])
      invariant sum == WeightedSum(buf[..], table, i)
    {
      var c := WrapSub(buf[i], '0');
      if c < 0 || c > 9 {
        return false;
      }
      sum := sum + table[i] * c;
    }
    WeightedSumNonNegative(buf[..], table, |table|);
    var rest := sum % 11;
    var d := 0;
    if rest >= 2 {
      d := 11 - rest;
    }
    if d == 0 {
      buf[|table|] := '0';
    } else {
      buf[|table|] := FromCode(d + '0' as int);
    }
    return true;
  }

  // ---------------------------------------------------------------------
  // Two check digits over a pair of weight tables

  /** A pair of tables as the validators use them: the second has one more
      weight, for the first check digit, and no weight is negative. */
  predicate Tables(t1: seq<int>, t2: seq<int>) {
    && |t2| == |t1| + 1
    && (forall k :: 0 <= k < |t1| ==> t1[k] >= 0)
    && (forall k :: 0 <= k < |t2| ==> t2[k] >= 0)
  }

  /** The first check digit: the payload bytes weighed by `t1`. */
  function FirstCheck(s: ByteString, t1: seq<int>, t2: seq<int>): (d: int)
    requires Tables(t1, t2) && |t1| <= |s|
    ensures 0 <= d <= 9
  {
    WeightedSumNonNegative(s, t1, |t1|);
    CheckDigit(WeightedSum(s, t1, |t1|))
  }

  /** The second check digit: the payload bytes weighed by `t2` and the
      computed first check digit by the last weight of `t2` (the byte of the
      input in that place is not read). */
  function SecondCheck(s: ByteString, t1: seq<int>, t2: seq<int>): (d: int)
    requires Tables(t1, t2) && |t1| <= |s|
    ensures 0 <= d <= 9
  {
    WeightedSumNonNegative(s, t2, |t1|);
    CheckDigit(WeightedSum(s, t2, |t1|) + t2[|t1|] * FirstCheck(s, t1, t2))
  }

  /** The reference definition the three validators share: |t1| ASCII digits
      followed by their two check digits. */
  predicate CheckDigitsValid(s: ByteString, t1: seq<int>, t2: seq<int>)
    requires Tables(t1, t2)
  {
    && |s| == |t1| + 2
    && (forall k :: 0 <= k < |t1| ==> IsDigit(s[k]))
    && s[|t1|] == DigitByte(FirstCheck(s, t1, t2))
    && s[|t1| + 1] == DigitByte(SecondCheck(s, t1, t2))
  }

  /** The body that cpf.go, cnpj.go and cnh.go share once the length is
      right: copy the input into a buffer, store the two check digits in its
      last two bytes and compare the buffer with the input. */
  method CheckBuffer(s: ByteString, t1: seq<int>, t2: seq<int>) returns (ok: bool)
    requires Tables(t1, t2) && |s| == |t1| + 2
    ensures ok == CheckDigitsValid(s, t1, t2)
  {
    var buf := new Byte[|s|];
    for i := 0 to |s|
      invariant buf[..i] == s[..i]
    {
      buf[i] := s[i];
    }
    assert buf[..] == s;

    ok := FillCheckDigit(buf, t1);
    if !ok {
      return false;
    }
    ghost var first := buf[..];
    SecondSumOfBuffer(s, first, t1, t2);
    ok := FillCheckDigit(buf, t2);
    if !ok {
      assert false;
      return false;
    }

    ok := buf[..] == s;
    BufferComparison(buf[..], s, t1, t2);
  }

  /** After the first check digit is stored, the buffer weighs, under `t2`,
      as the payload plus the last weight times the first check digit. */
  lemma SecondSumOfBuffer(s: ByteString, b: ByteString, t1: seq<int>, t2: seq<int>)
    requires Tables(t1, t2) && |s| == |t1| + 2
    requires forall k :: 0 <= k < |t1| ==> IsDigit(s[k])
    requires b == s[|t1| := DigitByte(FirstCheck(s, t1, t2))]
    ensures forall k :: 0 <= k < |t2| ==> IsDigit(b[k])
    ensures WeightedSum(b, t2, |t2|) == WeightedSum(s, t2, |t1|) + t2[|t1|] * FirstCheck(s, t1, t2)
  {
    assert b[..|t1|] == s[..|t1|];
    WeightedSumPrefix(b, s, t2, |t1|);
  }

  /** Comparing the buffer that holds the computed check digits with the
      input decides validity. */
  lemma BufferComparison(b: ByteString, s: ByteString, t1: seq<int>, t2: seq<int>)
    requires Tables(t1, t2) && |s| == |t1| + 2
    requires forall k :: 0 <= k < |t1| ==> IsDigit(s[k])
    requires |b| == |s| && b[..|t1|] == s[..|t1|]
    requires b[|t1|] == DigitByte(FirstCheck(s, t1, t2))
    requires b[|t1| + 1] == DigitByte(SecondCheck(s, t1, t2))
    ensures (b == s) == CheckDigitsValid(s, t1, t2)
  {
    if CheckDigitsValid(s, t1, t2) {
      assert forall k :: 0 <= k < |s| ==> b[k] == s[k] by {
        forall k | 0 <= k < |t1| ensures b[k] == s[k] {
          assert b[k] == b[..|t1|][k];
        }
      }
    }
  }

  /** The check digits depend on the payload only. */
  lemma PayloadOnly(s: ByteString, t: ByteString, t1: seq<int>, t2: seq<int>)
    requires Tables(t1, t2) && |t1| <= |s| && |t1| <= |t|
    requires s[..|t1|] == t[..|t1|]
    ensures FirstCheck(s, t1, t2) == FirstCheck(t, t1, t2)
    ensures SecondCheck(s, t1, t2) == SecondCheck(t, t1, t2)
  {
    WeightedSumPrefix(s, t, t1, |t1|);
    WeightedSumPrefix(s, t, t2, |t1|);
  }

  /** A payload of ASCII digits has exactly one pair of check bytes: the two
      computed check digits (what a generator relies on, and why changing
      either check byte is detected). */
  lemma {:induction false} CheckBytesUnique(p: ByteString, x: Byte, y: Byte, t1: seq<int>, t2: seq<int>)
    requires Tables(t1, t2) && |p| == |t1|
    requires forall k :: 0 <= k < |p| ==> IsDigit(p[k])
    ensures CheckDigitsValid(p + [x, y], t1, t2) <==>
      x == DigitByte(FirstCheck(p, t1, t2)) && y == DigitByte(SecondCheck(p, t1, t2))
  {
    var s := p + [x, y];
    assert s[..|t1|] == p[..|t1|];
    PayloadOnly(s, p, t1, t2);
    assert forall k :: 0 <= k < |t1| ==> s[k] == p[k];
  }

  /** Every valid input is all ASCII digits. */
  lemma ValidAllDigits(s: ByteString, t1: seq<int>, t2: seq<int>)
    requires Tables(t1, t2) && CheckDigitsValid(s, t1, t2)
    ensures forall k :: 0 <= k < |s| ==> IsDigit(s[k])
  {
  }

  /** A valid input is its payload followed by the two computed digits. */
  lemma ValidSplit(s: ByteString, t1: seq<int>, t2: seq<int>)
    requires Tables(t1, t2) && CheckDigitsValid(s, t1, t2)
    ensures s == s[..|t1|] + [DigitByte(FirstCheck(s[..|t1|], t1, t2)), DigitByte(SecondCheck(s[..|t1|], t1, t2))]
  {
    assert s[..|t1|][..|t1|] == s[..|t1|];
    PayloadOnly(s, s[..|t1|], t1, t2);
  }
}
