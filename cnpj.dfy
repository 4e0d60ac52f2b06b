/** cnpj.go: the company registry number, 14 ASCII digits whose last two are
    mod-11 check digits, written XX.XXX.XXX/XXXX-XX. */
module Cnpj {
  import opened Bytes
  import opened Utils
  import opened Strings
  import opened Checksum
  import opened Errors

  const FirstTable: seq<int> := [5, 4, 3, 2, 9, 8, 7, 6, 5, 4, 3, 2]
  const SecondTable: seq<int> := [6, 5, 4, 3, 2, 9, 8, 7, 6, 5, 4, 3, 2]

  lemma TablesHold()
    ensures Tables(FirstTable, SecondTable)
  {
  }

  /** The first check digit: weights 5,4,3,2,9,8,7,6,5,4,3,2 over bytes 0-11. */
  function FirstDigit(s: ByteString): (d: int)
    requires |s| >= 12
    ensures 0 <= d <= 9
  {
    TablesHold();
    FirstCheck(s, FirstTable, SecondTable)
  }

  /** The second check digit: weights 6,5,4,3,2,9,8,7,6,5,4,3 over bytes 0-11
      and weight 2 on the computed first digit. */
  function SecondDigit(s: ByteString): (d: int)
    requires |s| >= 12
    ensures 0 <= d <= 9
  {
    TablesHold();
    SecondCheck(s, FirstTable, SecondTable)
  }

  /** The input with every '.', '/' and '-' deleted, wherever they are. */
  function Strip(s: ByteString): ByteString {
    RemoveAll<Byte>(RemoveAll<Byte>(RemoveAll<Byte>(s, '.'), '/'), '-')
  }

  /** A stripped CNPJ is valid: 12 ASCII digits and their two check digits. */
  predicate DigitsValid(t: ByteString) {
    TablesHold();
    CheckDigitsValid(t, FirstTable, SecondTable)
  }

  /** The reference definition of `CNPJ.IsValid`: the separators are deleted
      and only what is left is judged. */
  predicate Valid(s: ByteString) {
    DigitsValid(Strip(s))
  }

  /** `CNPJ.IsValid`. */
  method IsValid(cnpj: ByteString) returns (ok: bool)
    ensures ok == Valid(cnpj)
  {
    var s := RemoveAll<Byte>(cnpj, '.');
    s := RemoveAll<Byte>(s, '/');
    s := RemoveAll<Byte>(s, '-');
    if |s| != 14 {
      return false;
    }
    TablesHold();
    ok := CheckBuffer(s, FirstTable, SecondTable);
  }

  /** `NewCNPJ`: deletes the separators and returns what is left iff valid. */
  method NewCnpj(s: ByteString) returns (r: Result<ByteString>)
    ensures r.Ok? <==> Valid(s)
    ensures r.Ok? ==> r.value == Strip(s) && DigitsValid(r.value) && Valid(r.value)
    ensures r.Err? ==> r.error == ErrInvalidCNPJ
  {
    var t := RemoveAll<Byte>(s, '.');
    t := RemoveAll<Byte>(t, '/');
    t := RemoveAll<Byte>(t, '-');
    StripIdempotent(s);
    var valid := IsValid(t);
    if !valid {
      return Err(ErrInvalidCNPJ);
    }
    return Ok(t);
  }

  // ---------------------------------------------------------------------
  // Formatting

  /** Where byte i of the 14-digit form lands in XX.XXX.XXX/XXXX-XX. */
  function Slot(i: int): int
    requires 0 <= i < 14
  {
    i + (if i >= 2 then 1 else 0) + (if i >= 5 then 1 else 0) + (if i >= 8 then 1 else 0) + (if i >= 12 then 1 else 0)
  }

  /** The punctuated 18-byte form of a 14-byte CNPJ. */
  function Format(t: ByteString): (r: ByteString)
    requires |t| == 14
    ensures |r| == 18 && r[2] == '.' && r[6] == '.' && r[10] == '/' && r[15] == '-'
    ensures forall i :: 0 <= i < 14 ==> r[Slot(i)] == t[i]
  {
    t[..2] + (['.'] + (t[2..5] + (['.'] + (t[5..8] + (['/'] + (t[8..12] + (['-'] + t[12..])))))))
  }

  /** The 18 bytes of `Format`, one by one. */
  lemma FormatElements(t: ByteString)
    requires |t| == 14
    ensures Format(t) ==
      [t[0], t[1], '.', t[2], t[3], t[4], '.', t[5], t[6], t[7], '/', t[8], t[9], t[10], t[11], '-', t[12], t[13]]
  {
    var r := Format(t);
    assert r[0] == t[0] && r[1] == t[1];
    assert r[Slot(2)] == t[2] && r[Slot(3)] == t[3] && r[Slot(4)] == t[4];
    assert r[Slot(5)] == t[5] && r[Slot(6)] == t[6] && r[Slot(7)] == t[7];
    assert r[Slot(8)] == t[8] && r[Slot(9)] == t[9] && r[Slot(10)] == t[10] && r[Slot(11)] == t[11];
    assert r[Slot(12)] == t[12] && r[Slot(13)] == t[13];
  }

  /** The layout of `Format` determines every one of its 18 bytes. */
  lemma FormatLayout(r: ByteString, t: ByteString)
    requires |t| == 14 && |r| == 18 && r[2] == '.' && r[6] == '.' && r[10] == '/' && r[15] == '-'
    requires forall i :: 0 <= i < 14 ==> r[Slot(i)] == t[i]
    ensures r == Format(t)
  {
    var f := Format(t);
    forall j | 0 <= j < 18
      ensures r[j] == f[j]
    {
      if j != 2 && j != 6 && j != 10 && j != 15 {
        var i := j - (if j > 2 then 1 else 0) - (if j > 6 then 1 else 0) - (if j > 10 then 1 else 0) - (if j > 15 then 1 else 0);
        assert Slot(i) == j;
      }
    }
  }

  /** The index of the 18-byte buffer that the loop of `CNPJ.String` writes
      byte i of the input to, for any byte index i of the input. */
  function OutIndex(i: nat): nat {
    if i < 2 then i
    else if i < 5 then i + 1
    else if i < 8 then i + 2
    else if i < 12 then i + 3
    else i + 4
  }

  /** The loop stays inside the 18-byte buffer exactly when the input has at
      most 14 bytes; a valid input has at least 14, so `String` is defined on
      a valid input exactly when it has no separators. */
  lemma {:induction false} StringInBounds(cnpj: ByteString)
    ensures (forall i: nat :: i < |cnpj| ==> OutIndex(i) < 18) <==> |cnpj| <= 14
    ensures Valid(cnpj) ==> |cnpj| >= 14
  {
    if |cnpj| > 14 {
      assert OutIndex(14) == 18;
    }
    if Valid(cnpj) {
      StripLength(cnpj);
    }
  }

  /** What `CNPJ.String` should return: the input itself unless it is valid,
      and then the punctuated form of its digits. */
  function Canonical(s: ByteString): (r: ByteString)
    ensures Valid(s) ==> |r| == 18 && Strip(r) == Strip(s)
    ensures !Valid(s) ==> r == s
  {
    if Valid(s) then
      ValidIsFourteenDigits(s);
      StripFormat(Strip(s));
      Format(Strip(s))
    else s
  }

  /** `CNPJ.String` as written: the loop writes byte i of the input to
      `OutIndex(i)`, so it is only defined when no such index is past the
      18-byte buffer. */
  method String(cnpj: ByteString) returns (r: ByteString)
    requires !Valid(cnpj) || forall i: nat :: i < |cnpj| ==> OutIndex(i) < 18
    ensures !Valid(cnpj) ==> r == cnpj
    ensures Valid(cnpj) ==> |cnpj| == 14
    ensures Valid(cnpj) ==> |r| == 18 && r[2] == '.' && r[6] == '.' && r[10] == '/' && r[15] == '-'
    ensures Valid(cnpj) ==> forall i :: 0 <= i < 14 ==> r[Slot(i)] == cnpj[i]
    ensures r == Canonical(cnpj)
  {
    var valid := IsValid(cnpj);
    if !valid {
      return cnpj;
    }
    StringInBounds(cnpj);
    ValidFourteenIsStripped(cnpj);

    r := Punctuate(cnpj);
  }

  /** The loop of `CNPJ.String` on a 14-byte input. */
  method Punctuate(cnpj: ByteString) returns (r: ByteString)
    requires |cnpj| == 14
    ensures r == Format(cnpj)
  {
    var out := new Byte[18];
    for i := 0 to |cnpj|
      invariant forall k :: 0 <= k < i ==> out[Slot(k)] == cnpj[k]
      invariant i > 2 ==> out[2] == '.'
      invariant i > 5 ==> out[6] == '.'
      invariant i > 8 ==> out[10] == '/'
      invariant i > 12 ==> out[15] == '-'
    {
      if i < 2 {
        out[i] := cnpj[i];
      } else if i == 2 {
        out[i] := '.';
        out[i + 1] := cnpj[i];
      } else if i < 5 {
        out[i + 1] := cnpj[i];
      } else if i == 5 {
        out[i + 1] := '.';
        out[i + 2] := cnpj[i];
      } else if i < 8 {
        out[i + 2] := cnpj[i];
      } else if i == 8 {
        out[i + 2] := '/';
        out[i + 3] := cnpj[i];
      } else if i < 12 {
        out[i + 3] := cnpj[i];
      } else if i == 12 {
        out[i + 3] := '-';
        out[i + 4] := cnpj[i];
      } else {
        out[i + 4] := cnpj[i];
      }
    }
    r := out[..];
    FormatLayout(r, cnpj);
  }

  // ---------------------------------------------------------------------
  // Properties of the reference definition

  /** Stripping deletes exactly the three separators. */
  lemma StripMembers(s: ByteString)
    ensures forall x :: x in Strip(s) <==> x in s && x != '.' && x != '/' && x != '-'
    ensures |Strip(s)| <= |s|
  {
    RemoveAllMembers<Byte>(s, '.');
    RemoveAllMembers<Byte>(RemoveAll<Byte>(s, '.'), '/');
    RemoveAllMembers<Byte>(RemoveAll<Byte>(RemoveAll<Byte>(s, '.'), '/'), '-');
  }

  lemma StripLength(s: ByteString)
    ensures |Strip(s)| <= |s|
  {
    StripMembers(s);
  }

  /** Stripping twice is stripping once, so `NewCNPJ`'s result is judged as
      the input was. */
  lemma StripIdempotent(s: ByteString)
    ensures Strip(Strip(s)) == Strip(s)
  {
    var t := Strip(s);
    StripMembers(s);
    RemoveAllAbsent<Byte>(t, '.');
    RemoveAllAbsent<Byte>(t, '/');
    RemoveAllAbsent<Byte>(t, '-');
  }

  /** A valid CNPJ of 14 bytes has no separators: it is its own stripped form. */
  lemma ValidFourteenIsStripped(s: ByteString)
    requires Valid(s) && |s| == 14
    ensures Strip(s) == s
  {
    var a := RemoveAll<Byte>(s, '.');
    var b := RemoveAll<Byte>(a, '/');
    RemoveAllMembers<Byte>(s, '.');
    RemoveAllMembers<Byte>(a, '/');
    RemoveAllShrinks<Byte>(s, '.');
    RemoveAllShrinks<Byte>(a, '/');
    RemoveAllShrinks<Byte>(b, '-');
  }

  /** Every valid CNPJ strips to 14 ASCII digits: the letters and lowercase
      bytes of the alphanumeric form are rejected. */
  lemma ValidIsFourteenDigits(s: ByteString)
    requires Valid(s)
    ensures |Strip(s)| == 14 && forall k :: 0 <= k < 14 ==> IsDigit(Strip(s)[k])
  {
    TablesHold();
    ValidAllDigits(Strip(s), FirstTable, SecondTable);
  }

  /** A separator is ignored wherever it is put. */
  lemma SeparatorIgnored(x: ByteString, c: Byte, y: ByteString)
    requires c == '.' || c == '/' || c == '-'
    ensures Strip(x + ([c] + y)) == Strip(x + y)
    ensures Valid(x + ([c] + y)) == Valid(x + y)
  {
    var x1, y1 := RemoveAll<Byte>(x, '.'), RemoveAll<Byte>(y, '.');
    var x2, y2 := RemoveAll<Byte>(x1, '/'), RemoveAll<Byte>(y1, '/');
    RemoveAllAppend<Byte>(x, [c] + y, '.');
    RemoveAllAppend<Byte>(x, y, '.');
    RemoveAllAppend<Byte>(x1, y1, '/');
    RemoveAllAppend<Byte>(x2, y2, '-');
    if c == '.' {
      RemoveAllAfterSkip<Byte>(y, '.');
    } else {
      RemoveAllAfterKeep<Byte>(c, y, '.');
      RemoveAllAppend<Byte>(x1, [c] + y1, '/');
      if c == '/' {
        RemoveAllAfterSkip<Byte>(y1, '/');
      } else {
        RemoveAllAfterKeep<Byte>(c, y1, '/');
        RemoveAllAppend<Byte>(x2, [c] + y2, '-');
        RemoveAllAfterSkip<Byte>(y2, '-');
      }
    }
  }

  /** Twelve ASCII digits have exactly one pair of check bytes that makes them
      a valid CNPJ (what a generator relies on). */
  lemma CheckBytes(p: ByteString, x: Byte, y: Byte)
    requires |p| == 12 && forall k :: 0 <= k < 12 ==> IsDigit(p[k])
    ensures DigitsValid(p + [x, y]) <==> x == DigitByte(FirstDigit(p)) && y == DigitByte(SecondDigit(p))
  {
    TablesHold();
    CheckBytesUnique(p, x, y, FirstTable, SecondTable);
  }

  /** Deleting the separators of the formatted form gives back the digits. */
  lemma StripFormat(t: ByteString)
    requires |t| == 14 && forall k :: 0 <= k < 14 ==> IsDigit(t[k])
    ensures Strip(Format(t)) == t
  {
    var a, b, c, d, e := t[..2], t[2..5], t[5..8], t[8..12], t[12..];
    DigitsHaveNoSeparators(t);
    AbsentFromPieces<Byte>(t, '.', 2, 5, 8, 12);
    AbsentFromPieces<Byte>(t, '/', 2, 5, 8, 12);
    AbsentFromPieces<Byte>(t, '-', 2, 5, 8, 12);
    assert Format(t) == a + (['.'] + (b + (['.'] + (c + (['/'] + (d + (['-'] + e)))))));
    StripPieces<Byte>(a, b, c, d, e, '.', '/', '-');
    PiecesJoin<Byte>(t, 2, 5, 8, 12);
  }

  /** A value absent from a sequence is absent from each of its five pieces. */
  lemma AbsentFromPieces<T>(t: seq<T>, x: T, i: nat, j: nat, k: nat, l: nat)
    requires i <= j <= k <= l <= |t| && x !in t
    ensures x !in t[..i] && x !in t[i..j] && x !in t[j..k] && x !in t[k..l] && x !in t[l..]
  {
  }

  /** Five consecutive pieces of a sequence join back to it. */
  lemma PiecesJoin<T>(t: seq<T>, i: nat, j: nat, k: nat, l: nat)
    requires i <= j <= k <= l <= |t|
    ensures t[..i] + (t[i..j] + (t[j..k] + (t[k..l] + t[l..]))) == t
  {
    assert t[k..l] + t[l..] == t[k..];
    assert t[j..k] + t[k..] == t[j..];
    assert t[i..j] + t[j..] == t[i..];
  }

  /** The three deletions on five separated pieces, stated over any element
      type so that the proof does not reason about the byte range. */
  lemma StripPieces<T>(a: seq<T>, b: seq<T>, c: seq<T>, d: seq<T>, e: seq<T>, dot: T, slash: T, dash: T)
    requires dot != slash && dot != dash && slash != dash
    requires dot !in a && dot !in b && dot !in c && dot !in d && dot !in e
    requires slash !in a && slash !in b && slash !in c && slash !in d && slash !in e
    requires dash !in a && dash !in b && dash !in c && dash !in d && dash !in e
    ensures RemoveAll(RemoveAll(RemoveAll(a + ([dot] + (b + ([dot] + (c + ([slash] + (d + ([dash] + e))))))), dot), slash), dash)
         == a + (b + (c + (d + e)))
  {
    var y := c + ([slash] + (d + ([dash] + e)));
    RemoveAllPass(d, dash, e, dot);
    RemoveAllAbsent(e, dot);
    RemoveAllPass(c, slash, d + ([dash] + e), dot);
    RemoveAllDrop(b, y, dot);
    RemoveAllDrop(a, b + ([dot] + y), dot);

    RemoveAllPass(d, dash, e, slash);
    RemoveAllAbsent(e, slash);
    RemoveAllDrop(c, d + ([dash] + e), slash);
    RemoveAllAfterFree(b, y, slash);
    RemoveAllAfterFree(a, b + y, slash);

    RemoveAllDrop(d, e, dash);
    RemoveAllAbsent(e, dash);
    RemoveAllAfterFree(c, d + ([dash] + e), dash);
    RemoveAllAfterFree(b, c + (d + ([dash] + e)), dash);
    RemoveAllAfterFree(a, b + (c + (d + ([dash] + e))), dash);
  }

  /** `String` on its own output gives the same output, and `NewCNPJ` of the
      output gives back the stripped digits. */
  lemma CanonicalRoundTrip(s: ByteString)
    requires Valid(s)
    ensures Canonical(Canonical(s)) == Canonical(s)
    ensures Strip(Canonical(s)) == Strip(s) && Valid(Canonical(s))
  {
    StripIdempotent(s);
  }

  /** Twelve or fourteen ASCII digits are their own stripped form. */
  lemma DigitsUnstripped(t: ByteString)
    requires forall k :: 0 <= k < |t| ==> IsDigit(t[k])
    ensures Strip(t) == t
  {
    DigitsHaveNoSeparators(t);
    RemoveAllAbsent<Byte>(t, '.');
    RemoveAllAbsent<Byte>(t, '/');
    RemoveAllAbsent<Byte>(t, '-');
  }

  /** Any byte that is neither an ASCII digit nor a separator makes the
      input invalid, wherever it is: the alphanumeric CNPJ is not accepted. */
  lemma ForeignByteRejected(s: ByteString, x: Byte)
    requires x in s && !IsDigit(x) && x != '.' && x != '/' && x != '-'
    ensures !Valid(s)
  {
    StripMembers(s);
    if Valid(s) {
      ValidIsFourteenDigits(s);
    }
  }

  // ---------------------------------------------------------------------
  // The cases of cnpj_test.go

  const PetrobrasPayload: ByteString := "330001671002"

  lemma PetrobrasSums()
    ensures WeightedSum(PetrobrasPayload, FirstTable, 12) == 128
    ensures WeightedSum(PetrobrasPayload, SecondTable, 12) == 151
  {
    assert WeightedSum(PetrobrasPayload, FirstTable, 6) == 35;
    assert WeightedSum(PetrobrasPayload, SecondTable, 6) == 42;
  }

  lemma PetrobrasCheckDigits()
    ensures DigitByte(FirstDigit(PetrobrasPayload)) == '4'
    ensures DigitByte(SecondDigit(PetrobrasPayload)) == '6'
  {
    PetrobrasSums();
  }

  /** The raw Petrobras number is valid and a changed check byte is not. */
  lemma PetrobrasDigitsValid()
    ensures DigitsValid("33000167100246")
  {
    var p := PetrobrasPayload;
    assert forall k :: 0 <= k < |p| ==> IsDigit(p[k]);
    PetrobrasCheckDigits();
    CheckBytes(p, '4', '6');
    assert p + ['4', '6'] == "33000167100246";
  }

  lemma PetrobrasUnstripped()
    ensures Strip("33000167100246") == "33000167100246"
  {
    DigitsUnstripped("33000167100246");
  }

  lemma KnownPetrobras()
    ensures Valid("33000167100246")
  {
    PetrobrasDigitsValid();
    PetrobrasUnstripped();
  }

  lemma KnownPetrobrasWrongFirst()
    ensures !Valid("33000167100256")
  {
    var p := PetrobrasPayload;
    assert forall k :: 0 <= k < |p| ==> IsDigit(p[k]);
    PetrobrasCheckDigits();
    CheckBytes(p, '5', '6');
    assert p + ['5', '6'] == "33000167100256";
    DigitsUnstripped("33000167100256");
  }

  lemma KnownPetrobrasWrongSecond()
    ensures !Valid("33000167100245")
  {
    var p := PetrobrasPayload;
    assert forall k :: 0 <= k < |p| ==> IsDigit(p[k]);
    PetrobrasCheckDigits();
    CheckBytes(p, '4', '5');
    assert p + ['4', '5'] == "33000167100245";
    DigitsUnstripped("33000167100245");
  }

  lemma BancoDoBrasilCheckDigits()
    ensures DigitByte(FirstDigit("000000000001")) == '9'
    ensures DigitByte(SecondDigit("000000000001")) == '1'
  {
    assert WeightedSum("000000000001", FirstTable, 6) == 0;
    assert WeightedSum("000000000001", FirstTable, 12) == 2;
    assert WeightedSum("000000000001", SecondTable, 6) == 0;
    assert WeightedSum("000000000001", SecondTable, 12) == 3;
  }

  lemma BancoDoBrasilDigitsValid()
    ensures DigitsValid("00000000000191")
  {
    var p: ByteString := "000000000001";
    assert forall k :: 0 <= k < |p| ==> IsDigit(p[k]);
    BancoDoBrasilCheckDigits();
    CheckBytes(p, '9', '1');
    assert p + ['9', '1'] == "00000000000191";
  }

  lemma BancoDoBrasilUnstripped()
    ensures Strip("00000000000191") == "00000000000191"
  {
    DigitsUnstripped("00000000000191");
  }

  lemma KnownBancoDoBrasil()
    ensures Valid("00000000000191")
  {
    BancoDoBrasilDigitsValid();
    BancoDoBrasilUnstripped();
  }

  lemma PetrobrasFormat()
    ensures Format("33000167100246") == "33.000.167/1002-46"
  {
    FormatElements("33000167100246");
  }

  /** The formatted Petrobras number strips to the raw one. */
  lemma KnownFormatted()
    ensures Strip("33.000.167/1002-46") == "33000167100246"
    ensures Valid("33.000.167/1002-46")
  {
    PetrobrasFormat();
    StripFormat("33000167100246");
    PetrobrasDigitsValid();
  }

  /** cnpj_test.go expects these alphanumeric forms to be valid; the code
      rejects them. */
  lemma AlphanumericRejected()
    ensures !Valid("AAAAAAAAAAAA45")
  {
    ForeignByteRejected("AAAAAAAAAAAA45", 'A');
  }

  lemma LowercaseRejected()
    ensures !Valid("aaaaaaaaaaaa45")
  {
    ForeignByteRejected("aaaaaaaaaaaa45", 'a');
  }

  lemma MixedAlphanumericRejected()
    ensures !Valid("12ABC34501DE35")
  {
    ForeignByteRejected("12ABC34501DE35", 'A');
  }

  lemma FormattedAlphanumericRejected()
    ensures !Valid("12.ABC.345/01DE-35")
  {
    ForeignByteRejected("12.ABC.345/01DE-35", 'A');
  }

  /** cnpj_test.go:214-218 expects the punctuated lower-case payload to be
      upper-cased by `String`; being invalid, it is returned as it is. */
  lemma FormattedLowercaseStringKept()
    ensures Canonical("aa.aaa.aaa/aaaa-45") == "aa.aaa.aaa/aaaa-45"
  {
    var s: ByteString := "aa.aaa.aaa/aaaa-45";
    assert s[0] == 'a';
    ForeignByteRejected(s, 'a');
  }

  /** cnpj_test.go:219-223 expects the raw lower-case payload to be
      upper-cased and punctuated by `String`; being invalid, it is returned
      as it is. */
  lemma LowercaseStringKept()
    ensures Canonical("aaaaaaaaaaaa45") == "aaaaaaaaaaaa45"
  {
    LowercaseRejected();
  }

  /** cnpj_test.go:229-233 expects the raw upper-case payload to be
      punctuated by `String`; being invalid, it is returned as it is. */
  lemma UppercaseStringKept()
    ensures Canonical("AAAAAAAAAAAA45") == "AAAAAAAAAAAA45"
  {
    AlphanumericRejected();
  }

  /** The formatted form that `IsValid` accepts is outside the domain of
      `String` as written: the loop reaches input byte 14 and writes it to
      index 18 of the 18-byte buffer. */
  lemma FormattedStringOverrun()
    ensures Valid("33.000.167/1002-46")
    ensures |"33.000.167/1002-46"| == 18 && OutIndex(14) == 18
    ensures !(forall i: nat :: i < |"33.000.167/1002-46"| ==> OutIndex(i) < 18)
  {
    KnownFormatted();
    assert OutIndex(14) == 18;
  }
}
