/** cnh.go: the driver's licence number, 11 ASCII digits whose last two are
    mod-11 check digits under weights of their own. */
module Cnh {
  import opened Bytes
  import opened Utils
  import opened Checksum
  import opened Errors

  const FirstTable: seq<int> := [2, 3, 4, 5, 6, 7, 8, 9, 10]
  const SecondTable: seq<int> := [3, 4, 5, 6, 7, 8, 9, 10, 11, 2]

  /** Weights 2..10 for the first check digit; 3..11 and then 2, on the
      computed first digit, for the second. */
  lemma TablesHold()
    ensures Tables(FirstTable, SecondTable)
  {
  }

  /** The first check digit: weights 2..10 over bytes 0-8. */
  function FirstDigit(s: ByteString): (d: int)
    requires |s| >= 9
    ensures 0 <= d <= 9
  {
    TablesHold();
    FirstCheck(s, FirstTable, SecondTable)
  }

  /** The second check digit: weights 3..11 over bytes 0-8 and weight 2 on
      the computed first digit (byte 9 of the input is not read). */
  function SecondDigit(s: ByteString): (d: int)
    requires |s| >= 9
    ensures 0 <= d <= 9
  {
    TablesHold();
    SecondCheck(s, FirstTable, SecondTable)
  }

  /** The reference definition of a valid CNH: nine ASCII digits and their
      two check digits. */
  predicate Valid(s: ByteString) {
    TablesHold();
    CheckDigitsValid(s, FirstTable, SecondTable)
  }

  /** `CNH.IsValid`: anything but 11 bytes is rejected; otherwise the bytes
      are copied into a buffer whose bytes 9 and 10 are overwritten with the
      computed check digits, and the buffer is compared with the input. */
  method IsValid(cnh: ByteString) returns (ok: bool)
    ensures ok == Valid(cnh)
  {
    if |cnh| != 11 {
      return false;
    }
    TablesHold();
    ok := CheckBuffer(cnh, FirstTable, SecondTable);
  }

  /** `NewCNH`: the input as it is, when valid; no punctuation is deleted. */
  method NewCnh(s: ByteString) returns (r: Result<ByteString>)
    ensures r.Ok? <==> Valid(s)
    ensures r.Ok? ==> r.value == s
    ensures r.Err? ==> r.error == ErrInvalidCNH
  {
    var valid := IsValid(s);
    if !valid {
      return Err(ErrInvalidCNH);
    }
    return Ok(s);
  }

  /** `CNH.String`: the number as it is stored, valid or not. */
  function String(cnh: ByteString): ByteString {
    cnh
  }

  // ---------------------------------------------------------------------
  // Properties of the reference definition

  /** Every valid CNH is 11 ASCII digits. */
  lemma ValidIsElevenDigits(s: ByteString)
    ensures Valid(s) ==> |s| == 11 && forall k :: 0 <= k < 11 ==> IsDigit(s[k])
  {
    TablesHold();
    if Valid(s) {
      ValidAllDigits(s, FirstTable, SecondTable);
    }
  }

  /** Nine ASCII digits have exactly one pair of check bytes that makes them
      a valid CNH (what `GenerateCNH` relies on; changing either check byte
      of a valid CNH is detected). */
  lemma CheckBytes(p: ByteString, x: Byte, y: Byte)
    requires |p| == 9 && forall k :: 0 <= k < 9 ==> IsDigit(p[k])
    ensures Valid(p + [x, y]) <==> x == DigitByte(FirstDigit(p)) && y == DigitByte(SecondDigit(p))
  {
    TablesHold();
    CheckBytesUnique(p, x, y, FirstTable, SecondTable);
  }

  /** A valid CNH is its first nine bytes followed by their check digits. */
  lemma ValidIsCompletion(s: ByteString)
    requires Valid(s)
    ensures s == s[..9] + [DigitByte(FirstDigit(s[..9])), DigitByte(SecondDigit(s[..9]))]
  {
    TablesHold();
    ValidSplit(s, FirstTable, SecondTable);
  }

  /** What `NewCNH` accepts, `String` gives back unchanged. */
  lemma NewThenString(s: ByteString)
    requires Valid(s)
    ensures Valid(String(s)) && String(s) == s
  {
  }

  /** The cases of cnh_test.go. */
  lemma FirstSums()
    ensures WeightedSum("963006898", FirstTable, 9) == 315
    ensures WeightedSum("963006898", SecondTable, 9) == 364
  {
  }

  lemma FirstCheckDigits()
    ensures DigitByte(FirstDigit("963006898")) == '4'
    ensures DigitByte(SecondDigit("963006898")) == '2'
  {
    FirstSums();
  }

  lemma KnownValidFirst()
    ensures Valid("96300689842")
  {
    var p: ByteString := "963006898";
    assert forall k :: 0 <= k < |p| ==> IsDigit(p[k]);
    FirstCheckDigits();
    CheckBytes(p, '4', '2');
    assert p + ['4', '2'] == "96300689842";
  }

  lemma KnownWrongFirstCheck()
    ensures !Valid("96300689852")
  {
    var p: ByteString := "963006898";
    assert forall k :: 0 <= k < |p| ==> IsDigit(p[k]);
    FirstCheckDigits();
    CheckBytes(p, '5', '2');
    assert p + ['5', '2'] == "96300689852";
  }

  lemma KnownWrongSecondCheck()
    ensures !Valid("96300689843")
  {
    var p: ByteString := "963006898";
    assert forall k :: 0 <= k < |p| ==> IsDigit(p[k]);
    FirstCheckDigits();
    CheckBytes(p, '4', '3');
    assert p + ['4', '3'] == "96300689843";
  }

  lemma SecondSums()
    ensures WeightedSum("745101180", FirstTable, 9) == 138
    ensures WeightedSum("745101180", SecondTable, 9) == 165
  {
  }

  lemma KnownValidSecond()
    ensures Valid("74510118051")
  {
    var p: ByteString := "745101180";
    assert forall k :: 0 <= k < |p| ==> IsDigit(p[k]);
    SecondSums();
    assert DigitByte(FirstDigit(p)) == '5';
    assert DigitByte(SecondDigit(p)) == '1';
    CheckBytes(p, '5', '1');
    assert p + ['5', '1'] == "74510118051";
  }

  lemma ThirdSums()
    ensures WeightedSum("938261048", FirstTable, 9) == 228
    ensures WeightedSum("938261048", SecondTable, 9) == 269
  {
  }

  lemma KnownValidThird()
    ensures Valid("93826104830")
  {
    var p: ByteString := "938261048";
    assert forall k :: 0 <= k < |p| ==> IsDigit(p[k]);
    ThirdSums();
    assert DigitByte(FirstDigit(p)) == '3';
    assert DigitByte(SecondDigit(p)) == '0';
    CheckBytes(p, '3', '0');
    assert p + ['3', '0'] == "93826104830";
  }

  lemma KnownWrongLength()
    ensures !Valid("") && !Valid("123")
  {
  }

  lemma KnownLetters()
    ensures !Valid("aaaaaaaaaaa")
  {
    assert !IsDigit("aaaaaaaaaaa"[0]);
  }

  /** cnh_test.go expects `String` to give "" for "123"; the code returns
      every CNH as it is. */
  lemma InvalidStringKept()
    ensures !Valid("123") && String("123") == "123"
  {
  }
}
