/** cpf.go: the individual taxpayer number, 11 ASCII digits whose last two
    are mod-11 check digits. */
module Cpf {
  import opened Bytes
  import opened Utils
  import opened Strings
  import opened Checksum
  import opened Errors

  const FirstTable: seq<int> := [10, 9, 8, 7, 6, 5, 4, 3, 2]
  const SecondTable: seq<int> := [11, 10, 9, 8, 7, 6, 5, 4, 3, 2]

  /** Weights 10..2 for the first check digit, 11..2 for the second. */
  lemma TablesHold()
    ensures Tables(FirstTable, SecondTable)
  {
  }

  /** The first check digit: weights 10..2 over bytes 0-8. */
  function FirstDigit(s: ByteString): (d: int)
    requires |s| >= 9
    ensures 0 <= d <= 9
  {
    TablesHold();
    FirstCheck(s, FirstTable, SecondTable)
  }

  /** The second check digit: weights 11..3 over bytes 0-8 and weight 2 on
      the computed first digit (byte 9 of the input is not read). */
  function SecondDigit(s: ByteString): (d: int)
    requires |s| >= 9
    ensures 0 <= d <= 9
  {
    TablesHold();
    SecondCheck(s, FirstTable, SecondTable)
  }

  /** The reference definition of a valid CPF: nine ASCII digits and their
      two check digits. */
  predicate Valid(s: ByteString) {
    TablesHold();
    CheckDigitsValid(s, FirstTable, SecondTable)
  }

  /** `CPF.IsValid`: anything but 11 bytes is rejected; otherwise the bytes
      are copied into a buffer whose bytes 9 and 10 are overwritten with the
      computed check digits, and the buffer is compared with the input. */
  method IsValid(cpf: ByteString) returns (ok: bool)
    ensures ok == Valid(cpf)
  {
    if |cpf| != 11 {
      return false;
    }
    TablesHold();
    ok := CheckBuffer(cpf, FirstTable, SecondTable);
  }

  /** Where byte i of the 11-digit form lands in XXX.XXX.XXX-XX. */
  function Slot(i: int): int
    requires 0 <= i < 11
  {
    i + (if i >= 3 then 1 else 0) + (if i >= 6 then 1 else 0) + (if i >= 9 then 1 else 0)
  }

  /** The punctuated 14-byte form of an 11-byte CPF. */
  function Format(s: ByteString): (r: ByteString)
    requires |s| == 11
    ensures |r| == 14 && r[3] == '.' && r[7] == '.' && r[11] == '-'
    ensures forall i :: 0 <= i < 11 ==> r[Slot(i)] == s[i]
  {
    s[..3] + (['.'] + (s[3..6] + (['.'] + (s[6..9] + (['-'] + s[9..])))))
  }

  /** The 14 bytes of `Format`, one by one. */
  lemma FormatElements(s: ByteString)
    requires |s| == 11
    ensures Format(s) == [s[0], s[1], s[2], '.', s[3], s[4], s[5], '.', s[6], s[7], s[8], '-', s[9], s[10]]
  {
    var r := Format(s);
    assert r[0] == s[0] && r[1] == s[1] && r[2] == s[2];
    assert r[Slot(3)] == s[3] && r[Slot(4)] == s[4] && r[Slot(5)] == s[5];
    assert r[Slot(6)] == s[6] && r[Slot(7)] == s[7] && r[Slot(8)] == s[8];
    assert r[Slot(9)] == s[9] && r[Slot(10)] == s[10];
  }

  /** The layout of `Format` determines every one of its 14 bytes. */
  lemma FormatLayout(r: ByteString, s: ByteString)
    requires |s| == 11 && |r| == 14 && r[3] == '.' && r[7] == '.' && r[11] == '-'
    requires forall i :: 0 <= i < 11 ==> r[Slot(i)] == s[i]
    ensures r == Format(s)
  {
    var f := Format(s);
    forall j | 0 <= j < 14
      ensures r[j] == f[j]
    {
      if j != 3 && j != 7 && j != 11 {
        var i := j - (if j > 3 then 1 else 0) - (if j > 7 then 1 else 0) - (if j > 11 then 1 else 0);
        assert Slot(i) == j;
      }
    }
  }

  /** What `CPF.String` returns: the input itself unless it is valid. */
  function Canonical(s: ByteString): ByteString {
    if Valid(s) then Format(s) else s
  }

  /** `CPF.String`: a valid CPF is written into a 14-byte buffer with '.' at
      3 and 7 and '-' at 11; anything else is returned unchanged. */
  method String(cpf: ByteString) returns (r: ByteString)
    ensures !Valid(cpf) ==> r == cpf
    ensures Valid(cpf) ==> |r| == 14 && r[3] == '.' && r[7] == '.' && r[11] == '-'
    ensures Valid(cpf) ==> forall i :: 0 <= i < 11 ==> r[Slot(i)] == cpf[i]
    ensures r == Canonical(cpf)
  {
    var valid := IsValid(cpf);
    if !valid {
      return cpf;
    }

    var out := new Byte[14];
    for i := 0 to |cpf|
      invariant forall k :: 0 <= k < i ==> out[Slot(k)] == cpf[k]
      invariant i > 3 ==> out[3] == '.'
      invariant i > 6 ==> out[7] == '.'
      invariant i > 9 ==> out[11] == '-'
    {
      if i < 3 {
        out[i] := cpf[i];
      } else if i == 3 {
        out[i] := '.';
        out[i + 1] := cpf[i];
      } else if i < 6 {
        out[i + 1] := cpf[i];
      } else if i == 6 {
        out[i + 1] := '.';
        out[i + 2] := cpf[i];
      } else if i < 9 {
        out[i + 2] := cpf[i];
      } else if i == 9 {
        out[i + 2] := '-';
        out[i + 3] := cpf[i];
      } else {
        out[i + 3] := cpf[i];
      }
    }
    r := out[..];
    FormatLayout(r, cpf);
  }

  /** The input of `NewCPF` with every '.' and '-' deleted. */
  function Strip(s: ByteString): ByteString {
    RemoveAll<Byte>(RemoveAll<Byte>(s, '.'), '-')
  }

  /** `Strip` deletes exactly the '.' and '-' bytes. */
  lemma StripMembers(s: ByteString)
    ensures forall x :: x in Strip(s) <==> x in s && x != '.' && x != '-'
  {
    RemoveAllMembers<Byte>(s, '.');
    RemoveAllMembers<Byte>(RemoveAll<Byte>(s, '.'), '-');
  }

  /** `NewCPF`: deletes the punctuation, then accepts the result iff valid. */
  method NewCpf(s: ByteString) returns (r: Result<ByteString>)
    ensures r.Ok? <==> Valid(Strip(s))
    ensures r.Ok? ==> r.value == Strip(s)
    ensures r.Err? ==> r.error == ErrInvalidCPF
  {
    var t := RemoveAll<Byte>(s, '.');
    t := RemoveAll<Byte>(t, '-');
    var valid := IsValid(t);
    if !valid {
      return Err(ErrInvalidCPF);
    }
    return Ok(t);
  }

  // ---------------------------------------------------------------------
  // Properties of the reference definition

  /** Every valid CPF is 11 ASCII digits, so the 14-byte punctuated form is
      never valid. */
  lemma ValidIsElevenDigits(s: ByteString)
    ensures Valid(s) ==> |s| == 11 && forall k :: 0 <= k < 11 ==> IsDigit(s[k])
    ensures |s| == 14 ==> !Valid(s)
  {
    TablesHold();
    if Valid(s) {
      ValidAllDigits(s, FirstTable, SecondTable);
    }
  }

  /** Nine ASCII digits have exactly one pair of check bytes that makes them
      a valid CPF (what a generator relies on; changing either check byte of
      a valid CPF is detected). */
  lemma CheckBytes(p: ByteString, x: Byte, y: Byte)
    requires |p| == 9 && forall k :: 0 <= k < 9 ==> IsDigit(p[k])
    ensures Valid(p + [x, y]) <==> x == DigitByte(FirstDigit(p)) && y == DigitByte(SecondDigit(p))
  {
    TablesHold();
    CheckBytesUnique(p, x, y, FirstTable, SecondTable);
  }

  /** `String` on its own output gives the same output. */
  lemma CanonicalIdempotent(s: ByteString)
    ensures Canonical(Canonical(s)) == Canonical(s)
  {
    if Valid(s) {
      assert !Valid(Format(s));
    }
  }

  /** Deleting the punctuation of the formatted form gives back the 11 digits,
      so `NewCPF(cpf.String())` returns `cpf` for every valid `cpf`. */
  lemma StripFormat(s: ByteString)
    requires Valid(s)
    ensures Strip(Format(s)) == s
    ensures Valid(Strip(Format(s)))
  {
    ValidIsElevenDigits(s);
    StripFormatDigits(s);
  }

  lemma StripFormatDigits(s: ByteString)
    requires |s| == 11 && forall k :: 0 <= k < 11 ==> IsDigit(s[k])
    ensures Strip(Format(s)) == s
  {
    var a, b, c, d := s[..3], s[3..6], s[6..9], s[9..];
    DigitsHaveNoSeparators(a);
    DigitsHaveNoSeparators(b);
    DigitsHaveNoSeparators(c);
    DigitsHaveNoSeparators(d);
    assert Format(s) == a + (['.'] + (b + (['.'] + (c + (['-'] + d)))));
    StripPieces<Byte>(a, b, c, d, '.', '-');
    assert a + (b + (c + d)) == s;
  }

  /** The two deletions on four separated pieces, stated over any element
      type so that the proof does not reason about the byte range. */
  lemma StripPieces<T>(a: seq<T>, b: seq<T>, c: seq<T>, d: seq<T>, dot: T, dash: T)
    requires dot != dash
    requires dot !in a && dot !in b && dot !in c && dot !in d
    requires dash !in a && dash !in b && dash !in c && dash !in d
    ensures RemoveAll(RemoveAll(a + ([dot] + (b + ([dot] + (c + ([dash] + d))))), dot), dash) == a + (b + (c + d))
  {
    var y := c + ([dash] + d);
    RemoveAllPass(c, dash, d, dot);
    RemoveAllAbsent(d, dot);
    RemoveAllDrop(b, y, dot);
    RemoveAllDrop(a, b + ([dot] + y), dot);

    RemoveAllDrop(c, d, dash);
    RemoveAllAbsent(d, dash);
    RemoveAllAfterFree(b, y, dash);
    RemoveAllAfterFree(a, b + y, dash);
  }

  /** The cases of cpf_test.go that the code decides as the test expects. */
  lemma KnownFirstSum()
    ensures WeightedSum("453178287", FirstTable, 9) == 244
  {
  }

  lemma KnownSecondSum()
    ensures WeightedSum("453178287", SecondTable, 9) == 289
  {
  }

  lemma KnownCheckDigits()
    ensures DigitByte(FirstDigit("453178287")) == '9'
    ensures DigitByte(SecondDigit("453178287")) == '1'
  {
    KnownFirstSum();
    KnownSecondSum();
  }

  lemma KnownValid()
    ensures Valid("45317828791")
  {
    var p: ByteString := "453178287";
    KnownCheckDigits();
    CheckBytes(p, '9', '1');
    assert p + ['9', '1'] == "45317828791";
  }

  lemma KnownWrongFirstCheck()
    ensures !Valid("45317828781")
    ensures !Valid("453.178.287-81")
  {
    var p: ByteString := "453178287";
    KnownCheckDigits();
    CheckBytes(p, '8', '1');
    assert p + ['8', '1'] == "45317828781";
  }

  lemma KnownWrongSecondCheck()
    ensures !Valid("45317828792")
    ensures !Valid("453.178.287-92")
  {
    var p: ByteString := "453178287";
    KnownCheckDigits();
    CheckBytes(p, '9', '2');
    assert p + ['9', '2'] == "45317828792";
  }

  lemma KnownFormat()
    ensures Format("45317828791") == "453.178.287-91"
  {
    FormatElements("45317828791");
  }

  /** cpf_test.go expects the punctuated form to be valid and to format to
      itself; the code rejects it and so returns it as it is. */
  lemma PunctuatedFormRejected()
    ensures !Valid("453.178.287-91")
    ensures Canonical("453.178.287-91") == "453.178.287-91"
    ensures Valid(Strip("453.178.287-91"))
  {
    KnownValid();
    KnownFormat();
    StripFormat("45317828791");
  }
}
