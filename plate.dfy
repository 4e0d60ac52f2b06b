/** plate.go: the vehicle licence plate, three upper-case letters, a digit,
    a digit or upper-case letter (the Mercosul form) and two digits, either
    raw or with a '.' or '-' after the letters. */
module Plate {
  import opened Bytes
  import opened Utils
  import opened Strings
  import opened Errors

  /** The two separators `IsValid` accepts after the letters. */
  predicate IsSeparator(b: Byte) {
    b == '.' || b == '-'
  }

  /** How `IsValid` ends: with an answer, or with Go's index-out-of-range
      panic. */
  datatype Verdict = Accept | Reject | Panic

  /** The loop of `IsValid` from character i with `pad` separators skipped:
      letters at 0-2, a digit at 3 (after a separator is skipped), a digit
      or letter at 4 and digits at 5 and 6, each read at `p[i + pad]`. */
  function Loop(p: ByteString, i: nat, pad: nat): Verdict
    requires i <= 7
    decreases 7 - i
  {
    if i == 7 then Accept
    else if i + pad >= |p| then Panic
    else if i < 3 then
      if IsAlphaUpper(p[i + pad]) then Loop(p, i + 1, pad) else Reject
    else if i == 3 then
      var q := if IsSeparator(p[i + pad]) then pad + 1 else pad;
      if i + q >= |p| then Panic
      else if IsDigit(p[i + q]) then Loop(p, i + 1, q) else Reject
    else if i == 4 then
      if IsAlphaNumericalUpper(p[i + pad]) then Loop(p, i + 1, pad) else Reject
    else
      if IsDigit(p[i + pad]) then Loop(p, i + 1, pad) else Reject
  }

  /** `Plate.IsValid` as written, panic included: 7 or 8 bytes, an 8-byte
      plate with a separator at byte 3, then the loop. */
  function Outcome(p: ByteString): Verdict {
    if |p| != 7 && |p| != 8 then Reject
    else if |p| == 8 && !IsSeparator(p[3]) then Reject
    else Loop(p, 0, 0)
  }

  /** What `IsValid` would answer with an index check in the loop: the
      panicking inputs are rejected. */
  predicate Valid(p: ByteString) {
    Outcome(p) == Accept
  }

  /** The reference definition of the seven characters of a plate. */
  predicate Shape(c: ByteString) {
    && |c| == 7
    && IsAlphaUpper(c[0]) && IsAlphaUpper(c[1]) && IsAlphaUpper(c[2])
    && IsDigit(c[3]) && IsAlphaNumericalUpper(c[4]) && IsDigit(c[5]) && IsDigit(c[6])
  }

  /** The seven characters of a 7- or 8-byte plate: the separator dropped. */
  function Characters(p: ByteString): (c: ByteString)
    requires |p| == 7 || |p| == 8
    ensures |c| == 7
  {
    if |p| == 8 then p[..3] + p[4..] else p
  }

  /** `Plate.IsValid`, for the inputs on which it does not panic. */
  method IsValid(p: ByteString) returns (ok: bool)
    requires Outcome(p) != Panic
    ensures ok == Valid(p)
  {
    var l := |p|;
    if l != 7 && l != 8 {
      return false;
    }
    if l == 8 && p[3] != '.' && p[3] != '-' {
      return false;
    }
    var pad := 0;
    for i := 0 to 7
      invariant Loop(p, i, pad) == Outcome(p)
    {
      var cur := p[i + pad];
      if i < 3 {
        if !IsAlphaUpper(cur) {
          return false;
        }
      } else if i == 3 {
        if cur == '.' || cur == '-' {
          pad := pad + 1;
          cur := p[i + pad];
        }
        if !IsDigit(cur) {
          return false;
        }
      } else if i == 4 {
        if !IsAlphaNumericalUpper(cur) {
          return false;
        }
      } else {
        if !IsDigit(cur) {
          return false;
        }
      }
    }
    return true;
  }

  /** `NewPlate`: the input as it is, when valid. */
  method NewPlate(s: ByteString) returns (r: Result<ByteString>)
    requires Outcome(s) != Panic
    ensures r.Ok? <==> Valid(s)
    ensures r.Ok? ==> r.value == s
    ensures r.Err? ==> r.error == ErrInvalidPlate
  {
    var valid := IsValid(s);
    if !valid {
      return Err(ErrInvalidPlate);
    }
    return Ok(s);
  }

  /** Seven characters in the XXX-XXXX form. */
  function Dashed(c: ByteString): (r: ByteString)
    requires |c| == 7
    ensures |r| == 8 && r[3] == '-'
  {
    c[..3] + ['-'] + c[3..]
  }

  /** What `Plate.String` returns. */
  function Canonical(p: ByteString): ByteString {
    if Valid(p) then Dashed(Characters(p)) else []
  }

  /** `Plate.String`: "" unless valid; an 8-byte plate holding a '-' as it
      is, any other 8-byte plate copied with '-' at byte 3, a 7-byte plate
      copied into 8 bytes with '-' at byte 3; the result upper-cased. */
  method String(p: ByteString) returns (r: ByteString)
    requires Outcome(p) != Panic
    ensures !Valid(p) ==> r == []
    ensures Valid(p) ==> |r| == 8 && r[3] == '-' && Characters(r) == Characters(p)
    ensures r == Canonical(p)
  {
    var valid := IsValid(p);
    if !valid {
      return [];
    }
    ValidShape(p);
    if |p| == 8 {
      if '-' in p {
        DashedEight(p);
        return AsciiToUpper(p);
      }
      var out := p[3 := '-'];
      DashedEight(out);
      return AsciiToUpper(out);
    }
    var out := new Byte[8];
    for i := 0 to 8
      invariant forall j :: 0 <= j < i ==> out[j] == Dashed(p)[j]
    {
      if i < 3 {
        out[i] := p[i];
      } else if i == 3 {
        out[i] := '-';
      } else {
        out[i] := p[i - 1];
      }
    }
    assert out[..] == Dashed(p);
    ShapeHasNoLowerCase(p);
    return AsciiToUpper(out[..]);
  }

  // ---------------------------------------------------------------------
  // Properties of the validator

  /** The first three steps of the loop test the letters. */
  lemma LoopHead(p: ByteString)
    requires |p| >= 3
    ensures Loop(p, 0, 0) ==
      if IsAlphaUpper(p[0]) && IsAlphaUpper(p[1]) && IsAlphaUpper(p[2]) then Loop(p, 3, 0) else Reject
  {
    assert Loop(p, 1, 0) == if IsAlphaUpper(p[1]) then Loop(p, 2, 0) else Reject;
  }

  /** The last three steps read bytes 4 + pad to 6 + pad. */
  lemma LoopTail(p: ByteString, pad: nat)
    requires 6 + pad < |p|
    ensures Loop(p, 4, pad) ==
      if IsAlphaNumericalUpper(p[4 + pad]) && IsDigit(p[5 + pad]) && IsDigit(p[6 + pad]) then Accept else Reject
  {
    assert Loop(p, 5, pad) == if IsDigit(p[5 + pad]) then Loop(p, 6, pad) else Reject;
  }

  /** After a separator in seven bytes the last step reads byte 7. */
  lemma LoopTailShort(p: ByteString)
    requires |p| == 7
    ensures Loop(p, 4, 1) ==
      if IsAlphaNumericalUpper(p[5]) && IsDigit(p[6]) then Panic else Reject
  {
    assert Loop(p, 5, 1) == if IsDigit(p[6]) then Loop(p, 6, 1) else Reject;
  }

  /** `IsValid` accepts exactly the raw seven characters and the eight-byte
      forms with '.' or '-' at byte 3 (in both directions). */
  lemma ValidShape(p: ByteString)
    ensures Valid(p) <==> (|p| == 7 || |p| == 8) && Shape(Characters(p)) && (|p| == 8 ==> IsSeparator(p[3]))
    ensures Valid(p) && |p| == 7 ==> !IsSeparator(p[3])
  {
    if |p| == 7 || |p| == 8 {
      LoopHead(p);
      var c := Characters(p);
      if |p| == 8 {
        if IsSeparator(p[3]) {
          LoopTail(p, 1);
          assert c[3] == p[4] && c[4] == p[5] && c[5] == p[6] && c[6] == p[7];
        }
      } else if IsSeparator(p[3]) {
        LoopTailShort(p);
        DigitsAndSeparatorsDisjoint(p[3]);
      } else {
        LoopTail(p, 0);
      }
    }
  }

  lemma DigitsAndSeparatorsDisjoint(b: Byte)
    ensures IsSeparator(b) ==> !IsDigit(b)
  {
  }

  /** Only a 7-byte input with a separator at byte 3, whose other bytes
      pass the tests, makes `IsValid` panic: it reads byte 7. */
  lemma PanicShape(p: ByteString)
    ensures Outcome(p) == Panic <==>
      && |p| == 7 && IsSeparator(p[3])
      && IsAlphaUpper(p[0]) && IsAlphaUpper(p[1]) && IsAlphaUpper(p[2])
      && IsDigit(p[4]) && IsAlphaNumericalUpper(p[5]) && IsDigit(p[6])
  {
    if |p| == 7 || |p| == 8 {
      LoopHead(p);
      if |p| == 8 {
        if IsSeparator(p[3]) {
          LoopTail(p, 1);
        }
      } else if IsSeparator(p[3]) {
        LoopTailShort(p);
      } else {
        LoopTail(p, 0);
      }
    }
  }

  /** No byte of a plate's characters is a lower-case letter, so
      `strings.ToUpper` leaves the dashed form as it is. */
  lemma ShapeHasNoLowerCase(c: ByteString)
    requires Shape(c)
    ensures forall i :: 0 <= i < 8 ==> !IsAlphaLower(Dashed(c)[i])
    ensures AsciiToUpper(Dashed(c)) == Dashed(c)
  {
    var d := Dashed(c);
    forall i | 0 <= i < 8
      ensures !IsAlphaLower(d[i])
    {
      if i > 3 {
        assert d[i] == c[i - 1];
      }
    }
  }

  /** An 8-byte plate with '-' at byte 3 is already the dashed form of its
      characters, and a valid 8-byte plate holds a '-' only there. */
  lemma DashedEight(p: ByteString)
    requires |p| == 8 && Shape(Characters(p)) && IsSeparator(p[3])
    ensures '-' in p <==> p[3] == '-'
    ensures p[3] == '-' ==> p == Dashed(Characters(p)) && AsciiToUpper(p) == p
  {
    var c := Characters(p);
    assert forall i :: 0 <= i < 7 ==> c[i] == p[if i < 3 then i else i + 1];
    if '-' in p {
      var k :| 0 <= k < 8 && p[k] == '-';
      if k != 3 {
        assert c[if k < 3 then k else k - 1] == '-';
      }
    }
    if p[3] == '-' {
      assert p == Dashed(c);
      ShapeHasNoLowerCase(c);
    }
  }

  /** The dashed form of valid characters is a valid plate with the same
      characters. */
  lemma DashedValid(c: ByteString)
    requires Shape(c)
    ensures Valid(Dashed(c)) && Characters(Dashed(c)) == c
  {
    var d := Dashed(c);
    assert d[..3] + d[4..] == c;
    ValidShape(d);
  }

  /** What `String` returns is a valid plate in the XXX-XXXX form, with the
      characters of the input, which `String` returns as it is. */
  lemma CanonicalIdempotent(p: ByteString)
    requires Valid(p)
    ensures Valid(Canonical(p)) && Characters(Canonical(p)) == Characters(p)
    ensures Canonical(Canonical(p)) == Canonical(p)
  {
    ValidShape(p);
    DashedValid(Characters(p));
  }

  /** Two valid plates get the same `String` exactly when they have the
      same characters: the separator is the only thing `String` forgets. */
  lemma CanonicalSameCharacters(p: ByteString, q: ByteString)
    requires Valid(p) && Valid(q)
    ensures Canonical(p) == Canonical(q) <==> Characters(p) == Characters(q)
  {
    CanonicalIdempotent(p);
    CanonicalIdempotent(q);
  }
}

/** The cases of plate_test.go. */
module PlateCases {
  import opened Bytes
  import opened Utils
  import opened Plate

  lemma KnownValid()
    ensures Valid("BRA2023") && Valid("BRA-2023") && Valid("BRA.2023")
    ensures Valid("BRA2A23") && Valid("BRA-2A23") && Valid("BRA.2A23")
  {
    ValidShape("BRA2023");
    ValidShape("BRA-2023");
    ValidShape("BRA.2023");
    ValidShape("BRA2A23");
    ValidShape("BRA-2A23");
    ValidShape("BRA.2A23");
  }

  lemma KnownInvalid()
    ensures !Valid("BRA223") && !Valid("BRA02023") && !Valid("BRAA2023")
  {
  }

  lemma KnownString()
    ensures Canonical("34fsd") == []
    ensures Canonical("BRA2023") == "BRA-2023"
    ensures Canonical("BRA-2023") == "BRA-2023"
    ensures Canonical("BRA.2023") == "BRA-2023"
  {
    KnownValid();
  }

  /** The dashed form cut to seven bytes makes `IsValid` read byte 7. */
  lemma SeparatedSevenPanics()
    ensures Outcome("BRA-202") == Panic && !Valid("BRA-202")
  {
    PanicShape("BRA-202");
  }
}
