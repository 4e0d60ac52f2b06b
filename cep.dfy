/** The postal code (CEP) of address.go: eight ASCII digits, written
    XXXXX-XXX. The process-wide cache of CEPs known to be invalid is a
    parameter, `invalid`. */
module Cep {
  import opened Bytes
  import opened Utils
  import opened Strings
  import opened Errors

  /** The reference definition of a valid CEP: eight ASCII digits that are
      not known to be invalid. */
  predicate Valid(cep: ByteString, invalid: set<ByteString>) {
    && |cep| == 8
    && (forall k :: 0 <= k < 8 ==> IsDigit(cep[k]))
    && cep !in invalid
  }

  /** `CEP.IsValid`: the length, then a byte loop, then the cache. */
  method IsValid(cep: ByteString, invalid: set<ByteString>) returns (ok: bool)
    ensures ok == Valid(cep, invalid)
  {
    if |cep| != 8 {
      return false;
    }
    for i := 0 to |cep|
      invariant forall k :: 0 <= k < i ==> IsDigit(cep[k])
    {
      if cep[i] < '0' || cep[i] > '9' {
        return false;
      }
    }
    return cep !in invalid;
  }

  /** Eight bytes in the XXXXX-XXX form. */
  function Format(cep: ByteString): (r: ByteString)
    requires |cep| == 8
    ensures |r| == 9 && r[5] == '-'
    ensures forall k :: 0 <= k < 5 ==> r[k] == cep[k]
    ensures forall k :: 5 <= k < 8 ==> r[k + 1] == cep[k]
  {
    cep[..5] + ['-'] + cep[5..]
  }

  /** What `CEP.String` returns. */
  function Canonical(cep: ByteString, invalid: set<ByteString>): ByteString {
    if Valid(cep, invalid) then Format(cep) else []
  }

  /** `CEP.String`: "" unless valid; otherwise the eight digits copied into
      nine bytes, '-' at byte 5. */
  method String(cep: ByteString, invalid: set<ByteString>) returns (r: ByteString)
    ensures !Valid(cep, invalid) ==> r == []
    ensures Valid(cep, invalid) ==> |r| == 9 && r[5] == '-'
    ensures Valid(cep, invalid) ==> forall k :: 0 <= k < 5 ==> r[k] == cep[k]
    ensures Valid(cep, invalid) ==> forall k :: 5 <= k < 8 ==> r[k + 1] == cep[k]
    ensures r == Canonical(cep, invalid)
  {
    var valid := IsValid(cep, invalid);
    if !valid {
      return [];
    }
    var out := new Byte[9];
    for i := 0 to |cep|
      invariant forall k :: 0 <= k < i && k < 5 ==> out[k] == cep[k]
      invariant i > 5 ==> out[5] == '-'
      invariant forall k :: 5 <= k < i ==> out[k + 1] == cep[k]
    {
      if i < 5 {
        out[i] := cep[i];
      } else if i == 5 {
        out[i] := '-';
        out[i + 1] := cep[i];
      } else {
        out[i + 1] := cep[i];
      }
    }
    r := out[..];
    FormatLayout(r, cep);
  }

  /** The layout of `Format` determines its nine bytes. */
  lemma FormatLayout(r: ByteString, cep: ByteString)
    requires |cep| == 8 && |r| == 9 && r[5] == '-'
    requires forall k :: 0 <= k < 5 ==> r[k] == cep[k]
    requires forall k :: 5 <= k < 8 ==> r[k + 1] == cep[k]
    ensures r == Format(cep)
  {
    var f := Format(cep);
    forall j | 0 <= j < 9
      ensures r[j] == f[j]
    {
      if j > 5 {
        assert r[(j - 1) + 1] == cep[j - 1];
      }
    }
  }

  /** The input of `NewCEP` with every '-' and then every '.' deleted. */
  function Strip(s: ByteString): ByteString {
    RemoveAll<Byte>(RemoveAll<Byte>(s, '-'), '.')
  }

  /** `Strip` deletes exactly the '-' and '.' bytes. */
  lemma StripMembers(s: ByteString)
    ensures forall x :: x in Strip(s) <==> x in s && x != '-' && x != '.'
    ensures |Strip(s)| <= |s|
  {
    RemoveAllMembers<Byte>(s, '-');
    RemoveAllMembers<Byte>(RemoveAll<Byte>(s, '-'), '.');
  }

  /** `NewCEP`: deletes the punctuation, then accepts the result iff valid. */
  method NewCep(s: ByteString, invalid: set<ByteString>) returns (r: Result<ByteString>)
    ensures r.Ok? <==> Valid(Strip(s), invalid)
    ensures r.Ok? ==> r.value == Strip(s)
    ensures r.Err? ==> r.error == ErrInvalidCEP
  {
    var t := RemoveAll<Byte>(s, '-');
    t := RemoveAll<Byte>(t, '.');
    var valid := IsValid(t, invalid);
    if !valid {
      return Err(ErrInvalidCEP);
    }
    return Ok(t);
  }

  // ---------------------------------------------------------------------
  // Properties

  /** A valid CEP holds no punctuation, so `NewCEP` returns it as it is. */
  lemma ValidStripped(cep: ByteString, invalid: set<ByteString>)
    requires Valid(cep, invalid)
    ensures Strip(cep) == cep
  {
    DigitsHaveNoSeparators(cep);
    RemoveAllAbsent<Byte>(cep, '-');
    RemoveAllAbsent<Byte>(cep, '.');
  }

  /** Deleting the '-' of the formatted form gives back the digits, so
      `NewCEP(cep.String())` returns `cep` for every valid `cep`. */
  lemma StripFormat(cep: ByteString, invalid: set<ByteString>)
    requires Valid(cep, invalid)
    ensures Strip(Format(cep)) == cep
    ensures Valid(Strip(Canonical(cep, invalid)), invalid)
  {
    var a, b := cep[..5], cep[5..];
    DigitsHaveNoSeparators(a);
    DigitsHaveNoSeparators(b);
    assert Format(cep) == a + (['-'] + b);
    RemoveAllDrop<Byte>(a, b, '-');
    RemoveAllAbsent<Byte>(b, '-');
    assert a + b == cep;
    DigitsHaveNoSeparators(cep);
    RemoveAllAbsent<Byte>(cep, '.');
  }

  /** No '-' or '.' survives in what `NewCEP` accepts, and every other byte
      of the input does. */
  lemma NewCepPunctuation(s: ByteString, invalid: set<ByteString>)
    requires Valid(Strip(s), invalid)
    ensures '-' !in Strip(s) && '.' !in Strip(s)
    ensures forall x :: x in s && x != '-' && x != '.' ==> x in Strip(s)
  {
    StripMembers(s);
  }

  /** Learning more invalid CEPs never makes a CEP valid. */
  lemma ValidAntitone(cep: ByteString, small: set<ByteString>, large: set<ByteString>)
    requires small <= large
    ensures Valid(cep, large) ==> Valid(cep, small)
  {
  }

  /** The formatted form is never itself a valid CEP. */
  lemma FormattedNotValid(cep: ByteString, invalid: set<ByteString>)
    requires Valid(cep, invalid)
    ensures !Valid(Canonical(cep, invalid), invalid)
  {
  }
}
