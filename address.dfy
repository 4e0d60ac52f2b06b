/** The `Address` of address.go: seven fields, a ';'-separated
    serialisation and its parser. The cache of CEPs known to be invalid is
    the parameter `invalid`, as in module Cep. */
module Address {
  import opened Bytes
  import opened Utils
  import opened Strings
  import opened Errors
  import opened Uf
  import UfTable
  import Cep

  /** The fields of an `Address`, as a value. */
  datatype Fields = Fields(
    uf: Code,
    cep: ByteString,
    localidade: ByteString,
    logradouro: ByteString,
    complemento: ByteString,
    bairro: ByteString,
    nomeUnidade: ByteString)

  /** `serializedSize`: the buffer size `Serialize` reserves, counting two
      bytes for the UF. */
  function SerializedSize(a: Fields): int {
    2 + 1 +
    |a.localidade| + 1 +
    |a.logradouro| + 1 +
    |a.complemento| + 1 +
    |a.bairro| + 1 +
    |a.nomeUnidade| + 1 +
    |a.cep|
  }

  /** The seven parts in the order `Serialize` writes them. */
  function Parts(a: Fields): (r: seq<ByteString>)
    ensures |r| == 7
  {
    [Abbreviation(a.uf), a.localidade, a.logradouro, a.complemento, a.bairro, a.nomeUnidade, a.cep]
  }

  /** The reference definition of the serialised form: the parts joined by ';'. */
  function Serialization(a: Fields): ByteString {
    Join<Byte>(Parts(a), ';')
  }

  /** The text fields that are stored as they are, so must not hold ';'. */
  predicate TextFree(a: Fields) {
    && ';' !in a.localidade && ';' !in a.logradouro && ';' !in a.complemento
    && ';' !in a.bairro && ';' !in a.nomeUnidade
  }

  /** `Deserialize` as a function of its input: split on ';', require seven
      parts, then a UF name or abbreviation in the first and a CEP in the
      last. */
  function Parse(str: ByteString, invalid: set<ByteString>): (r: Result<Fields>)
    ensures r.Err? ==> r.error.ErrInvalidSerializedAddress?
  {
    var parts := Split<Byte>(str, ';');
    if |parts| != 7 then
      Err(ErrInvalidSerializedAddress(InvalidLength(|parts|)))
    else
      var uf := NewUfFromStr(parts[0]);
      if uf.Err? then
        Err(ErrInvalidSerializedAddress(UnknownUF(parts[0])))
      else if !Cep.Valid(Cep.Strip(parts[6]), invalid) then
        Err(ErrInvalidSerializedAddress(InvalidCEPPart(parts[6])))
      else
        Ok(Fields(uf.value, Cep.Strip(parts[6]), parts[1], parts[2], parts[3], parts[4], parts[5]))
  }

  /** `Address`, whose `Deserialize` assigns its fields through the pointer
      receiver. */
  class Address {
    var uf: Code
    var cep: ByteString
    var localidade: ByteString
    var logradouro: ByteString
    var complemento: ByteString
    var bairro: ByteString
    var nomeUnidade: ByteString

    /** The zero `Address`. */
    constructor ()
      ensures Value() == Fields(0, [], [], [], [], [], [])
    {
      uf, cep := 0, [];
      localidade, logradouro, complemento, bairro, nomeUnidade := [], [], [], [], [];
    }

    /** The current fields. */
    function Value(): Fields
      reads this
    {
      Fields(uf, cep, localidade, logradouro, complemento, bairro, nomeUnidade)
    }

    /** `Serialize`: each field written to a buffer, with ';' after all but
        the last. */
    method Serialize() returns (s: ByteString)
      ensures s == Serialization(Value())
      ensures Known(uf) ==> |s| == SerializedSize(Value())
    {
      var buf: ByteString := Abbreviation(uf);
      buf := buf + [';'];
      buf := buf + localidade;
      buf := buf + [';'];
      buf := buf + logradouro;
      buf := buf + [';'];
      buf := buf + complemento;
      buf := buf + [';'];
      buf := buf + bairro;
      buf := buf + [';'];
      buf := buf + nomeUnidade;
      buf := buf + [';'];
      buf := buf + cep;
      s := buf;
      SerializationLayout(Value());
      SerializedLength(Value());
    }

    /** `Deserialize`: on an error nothing is assigned; otherwise the fields
        become what `Parse` returns. */
    method Deserialize(str: ByteString, invalid: set<ByteString>) returns (err: Option<Error>)
      modifies this
      ensures Parse(str, invalid).Err? ==> err == Some(Parse(str, invalid).error) && unchanged(this)
      ensures Parse(str, invalid).Ok? ==> err == None && Value() == Parse(str, invalid).value
    {
      var parts := Split<Byte>(str, ';');
      if |parts| != 7 {
        return Some(ErrInvalidSerializedAddress(InvalidLength(|parts|)));
      }
      var u := NewUfFromStr(parts[0]);
      if u.Err? {
        return Some(ErrInvalidSerializedAddress(UnknownUF(parts[0])));
      }
      var c := Cep.NewCep(parts[6], invalid);
      if c.Err? {
        return Some(ErrInvalidSerializedAddress(InvalidCEPPart(parts[6])));
      }
      uf := u.value;
      localidade := parts[1];
      logradouro := parts[2];
      complemento := parts[3];
      bairro := parts[4];
      nomeUnidade := parts[5];
      cep := c.value;
      return None;
    }
  }

  // ---------------------------------------------------------------------
  // Properties

  /** Seven parts joined, written out as the buffer appends them. */
  lemma JoinSeven<T>(p: seq<seq<T>>, sep: T)
    requires |p| == 7
    ensures Join(p, sep) ==
      p[0] + [sep] + p[1] + [sep] + p[2] + [sep] + p[3] + [sep] + p[4] + [sep] + p[5] + [sep] + p[6]
  {
    assert p[..1] == [p[0]];
    forall k | 1 <= k < 7
      ensures Join(p[..k + 1], sep) == Join(p[..k], sep) + [sep] + p[k]
    {
      assert p[..k + 1] == p[..k] + [p[k]];
      JoinSnoc(p[..k], p[k], sep);
    }
    assert p[..7] == p;
  }

  /** The counts of the five inner pieces add to zero exactly when none of
      them holds the separator. */
  lemma InnerFree<T>(n0: nat, n1: nat, n2: nat, n3: nat, n4: nat, n5: nat, n6: nat,
                     x1: seq<T>, x2: seq<T>, x3: seq<T>, x4: seq<T>, x5: seq<T>, sep: T)
    requires n0 == 0 && n6 == 0
    requires n1 == multiset(x1)[sep] && n2 == multiset(x2)[sep] && n3 == multiset(x3)[sep]
    requires n4 == multiset(x4)[sep] && n5 == multiset(x5)[sep]
    ensures n0 + n1 + n2 + n3 + n4 + n5 + n6 + 6 == 6 <==>
      sep !in x1 && sep !in x2 && sep !in x3 && sep !in x4 && sep !in x5
  {
    Absent(x1, sep);
    Absent(x2, sep);
    Absent(x3, sep);
    Absent(x4, sep);
    Absent(x5, sep);
  }

  /** Seven pieces are six separators. */
  lemma SplitSeven<T>(s: seq<T>, sep: T)
    ensures |Split(s, sep)| == 7 <==> multiset(s)[sep] == 6
  {
    SplitLength(s, sep);
  }

  /** An abbreviation holds no ';'. */
  lemma AbbreviationFree(uf: Code)
    ensures ';' !in Abbreviation(uf)
  {
  }

  /** An element is absent exactly when it is counted zero times. */
  lemma Absent<T>(x: seq<T>, c: T)
    ensures c !in x <==> multiset(x)[c] == 0
  {
  }

  /** The separators of seven pieces joined: six, and those the pieces hold. */
  lemma CountSeven<T>(x0: seq<T>, x1: seq<T>, x2: seq<T>, x3: seq<T>, x4: seq<T>, x5: seq<T>, x6: seq<T>, sep: T)
    ensures multiset(x0 + [sep] + x1 + [sep] + x2 + [sep] + x3 + [sep] + x4 + [sep] + x5 + [sep] + x6)[sep] ==
      multiset(x0)[sep] + multiset(x1)[sep] + multiset(x2)[sep] + multiset(x3)[sep] +
      multiset(x4)[sep] + multiset(x5)[sep] + multiset(x6)[sep] + 6
  {
    var q1 := x0 + [sep] + x1;
    var q2 := q1 + [sep] + x2;
    var q3 := q2 + [sep] + x3;
    var q4 := q3 + [sep] + x4;
    var q5 := q4 + [sep] + x5;
    CountAround(x0, x1, sep);
    CountAround(q1, x2, sep);
    CountAround(q2, x3, sep);
    CountAround(q3, x4, sep);
    CountAround(q4, x5, sep);
    CountAround(q5, x6, sep);
  }

  /** The serialised form is exactly `serializedSize` bytes when the UF is
      one of the 27, and two bytes shorter otherwise (its abbreviation is
      then ""). */
  lemma SerializedLength(a: Fields)
    ensures Known(a.uf) ==> |Serialization(a)| == SerializedSize(a)
    ensures !Known(a.uf) ==> |Serialization(a)| == SerializedSize(a) - 2
  {
    SerializationLayout(a);
    AbbreviationKnown(a.uf);
  }

  /** The serialised form, written out field by field. */
  lemma SerializationLayout(a: Fields)
    ensures Serialization(a) ==
      Abbreviation(a.uf) + [';'] + a.localidade + [';'] + a.logradouro + [';'] + a.complemento + [';'] +
      a.bairro + [';'] + a.nomeUnidade + [';'] + a.cep
  {
    JoinSeven<Byte>(Parts(a), ';');
  }

  /** The separators of the serialised form: the six written between the
      fields and those the fields hold. */
  lemma SerializationSeparators(a: Fields)
    ensures multiset(Serialization(a))[';'] ==
      multiset(Abbreviation(a.uf))[';'] + multiset(a.localidade)[';'] + multiset(a.logradouro)[';'] +
      multiset(a.complemento)[';'] + multiset(a.bairro)[';'] + multiset(a.nomeUnidade)[';'] +
      multiset(a.cep)[';'] + 6
  {
    SerializationLayout(a);
    CountSeven<Byte>(Abbreviation(a.uf), a.localidade, a.logradouro, a.complemento, a.bairro,
      a.nomeUnidade, a.cep, ';');
  }

  /** The serialised form of an address whose CEP holds no ';' splits into
      seven parts exactly when no text field holds ';' either (the
      abbreviation never does), so only then does `Deserialize` get past
      its length check. */
  lemma SerializationParts(a: Fields)
    requires ';' !in a.cep
    ensures |Split<Byte>(Serialization(a), ';')| == 7 <==> TextFree(a)
  {
    SplitSeven<Byte>(Serialization(a), ';');
    SerializationSeparators(a);
    AbbreviationFree(a.uf);
    Absent<Byte>(Abbreviation(a.uf), ';');
    Absent<Byte>(a.cep, ';');
    InnerFree<Byte>(multiset(Abbreviation(a.uf))[';'], multiset(a.localidade)[';'], multiset(a.logradouro)[';'],
      multiset(a.complemento)[';'], multiset(a.bairro)[';'], multiset(a.nomeUnidade)[';'], multiset(a.cep)[';'],
      a.localidade, a.logradouro, a.complemento, a.bairro, a.nomeUnidade, ';');
  }

  /** `Deserialize(Serialize(a))` restores `a` when the UF and the CEP are
      valid and no text field holds ';'. */
  lemma RoundTrip(a: Fields, invalid: set<ByteString>)
    requires Known(a.uf) && Cep.Valid(a.cep, invalid) && TextFree(a)
    ensures Parse(Serialization(a), invalid) == Ok(a)
  {
    var p := Parts(a);
    AbbreviationKnown(a.uf);
    assert ';' !in p[0];
    assert ';' !in a.cep;
    assert forall i :: 0 <= i < 7 ==> ';' !in p[i];
    SplitJoin<Byte>(p, ';');
    UfTable.AbbreviationRoundTrip(a.uf);
    Cep.ValidStripped(a.cep, invalid);
  }

  /** Everything `Deserialize` accepts is a UF of the 27, a valid CEP and
      text fields free of ';', so serialising it and parsing again gives the
      same fields: the parser's output is a fixed point. */
  lemma ParseSerialize(str: ByteString, invalid: set<ByteString>)
    requires Parse(str, invalid).Ok?
    ensures Known(Parse(str, invalid).value.uf)
    ensures Cep.Valid(Parse(str, invalid).value.cep, invalid)
    ensures TextFree(Parse(str, invalid).value)
    ensures Parse(Serialization(Parse(str, invalid).value), invalid) == Parse(str, invalid)
  {
    var parts := Split<Byte>(str, ';');
    SplitPiecesFree<Byte>(str, ';');
    assert ';' !in parts[1] && ';' !in parts[2] && ';' !in parts[3];
    assert ';' !in parts[4] && ';' !in parts[5];
    RoundTrip(Parse(str, invalid).value, invalid);
  }

  /** A part count other than seven is reported with the count, which is one
      more than the number of ';' in the input. */
  lemma ParseLength(str: ByteString, invalid: set<ByteString>)
    ensures multiset(str)[';'] != 6 <==>
      Parse(str, invalid) == Err(ErrInvalidSerializedAddress(InvalidLength(multiset(str)[';'] + 1)))
  {
    SplitLength<Byte>(str, ';');
  }

  /** An address whose UF is not one of the 27 serialises with an empty first
      part, which `Deserialize` refuses: such an address never comes back. */
  lemma UnknownUfNotRestored(a: Fields, invalid: set<ByteString>)
    requires !Known(a.uf) && TextFree(a) && ';' !in a.cep
    ensures Parse(Serialization(a), invalid) == Err(ErrInvalidSerializedAddress(UnknownUF([])))
  {
    var p := Parts(a);
    AbbreviationKnown(a.uf);
    assert forall i :: 0 <= i < 7 ==> ';' !in p[i];
    SplitJoin<Byte>(p, ';');
  }

  /** A CEP that is written formatted, or with dots, still comes back bare:
      `Deserialize` strips the last part as `NewCEP` does. */
  lemma FormattedCepRestored(a: Fields, invalid: set<ByteString>)
    requires Known(a.uf) && Cep.Valid(a.cep, invalid) && TextFree(a)
    ensures Parse(Serialization(a.(cep := Cep.Format(a.cep))), invalid) == Ok(a)
  {
    var b := a.(cep := Cep.Format(a.cep));
    var p := Parts(b);
    AbbreviationKnown(a.uf);
    assert ';' !in p[0];
    assert forall k :: 0 <= k < 9 ==> p[6][k] != ';';
    assert ';' !in p[6];
    assert forall i :: 0 <= i < 7 ==> ';' !in p[i];
    SplitJoin<Byte>(p, ';');
    UfTable.AbbreviationRoundTrip(a.uf);
    Cep.StripFormat(a.cep, invalid);
  }
}
