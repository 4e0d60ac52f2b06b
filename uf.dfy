/** The federative units (UF) of address.go: a `uint8` code, its two-letter
    abbreviation and its full name. Names are UTF-8 byte strings, written
    with one escape per byte. */
module Uf {
  import opened Bytes
  import opened Utils
  import opened Strings
  import opened Errors

  /** `type UF uint8`. */
  type Code = n: int | 0 <= n < 256

  /** The 27 codes of the IBGE table: the reference definition of a UF. */
  predicate Known(uf: int) {
    || 11 <= uf <= 17
    || 21 <= uf <= 29
    || 31 <= uf <= 33 || uf == 35
    || 41 <= uf <= 43
    || 50 <= uf <= 53
  }

  /** `UF.String`: the abbreviation of the code, "" for any other code. */
  function Abbreviation(uf: Code): (r: ByteString)
    ensures r == [] || (|r| == 2 && IsAlphaUpper(r[0]) && IsAlphaUpper(r[1]))
  {
    match uf
    case 11 => "RO"
    case 12 => "AC"
    case 13 => "AM"
    case 14 => "RR"
    case 15 => "PA"
    case 16 => "AP"
    case 17 => "TO"
    case 21 => "MA"
    case 22 => "PI"
    case 23 => "CE"
    case 24 => "RN"
    case 25 => "PB"
    case 26 => "PE"
    case 27 => "AL"
    case 28 => "SE"
    case 29 => "BA"
    case 31 => "MG"
    case 32 => "ES"
    case 33 => "RJ"
    case 35 => "SP"
    case 41 => "PR"
    case 42 => "SC"
    case 43 => "RS"
    case 50 => "MS"
    case 51 => "MT"
    case 52 => "GO"
    case 53 => "DF"
    case _ => ""
  }

  /** `UF.UnidadeFederativa`: the full name of the code, "" for any other
      code. */
  function Name(uf: Code): ByteString {
    match uf
    case 11 => "Rond\U{C3}\U{B4}nia"
    case 12 => "Acre"
    case 13 => "Amazonas"
    case 14 => "Roraima"
    case 15 => "Par\U{C3}\U{A1}"
    case 16 => "Amap\U{C3}\U{A1}"
    case 17 => "Tocantins"
    case 21 => "Maranh\U{C3}\U{A3}o"
    case 22 => "Piau\U{C3}\U{AD}"
    case 23 => "Cear\U{C3}\U{A1}"
    case 24 => "Rio Grande do Norte"
    case 25 => "Para\U{C3}\U{AD}ba"
    case 26 => "Pernambuco"
    case 27 => "Alagoas"
    case 28 => "Sergipe"
    case 29 => "Bahia"
    case 31 => "Minas Gerais"
    case 32 => "Esp\U{C3}\U{AD}rito Santo"
    case 33 => "Rio de Janeiro"
    case 35 => "S\U{C3}\U{A3}o Paulo"
    case 41 => "Paran\U{C3}\U{A1}"
    case 42 => "Santa Catarina"
    case 43 => "Rio Grande do Sul"
    case 50 => "Mato Grosso do Sul"
    case 51 => "Mato Grosso"
    case 52 => "Goi\U{C3}\U{A1}s"
    case 53 => "Distrito Federal"
    case _ => ""
  }

  /** `UF.Codigo`: the numeric code. */
  function Codigo(uf: Code): (r: int)
    ensures 0 <= r < 256
  {
    uf as int
  }

  /** `NewUF`: codes outside 11..53 are refused before the conversion to
      `uint8`, so it never wraps; inside, a code needs an abbreviation. */
  function NewUf(codigo: int): (r: Result<Code>)
    ensures r.Err? ==> r.error == ErrInvalidUF
  {
    if codigo < 11 || codigo > 53 then Err(ErrInvalidUF)
    else
      var uf := codigo as Code;
      if Abbreviation(uf) == [] then Err(ErrInvalidUF) else Ok(uf)
  }

  /** The switch of `NewUFFromStr` on the lower-cased input. Every
      abbreviation label has two bytes and every name label more, so the
      two-byte labels are looked up apart from the others. */
  function Lookup(t: ByteString): (r: Result<Code>)
    ensures r.Err? ==> r.error == ErrInvalidUF
    ensures r.Ok? ==> Known(r.value)
  {
    if |t| == 2 then LookupAbbreviation(t) else LookupName(t)
  }

  /** The two-byte labels of the switch. */
  function LookupAbbreviation(t: ByteString): (r: Result<Code>)
    ensures r.Err? ==> r.error == ErrInvalidUF
    ensures r.Ok? ==> Known(r.value)
  {
    if t == "ro" then Ok(11)
    else if t == "ac" then Ok(12)
    else if t == "am" then Ok(13)
    else if t == "rr" then Ok(14)
    else if t == "pa" then Ok(15)
    else if t == "ap" then Ok(16)
    else if t == "to" then Ok(17)
    else if t == "ma" then Ok(21)
    else if t == "pi" then Ok(22)
    else if t == "ce" then Ok(23)
    else if t == "rn" then Ok(24)
    else if t == "pb" then Ok(25)
    else if t == "pe" then Ok(26)
    else if t == "al" then Ok(27)
    else if t == "se" then Ok(28)
    else if t == "ba" then Ok(29)
    else if t == "mg" then Ok(31)
    else if t == "es" then Ok(32)
    else if t == "rj" then Ok(33)
    else if t == "sp" then Ok(35)
    else if t == "pr" then Ok(41)
    else if t == "sc" then Ok(42)
    else if t == "rs" then Ok(43)
    else if t == "ms" then Ok(50)
    else if t == "mt" then Ok(51)
    else if t == "go" then Ok(52)
    else if t == "df" then Ok(53)
    else Err(ErrInvalidUF)
  }

  /** The name labels of the switch, with and without accents and spaces,
      in the order of the switch: the northern and north-eastern units
      first. */
  function LookupName(t: ByteString): (r: Result<Code>)
    ensures r.Err? ==> r.error == ErrInvalidUF
    ensures r.Ok? ==> Known(r.value)
  {
    var north := LookupNameNorth(t);
    if north.Ok? then north else LookupNameSouth(t)
  }

  /** The names of the units with codes 11 to 29. */
  function LookupNameNorth(t: ByteString): (r: Result<Code>)
    ensures r.Err? ==> r.error == ErrInvalidUF
    ensures r.Ok? ==> Known(r.value)
  {
    if t == "rond\U{C3}\U{B4}nia" || t == "rondonia" then Ok(11)
    else if t == "acre" then Ok(12)
    else if t == "amazonas" then Ok(13)
    else if t == "roraima" then Ok(14)
    else if t == "par\U{C3}\U{A1}" || t == "para" then Ok(15)
    else if t == "amap\U{C3}\U{A1}" || t == "amapa" then Ok(16)
    else if t == "tocantins" then Ok(17)
    else if t == "maranh\U{C3}\U{A3}o" || t == "maranhao" then Ok(21)
    else if t == "piau\U{C3}\U{AD}" || t == "piaui" then Ok(22)
    else if t == "cear\U{C3}\U{A1}" || t == "ceara" then Ok(23)
    else if t == "rio grande do norte" || t == "riograndedonorte" then Ok(24)
    else if t == "para\U{C3}\U{AD}ba" || t == "paraiba" then Ok(25)
    else if t == "pernambuco" then Ok(26)
    else if t == "alagoas" then Ok(27)
    else if t == "sergipe" then Ok(28)
    else if t == "bahia" then Ok(29)
    else Err(ErrInvalidUF)
  }

  /** The names of the units with codes 31 to 53. */
  function LookupNameSouth(t: ByteString): (r: Result<Code>)
    ensures r.Err? ==> r.error == ErrInvalidUF
    ensures r.Ok? ==> Known(r.value)
  {
    if t == "minas gerais" || t == "minasgerais" then Ok(31)
    else if t == "esp\U{C3}\U{AD}rito santo" || t == "espiritosanto" then Ok(32)
    else if t == "rio de janeiro" || t == "riodejaneiro" then Ok(33)
    else if t == "s\U{C3}\U{A3}o paulo" || t == "sao paulo" || t == "s\U{C3}\U{A3}opaulo" || t == "saopaulo" then Ok(35)
    else if t == "paran\U{C3}\U{A1}" || t == "parana" then Ok(41)
    else if t == "santa catarina" || t == "santacatarina" then Ok(42)
    else if t == "rio grande do sul" || t == "riograndedosul" then Ok(43)
    else if t == "mato grosso do sul" || t == "matogrossodosul" then Ok(50)
    else if t == "mato grosso" || t == "matogrosso" then Ok(51)
    else if t == "goi\U{C3}\U{A1}s" || t == "goias" then Ok(52)
    else if t == "distrito federal" || t == "distritofederal" then Ok(53)
    else Err(ErrInvalidUF)
  }

  /** `NewUFFromStr`: 2 to 19 bytes, lower-cased, then looked up. */
  function NewUfFromStr(s: ByteString): (r: Result<Code>)
    ensures r.Err? ==> r.error == ErrInvalidUF
    ensures (|s| < 2 || |s| > 19) ==> r.Err?
    ensures r.Ok? ==> Known(r.value)
  {
    if |s| < 2 || |s| > 19 then Err(ErrInvalidUF) else Lookup(AsciiToLower(s))
  }

  // ---------------------------------------------------------------------
  // Properties

  /** `String` is non-empty exactly for the 27 codes. */
  lemma AbbreviationKnown(uf: Code)
    ensures Abbreviation(uf) != [] <==> Known(uf)
  {
  }

  /** `UnidadeFederativa` is non-empty for the same 27 codes. */
  lemma NameKnown(uf: Code)
    ensures Name(uf) != [] <==> Known(uf)
  {
  }

  /** `NewUF` accepts exactly the 27 codes, and `Codigo` gives back the code
      that was passed. */
  lemma NewUfKnown(codigo: int)
    ensures NewUf(codigo).Ok? <==> Known(codigo)
    ensures NewUf(codigo).Ok? ==> Codigo(NewUf(codigo).value) == codigo
  {
  }
}

/** `NewUFFromStr(uf.String()) == uf`, one code at a time: each lemma
    evaluates the switch of `NewUFFromStr` on one literal. */
module UfTable {
  import opened Bytes
  import opened Strings
  import opened Errors
  import opened Uf

  /** The round trip for each of the 27 codes. */
  lemma AbbreviationRoundTrip(uf: Code)
    requires Known(uf)
    ensures NewUfFromStr(Abbreviation(uf)) == Ok(uf)
  {
    match uf
    case 11 => FromStrRO();
    case 12 => FromStrAC();
    case 13 => FromStrAM();
    case 14 => FromStrRR();
    case 15 => FromStrPA();
    case 16 => FromStrAP();
    case 17 => FromStrTO();
    case 21 => FromStrMA();
    case 22 => FromStrPI();
    case 23 => FromStrCE();
    case 24 => FromStrRN();
    case 25 => FromStrPB();
    case 26 => FromStrPE();
    case 27 => FromStrAL();
    case 28 => FromStrSE();
    case 29 => FromStrBA();
    case 31 => FromStrMG();
    case 32 => FromStrES();
    case 33 => FromStrRJ();
    case 35 => FromStrSP();
    case 41 => FromStrPR();
    case 42 => FromStrSC();
    case 43 => FromStrRS();
    case 50 => FromStrMS();
    case 51 => FromStrMT();
    case 52 => FromStrGO();
    case 53 => FromStrDF();
  }

  lemma FromStrRO()
    ensures NewUfFromStr("RO") == Ok(11)
  {
    assert AsciiToLower("RO") == "ro";
    LookupRO();
  }

  lemma LookupRO()
    ensures Lookup("ro") == Ok(11)
  {
  }

  lemma FromStrAC()
    ensures NewUfFromStr("AC") == Ok(12)
  {
    assert AsciiToLower("AC") == "ac";
    LookupAC();
  }

  lemma LookupAC()
    ensures Lookup("ac") == Ok(12)
  {
  }

  lemma FromStrAM()
    ensures NewUfFromStr("AM") == Ok(13)
  {
    assert AsciiToLower("AM") == "am";
    LookupAM();
  }

  lemma LookupAM()
    ensures Lookup("am") == Ok(13)
  {
  }

  lemma FromStrRR()
    ensures NewUfFromStr("RR") == Ok(14)
  {
    assert AsciiToLower("RR") == "rr";
    LookupRR();
  }

  lemma LookupRR()
    ensures Lookup("rr") == Ok(14)
  {
  }

  lemma FromStrPA()
    ensures NewUfFromStr("PA") == Ok(15)
  {
    assert AsciiToLower("PA") == "pa";
    LookupPA();
  }

  lemma LookupPA()
    ensures Lookup("pa") == Ok(15)
  {
  }

  lemma FromStrAP()
    ensures NewUfFromStr("AP") == Ok(16)
  {
    assert AsciiToLower("AP") == "ap";
    LookupAP();
  }

  lemma LookupAP()
    ensures Lookup("ap") == Ok(16)
  {
  }

  lemma FromStrTO()
    ensures NewUfFromStr("TO") == Ok(17)
  {
    assert AsciiToLower("TO") == "to";
    LookupTO();
  }

  lemma LookupTO()
    ensures Lookup("to") == Ok(17)
  {
  }

  lemma FromStrMA()
    ensures NewUfFromStr("MA") == Ok(21)
  {
    assert AsciiToLower("MA") == "ma";
    LookupMA();
  }

  lemma LookupMA()
    ensures Lookup("ma") == Ok(21)
  {
  }

  lemma FromStrPI()
    ensures NewUfFromStr("PI") == Ok(22)
  {
    assert AsciiToLower("PI") == "pi";
    LookupPI();
  }

  lemma LookupPI()
    ensures Lookup("pi") == Ok(22)
  {
  }

  lemma FromStrCE()
    ensures NewUfFromStr("CE") == Ok(23)
  {
    assert AsciiToLower("CE") == "ce";
    LookupCE();
  }

  lemma LookupCE()
    ensures Lookup("ce") == Ok(23)
  {
  }

  lemma FromStrRN()
    ensures NewUfFromStr("RN") == Ok(24)
  {
    assert AsciiToLower("RN") == "rn";
    LookupRN();
  }

  lemma LookupRN()
    ensures Lookup("rn") == Ok(24)
  {
  }

  lemma FromStrPB()
    ensures NewUfFromStr("PB") == Ok(25)
  {
    assert AsciiToLower("PB") == "pb";
    LookupPB();
  }

  lemma LookupPB()
    ensures Lookup("pb") == Ok(25)
  {
  }

  lemma FromStrPE()
    ensures NewUfFromStr("PE") == Ok(26)
  {
    assert AsciiToLower("PE") == "pe";
    LookupPE();
  }

  lemma LookupPE()
    ensures Lookup("pe") == Ok(26)
  {
  }

  lemma FromStrAL()
    ensures NewUfFromStr("AL") == Ok(27)
  {
    assert AsciiToLower("AL") == "al";
    LookupAL();
  }

  lemma LookupAL()
    ensures Lookup("al") == Ok(27)
  {
  }

  lemma FromStrSE()
    ensures NewUfFromStr("SE") == Ok(28)
  {
    assert AsciiToLower("SE") == "se";
    LookupSE();
  }

  lemma LookupSE()
    ensures Lookup("se") == Ok(28)
  {
  }

  lemma FromStrBA()
    ensures NewUfFromStr("BA") == Ok(29)
  {
    assert AsciiToLower("BA") == "ba";
    LookupBA();
  }

  lemma LookupBA()
    ensures Lookup("ba") == Ok(29)
  {
  }

  lemma FromStrMG()
    ensures NewUfFromStr("MG") == Ok(31)
  {
    assert AsciiToLower("MG") == "mg";
    LookupMG();
  }

  lemma LookupMG()
    ensures Lookup("mg") == Ok(31)
  {
  }

  lemma FromStrES()
    ensures NewUfFromStr("ES") == Ok(32)
  {
    assert AsciiToLower("ES") == "es";
    LookupES();
  }

  lemma LookupES()
    ensures Lookup("es") == Ok(32)
  {
  }

  lemma FromStrRJ()
    ensures NewUfFromStr("RJ") == Ok(33)
  {
    assert AsciiToLower("RJ") == "rj";
    LookupRJ();
  }

  lemma LookupRJ()
    ensures Lookup("rj") == Ok(33)
  {
  }

  lemma FromStrSP()
    ensures NewUfFromStr("SP") == Ok(35)
  {
    assert AsciiToLower("SP") == "sp";
    LookupSP();
  }

  lemma LookupSP()
    ensures Lookup("sp") == Ok(35)
  {
  }

  lemma FromStrPR()
    ensures NewUfFromStr("PR") == Ok(41)
  {
    assert AsciiToLower("PR") == "pr";
    LookupPR();
  }

  lemma LookupPR()
    ensures Lookup("pr") == Ok(41)
  {
  }

  lemma FromStrSC()
    ensures NewUfFromStr("SC") == Ok(42)
  {
    assert AsciiToLower("SC") == "sc";
    LookupSC();
  }

  lemma LookupSC()
    ensures Lookup("sc") == Ok(42)
  {
  }

  lemma FromStrRS()
    ensures NewUfFromStr("RS") == Ok(43)
  {
    assert AsciiToLower("RS") == "rs";
    LookupRS();
  }

  lemma LookupRS()
    ensures Lookup("rs") == Ok(43)
  {
  }

  lemma FromStrMS()
    ensures NewUfFromStr("MS") == Ok(50)
  {
    assert AsciiToLower("MS") == "ms";
    LookupMS();
  }

  lemma LookupMS()
    ensures Lookup("ms") == Ok(50)
  {
  }

  lemma FromStrMT()
    ensures NewUfFromStr("MT") == Ok(51)
  {
    assert AsciiToLower("MT") == "mt";
    LookupMT();
  }

  lemma LookupMT()
    ensures Lookup("mt") == Ok(51)
  {
  }

  lemma FromStrGO()
    ensures NewUfFromStr("GO") == Ok(52)
  {
    assert AsciiToLower("GO") == "go";
    LookupGO();
  }

  lemma LookupGO()
    ensures Lookup("go") == Ok(52)
  {
  }

  lemma FromStrDF()
    ensures NewUfFromStr("DF") == Ok(53)
  {
    assert AsciiToLower("DF") == "df";
    LookupDF();
  }

  lemma LookupDF()
    ensures Lookup("df") == Ok(53)
  {
  }

  /** The full names map back as well: `NewUFFromStr(uf.UnidadeFederativa())`
      gives `uf` for each of the 27 codes, because lower-casing touches only
      the ASCII capitals of a name and leaves its accented bytes alone. */
  lemma NameRoundTrip(uf: Code)
    requires Known(uf)
    ensures NewUfFromStr(Name(uf)) == Ok(uf)
  {
    match uf
    case 11 => FromNameRO();
    case 12 => FromNameAC();
    case 13 => FromNameAM();
    case 14 => FromNameRR();
    case 15 => FromNamePA();
    case 16 => FromNameAP();
    case 17 => FromNameTO();
    case 21 => FromNameMA();
    case 22 => FromNamePI();
    case 23 => FromNameCE();
    case 24 => FromNameRN();
    case 25 => FromNamePB();
    case 26 => FromNamePE();
    case 27 => FromNameAL();
    case 28 => FromNameSE();
    case 29 => FromNameBA();
    case 31 => FromNameMG();
    case 32 => FromNameES();
    case 33 => FromNameRJ();
    case 35 => FromNameSP();
    case 41 => FromNamePR();
    case 42 => FromNameSC();
    case 43 => FromNameRS();
    case 50 => FromNameMS();
    case 51 => FromNameMT();
    case 52 => FromNameGO();
    case 53 => FromNameDF();
  }

  lemma FromNameRO()
    ensures NewUfFromStr(Name(11)) == Ok(11)
  {
    LowerNameRO();
    NameLabelRO();
  }

  lemma LowerNameRO()
    ensures AsciiToLower(Name(11)) == "rond\U{C3}\U{B4}nia"
  {
  }

  lemma NameLabelRO()
    ensures Lookup("rond\U{C3}\U{B4}nia") == Ok(11)
  {
  }

  lemma FromNameAC()
    ensures NewUfFromStr(Name(12)) == Ok(12)
  {
    LowerNameAC();
    NameLabelAC();
  }

  lemma LowerNameAC()
    ensures AsciiToLower(Name(12)) == "acre"
  {
  }

  lemma NameLabelAC()
    ensures Lookup("acre") == Ok(12)
  {
  }

  lemma FromNameAM()
    ensures NewUfFromStr(Name(13)) == Ok(13)
  {
    LowerNameAM();
    NameLabelAM();
  }

  lemma LowerNameAM()
    ensures AsciiToLower(Name(13)) == "amazonas"
  {
  }

  lemma NameLabelAM()
    ensures Lookup("amazonas") == Ok(13)
  {
  }

  lemma FromNameRR()
    ensures NewUfFromStr(Name(14)) == Ok(14)
  {
    LowerNameRR();
    NameLabelRR();
  }

  lemma LowerNameRR()
    ensures AsciiToLower(Name(14)) == "roraima"
  {
  }

  lemma NameLabelRR()
    ensures Lookup("roraima") == Ok(14)
  {
  }

  lemma FromNamePA()
    ensures NewUfFromStr(Name(15)) == Ok(15)
  {
    LowerNamePA();
    NameLabelPA();
  }

  lemma LowerNamePA()
    ensures AsciiToLower(Name(15)) == "par\U{C3}\U{A1}"
  {
  }

  lemma NameLabelPA()
    ensures Lookup("par\U{C3}\U{A1}") == Ok(15)
  {
  }

  lemma FromNameAP()
    ensures NewUfFromStr(Name(16)) == Ok(16)
  {
    LowerNameAP();
    NameLabelAP();
  }

  lemma LowerNameAP()
    ensures AsciiToLower(Name(16)) == "amap\U{C3}\U{A1}"
  {
  }

  lemma NameLabelAP()
    ensures Lookup("amap\U{C3}\U{A1}") == Ok(16)
  {
  }

  lemma FromNameTO()
    ensures NewUfFromStr(Name(17)) == Ok(17)
  {
    LowerNameTO();
    NameLabelTO();
  }

  lemma LowerNameTO()
    ensures AsciiToLower(Name(17)) == "tocantins"
  {
  }

  lemma NameLabelTO()
    ensures Lookup("tocantins") == Ok(17)
  {
  }

  lemma FromNameMA()
    ensures NewUfFromStr(Name(21)) == Ok(21)
  {
    LowerNameMA();
    NameLabelMA();
  }

  lemma LowerNameMA()
    ensures AsciiToLower(Name(21)) == "maranh\U{C3}\U{A3}o"
  {
  }

  lemma NameLabelMA()
    ensures Lookup("maranh\U{C3}\U{A3}o") == Ok(21)
  {
  }

  lemma FromNamePI()
    ensures NewUfFromStr(Name(22)) == Ok(22)
  {
    LowerNamePI();
    NameLabelPI();
  }

  lemma LowerNamePI()
    ensures AsciiToLower(Name(22)) == "piau\U{C3}\U{AD}"
  {
  }

  lemma NameLabelPI()
    ensures Lookup("piau\U{C3}\U{AD}") == Ok(22)
  {
  }

  lemma FromNameCE()
    ensures NewUfFromStr(Name(23)) == Ok(23)
  {
    LowerNameCE();
    NameLabelCE();
  }

  lemma LowerNameCE()
    ensures AsciiToLower(Name(23)) == "cear\U{C3}\U{A1}"
  {
  }

  lemma NameLabelCE()
    ensures Lookup("cear\U{C3}\U{A1}") == Ok(23)
  {
  }

  lemma FromNameRN()
    ensures NewUfFromStr(Name(24)) == Ok(24)
  {
    LowerNameRN();
    NameLabelRN();
  }

  lemma LowerNameRN()
    ensures AsciiToLower(Name(24)) == "rio grande do norte"
  {
  }

  lemma NameLabelRN()
    ensures Lookup("rio grande do norte") == Ok(24)
  {
  }

  lemma FromNamePB()
    ensures NewUfFromStr(Name(25)) == Ok(25)
  {
    LowerNamePB();
    NameLabelPB();
  }

  lemma LowerNamePB()
    ensures AsciiToLower(Name(25)) == "para\U{C3}\U{AD}ba"
  {
  }

  lemma NameLabelPB()
    ensures Lookup("para\U{C3}\U{AD}ba") == Ok(25)
  {
  }

  lemma FromNamePE()
    ensures NewUfFromStr(Name(26)) == Ok(26)
  {
    LowerNamePE();
    NameLabelPE();
  }

  lemma LowerNamePE()
    ensures AsciiToLower(Name(26)) == "pernambuco"
  {
  }

  lemma NameLabelPE()
    ensures Lookup("pernambuco") == Ok(26)
  {
  }

  lemma FromNameAL()
    ensures NewUfFromStr(Name(27)) == Ok(27)
  {
    LowerNameAL();
    NameLabelAL();
  }

  lemma LowerNameAL()
    ensures AsciiToLower(Name(27)) == "alagoas"
  {
  }

  lemma NameLabelAL()
    ensures Lookup("alagoas") == Ok(27)
  {
  }

  lemma FromNameSE()
    ensures NewUfFromStr(Name(28)) == Ok(28)
  {
    LowerNameSE();
    NameLabelSE();
  }

  lemma LowerNameSE()
    ensures AsciiToLower(Name(28)) == "sergipe"
  {
  }

  lemma NameLabelSE()
    ensures Lookup("sergipe") == Ok(28)
  {
  }

  lemma FromNameBA()
    ensures NewUfFromStr(Name(29)) == Ok(29)
  {
    LowerNameBA();
    NameLabelBA();
  }

  lemma LowerNameBA()
    ensures AsciiToLower(Name(29)) == "bahia"
  {
  }

  lemma NameLabelBA()
    ensures Lookup("bahia") == Ok(29)
  {
  }

  lemma FromNameMG()
    ensures NewUfFromStr(Name(31)) == Ok(31)
  {
    LowerNameMG();
    NameLabelMG();
  }

  lemma LowerNameMG()
    ensures AsciiToLower(Name(31)) == "minas gerais"
  {
  }

  lemma NameLabelMG()
    ensures Lookup("minas gerais") == Ok(31)
  {
  }

  lemma FromNameES()
    ensures NewUfFromStr(Name(32)) == Ok(32)
  {
    LowerNameES();
    NameLabelES();
  }

  lemma LowerNameES()
    ensures AsciiToLower(Name(32)) == "esp\U{C3}\U{AD}rito santo"
  {
  }

  lemma NameLabelES()
    ensures Lookup("esp\U{C3}\U{AD}rito santo") == Ok(32)
  {
  }

  lemma FromNameRJ()
    ensures NewUfFromStr(Name(33)) == Ok(33)
  {
    LowerNameRJ();
    NameLabelRJ();
  }

  lemma LowerNameRJ()
    ensures AsciiToLower(Name(33)) == "rio de janeiro"
  {
  }

  lemma NameLabelRJ()
    ensures Lookup("rio de janeiro") == Ok(33)
  {
  }

  lemma FromNameSP()
    ensures NewUfFromStr(Name(35)) == Ok(35)
  {
    LowerNameSP();
    NameLabelSP();
  }

  lemma LowerNameSP()
    ensures AsciiToLower(Name(35)) == "s\U{C3}\U{A3}o paulo"
  {
  }

  lemma NameLabelSP()
    ensures Lookup("s\U{C3}\U{A3}o paulo") == Ok(35)
  {
  }

  lemma FromNamePR()
    ensures NewUfFromStr(Name(41)) == Ok(41)
  {
    LowerNamePR();
    NameLabelPR();
  }

  lemma LowerNamePR()
    ensures AsciiToLower(Name(41)) == "paran\U{C3}\U{A1}"
  {
  }

  lemma NameLabelPR()
    ensures Lookup("paran\U{C3}\U{A1}") == Ok(41)
  {
  }

  lemma FromNameSC()
    ensures NewUfFromStr(Name(42)) == Ok(42)
  {
    LowerNameSC();
    NameLabelSC();
  }

  lemma LowerNameSC()
    ensures AsciiToLower(Name(42)) == "santa catarina"
  {
  }

  lemma NameLabelSC()
    ensures Lookup("santa catarina") == Ok(42)
  {
  }

  lemma FromNameRS()
    ensures NewUfFromStr(Name(43)) == Ok(43)
  {
    LowerNameRS();
    NameLabelRS();
  }

  lemma LowerNameRS()
    ensures AsciiToLower(Name(43)) == "rio grande do sul"
  {
  }

  lemma NameLabelRS()
    ensures Lookup("rio grande do sul") == Ok(43)
  {
  }

  lemma FromNameMS()
    ensures NewUfFromStr(Name(50)) == Ok(50)
  {
    LowerNameMS();
    NameLabelMS();
  }

  lemma LowerNameMS()
    ensures AsciiToLower(Name(50)) == "mato grosso do sul"
  {
  }

  lemma NameLabelMS()
    ensures Lookup("mato grosso do sul") == Ok(50)
  {
  }

  lemma FromNameMT()
    ensures NewUfFromStr(Name(51)) == Ok(51)
  {
    LowerNameMT();
    NameLabelMT();
  }

  lemma LowerNameMT()
    ensures AsciiToLower(Name(51)) == "mato grosso"
  {
  }

  lemma NameLabelMT()
    ensures Lookup("mato grosso") == Ok(51)
  {
  }

  lemma FromNameGO()
    ensures NewUfFromStr(Name(52)) == Ok(52)
  {
    LowerNameGO();
    NameLabelGO();
  }

  lemma LowerNameGO()
    ensures AsciiToLower(Name(52)) == "goi\U{C3}\U{A1}s"
  {
  }

  lemma NameLabelGO()
    ensures Lookup("goi\U{C3}\U{A1}s") == Ok(52)
  {
  }

  lemma FromNameDF()
    ensures NewUfFromStr(Name(53)) == Ok(53)
  {
    LowerNameDF();
    NameLabelDF();
  }

  lemma LowerNameDF()
    ensures AsciiToLower(Name(53)) == "distrito federal"
  {
  }

  lemma NameLabelDF()
    ensures Lookup("distrito federal") == Ok(53)
  {
  }

  /** Codes inside 11..53 without a UF, and the bounds. */
  lemma KnownGaps()
    ensures NewUf(18).Err? && NewUf(30).Err? && NewUf(44).Err?
    ensures NewUf(10).Err? && NewUf(54).Err? && NewUf(-1).Err? && NewUf(267).Err?
    ensures NewUf(11) == Ok(11) && NewUf(53) == Ok(53)
  {
  }

  /** The bounds on the length of the string. */
  lemma KnownLengths()
    ensures NewUfFromStr("r").Err? && NewUfFromStr("rio grande do nortee").Err?
  {
  }
}
