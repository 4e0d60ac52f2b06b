# Brazilian document validators, in Dafny

This project models the core of the Go package `br`. The package validates
and formats Brazilian identifiers:

- CPF, the individual taxpayer number (11 digits, two mod-11 check digits);
- CNPJ, the company taxpayer number (14 digits, two check digits, optional
  `XX.XXX.XXX/XXXX-XX` punctuation);
- CNH, the driver's licence number (11 digits, two check digits);
- CNS, the national health card number (15 digits whose weighted sum is a
  multiple of 11, raw or in groups separated by whitespace);
- vehicle licence plates (old Brazilian and Mercosul layouts);
- the address part: the 27 federative units (UF), the postal code (CEP) and
  the `Address` record with its `;`-separated serialisation.

Go strings are byte strings, so every input is a `seq` of bytes
(`Bytes.ByteString`). Names with accents are written as their UTF-8 bytes.
Go's `uint8` subtraction `b - '0'` wraps, and is modelled by `Bytes.WrapSub`.

Every validator has three parts:

- a *reference definition*: a predicate saying which inputs are valid;
- the operation as the source writes it: a method with the same loops and
  buffers, proved equal to the reference;
- lemmas about the reference: uniqueness of the check bytes, round trips
  through the formatter, idempotence, and the test vectors of the source's
  test files.

Two validators, CNS and plates, can panic with an index out of range in Go.
For these the model has a three-valued `Outcome` (`Accept`, `Reject`,
`Panic`). It characterises exactly which inputs panic. The methods require
an input that does not panic.

The CEP validator also consults a process-wide cache of CEPs known to be
invalid. Here that cache is a parameter, `invalid: set<ByteString>`.

Modules and files:

- `bytes.dfy`: `Bytes` (byte strings, wrap-around subtraction) and `Errors`
  (the package's error values, `Result`, `Option`).
- `utils.dfy`: `Utils`, the byte classes of utils.go.
- `strings.dfy`: `Strings`, the parts of Go's `strings` package the core
  calls: `ReplaceAll` with an empty replacement, `Split`, ASCII
  `ToLower`/`ToUpper`, and `Join`, which specifies `Serialize`.
- `checksum.dfy`: `Checksum`, the weighted-sum block that cpf.go, cnpj.go
  and cnh.go each repeat twice.
- `cpf.dfy`, `cnpj.dfy`, `cnh.dfy`: `Cpf`, `Cnpj`, `Cnh`.
- `cns.dfy`: `Cns`, and `CnsCases` with the test vectors.
- `plate.dfy`: `Plate` and `PlateCases`.
- `uf.dfy`: `Uf`, and `UfTable` with the per-unit round trips.
- `cep.dfy`: `Cep`.
- `address.dfy`: `Address`, with the `Address` class.

## Model

| member | source | states |
|---|---|---|
| Utils.IsDigit | utils.go:3-5 | the ASCII digits '0'..'9'; `Utils.DigitIffWrappedValueBelowTen` ties it to the validators' wrapped test and `Utils.DigitsAndLettersDisjoint` separates it from the letters |
| Utils.IsAlphaUpper | utils.go:7-9 | the ASCII capitals 'A'..'Z', never a digit (`Utils.DigitsAndLettersDisjoint`) |
| Utils.IsAlphaNumericalUpper | utils.go:11-13 | a digit or a capital; `Utils.AlphaNumericalUpperIsUnion` shows it holds no lower-case letter |
| Utils.AsciiLowerToUpper | utils.go:15-20 | the result is never a lower-case letter, and a lower-case letter becomes an upper-case one |
| Utils.AsciiLowerToUpperMapping | utils.go:15-20 | a lower-case letter moves down by 32; every other byte is unchanged; the result is upper-case exactly when the input was a letter of either case |
| Utils.AsciiLowerToUpperIdempotent | utils.go:15-20 | applying the conversion twice is the same as applying it once |
| Utils.DigitIffWrappedValueBelowTen | cpf.go:52-55 | the validators' test `c := int(buf[i] - '0'); c <= 9` on the wrapped uint8 value holds exactly for the ASCII digits, and then `c` is the digit's value |
| Utils.DigitsAndLettersDisjoint | utils.go:3-9 | no byte is both a digit and an upper-case letter |
| Utils.AlphaNumericalUpperIsUnion | utils.go:11-13 | the class is exactly 0-9 together with A-Z, and holds no lower-case letter |
| Strings.RemoveAllMembers | cpf.go:24-25 | deleting every `c` keeps exactly the other bytes and never lengthens the string |
| Strings.RemoveAllAppend | cnpj.go:43-45 | deletion distributes over concatenation |
| Strings.RemoveAllShrinks | cnpj.go:43-45 | deletion shortens a string that holds `c` and leaves any other string unchanged |
| Strings.Split | address.go:580 | the result has at least one part, and a string without the separator is its own single part |
| Strings.SplitLength | address.go:580-581 | splitting gives one more part than the number of separators |
| Strings.SplitPiecesFree | address.go:580 | no part holds the separator |
| Strings.SplitJoin | address.go:559-576 | splitting a join of separator-free parts gives back those parts |
| Strings.JoinSplit | address.go:580 | joining the parts of a split gives back the string |
| Strings.AsciiToLower | address.go:58 | same length; no upper-case letter remains; every other byte is kept; upper-case letters move up by 32 |
| Strings.AsciiToUpper | plate.go:84 | same length; no lower-case letter remains; every other byte is kept; a string without lower-case letters is returned unchanged |
| Checksum.CheckDigit | cpf.go:58-63 | the digit is 0..9 and either completes the sum to a multiple of 11 or is 0 when the remainder is 1 |
| Checksum.CheckDigitUnique | cpf.go:58-63 | a digit 0..9 that completes the sum to a multiple of 11 is the check digit |
| Checksum.DigitByte | cpf.go:65-69 | the stored byte is an ASCII digit whose value is the check digit |
| Checksum.WeightedSumNonNegative | cpf.go:50-57 | the sum of nonnegative weights over digits is nonnegative |
| Checksum.WeightedSumAppend | cpf.go:51-57 | one more loop step adds the weight times the byte's value |
| Checksum.WeightedSumPrefix | cpf.go:51-57 | the sum reads only the first `n` bytes |
| Checksum.FillCheckDigit | cpf.go:50-69 | succeeds iff the bytes under the table are digits; then only the byte after them changes, to the check digit of their weighted sum; on failure the buffer is unchanged |
| Checksum.CheckBuffer | cpf.go:45-92 | copying the input into a buffer, filling both check digits and comparing gives true exactly when the input is checksum-valid |
| Checksum.SecondSumOfBuffer | cpf.go:71-78 | after the first digit is stored, the second sum is the payload sum plus the stored digit's weighted value |
| Checksum.BufferComparison | cpf.go:92 | the final comparison succeeds exactly for checksum-valid inputs |
| Checksum.PayloadOnly | cpf.go:50-90 | both check digits depend on the payload bytes only |
| Checksum.CheckBytesUnique | cpf.go:40-93 | a digit payload followed by two bytes is valid iff the two bytes are the computed check digits |
| Checksum.ValidAllDigits | cpf.go:50-92 | every byte of a valid input is an ASCII digit |
| Checksum.ValidSplit | cpf.go:50-92 | a valid input is its payload followed by its two computed check digits |
| Checksum.FirstCheck | cpf.go:50-63 | the first check digit is 0..9 |
| Checksum.SecondCheck | cpf.go:71-84 | the second check digit is 0..9 |
| Cpf.TablesHold | cpf.go:15-16 | the second CPF table has one weight more than the first, and no weight is negative |
| Cpf.Valid | cpf.go:40-93 | the reference: 11 bytes, all digits, the last two the check digits of the first nine; `Cpf.IsValid` answers it and `Cpf.CheckBytes` and `Cpf.ValidIsElevenDigits` characterise it |
| Cpf.FirstDigit | cpf.go:50-63 | the first CPF check digit is 0..9 |
| Cpf.SecondDigit | cpf.go:71-84 | the second CPF check digit is 0..9 |
| Cpf.IsValid | cpf.go:40-93 | answers exactly the reference: 11 bytes, all digits, the last two the check digits of the first nine |
| Cpf.ValidIsElevenDigits | cpf.go:40-93 | a valid CPF is 11 ASCII digits, and no 14-byte string is valid |
| Cpf.CheckBytes | cpf.go:40-93 | nine digits followed by two bytes form a valid CPF iff those bytes are the computed check digits |
| Cpf.Format | cpf.go:101-122 | 14 bytes, '.' at 3 and 7, '-' at 11, and each digit at its slot |
| Cpf.FormatElements | cpf.go:101-122 | the formatted form byte by byte |
| Cpf.FormatLayout | cpf.go:101-122 | any 14 bytes with that layout are the formatted form |
| Cpf.String | cpf.go:96-125 | an invalid CPF is returned as it is; a valid one as XXX.XXX.XXX-XX with its own digits |
| Cpf.Canonical | cpf.go:96-125 | the reference for `String`: the formatted form when valid, the input otherwise; `Cpf.String` computes it and `Cpf.CanonicalIdempotent` shows formatting twice changes nothing |
| Cpf.CanonicalIdempotent | cpf.go:96-125 | formatting twice gives the same as formatting once |
| Cpf.Strip | cpf.go:24-25 | deleting every '.' and '-'; `Cpf.StripMembers` states exactly what survives and `Cpf.StripFormatDigits` undoes `Format` |
| Cpf.StripMembers | cpf.go:24-25 | stripping deletes exactly the '.' and '-' bytes |
| Cpf.NewCpf | cpf.go:23-33 | succeeds iff the input with '.' and '-' deleted is valid, and returns that string; fails with ErrInvalidCPF otherwise |
| Cpf.StripFormat | cpf.go:23-33 | `NewCPF(cpf.String())` gives back every valid CPF |
| Cpf.StripFormatDigits | cpf.go:24-25 | stripping the formatted form of any 11 digits gives the digits back |
| Cpf.KnownFirstSum | cpf_test.go:29-31 | the first weighted sum of 453178287 is 244 |
| Cpf.KnownSecondSum | cpf_test.go:29-31 | the second weighted sum of 453178287 is 289 |
| Cpf.KnownCheckDigits | cpf_test.go:29-31 | the check digits of 453178287 are 9 and 1 |
| Cpf.KnownValid | cpf_test.go:29-31 | 45317828791 is valid |
| Cpf.KnownWrongFirstCheck | cpf_test.go:34-41 | the test's punctuated "453.178.287-81" is rejected by its length, and the raw "45317828781" that the second test name describes is rejected by its first check digit |
| Cpf.KnownWrongSecondCheck | cpf_test.go:44-51 | the test's punctuated "453.178.287-92" is rejected by its length, and the raw "45317828792" that the second test name describes is rejected by its second check digit |
| Cpf.KnownFormat | cpf_test.go:77-79 | 45317828791 formats as 453.178.287-91 |
| Cpf.PunctuatedFormRejected | cpf_test.go:24-26 | `IsValid` rejects the punctuated form (its length is 14), `String` returns it unchanged, and `NewCPF` accepts it |
| Cnpj.TablesHold | cnpj.go:15-16 | the second CNPJ table has one weight more than the first, and no weight is negative |
| Cnpj.Strip | cnpj.go:42-45 | deleting every '.', '/' and '-'; `Cnpj.StripMembers`, `Cnpj.StripIdempotent` and `Cnpj.SeparatorIgnored` state its effect |
| Cnpj.Valid | cnpj.go:41-99 | the reference: the stripped input is 14 digits whose last two are the check digits of the first twelve; `Cnpj.IsValid` answers it and `Cnpj.CheckBytes` characterises it |
| Cnpj.FirstDigit | cnpj.go:56-69 | the first CNPJ check digit is 0..9 |
| Cnpj.SecondDigit | cnpj.go:77-90 | the second CNPJ check digit is 0..9 |
| Cnpj.IsValid | cnpj.go:41-99 | answers exactly the reference: after deleting '.', '/' and '-', 14 digits whose last two are the check digits of the first twelve |
| Cnpj.NewCnpj | cnpj.go:23-34 | succeeds iff the input is valid, and returns the stripped string, which is valid and all digits; fails with ErrInvalidCNPJ otherwise |
| Cnpj.Format | cnpj.go:108-135 | 18 bytes, '.' at 2 and 6, '/' at 10, '-' at 15, and each digit at its slot |
| Cnpj.FormatElements | cnpj.go:108-135 | the formatted form byte by byte |
| Cnpj.FormatLayout | cnpj.go:108-135 | any 18 bytes with that layout are the formatted form |
| Cnpj.StringInBounds | cnpj.go:110-135 | every write index of the formatting loop is below 18 iff the input has at most 14 bytes; valid inputs have at least 14 |
| Cnpj.String | cnpj.go:103-138 | an invalid CNPJ is returned as it is; a valid one on which the loop stays in bounds has 14 bytes and is returned as XX.XXX.XXX/XXXX-XX |
| Cnpj.Punctuate | cnpj.go:108-135 | the formatting loop over 14 bytes builds the formatted form |
| Cnpj.Canonical | cnpj.go:101-102 | what `String` is documented to do: a valid CNPJ becomes 18 bytes that strip to the same digits; an invalid one is kept |
| Cnpj.CanonicalRoundTrip | cnpj.go:101-102 | the documented formatting is idempotent, and its result strips to the same digits and is valid |
| Cnpj.StripMembers | cnpj.go:42-45 | stripping deletes exactly '.', '/' and '-', and never lengthens the input |
| Cnpj.StripLength | cnpj.go:42-45 | stripping never lengthens the input |
| Cnpj.StripIdempotent | cnpj.go:42-45 | stripping twice is the same as stripping once |
| Cnpj.ValidFourteenIsStripped | cnpj.go:42-49 | a valid 14-byte CNPJ holds no punctuation |
| Cnpj.ValidIsFourteenDigits | cnpj.go:41-99 | a valid CNPJ strips to 14 ASCII digits |
| Cnpj.SeparatorIgnored | cnpj.go:42-45 | inserting '.', '/' or '-' anywhere changes neither the stripped form nor validity |
| Cnpj.CheckBytes | cnpj.go:41-99 | twelve digits followed by two bytes are valid iff those bytes are the computed check digits |
| Cnpj.StripFormat | cnpj.go:23-34 | stripping the formatted form of 14 digits gives the digits back |
| Cnpj.DigitsUnstripped | cnpj.go:42-45 | a string of digits is its own stripped form |
| Cnpj.ForeignByteRejected | cnpj.go:56-61 | any byte that is neither a digit nor punctuation makes the input invalid |
| Cnpj.PetrobrasSums | cnpj_test.go:106-108 | the two weighted sums of 330001671002 are 128 and 151 |
| Cnpj.PetrobrasCheckDigits | cnpj_test.go:106-108 | the check digits of 330001671002 are 4 and 6 |
| Cnpj.PetrobrasDigitsValid | cnpj_test.go:106-108 | 33000167100246 passes the checksum |
| Cnpj.PetrobrasUnstripped | cnpj_test.go:106-108 | 33000167100246 holds no punctuation |
| Cnpj.KnownPetrobras | cnpj_test.go:106-108 | 33000167100246 is valid |
| Cnpj.KnownPetrobrasWrongFirst | cnpj_test.go:116-118 | a wrong first check digit is rejected |
| Cnpj.KnownPetrobrasWrongSecond | cnpj_test.go:126-128 | a wrong second check digit is rejected |
| Cnpj.BancoDoBrasilCheckDigits | cnpj_test.go:136-138 | the check digits of 000000000001 are 9 and 1 |
| Cnpj.BancoDoBrasilDigitsValid | cnpj_test.go:136-138 | 00000000000191 passes the checksum |
| Cnpj.BancoDoBrasilUnstripped | cnpj_test.go:136-138 | 00000000000191 holds no punctuation |
| Cnpj.KnownBancoDoBrasil | cnpj_test.go:136-138 | 00000000000191 is valid |
| Cnpj.PetrobrasFormat | cnpj_test.go:210-212 | 33000167100246 formats as 33.000.167/1002-46 |
| Cnpj.KnownFormatted | cnpj_test.go:101-103 | the punctuated Petrobras CNPJ strips to its digits and is valid |
| Cnpj.AlphanumericRejected | cnpj_test.go:146-148 | the code rejects the all-letter payload the test expects to pass |
| Cnpj.LowercaseRejected | cnpj_test.go:156-158 | the code rejects the lower-case payload the test expects to pass |
| Cnpj.MixedAlphanumericRejected | cnpj_test.go:176-178 | the code rejects the mixed payload the test expects to pass |
| Cnpj.FormattedAlphanumericRejected | cnpj_test.go:181-183 | the code rejects the punctuated mixed payload the test expects to pass |
| Cnpj.FormattedLowercaseStringKept | cnpj_test.go:214-218 | `String` keeps the invalid "aa.aaa.aaa/aaaa-45" as it is, where the test expects "AA.AAA.AAA/AAAA-45" |
| Cnpj.LowercaseStringKept | cnpj_test.go:219-223 | `String` keeps the invalid "aaaaaaaaaaaa45" as it is, where the test expects "AA.AAA.AAA/AAAA-45" |
| Cnpj.UppercaseStringKept | cnpj_test.go:229-233 | `String` keeps the invalid "AAAAAAAAAAAA45" as it is, where the test expects "AA.AAA.AAA/AAAA-45" |
| Cnpj.FormattedStringOverrun | cnpj.go:131-133 | the valid formatted input of cnpj_test.go:205-207 sends the formatting loop to index 18 of an 18-byte buffer |
| Cnh.TablesHold | cnh.go:14-15 | the second CNH table has one weight more than the first, and no weight is negative |
| Cnh.Valid | cnh.go:33-86 | the reference: 11 digits whose last two are the check digits of the first nine; `Cnh.IsValid` answers it and `Cnh.CheckBytes` characterises it |
| Cnh.FirstDigit | cnh.go:43-56 | the first CNH check digit is 0..9 |
| Cnh.SecondDigit | cnh.go:64-77 | the second CNH check digit is 0..9 |
| Cnh.IsValid | cnh.go:33-86 | answers exactly the reference: 11 digits whose last two are the check digits of the first nine |
| Cnh.NewCnh | cnh.go:21-27 | succeeds iff the input is valid and returns it unchanged; fails with ErrInvalidCNH otherwise |
| Cnh.String | cnh.go:89-91 | the input as it is, valid or not; `Cnh.NewThenString` and `Cnh.InvalidStringKept` state both cases |
| Cnh.ValidIsElevenDigits | cnh.go:33-86 | a valid CNH is 11 ASCII digits |
| Cnh.CheckBytes | cnh.go:33-86 | nine digits followed by two bytes are valid iff those bytes are the computed check digits |
| Cnh.ValidIsCompletion | cnh.go:33-86 | a valid CNH is its payload followed by its two check digits |
| Cnh.NewThenString | cnh.go:89-91 | `String` of a valid CNH is that CNH, still valid |
| Cnh.FirstSums | cnh_test.go:65-67 | the weighted sums of 963006898 are 315 and 364 |
| Cnh.FirstCheckDigits | cnh_test.go:65-67 | the check digits of 963006898 are 4 and 2 |
| Cnh.KnownValidFirst | cnh_test.go:65-67 | 96300689842 is valid |
| Cnh.KnownWrongFirstCheck | cnh_test.go:80-82 | a wrong first check digit is rejected |
| Cnh.KnownWrongSecondCheck | cnh_test.go:85-87 | a wrong second check digit is rejected |
| Cnh.SecondSums | cnh_test.go:70-72 | the weighted sums of 745101180 are 138 and 165 |
| Cnh.KnownValidSecond | cnh_test.go:70-72 | 74510118051 is valid |
| Cnh.ThirdSums | cnh_test.go:75-77 | the weighted sums of 938261048 are 228 and 269 |
| Cnh.KnownValidThird | cnh_test.go:75-77 | 93826104830 is valid |
| Cnh.KnownWrongLength | cnh_test.go:90-98 | the empty string and a 3-byte string are rejected |
| Cnh.KnownLetters | cnh_test.go:100-102 | eleven lower-case letters are rejected |
| Cnh.InvalidStringKept | cnh_test.go:133-135 | `String` returns an invalid CNH unchanged, where the test expects "" |
| Cns.FirstDigitValid | cns.go:85-92 | the first digit is 1, 2, 7, 8 or 9; `Cns.ValidLength` shows every valid CNS starts so and `CnsCases.KnownFirstDigit` rejects a 0 |
| Cns.SumFrom | cns.go:53 | one step of the loop's sum: digit k weighs 15 - k |
| Cns.SumIsWeighted | cns.go:38-56 | the loop's sum over 15 digits is the weighted sum with weights 15 down to 1 |
| Cns.Collect | cns.go:38-54 | when the scan keeps digits from position i, it keeps exactly 15 - i of them |
| Cns.Outcome | cns.go:29-57 | the three-valued result of `IsValid`: wrong length or first digit rejects, a scan past the end panics, otherwise the sum decides; `Cns.PanicExactly` says exactly when it panics and `Cns.RawDigits` when 15 digits are accepted |
| Cns.Valid | cns.go:29-57 | the reference, and the corrected reading of the panicking loop: `Outcome` accepts, so every input that panics in Go is rejected; `Cns.IsValid` answers it on inputs that do not panic |
| Cns.IsValid | cns.go:29-57 | on inputs that do not panic, answers exactly `Valid` |
| Cns.SumLoop | cns.go:38-56 | the loop with its `pad` counter answers what the scan of the reference accepts |
| Cns.Iteration | cns.go:40-53 | one step of the loop: a rejection, or a digit followed by the scan from the next position with the new pad |
| Cns.NewCns | cns.go:17-23 | succeeds iff the input is valid and returns it unchanged; fails with ErrInvalidCNS otherwise |
| Cns.Format | cns.go:69-80 | 18 bytes, spaces at 3, 8 and 13, and each digit at its slot |
| Cns.FormatElements | cns.go:69-80 | the formatted form byte by byte |
| Cns.String | cns.go:60-83 | an invalid CNS gives ""; a valid 18-byte one is returned as it is; a valid 15-byte one is spaced as XXX XXXX XXXX XXXX |
| Cns.Canonical | cns.go:60-83 | the reference for `String`: "" when invalid, an 18-byte CNS as it is, a 15-byte one spaced; `Cns.String` computes it and `Cns.CanonicalIdempotent` shows the result is valid and stable |
| Cns.Spaced | cns.go:69-80 | the copy loop with its pad counter builds the spaced form |
| Cns.ValidLength | cns.go:30-36 | a valid CNS has 15 or 18 bytes and an allowed first digit |
| Cns.DigitIsNotSpace | cns.go:41-49 | no digit is whitespace |
| Cns.RawDigits | cns.go:29-57 | 15 digits never panic, and are valid iff the first digit is allowed and the weighted sum is a multiple of 11 |
| Cns.ShiftedNeverCollects | cns.go:38-54 | a scan that runs past the input never accepts |
| Cns.ValidFifteenIsDigits | cns.go:29-57 | a valid 15-byte CNS is all digits |
| Cns.FormattedAgrees | cns.go:29-83 | the spaced form of 15 digits has the same outcome, and the same validity, as the digits |
| Cns.EighteenReadsFifteen | cns.go:38-54 | an 18-byte input with no whitespace in its first 15 bytes is judged by those 15 bytes alone |
| Cns.PanicIsFifteenWithSpace | cns.go:38-47 | a necessary condition, kept as a convenience beside `Cns.PanicExactly`, which implies it: only a 15-byte input with a whitespace byte in it can panic |
| Cns.PartlySpaced | cns.go:38-54 | the reference description of the panicking layout: 15 bytes of the spaced form XXX XXXX XXXX XXXX cut short, with at least one separator present and digits at every payload position inside the input |
| Cns.PanicScan | cns.go:38-54 | the scan from any payload index, with the separators before it skipped, panics exactly when some separator is present and every later payload position inside the input holds a digit |
| Cns.PanicExactly | cns.go:29-57 | `IsValid` panics if and only if the input is partly spaced and its first digit is allowed |
| Cns.SeparatedFifteenPanics | cns.go:40-46 | every 15-byte input of the shape "DDD DDDDDDDDDDD" (a space at 3, digits elsewhere) panics |
| Cns.StrayByteRejected | cns.go:49-51 | a non-digit, non-space byte after a run of digits is rejected |
| Cns.MisplacedSpaceRejected | cns.go:41-44 | whitespace off positions 3, 7 and 11 of the scan is rejected |
| Cns.CanonicalIdempotent | cns.go:60-83 | the formatted form of a valid CNS is valid, and formatting it again changes nothing |
| CnsCases.RandomSum | cns_test.go:32-34 | the weighted sum of 708521331850008 is 440 |
| CnsCases.KnownRaw | cns_test.go:32-34 | 708521331850008 is valid |
| CnsCases.RandomFormat | cns_test.go:145-147 | 708521331850008 spaces as 708 5213 3185 0008 |
| CnsCases.KnownFormatted | cns_test.go:27-29 | 708 5213 3185 0008 is valid |
| CnsCases.KnownString | cns_test.go:140-147 | both forms of the random CNS print as 708 5213 3185 0008 |
| CnsCases.WrongSum | cns_test.go:37-39 | the weighted sum of 708521331850001 is 433 |
| CnsCases.WrongFormat | cns_test.go:37-39 | 708521331850001 spaces as 708 5213 3185 0001 |
| CnsCases.KnownWrongSum | cns_test.go:37-39 | 708 5213 3185 0001 is rejected |
| CnsCases.SecondSum | cns_test.go:117-119 | the weighted sum of 174598435280018 is 561 |
| CnsCases.KnownSecondRaw | cns_test.go:117-119 | 174598435280018 is valid |
| CnsCases.KnownFirstDigit | cns_test.go:52-54 | a first digit of 0 is rejected |
| CnsCases.KnownDotSeparators | cns_test.go:67-69 | dots as separators are rejected |
| CnsCases.KnownMisplacedSeparator | cns_test.go:77-79 | 7085 213 3185 0008 is rejected |
| CnsCases.SpacedFifteenPanics | cns.go:40-46 | 708 52133185000 panics in Go, so the model does not call it valid |
| CnsCases.SpacedAtSevenPanics | cns.go:40-46 | 7085213 3185000, with a separator before payload index 7 only, panics |
| CnsCases.SpacedAtElevenPanics | cns.go:40-46 | 70852133185 000, with a separator before payload index 11 only, panics |
| CnsCases.TwoSeparatorsPanic | cns.go:40-46 | 708 5213 318500, with two separators, panics |
| CnsCases.SpaceOffSlotRejected | cns.go:41-44 | 7085 2133185000, with a space off the separator positions, is rejected and does not panic |
| Plate.Loop | plate.go:44-69 | the seven loop steps with their `pad` counter, three-valued; `Plate.LoopHead`, `Plate.LoopTail` and `Plate.LoopTailShort` state what each part tests |
| Plate.Outcome | plate.go:34-72 | the three-valued result of `IsValid`: a wrong length, or an 8-byte plate without '.' or '-' at byte 3, rejects; otherwise the loop decides; `Plate.PanicShape` says exactly when it panics |
| Plate.Valid | plate.go:34-72 | the reference: `Outcome` accepts; `Plate.ValidShape` characterises it |
| Plate.Shape | plate.go:44-69 | three capitals, a digit, a digit or capital, two digits; `Plate.ValidShape` ties it to validity |
| Plate.Characters | plate.go:35-69 | the seven characters of a 7- or 8-byte plate |
| Plate.IsValid | plate.go:34-72 | on inputs that do not panic, answers exactly `Valid` |
| Plate.NewPlate | plate.go:16-22 | succeeds iff the input is valid and returns it unchanged; fails with ErrInvalidPlate otherwise |
| Plate.Dashed | plate.go:93-103 | 8 bytes with '-' at byte 3 |
| Plate.String | plate.go:77-106 | an invalid plate gives ""; a valid one becomes 8 bytes with '-' at byte 3 and the same seven characters |
| Plate.Canonical | plate.go:77-106 | the reference for `String`: "" when invalid, the dashed, upper-case form otherwise; `Plate.String` computes it and `Plate.CanonicalIdempotent` and `Plate.CanonicalSameCharacters` state its properties |
| Plate.LoopHead | plate.go:44-50 | the first three steps test for upper-case letters |
| Plate.LoopTail | plate.go:60-67 | the last three steps test a digit or letter, then two digits |
| Plate.LoopTailShort | plate.go:44-69 | on a 7-byte plate with a separator skipped, the loop panics where it would accept |
| Plate.ValidShape | plate.go:34-72 | valid iff 7 or 8 bytes, the seven characters have the plate shape, and an 8-byte plate has '.' or '-' at byte 3; a valid 7-byte plate has no separator at byte 3 |
| Plate.DigitsAndSeparatorsDisjoint | plate.go:52-59 | no separator is a digit |
| Plate.PanicShape | plate.go:44-69 | `IsValid` panics exactly on 7-byte inputs with a separator at byte 3 and a plate-shaped rest |
| Plate.ShapeHasNoLowerCase | plate.go:84-105 | a valid plate has no lower-case letters, so upper-casing its dashed form changes nothing |
| Plate.DashedEight | plate.go:82-90 | an 8-byte valid plate holds '-' only at byte 3, and then it is already the dashed, upper-case form |
| Plate.DashedValid | plate.go:77-106 | the dashed form of a plate shape is valid and has the same characters |
| Plate.CanonicalIdempotent | plate.go:77-106 | the output of `String` is valid, has the same characters, and prints as itself |
| Plate.CanonicalSameCharacters | plate.go:77-106 | two valid plates print alike iff they have the same seven characters |
| PlateCases.KnownValid | plate_test.go:24-51 | the six test plates in the three layouts are valid |
| PlateCases.KnownInvalid | plate_test.go:54-66 | the three malformed test plates are rejected |
| PlateCases.KnownString | plate_test.go:87-104 | "34fsd" prints as "" and the three layouts of BRA2023 print as BRA-2023 |
| PlateCases.SeparatedSevenPanics | plate.go:52-54 | BRA-202 panics in Go, so the model does not call it valid |
| Uf.Abbreviation | address.go:119-178 | the abbreviation is "" or two upper-case letters |
| Uf.AbbreviationKnown | address.go:119-178 | the abbreviation is non-empty exactly for the 27 codes |
| Uf.Name | address.go:181-240 | the full name of each unit, as UTF-8 bytes; `Uf.NameKnown` and `UfTable.NameRoundTrip` state its properties |
| Uf.NameKnown | address.go:181-240 | the full name is non-empty exactly for the 27 codes |
| Uf.Codigo | address.go:243-245 | the code is a uint8 value |
| Uf.NewUf | address.go:38-49 | any failure is ErrInvalidUF |
| Uf.NewUfKnown | address.go:38-49 | `NewUF` accepts exactly the 27 codes, and `Codigo` gives back the code passed in |
| Uf.Lookup | address.go:58-115 | the switch fails only with ErrInvalidUF, and every match is one of the 27 codes |
| Uf.LookupAbbreviation | address.go:58-112 | the two-byte labels match only known codes |
| Uf.LookupName | address.go:58-115 | the name labels match only known codes |
| Uf.LookupNameNorth | address.go:59-90 | the names of codes 11-29 match only known codes |
| Uf.LookupNameSouth | address.go:91-112 | the names of codes 31-53 match only known codes |
| Uf.NewUfFromStr | address.go:53-116 | fails with ErrInvalidUF; always fails below 2 or above 19 bytes; succeeds only with a known code |
| UfTable.AbbreviationRoundTrip | address.go:53-178 | `NewUFFromStr(uf.String())` gives back every known UF |
| UfTable.NameRoundTrip | address.go:53-240 | `NewUFFromStr(uf.UnidadeFederativa())` gives back every known UF |
| UfTable.KnownGaps | address.go:38-49 | codes in the gaps of the table and outside 11..53 are refused; 11 and 53 are accepted |
| UfTable.KnownLengths | address.go:54-56 | 1-byte and 20-byte strings are refused |
| Cep.Valid | address.go:351-363 | the reference: 8 ASCII digits not in the invalid cache; `Cep.IsValid` answers it and `Cep.ValidAntitone` relates caches |
| Cep.IsValid | address.go:351-363 | answers exactly the reference: 8 ASCII digits not in the invalid cache |
| Cep.Format | address.go:328-339 | 9 bytes, '-' at byte 5, the digits before and after it |
| Cep.FormatLayout | address.go:328-339 | any 9 bytes with that layout are the formatted form |
| Cep.String | address.go:323-342 | an invalid CEP gives ""; a valid one is written XXXXX-XXX |
| Cep.Canonical | address.go:323-342 | the reference for `String`: "" when invalid, XXXXX-XXX otherwise; `Cep.String` computes it and `Cep.FormattedNotValid` shows the result is never itself a valid CEP |
| Cep.Strip | address.go:313-314 | deleting every '-' and '.'; `Cep.StripMembers` states exactly what survives and `Cep.StripFormat` undoes `Format` |
| Cep.StripMembers | address.go:313-314 | stripping deletes exactly '-' and '.', and never lengthens the input |
| Cep.NewCep | address.go:312-320 | succeeds iff the stripped input is valid and returns it; fails with ErrInvalidCEP otherwise |
| Cep.ValidStripped | address.go:312-320 | a valid CEP is its own stripped form |
| Cep.StripFormat | address.go:312-342 | `NewCEP(cep.String())` gives back every valid CEP |
| Cep.NewCepPunctuation | address.go:313-314 | an accepted CEP holds no '-' or '.', and every other byte of the input survives |
| Cep.ValidAntitone | address.go:362 | adding CEPs to the invalid cache never makes a CEP valid |
| Cep.FormattedNotValid | address.go:323-363 | the formatted form is never itself a valid CEP |
| Address.Parts | address.go:559-576 | `Serialize` writes seven parts |
| Address.Parse | address.go:579-612 | every failure is ErrInvalidSerializedAddress |
| Address.Address.constructor | address.go:535-543 | the zero `Address` |
| Address.Address.Serialize | address.go:559-576 | the output is the fields joined by ';' in the written order, and for a known UF its length is `serializedSize` |
| Address.Address.Deserialize | address.go:579-612 | on failure returns the parse error and leaves the address unchanged; on success returns no error and the address holds the parsed fields |
| Address.SerializedSize | address.go:545-553 | the buffer size `Serialize` allocates: the field lengths plus two bytes for the UF and six separators; `Address.SerializedLength` shows it is the exact output length for a known UF |
| Address.SerializedLength | address.go:545-553 | the serialised length equals `serializedSize` for a known UF, and is 2 less for an unknown one |
| Address.SerializationLayout | address.go:559-576 | the serialisation is the explicit concatenation of the seven fields and six ';' |
| Address.SerializationSeparators | address.go:559-576 | the number of ';' in the serialisation is the sum of those in the fields plus six |
| Address.SerializationParts | address.go:580-586 | a serialisation whose CEP has no ';' splits into seven parts iff no text field holds ';' |
| Address.RoundTrip | address.go:559-612 | an address with a known UF, a valid CEP and ';'-free text deserialises from its serialisation to itself |
| Address.ParseSerialize | address.go:579-612 | whatever `Deserialize` accepts has a known UF, a valid CEP and ';'-free text, and serialising it and parsing again gives the same result |
| Address.ParseLength | address.go:580-586 | `Deserialize` fails with "invalid length: n+1" exactly when the input has n ';' with n other than 6 |
| Address.UnknownUfNotRestored | address.go:588-594 | an address with an unknown UF serialises to an empty first part, which fails as an unknown UF |
| Address.FormattedCepRestored | address.go:596-602 | an address whose CEP is stored as XXXXX-XXX still deserialises, with the CEP in digits |
| Address.JoinSeven | address.go:559-576 | joining seven parts is their concatenation with six separators |

## Left out

- `ToAddress`, `buscaCEP`, `viaCEP` and `Address.Validate` in address.go query HTTP services. Network I/O is not modelled.
- The caches built in address.go's `init` (`addresses` and the expiring `invalidCEPs`) are not modelled as state. The set of invalid CEPs is the parameter `invalid`.
- `Generate` functions (for example `GenerateCNH`) use randomness and are not modelled.
- The JSON and SQL adapters (`MarshalJSON`, `UnmarshalJSON`, `Scan`, `Value`) and attaching a message with `fmt.Errorf` are not modelled.
- The error messages of `Deserialize` are modelled as the constructors of `Errors.SerializedAddressFault`, carrying the same values as the message.
- The returned Go `error` is modelled as `Option<Error>`.
- The command-line tool under cmd/ and the package file br.go are not part of this model.
- Uf.NewUfFromStr: lower-cases only the ASCII capitals, where Go's `strings.ToLower` also lower-cases non-ASCII letters. A name with an accented capital, such as the UTF-8 bytes of "SÃO PAULO", is refused by the model but accepted by Go.
- Cns.IsValid: requires an input on which the Go loop does not panic. `Cns.PanicExactly` characterises the panicking inputs in both directions, and `Cns.Valid` rejects them.
- Cns.String and Cns.NewCns: require no panic, for the same reason as `Cns.IsValid`.
- Plate.IsValid: requires an input on which the Go loop does not panic. `Plate.PanicShape` characterises the panicking inputs.
- Plate.String and Plate.NewPlate: require no panic, for the same reason as `Plate.IsValid`.
- Cnpj.String: requires an input on which the formatting loop stays inside its 18-byte buffer. `Cnpj.FormattedStringOverrun` shows a valid input where it does not.
- The loops of `CPF.String`, `CNPJ.String` and `CEP.String`, and the `for i := range` loops of `CPF.IsValid` (cpf.go:46-48), `CNPJ.IsValid` (cnpj.go:52-54), `CNH.IsValid` (cnh.go:39-41) and `CEP.IsValid` (address.go:356-360), iterate over runes; the model iterates over bytes. The `String` loops only see validated, so ASCII, inputs. The three `IsValid` copy loops leave a non-ASCII rune's lead byte, and zeros in its continuation slots, in the buffer; either fails the digit test or the final comparison. The `CEP.IsValid` loop tests the lead byte of every rune, and a non-ASCII lead byte is not a digit. So every verdict is the same as for bytes.
- Go's `unsafex` zero-copy conversions are modelled as plain copies.

## Disagreements between the code and its tests

The following are proved about the code as written:

- cpf_test.go:24-26 expects `CPF("453.178.287-91").IsValid()` to be true, but `IsValid` requires 11 bytes (`Cpf.PunctuatedFormRejected`).
- cnpj_test.go:141-183 expects alphanumeric CNPJs to pass, but the code accepts digits only (`Cnpj.AlphanumericRejected` and its neighbours).
- cnh_test.go:133-135 expects `CNH("123").String()` to be "", but `String` returns its input (`Cnh.InvalidStringKept`).
- cnpj_test.go:205-207 expects `String` of the punctuated Petrobras CNPJ to return it, but the loop overruns (see Findings).
- cnpj_test.go:214-223 and 229-233 expect `String` of "aa.aaa.aaa/aaaa-45", "aaaaaaaaaaaa45" and "AAAAAAAAAAAA45" to be "AA.AAA.AAA/AAAA-45", but these are invalid and `String` returns them unchanged (`Cnpj.FormattedLowercaseStringKept`, `Cnpj.LowercaseStringKept`, `Cnpj.UppercaseStringKept`).

## Findings

| source | as written | input that shows it | evidently intended | confidence | as-written member | corrected member |
|---|---|---|---|---|---|---|
| cnpj.go:110-135 | `String` loops over every byte of the unstripped input after validating the stripped form, writing `out[i+4]` up to index 21 of an 18-byte buffer | "33.000.167/1002-46" (valid): index 14 writes `out[18]` and panics | format the 14 stripped digits | not executed | Cnpj.FormattedStringOverrun | Cnpj.CanonicalRoundTrip |
| cns.go:38-47 | after skipping a separator the loop reads `cns[i+pad]` without a bound check | "708 52133185000" (15 bytes, a space at 3): reading byte 15 panics | reject the input: `Cns.Valid` holds only when `Outcome` accepts, so every input that `Cns.PanicExactly` describes is rejected | not executed | CnsCases.SpacedFifteenPanics | Cns.Valid |
| plate.go:44-69 | a 7-byte plate with a separator at byte 3 makes the loop read `p[7]` | "BRA-202": index out of range | reject the input | not executed | PlateCases.SeparatedSevenPanics | Plate.ValidShape |
