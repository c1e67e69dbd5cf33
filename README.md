# Business rules of the CC8550 exercises, modelled in Dafny

Three independent, stateless modules taken from a classroom repository on
software testing, each modelled in its own Dafny module:

- `Cpf` (`cpf.dfy`): `validar_cpf` and `formatar_cpf` from
  `atividade_02/cpf.py`. A CPF is a Brazilian taxpayer number of eleven digits.
  The last two digits are check digits, each derived from a weighted sum
  modulo 11 of the digits before it. The validator first drops every non-digit character,
  so formatted input such as `111.444.777-35` is accepted. `validar_cpf` is a
  method with the source's two accumulating loops. It is proved equal to the
  predicate `IsValidCpf`, and the properties are proved about that predicate.
  `formatar_cpf` is a function that re-inserts the separators.
- `Grades` (`grades.dfy`): `validar_nota`, `calcular_media`,
  `obter_situacao`, `calcular_estatisticas` and `normalizar_notas` from
  `atividade_01/source/sistemaDeNotas.py`. Grades are valid in [0, 10].
  The mean and the statistics drop invalid grades. An empty list and a list
  with no valid grade are two distinct errors. Normalisation rescales every
  grade and drops none.
- `Freight` (`freight.dfy`): `_normalizar_destino` and `calcular_frete` from
  `atividade_03/frete.py`. The weight must lie in (0, 20] and the order value
  must not be negative. An order above 200 ships free before the destination
  is read. Otherwise the destination text is stripped, lower-cased and looked
  up in a table of seven spellings. The fee is the weight tier (10, 15, 25)
  times the zone multiplier (1.0, 1.5, 2.0).

Each Python `ValueError` is a variant of an error datatype, returned in a
`Result`. Python's `None` for a CPF is `Option.None`. Grades, weights, order
values and fees are exact Dafny `real`s.

Only the literal spellings of the destination table are accepted, accented
or not (`mesma regiao`, `mesma região`, the underscore forms, and so on); an
accent anywhere else (`mésma regiao`) is an invalid destination.

The docstring of `formatar_cpf` gives `formatar_cpf("12345678901")` as
returning `"123.456.789-01"`. That number fails its second check digit, so the
code raises instead, as the test suite expects; the model follows the code
(`Cpf.Formatar12345678901`).

## Model

| member | source | states |
|---|---|---|
| `Cpf.IsDigit` | atividade_02/cpf.py:28 | `str.isdigit`, restricted to the ASCII digits '0'..'9' |
| `Cpf.DigitValue` | atividade_02/cpf.py:42 | `int()` of one digit character: its value, in 0..9 |
| `Cpf.DigitsOnly` | atividade_02/cpf.py:28 | the cleaned string holds only digits and is no longer than the input |
| `Cpf.Repeat` | atividade_02/cpf.py:35 | `cpf_limpo[0] * 11`: n copies of one character, of length n |
| `Cpf.WeightedSum` | atividade_02/cpf.py:40-42 | the loop's weighted sum over non-negative digits with positive weights is non-negative |
| `Cpf.CheckDigit` | atividade_02/cpf.py:44-45 | a check digit is always in 0..9, and it is 0 exactly when the remainder modulo 11 is below 2 |
| `Cpf.UnguardedCheckDigit` | atividade_02/cpf.py:44-45 | `11 - resto` is 11 exactly at remainder 0 and 10 exactly at remainder 1; the `resto < 2` guard maps both to 0, and the other remainders give `11 - resto` in 2..9 |
| `Cpf.CheckDigitAlternative` | atividade_02/cpf.py:55-56 | the check digit equals the common alternative formula `(10 * soma) mod 11 mod 10` |
| `Cpf.FirstCheckDigit` | atividade_02/cpf.py:40-45 | the first check digit (weights 10..2 over digits 0..8) is a digit |
| `Cpf.SecondCheckDigit` | atividade_02/cpf.py:51-56 | the second check digit (weights 11..2 over digits 0..9) is a digit |
| `Cpf.ValidDigits` | atividade_02/cpf.py:35-59 | the checks on the digit values: eleven of them, not all equal, the tenth and eleventh being the first and second check digits |
| `Cpf.RepeatIffAllSame` | atividade_02/cpf.py:35 | comparing the digit string with its first digit repeated 11 times is the same as all digit values being equal |
| `Cpf.IsValidCpf` | atividade_02/cpf.py:24-61 | the reference predicate: the input is present, has 11 digits after dropping non-digits, the digits are not all equal, and digits 9 and 10 are the two check digits |
| `Cpf.ValidarCpf` | atividade_02/cpf.py:8-61 | the method returns true iff the input is present, has 11 digits after cleaning, the digits are not all equal, and digits 9 and 10 equal the two check digits |
| `Cpf.DigitsOnlyOfDigits` | atividade_02/cpf.py:28 | cleaning a string of digits leaves it unchanged |
| `Cpf.DigitsOnlyAppend` | atividade_02/cpf.py:28 | cleaning distributes over concatenation |
| `Cpf.SeparatorsIgnored` | atividade_02/cpf.py:28 | validity of a string equals validity of its digits alone |
| `Cpf.NoneIsInvalid` | atividade_02/cpf.py:24-25 | `None` is invalid |
| `Cpf.WrongLengthIsInvalid` | atividade_02/cpf.py:31-32 | any input whose cleaned length is not 11 is invalid |
| `Cpf.RepeatedDigitIsInvalid` | atividade_02/cpf.py:35-36 | eleven equal digits are invalid |
| `Cpf.WeightedSumOfRepeat` | atividade_02/cpf.py:40-53 | the weighted sum of a repeated digit c is c times the sum of the weights |
| `Cpf.RepeatedDigitsPassChecksum` | atividade_02/cpf.py:35-59 | every repeated digit 0..9 passes both checksums (sums 54c and 65c give check digit c), so the repeated-digit rule alone rejects them |
| `Cpf.CheckDigitOfRepeat` | atividade_02/cpf.py:44-56 | the sums 54c and 65c of a repeated digit c both have check digit c |
| `Cpf.FormatarCpf` | atividade_02/cpf.py:64-88 | fails exactly when the input is invalid; on success the result has length 14, '.' at 3 and 7, '-' at 11, and digits everywhere else |
| `Cpf.DigitsOnlySeparator` | atividade_02/cpf.py:88 | a non-digit separator contributes nothing to the cleaned digits |
| `Cpf.DigitsOnlyOfLayout` | atividade_02/cpf.py:88 | cleaning `a.b.c-e` gives back `a+b+c+e` |
| `Cpf.LayoutValid` | atividade_02/cpf.py:81-88 | laying digits out as `a.b.c-e` does not change validity |
| `Cpf.FormatStripRoundTrip` | atividade_02/cpf.py:85-88 | cleaning the formatted result gives back the cleaned input |
| `Cpf.FormatIdempotent` | atividade_02/cpf.py:81-88 | a formatted number is valid, and formatting it again returns it unchanged |
| `Cpf.FormatOfDigits` | atividade_02/cpf.py:85-88 | a valid digit-only input formats as its slices joined by the separators |
| `Cpf.DigitsExample` | atividade_02/cpf.py:28-61 | for a digit string whose values are d, validity is `ValidDigits(d)` |
| `Cpf.CheckDigits11144477735` | atividade_02/test_cpf.py:13 | the digits 1,1,1,4,4,4,7,7,7,3,5 are not all equal and carry both right check digits |
| `Cpf.CheckDigits00000000191` | atividade_02/test_cpf.py:14 | the digits 0,0,0,0,0,0,0,0,1,9,1 are not all equal and carry both right check digits |
| `Cpf.CheckDigits52998224725` | atividade_02/test_cpf.py:15 | the digits 5,2,9,9,8,2,2,4,7,2,5 are not all equal and carry both right check digits |
| `Cpf.CheckDigits12345678901` | atividade_02/test_cpf.py:30 | the digits of 12345678901 pass the first check digit and fail the second |
| `Cpf.Valid11144477735` | atividade_02/test_cpf.py:13 | "11144477735" is valid |
| `Cpf.Valid00000000191` | atividade_02/test_cpf.py:14 | "00000000191" is valid |
| `Cpf.Valid52998224725` | atividade_02/test_cpf.py:15 | "52998224725" is valid |
| `Cpf.Invalid12345678901` | atividade_02/test_cpf.py:30 | "12345678901" is invalid |
| `Cpf.Valid111444777Dash35` | atividade_02/test_cpf.py:16 | the formatted "111.444.777-35" is valid |
| `Cpf.TenDigitsAndALetter` | atividade_02/cpf.py:28-32 | ten digits followed by one non-digit are invalid, since only ten digits remain |
| `Cpf.InvalidWithLetter` | atividade_02/test_cpf.py:122-131 | "1234567890a" is invalid: only ten digits remain |
| `Cpf.InvalidEmpty` | atividade_02/test_cpf.py:50-59 | "" is invalid |
| `Cpf.Formatar12345678901` | atividade_02/test_cpf.py:160-169 | formatting "12345678901" fails with the invalid-CPF error |
| `Grades.ValidarNota` | atividade_01/source/sistemaDeNotas.py:1-2 | a grade is valid exactly when it lies in [0, 10], both ends included |
| `Grades.ValidarNotaExamples` | atividade_01/test/test_sistemaDeNotas.py:16-32 | 0, 5, 10, 7.5 and 9.99 are valid; -1, 11 and 10.1 are not |
| `Grades.NotasValidas` | atividade_01/source/sistemaDeNotas.py:8 | the filtered list holds only valid grades and is no longer than the input |
| `Grades.NotasValidasSingle` | atividade_01/source/sistemaDeNotas.py:8 | a one-grade list keeps its grade exactly when it is valid |
| `Grades.NotasValidasAppend` | atividade_01/source/sistemaDeNotas.py:8 | filtering a concatenation is the concatenation of the filtered parts, so every valid grade is kept, in order, and no invalid one |
| `Grades.Sum` | atividade_01/source/sistemaDeNotas.py:13 | Python's `sum` over a list of reals; its bounds are `SumBounds` |
| `Grades.Max` | atividade_01/source/sistemaDeNotas.py:36 | the maximum is an element and no element exceeds it |
| `Grades.Min` | atividade_01/source/sistemaDeNotas.py:37 | the minimum is an element and no element is below it |
| `Grades.SumBounds` | atividade_01/source/sistemaDeNotas.py:13 | the sum of n values in [lo, hi] lies in [n·lo, n·hi] |
| `Grades.DivideBounds` | atividade_01/source/sistemaDeNotas.py:13 | dividing a total in [n·lo, n·hi] by n > 0 gives a value in [lo, hi] |
| `Grades.MeanOfBoundedSum` | atividade_01/source/sistemaDeNotas.py:13 | a sum in [len·lo, len·hi] gives sum/len in [lo, hi] |
| `Grades.MeanBetweenMinAndMax` | atividade_01/source/sistemaDeNotas.py:35-37 | sum/len lies between min and max |
| `Grades.Mean` | atividade_01/source/sistemaDeNotas.py:13 | `sum / len`: the mean times the number of values is their sum |
| `Grades.MeanFacts` | atividade_01/source/sistemaDeNotas.py:13 | the mean lies between min and max and is a valid grade when all values are |
| `Grades.CalcularMedia` | atividade_01/source/sistemaDeNotas.py:4-13 | empty input gives EmptyInput; a non-empty input with no valid grade gives NoValidGrade; otherwise the result is the mean of the valid grades, lies between their min and max, and is a valid grade |
| `Grades.InvalidGradesIgnored` | atividade_01/source/sistemaDeNotas.py:8-13 | appending an invalid grade changes neither the filtered list nor the mean |
| `Grades.ObterSituacao` | atividade_01/source/sistemaDeNotas.py:15-24 | an error exactly outside [0, 10]; Aprovado exactly on [7, 10]; Recuperacao exactly on [5, 7); Reprovado exactly on [0, 5) |
| `Grades.SituacaoMonotone` | atividade_01/source/sistemaDeNotas.py:19-24 | a higher valid mean never gets a worse classification |
| `Grades.Count` | atividade_01/source/sistemaDeNotas.py:39-41 | a count never exceeds the length of the list |
| `Grades.AtLeastSeven` | atividade_01/source/sistemaDeNotas.py:39 | the test `nota >= 7.0` of `aprovados` |
| `Grades.FiveToSeven` | atividade_01/source/sistemaDeNotas.py:40 | the test `5.0 <= nota < 7.0` of `recuperacao` |
| `Grades.BelowFive` | atividade_01/source/sistemaDeNotas.py:41 | the test `nota < 5.0` of `reprovados` |
| `Grades.CountsPartition` | atividade_01/source/sistemaDeNotas.py:39-41 | the counts for ≥7, [5, 7) and <5 add up to the number of grades |
| `Grades.CountAgrees` | atividade_01/source/sistemaDeNotas.py:39-41 | two tests that agree on every element give the same count |
| `Grades.CountsAgreeWithSituacao` | atividade_01/source/sistemaDeNotas.py:39-41 | on valid grades, each threshold count equals the number of grades `obter_situacao` puts in that class |
| `Grades.CalcularEstatisticas` | atividade_01/source/sistemaDeNotas.py:26-50 | fails exactly when `calcular_media` fails, with the same error; `media` equals `calcular_media`'s result; menor ≤ media ≤ maior; menor and maior are valid grades that bound all of them; the three counts add up to the number of valid grades |
| `Grades.EstatisticasAgreeWithSituacao` | atividade_01/source/sistemaDeNotas.py:39-41 | aprovados, recuperacao and reprovados count the valid grades that `obter_situacao` classifies that way |
| `Grades.NormalizarNotas` | atividade_01/source/sistemaDeNotas.py:52-59 | empty input gives EmptyInput, checked before the maximum; a maximum ≤ 0 gives InvalidMaxGrade; otherwise the output has the input's length with `out[i] · nota_maxima == notas[i] · 10` |
| `Grades.NormalizarDefaultIsIdentity` | atividade_01/source/sistemaDeNotas.py:52-59 | with the default maximum 10 the output equals the input |
| `Grades.ScaleKeepsOrder` | atividade_01/source/sistemaDeNotas.py:59 | multiplying by a positive factor keeps the order |
| `Grades.NormalizarKeepsOrderAndRange` | atividade_01/source/sistemaDeNotas.py:59 | normalisation keeps the order of grades in both directions and maps [0, nota_maxima] into [0, 10] |
| `Grades.MediaSimple` | atividade_01/test/test_sistemaDeNotas.py:36-38 | the mean of [5, 7, 9] is 7 |
| `Grades.MediaSingle` | atividade_01/test/test_sistemaDeNotas.py:40-41 | the mean of [8.5] is 8.5 |
| `Grades.MediaDecimals` | atividade_01/test/test_sistemaDeNotas.py:43-46 | the mean of [6.5, 7.5, 8.0] is exactly 22/3 |
| `Grades.MediaIgnoresInvalid` | atividade_01/test/test_sistemaDeNotas.py:48-51 | the mean of [5, 10, -1, 15, 7] is the mean of [5, 10, 7], 22/3 |
| `Grades.MediaErrors` | atividade_01/test/test_sistemaDeNotas.py:53-60 | [] gives EmptyInput; [-5, 15, 20] gives NoValidGrade |
| `Grades.SituacaoExamples` | atividade_01/test/test_sistemaDeNotas.py:64-82 | 7 is Aprovado; 5, 6, 6.9 and 6.999 are Recuperacao; 4.9, 4.999 and 2 are Reprovado; -1 and 11 are invalid averages |
| `Grades.AllValidKept` | atividade_01/source/sistemaDeNotas.py:30 | filtering a list of valid grades keeps the whole list |
| `Grades.EstatisticasOfValid` | atividade_01/source/sistemaDeNotas.py:26-50 | on a non-empty list of valid grades, the statistics are the mean, max, min and threshold counts of the whole list |
| `Grades.MeanOfSum` | atividade_01/source/sistemaDeNotas.py:35 | a list of length n with sum t has mean m when m·n = t |
| `Grades.MeanExample` | atividade_01/test/test_sistemaDeNotas.py:86-90 | the mean of [3, 5, 7, 9] is 6 |
| `Grades.MaxMinExample` | atividade_01/test/test_sistemaDeNotas.py:86-92 | the max of [3, 5, 7, 9] is 9 and the min is 3 |
| `Grades.CountExample` | atividade_01/test/test_sistemaDeNotas.py:94-100 | [3, 5, 7, 9] has two grades ≥ 7, one in [5, 7) and one below 5 |
| `Grades.EstatisticasExample` | atividade_01/test/test_sistemaDeNotas.py:86-100 | statistics of [3, 5, 7, 9]: mean 6, max 9, min 3, counts 2/1/1 |
| `Grades.NormalizarExamples` | atividade_01/test/test_sistemaDeNotas.py:120-140 | the test suite's normalisations and their errors |
| `Freight.IsSpace` | atividade_03/frete.py:9 | the characters `str.strip()` removes: CPython's whitespace set |
| `Freight.TrimStart` | atividade_03/frete.py:9 | the leading half of `str.strip()`; `TrimStartFacts` states what it removes |
| `Freight.TrimEnd` | atividade_03/frete.py:9 | the trailing half of `str.strip()`; `TrimEndFacts` states what it removes |
| `Freight.TrimStartFacts` | atividade_03/frete.py:9 | the result of trimming the start is a suffix of the input; only whitespace was removed; it does not start with whitespace |
| `Freight.TrimEndFacts` | atividade_03/frete.py:9 | the result of trimming the end is a prefix of the input; only whitespace was removed; it does not end with whitespace |
| `Freight.TrimEndKeepsFront` | atividade_03/frete.py:9 | trimming the end of a text that does not start with whitespace keeps its first character |
| `Freight.TrimStartAllSpace` | atividade_03/frete.py:9 | a text made only of whitespace strips to the empty text |
| `Freight.StripFacts` | atividade_03/frete.py:9 | the stripped text neither starts nor ends with whitespace and is no longer than the input |
| `Freight.Strip` | atividade_03/frete.py:9 | `str.strip()`: trims the start, then the end; `StripFacts` and the padding lemmas state what that removes |
| `Freight.LowerChar` | atividade_03/frete.py:9 | one character lower-cased: the result is never a capital, a non-capital is unchanged, and whitespace stays whitespace |
| `Freight.LowerOfUpperChar` | atividade_03/frete.py:9 | lower-casing the capital of a character that is not itself a capital gives that character back |
| `Freight.Lower` | atividade_03/frete.py:9 | lower-casing keeps the length and maps each character on its own |
| `Freight.LowerOfUpper` | atividade_03/frete.py:9 | lower-casing an upper-cased text without capitals gives the text back |
| `Freight.LowerKeepsSpace` | atividade_03/frete.py:9 | lower-casing turns whitespace into whitespace and nothing else into whitespace |
| `Freight.LowerIdempotent` | atividade_03/frete.py:9 | lower-casing twice equals lower-casing once |
| `Freight.NormalizarDestino` | atividade_03/frete.py:4-24 | the only error is InvalidDestination; it succeeds exactly when the stripped, lower-cased text is a table key, with that key's zone |
| `Freight.PlainText` | atividade_03/frete.py:9-24 | text with no surrounding whitespace and no capitals is looked up unchanged |
| `Freight.ChaveRoundTrip` | atividade_03/frete.py:11-24 | each zone's own key normalises to that zone |
| `Freight.Chave` | atividade_03/frete.py:50-54 | the internal key of each zone, as `multiplicador` spells it |
| `Freight.TrimStartAfterSpace` | atividade_03/frete.py:9 | leading whitespace does not change the trimmed text |
| `Freight.TrimEndBeforeSpace` | atividade_03/frete.py:9 | trailing whitespace does not change the trimmed text |
| `Freight.StripBeforeSpace` | atividade_03/frete.py:9 | trailing whitespace does not change the stripped text |
| `Freight.StripIgnoresPadding` | atividade_03/frete.py:9 | whitespace at both ends does not change the stripped text |
| `Freight.TrimStartLower` | atividade_03/frete.py:9 | trimming the start and lower-casing commute |
| `Freight.TrimEndLower` | atividade_03/frete.py:9 | trimming the end and lower-casing commute |
| `Freight.NormalizarIgnoresCaseAndPadding` | atividade_03/frete.py:9-24 | lower-casing the destination first, or padding it with whitespace, gives the same result |
| `Freight.SpellingMesmaRegiaoUnderscore` | atividade_03/frete.py:12 | "mesma_regiao" is the same region |
| `Freight.SpellingMesmaRegiaoSpace` | atividade_03/frete.py:13 | "mesma regiao" is the same region |
| `Freight.SpellingMesmaRegiaoAccent` | atividade_03/frete.py:14 | "mesma região" is the same region |
| `Freight.SpellingOutraRegiaoUnderscore` | atividade_03/frete.py:15 | "outra_regiao" is another region |
| `Freight.SpellingOutraRegiaoSpace` | atividade_03/frete.py:16 | "outra regiao" is another region |
| `Freight.SpellingOutraRegiaoAccent` | atividade_03/frete.py:17 | "outra região" is another region |
| `Freight.SpellingInternacional` | atividade_03/frete.py:18 | "internacional" is international |
| `Freight.EquivalenciasAccepted` | atividade_03/frete.py:11-24 | every spelling in the table `equivalencias` is accepted and mapped to its own zone |
| `Freight.KeysPlain` | atividade_03/frete.py:11-19 | every key of the table is non-empty, has no whitespace at either end and holds no capitals |
| `Freight.UpperKeyAccepted` | atividade_03/frete.py:9-24 | every key written in capitals is accepted with its own zone |
| `Freight.CaseVariantAccepted` | atividade_03/frete.py:9-24 | any text that lower-cases to a key, padded with whitespace, is accepted with that key's zone |
| `Freight.MixedCaseOutraRegiao` | atividade_03/frete.py:9-24 | " Outra RegiÃO " is another region |
| `Freight.UnknownDestination` | atividade_03/frete.py:21-22 | "interplanetario" is an invalid destination |
| `Freight.AccentedCapital` | atividade_03/frete.py:9 | 'Ã' lower-cases to the 'ã' of the table's keys |
| `Freight.FreteBase` | atividade_03/frete.py:43-48 | the base fee is one of 10, 15, 25 |
| `Freight.Multiplicador` | atividade_03/frete.py:50-54 | every multiplier is at least 1 |
| `Freight.CalcularFrete` | atividade_03/frete.py:27-56 | InvalidWeight exactly when the weight ≤ 0 or > 20, whatever the other inputs; InvalidOrderValue exactly for a valid weight and a negative value; free shipping for a valid weight and a value > 200, whatever the destination; InvalidDestination exactly on the charged path with an unknown destination; a charged fee equals base × multiplier |
| `Freight.ChargedFee` | atividade_03/frete.py:41-56 | on the charged path with a known destination, the fee is the weight tier times that zone's multiplier |
| `Freight.FreteValues` | atividade_03/frete.py:38-56 | every fee is one of the nine amounts 0, 10, 15, 20, 22.5, 25, 30, 37.5, 50 |
| `Freight.FreteNonNegative` | atividade_03/frete.py:56 | every fee is ≥ 0 |
| `Freight.ScaleMonotone` | atividade_03/frete.py:56 | multiplying by a non-negative multiplier keeps the order of the base fees |
| `Freight.FreteBaseMonotone` | atividade_03/frete.py:43-48 | the base fee never decreases with the weight |
| `Freight.FreteMonotoneInWeight` | atividade_03/frete.py:43-56 | for the same destination and order value, a heavier valid parcel never costs less |
| `Freight.ZoneOrdering` | atividade_03/frete.py:50-56 | for the same weight and an order value ≤ 200: same region ≤ other region ≤ international |
| `Freight.FreteExamples` | atividade_03/test_frete.py:8-59 | the fees of the test suite's equivalence classes and decision table, including free shipping above 200 |
| `Freight.FreteErrorExamples` | atividade_03/test_frete.py:62-80 | weight 0 and 21 are invalid weights; "interplanetario" is an invalid destination; a negative order value is invalid |
| `Freight.FreteWeightBoundaries` | atividade_03/test_frete.py:22-42 | the fees just below, at and above the weight boundaries 1, 5 and 20, and the error above 20 |

## Left out

- Floating point: every number is an exact `real`, so results that depend on
  binary rounding are not modelled. The test suite's `7.333333333333333` is
  the exact 22/3 here. NaN and the infinities are not modelled either: in
  Python a NaN weight passes both weight checks (every comparison with it is
  false) and is charged the top tier, a NaN grade is never valid, and an
  infinite order value ships free.
- Dynamic typing: `isinstance(destino, str)` and duck-typed grade lists have
  no counterpart. The static types rule out non-strings and non-numbers.
  Python integers and floats are both `real`.
- Unicode digits: `str.isdigit` also accepts non-ASCII digits, some of which
  make `int()` raise. Only '0'..'9' count as digits here.
- `Freight.LowerChar`: only Latin-1 is lower-cased: 'A'..'Z' and
  U+00C0..U+00DE except U+00D7. Other characters are left unchanged.
  Python's wider mapping also changes characters outside Latin-1, and a few
  of them into Latin-1 letters: 'İ' (U+0130) becomes 'i' followed by U+0307,
  which also makes the text longer, the Kelvin sign becomes 'k', the Angstrom
  sign becomes 'å', 'Ÿ' (U+0178) becomes 'ÿ' and 'ẞ' (U+1E9E) becomes 'ß'.
  No key of the table contains 'k', 'å', 'ÿ', 'ß' or U+0307, so a text
  holding any of these characters is refused by Python and by the model
  alike, and `NormalizarDestino` gives the same answer.
- `Freight.IsSpace`: this is CPython's whitespace set for `str.strip()`.
- Exception messages: each message is an error variant.
- `Cpf.FormatarCpf` and `Cpf.ValidarCpf` take a Python `None` as
  `Option.None`. Any other non-string argument is not modelled.
- Concrete examples of formatted output, such as `formatar_cpf("11144477735")
  == "111.444.777-35"`, are not stated as literal lemmas. They are covered by
  the general `Cpf.FormatOfDigits` together with `Cpf.Valid11144477735`.
- The pytest and hypothesis test code, and both conftest fixtures, are not
  modelled. They appear only as example values.
