/** Grade statistics, after atividade_01/source/sistemaDeNotas.py.

    A grade is valid when it lies in [0, 10].  The mean and the statistics
    silently drop invalid grades; classification refuses an invalid mean;
    normalisation rescales every grade, valid or not.  Grades are exact reals. */
module Grades {

  /** The ValueErrors of the module, one variant per message. */
  datatype GradeError =
    | EmptyInput       // "Lista de notas vazia"
    | NoValidGrade     // "Nenhuma nota valida"
    | InvalidAverage   // "Media invalida"
    | InvalidMaxGrade  // "Nota maxima deve ser positiva"

  datatype Result<T> = Ok(value: T) | Err(error: GradeError)

  /** What obter_situacao returns. */
  datatype Situacao = Aprovado | Recuperacao | Reprovado

  /** The dictionary calcular_estatisticas returns. */
  datatype Estatisticas = Estatisticas(
    media: real, maior: real, menor: real,
    aprovados: nat, reprovados: nat, recuperacao: nat)

  /** validar_nota: both ends of [0, 10] are valid. */
  predicate ValidarNota(nota: real) {
    0.0 <= nota <= 10.0
  }

  /** The list comprehension [nota for nota in notas if validar_nota(nota)]. */
  function NotasValidas(notas: seq<real>): (r: seq<real>)
    ensures |r| <= |notas|
    ensures forall i :: 0 <= i < |r| ==> ValidarNota(r[i])
  {
    if notas == [] then []
    else if ValidarNota(notas[0]) then [notas[0]] + NotasValidas(notas[1..])
    else NotasValidas(notas[1..])
  }

  /** A single grade is kept exactly when it is valid. */
  lemma NotasValidasSingle(x: real)
    ensures NotasValidas([x]) == if ValidarNota(x) then [x] else []
  {
    assert [x][1..] == [];
  }

  /** Filtering distributes over concatenation: with NotasValidasSingle this
      says every valid grade is kept, in its order, and nothing else. */
  lemma {:induction false} NotasValidasAppend(a: seq<real>, b: seq<real>)
    ensures NotasValidas(a + b) == NotasValidas(a) + NotasValidas(b)
  {
    if a != [] {
      assert (a + b)[0] == a[0];
      assert (a + b)[1..] == a[1..] + b;
      NotasValidasAppend(a[1..], b);
    } else {
      assert a + b == b;
    }
  }

  /** The test suite's examples of validar_nota, including both ends. */
  lemma ValidarNotaExamples()
    ensures ValidarNota(0.0) && ValidarNota(5.0) && ValidarNota(10.0)
    ensures ValidarNota(7.5) && ValidarNota(9.99)
    ensures !ValidarNota(-1.0) && !ValidarNota(11.0) && !ValidarNota(10.1)
  {
  }

  /** Python's sum. */
  function Sum(s: seq<real>): real {
    if s == [] then 0.0 else s[0] + Sum(s[1..])
  }

  /** Python's max. */
  function Max(s: seq<real>): (m: real)
    requires |s| > 0
    ensures m in s
    ensures forall i :: 0 <= i < |s| ==> s[i] <= m
  {
    if |s| == 1 then s[0]
    else
      var rest := Max(s[1..]);
      if s[0] >= rest then s[0] else rest
  }

  /** Python's min. */
  function Min(s: seq<real>): (m: real)
    requires |s| > 0
    ensures m in s
    ensures forall i :: 0 <= i < |s| ==> m <= s[i]
  {
    if |s| == 1 then s[0]
    else
      var rest := Min(s[1..]);
      if s[0] <= rest then s[0] else rest
  }

  /** The sum of values in [lo, hi] lies between |s| * lo and |s| * hi. */
  lemma {:induction false} SumBounds(s: seq<real>, lo: real, hi: real)
    requires forall i :: 0 <= i < |s| ==> lo <= s[i] <= hi
    ensures |s| as real * lo <= Sum(s) <= |s| as real * hi
  {
    if s != [] {
      SumBounds(s[1..], lo, hi);
      assert |s| as real * lo == (|s| - 1) as real * lo + lo;
      assert |s| as real * hi == (|s| - 1) as real * hi + hi;
    }
  }

  /** Dividing a total that lies between n * lo and n * hi by n > 0. */
  lemma {:induction false} DivideBounds(total: real, n: real, lo: real, hi: real)
    requires n > 0.0 && n * lo <= total <= n * hi
    ensures lo <= total / n <= hi
  {
    var m := total / n;
    assert m * n == total;
    assert (m - lo) * n >= 0.0;
    assert (hi - m) * n >= 0.0;
  }

  /** A sum between |s| * lo and |s| * hi gives sum / len between lo and hi. */
  lemma {:induction false} MeanOfBoundedSum(s: seq<real>, lo: real, hi: real)
    requires |s| > 0
    requires |s| as real * lo <= Sum(s) <= |s| as real * hi
    ensures lo <= Sum(s) / |s| as real <= hi
  {
    var total, n := Sum(s), |s| as real;
    DivideBounds(total, n, lo, hi);
  }

  /** The arithmetic mean lies between the smallest and the largest value. */
  lemma {:induction false} MeanBetweenMinAndMax(s: seq<real>)
    requires |s| > 0
    ensures Min(s) <= Sum(s) / |s| as real <= Max(s)
  {
    var lo, hi := Min(s), Max(s);
    SumBounds(s, lo, hi);
    MeanOfBoundedSum(s, lo, hi);
  }

  /** sum(s) / len(s): the mean times the number of values gives back
      their sum. */
  function Mean(s: seq<real>): (m: real)
    requires |s| > 0
    ensures m * |s| as real == Sum(s)
  {
    Sum(s) / |s| as real
  }

  /** The mean lies between the smallest and the largest value, and is a
      valid grade when the values are. */
  lemma {:induction false} MeanFacts(s: seq<real>)
    requires |s| > 0
    ensures Min(s) <= Mean(s) <= Max(s)
    ensures (forall i :: 0 <= i < |s| ==> ValidarNota(s[i])) ==> ValidarNota(Mean(s))
  {
    MeanBetweenMinAndMax(s);
  }

  // ---------------------------------------------------------------------------
  // calcular_media

  /** calcular_media: the mean of the valid grades; an empty list and a list
      without valid grades are two distinct errors. */
  function CalcularMedia(notas: seq<real>): (r: Result<real>)
    ensures r == Err(EmptyInput) <==> notas == []
    ensures r == Err(NoValidGrade) <==> notas != [] && NotasValidas(notas) == []
    ensures r.Ok? <==> NotasValidas(notas) != []
    ensures r.Ok? ==> r.value == Mean(NotasValidas(notas))
    ensures r.Ok? ==> Min(NotasValidas(notas)) <= r.value <= Max(NotasValidas(notas))
    ensures r.Ok? ==> ValidarNota(r.value)
  {
    if notas == [] then Err(EmptyInput)
    else
      var validas := NotasValidas(notas);
      if validas == [] then Err(NoValidGrade)
      else
        MeanFacts(validas);
        Ok(Mean(validas))
  }

  /** Invalid grades do not move the mean: only the valid ones are averaged. */
  lemma {:induction false} InvalidGradesIgnored(notas: seq<real>, x: real)
    requires !ValidarNota(x)
    ensures NotasValidas(notas + [x]) == NotasValidas(notas)
    ensures notas != [] ==> CalcularMedia(notas + [x]) == CalcularMedia(notas)
  {
    if notas == [] {
      assert NotasValidas([x]) == NotasValidas([x][1..]);
    } else {
      assert (notas + [x])[1..] == notas[1..] + [x];
      InvalidGradesIgnored(notas[1..], x);
    }
  }

  // ---------------------------------------------------------------------------
  // obter_situacao

  /** obter_situacao: refuses a mean outside [0, 10]; otherwise Aprovado from 7,
      Recuperacao from 5 up to but not including 7, Reprovado below 5. */
  function ObterSituacao(media: real): (r: Result<Situacao>)
    ensures r.Err? <==> !ValidarNota(media)
    ensures r.Err? ==> r.error == InvalidAverage
    ensures r == Ok(Aprovado) <==> 7.0 <= media <= 10.0
    ensures r == Ok(Recuperacao) <==> 5.0 <= media < 7.0
    ensures r == Ok(Reprovado) <==> 0.0 <= media < 5.0
  {
    if !ValidarNota(media) then Err(InvalidAverage)
    else if media >= 7.0 then Ok(Aprovado)
    else if media >= 5.0 then Ok(Recuperacao)
    else Ok(Reprovado)
  }

  /** The order Reprovado < Recuperacao < Aprovado. */
  function Rank(s: Situacao): nat {
    match s
    case Reprovado => 0
    case Recuperacao => 1
    case Aprovado => 2
  }

  /** A higher valid mean never gets a worse classification. */
  lemma SituacaoMonotone(a: real, b: real)
    requires ValidarNota(a) && ValidarNota(b) && a <= b
    ensures ObterSituacao(a).Ok? && ObterSituacao(b).Ok?
    ensures Rank(ObterSituacao(a).value) <= Rank(ObterSituacao(b).value)
  {
  }

  // ---------------------------------------------------------------------------
  // calcular_estatisticas

  /** The number of elements of s that satisfy p: sum(1 for x in s if p(x)). */
  function Count(s: seq<real>, p: real -> bool): (c: nat)
    ensures c <= |s|
  {
    if s == [] then 0 else (if p(s[0]) then 1 else 0) + Count(s[1..], p)
  }

  /** The three tests of calcular_estatisticas. */
  predicate AtLeastSeven(nota: real) { nota >= 7.0 }
  predicate FiveToSeven(nota: real) { 5.0 <= nota < 7.0 }
  predicate BelowFive(nota: real) { nota < 5.0 }

  /** Every grade falls under exactly one of the three tests, so the counts
      add up to the number of grades. */
  lemma {:induction false} CountsPartition(s: seq<real>)
    ensures Count(s, AtLeastSeven) + Count(s, FiveToSeven) + Count(s, BelowFive) == |s|
  {
    if s != [] {
      CountsPartition(s[1..]);
    }
  }

  /** Counting with two tests that agree on every element gives one count. */
  lemma {:induction false} CountAgrees(s: seq<real>, p: real -> bool, q: real -> bool)
    requires forall i :: 0 <= i < |s| ==> p(s[i]) == q(s[i])
    ensures Count(s, p) == Count(s, q)
  {
    if s != [] {
      CountAgrees(s[1..], p, q);
    }
  }

  /** On valid grades, each count is the number of grades obter_situacao puts
      in that class. */
  lemma {:induction false} CountsAgreeWithSituacao(s: seq<real>)
    requires forall i :: 0 <= i < |s| ==> ValidarNota(s[i])
    ensures Count(s, AtLeastSeven) == Count(s, n => ObterSituacao(n) == Ok(Aprovado))
    ensures Count(s, FiveToSeven) == Count(s, n => ObterSituacao(n) == Ok(Recuperacao))
    ensures Count(s, BelowFive) == Count(s, n => ObterSituacao(n) == Ok(Reprovado))
  {
    CountAgrees(s, AtLeastSeven, n => ObterSituacao(n) == Ok(Aprovado));
    CountAgrees(s, FiveToSeven, n => ObterSituacao(n) == Ok(Recuperacao));
    CountAgrees(s, BelowFive, n => ObterSituacao(n) == Ok(Reprovado));
  }

  /** calcular_estatisticas: the same errors as calcular_media; otherwise the
      mean, the largest and smallest valid grade and the three counts. */
  function CalcularEstatisticas(notas: seq<real>): (r: Result<Estatisticas>)
    ensures r.Err? <==> CalcularMedia(notas).Err?
    ensures r.Err? ==> r.error == CalcularMedia(notas).error
    ensures r.Ok? ==> r.value.media == CalcularMedia(notas).value
    ensures r.Ok? ==> r.value.menor <= r.value.media <= r.value.maior
    ensures r.Ok? ==> r.value.maior in NotasValidas(notas) && r.value.menor in NotasValidas(notas)
    ensures r.Ok? ==> forall x :: x in NotasValidas(notas) ==> r.value.menor <= x <= r.value.maior
    ensures r.Ok? ==> r.value.aprovados + r.value.recuperacao + r.value.reprovados == |NotasValidas(notas)|
  {
    if notas == [] then Err(EmptyInput)
    else
      var validas := NotasValidas(notas);
      if validas == [] then Err(NoValidGrade)
      else
        var media := Mean(validas);
        var maior := Max(validas);
        var menor := Min(validas);
        MeanFacts(validas);
        CountsPartition(validas);
        Ok(Estatisticas(
          media, maior, menor,
          aprovados := Count(validas, AtLeastSeven),
          reprovados := Count(validas, BelowFive),
          recuperacao := Count(validas, FiveToSeven)))
  }

  /** Each count of calcular_estatisticas is the number of valid grades that
      obter_situacao puts in that class. */
  lemma {:induction false} EstatisticasAgreeWithSituacao(notas: seq<real>)
    requires CalcularEstatisticas(notas).Ok?
    ensures var e, v := CalcularEstatisticas(notas).value, NotasValidas(notas);
      && e.aprovados == Count(v, n => ObterSituacao(n) == Ok(Aprovado))
      && e.recuperacao == Count(v, n => ObterSituacao(n) == Ok(Recuperacao))
      && e.reprovados == Count(v, n => ObterSituacao(n) == Ok(Reprovado))
  {
    CountsAgreeWithSituacao(NotasValidas(notas));
  }

  // ---------------------------------------------------------------------------
  // normalizar_notas

  /** normalizar_notas: refuses an empty list, then a maximum that is not
      positive; otherwise rescales every grade, valid or not, to the 0..10
      scale. */
  function NormalizarNotas(notas: seq<real>, notaMaxima: real := 10.0): (r: Result<seq<real>>)
    ensures r == Err(EmptyInput) <==> notas == []
    ensures r == Err(InvalidMaxGrade) <==> notas != [] && notaMaxima <= 0.0
    ensures r.Ok? <==> notas != [] && notaMaxima > 0.0
    ensures r.Ok? ==> |r.value| == |notas|
    ensures r.Ok? ==> forall i :: 0 <= i < |notas| ==> r.value[i] * notaMaxima == notas[i] * 10.0
  {
    if notas == [] then Err(EmptyInput)
    else if notaMaxima <= 0.0 then Err(InvalidMaxGrade)
    else Ok(seq(|notas|, i requires 0 <= i < |notas| => (notas[i] / notaMaxima) * 10.0))
  }

  /** With the default maximum of 10 normalisation changes nothing. */
  lemma {:induction false} NormalizarDefaultIsIdentity(notas: seq<real>)
    requires notas != []
    ensures NormalizarNotas(notas) == Ok(notas)
  {
    var r := NormalizarNotas(notas).value;
    forall i | 0 <= i < |notas| ensures r[i] == notas[i] {
      assert r[i] * 10.0 == notas[i] * 10.0;
    }
    assert r == notas;
  }

  /** Multiplying by a positive factor keeps the order. */
  lemma ScaleKeepsOrder(a: real, b: real, c: real)
    requires c > 0.0
    ensures a <= b <==> a * c <= b * c
  {
    assert b * c - a * c == (b - a) * c;
  }

  /** Normalisation keeps the order of grades, and a grade between 0 and the
      maximum becomes a valid grade. */
  lemma {:induction false} NormalizarKeepsOrderAndRange(notas: seq<real>, notaMaxima: real, i: nat, j: nat)
    requires NormalizarNotas(notas, notaMaxima).Ok?
    requires i < |notas| && j < |notas|
    ensures var r := NormalizarNotas(notas, notaMaxima).value;
      notas[i] <= notas[j] <==> r[i] <= r[j]
    ensures 0.0 <= notas[i] <= notaMaxima ==> ValidarNota(NormalizarNotas(notas, notaMaxima).value[i])
  {
    var r := NormalizarNotas(notas, notaMaxima).value;
    assert notaMaxima > 0.0;
    assert r[i] * notaMaxima == notas[i] * 10.0 && r[j] * notaMaxima == notas[j] * 10.0;
    ScaleKeepsOrder(r[i], r[j], notaMaxima);
    ScaleKeepsOrder(notas[i], notas[j], 10.0);
    ScaleKeepsOrder(0.0, r[i], notaMaxima);
    ScaleKeepsOrder(r[i], 10.0, notaMaxima);
    ScaleKeepsOrder(notas[i], notaMaxima, 10.0);
  }

  // ---------------------------------------------------------------------------
  // Examples from the test suite

  lemma MediaSimple()
    ensures CalcularMedia([5.0, 7.0, 9.0]) == Ok(7.0)
  {
    var v := [5.0, 7.0, 9.0];
    assert NotasValidas(v) == v;
    assert Sum(v) == 21.0;
  }

  lemma MediaSingle()
    ensures CalcularMedia([8.5]) == Ok(8.5)
  {
    assert NotasValidas([8.5]) == [8.5];
  }

  lemma MediaDecimals()
    ensures CalcularMedia([6.5, 7.5, 8.0]) == Ok(22.0 / 3.0)
  {
    var v := [6.5, 7.5, 8.0];
    assert NotasValidas(v) == v;
    assert Sum(v) == 22.0;
  }

  lemma MediaIgnoresInvalid()
    ensures CalcularMedia([5.0, 10.0, -1.0, 15.0, 7.0]) == Ok(22.0 / 3.0)
  {
    var v := [5.0, 10.0, 7.0];
    assert NotasValidas([5.0, 10.0, -1.0, 15.0, 7.0]) == v;
    assert Sum(v) == 22.0;
  }

  lemma MediaErrors()
    ensures CalcularMedia([]) == Err(EmptyInput)
    ensures CalcularMedia([-5.0, 15.0, 20.0]) == Err(NoValidGrade)
  {
    assert NotasValidas([-5.0, 15.0, 20.0]) == [];
  }

  lemma SituacaoExamples()
    ensures ObterSituacao(7.0) == Ok(Aprovado)
    ensures ObterSituacao(5.0) == Ok(Recuperacao)
    ensures ObterSituacao(6.0) == Ok(Recuperacao)
    ensures ObterSituacao(6.9) == Ok(Recuperacao)
    ensures ObterSituacao(6.999) == Ok(Recuperacao)
    ensures ObterSituacao(4.999) == Ok(Reprovado)
    ensures ObterSituacao(4.9) == Ok(Reprovado)
    ensures ObterSituacao(2.0) == Ok(Reprovado)
    ensures ObterSituacao(-1.0) == Err(InvalidAverage)
    ensures ObterSituacao(11.0) == Err(InvalidAverage)
  {
  }

  /** On a list of valid grades the statistics are those of the whole list. */
  lemma {:induction false} EstatisticasOfValid(v: seq<real>)
    requires v != [] && forall i :: 0 <= i < |v| ==> ValidarNota(v[i])
    ensures CalcularEstatisticas(v) == Ok(Estatisticas(
      Mean(v), Max(v), Min(v),
      Count(v, AtLeastSeven), Count(v, BelowFive), Count(v, FiveToSeven)))
  {
    AllValidKept(v);
  }

  /** Filtering a list of valid grades keeps all of them. */
  lemma {:induction false} AllValidKept(v: seq<real>)
    requires forall i :: 0 <= i < |v| ==> ValidarNota(v[i])
    ensures NotasValidas(v) == v
  {
    if v != [] {
      AllValidKept(v[1..]);
    }
  }

  /** The mean of a list whose length and sum are known. */
  lemma MeanOfSum(s: seq<real>, total: real, n: real, m: real)
    requires |s| > 0
    requires |s| as real == n
    requires Sum(s) == total
    requires m * n == total
    ensures Mean(s) == m
  {
  }

  // The statistics of [3, 5, 7, 9], one component at a time.

  lemma MeanExample()
    ensures Mean([3.0, 5.0, 7.0, 9.0]) == 6.0
  {
    var v := [3.0, 5.0, 7.0, 9.0];
    assert Sum(v) == 24.0;
    assert |v| as real == 4.0;
    MeanOfSum(v, 24.0, 4.0, 6.0);
  }

  lemma MaxMinExample()
    ensures Max([3.0, 5.0, 7.0, 9.0]) == 9.0 && Min([3.0, 5.0, 7.0, 9.0]) == 3.0
  {
  }

  lemma CountExample()
    ensures Count([3.0, 5.0, 7.0, 9.0], AtLeastSeven) == 2
    ensures Count([3.0, 5.0, 7.0, 9.0], FiveToSeven) == 1
    ensures Count([3.0, 5.0, 7.0, 9.0], BelowFive) == 1
  {
  }

  lemma EstatisticasExample()
    ensures CalcularEstatisticas([3.0, 5.0, 7.0, 9.0]) == Ok(Estatisticas(6.0, 9.0, 3.0, 2, 1, 1))
  {
    EstatisticasOfValid([3.0, 5.0, 7.0, 9.0]);
    MeanExample();
    MaxMinExample();
    CountExample();
  }

  lemma NormalizarExamples()
    ensures NormalizarNotas([10.0, 20.0], 20.0) == Ok([5.0, 10.0])
    ensures NormalizarNotas([50.0, 75.0, 100.0], 100.0) == Ok([5.0, 7.5, 10.0])
    ensures NormalizarNotas([5.0, 10.0], -10.0) == Err(InvalidMaxGrade)
    ensures NormalizarNotas([]) == Err(EmptyInput)
  {
    var r := NormalizarNotas([10.0, 20.0], 20.0).value;
    assert r[0] == 5.0 && r[1] == 10.0;
    assert r == [5.0, 10.0];
    r := NormalizarNotas([50.0, 75.0, 100.0], 100.0).value;
    assert r[0] == 5.0 && r[1] == 7.5 && r[2] == 10.0;
    assert r == [5.0, 7.5, 10.0];
  }
}
