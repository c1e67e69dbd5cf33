/** Freight calculation, after atividade_03/frete.py.

    The fee depends on the weight (three tiers), the destination zone (three
    multipliers) and the order value (orders above 200 ship free).  The
    destination is free text, trimmed, lower-cased and looked up in a fixed
    table of spellings.  Weights, values and fees are exact reals. */
module Freight {

  /** The ValueErrors of the module, one variant per kind of message. */
  datatype FreightError =
    | InvalidWeight       // "Peso deve ser maior que zero", "Peso acima de 20 kg não é aceito"
    | InvalidOrderValue   // "Valor do pedido não pode ser negativo"
    | InvalidDestination  // "Destino inválido"

  datatype Result<T> = Ok(value: T) | Err(error: FreightError)

  /** The three internal destination keys. */
  datatype Zona = MesmaRegiao | OutraRegiao | Internacional

  // ---------------------------------------------------------------------------
  // Text normalisation: str.strip() and str.lower()

  /** The characters str.isspace() accepts, which str.strip() removes. */
  predicate IsSpace(c: char) {
    || '\t' <= c <= '\r'
    || '\U{1C}' <= c <= ' '
    || c == '\U{85}' || c == '\U{A0}' || c == '\U{1680}'
    || '\U{2000}' <= c <= '\U{200A}'
    || c == '\U{2028}' || c == '\U{2029}' || c == '\U{202F}' || c == '\U{205F}'
    || c == '\U{3000}'
  }

  predicate AllSpace(s: string) {
    forall i :: 0 <= i < |s| ==> IsSpace(s[i])
  }

  /** The leading whitespace removed. */
  function TrimStart(s: string): string {
    if s != [] && IsSpace(s[0]) then TrimStart(s[1..]) else s
  }

  /** The trailing whitespace removed. */
  function TrimEnd(s: string): string {
    if s != [] && IsSpace(s[|s| - 1]) then TrimEnd(s[..|s| - 1]) else s
  }

  /** str.strip(): whitespace removed at both ends. */
  function Strip(s: string): string {
    TrimEnd(TrimStart(s))
  }

  /** TrimStart keeps a suffix of its input, removes only whitespace, and
      leaves no whitespace at the front. */
  lemma {:induction false} TrimStartFacts(s: string)
    ensures |TrimStart(s)| <= |s| && TrimStart(s) == s[|s| - |TrimStart(s)|..]
    ensures AllSpace(s[..|s| - |TrimStart(s)|])
    ensures TrimStart(s) == [] || !IsSpace(TrimStart(s)[0])
  {
    if s != [] && IsSpace(s[0]) {
      TrimStartFacts(s[1..]);
      var r := TrimStart(s[1..]);
      assert s[1..][|s| - 1 - |r|..] == s[|s| - |r|..];
      assert s[..|s| - |r|] == [s[0]] + s[1..][..|s| - 1 - |r|];
    }
  }

  /** TrimEnd keeps a prefix of its input, removes only whitespace, and
      leaves no whitespace at the back. */
  lemma {:induction false} TrimEndFacts(s: string)
    ensures |TrimEnd(s)| <= |s| && TrimEnd(s) == s[..|TrimEnd(s)|]
    ensures AllSpace(s[|TrimEnd(s)|..])
    ensures TrimEnd(s) == [] || !IsSpace(TrimEnd(s)[|TrimEnd(s)| - 1])
  {
    if s != [] && IsSpace(s[|s| - 1]) {
      TrimEndFacts(s[..|s| - 1]);
      var r := TrimEnd(s[..|s| - 1]);
      assert s[..|s| - 1][..|r|] == s[..|r|];
      assert s[|r|..] == s[..|s| - 1][|r|..] + [s[|s| - 1]];
    }
  }

  /** Trimming the back of a text that does not start with whitespace keeps
      its first character. */
  lemma {:induction false} TrimEndKeepsFront(s: string)
    requires s != [] && !IsSpace(s[0])
    ensures TrimEnd(s) != [] && TrimEnd(s)[0] == s[0]
  {
    if IsSpace(s[|s| - 1]) {
      TrimEndKeepsFront(s[..|s| - 1]);
    }
  }

  /** Stripped text neither starts nor ends with whitespace and is no longer
      than the input. */
  lemma StripFacts(s: string)
    ensures Strip(s) == [] || (!IsSpace(Strip(s)[0]) && !IsSpace(Strip(s)[|Strip(s)| - 1]))
    ensures |Strip(s)| <= |s|
  {
    TrimStartFacts(s);
    TrimEndFacts(TrimStart(s));
    if TrimStart(s) != [] {
      TrimEndKeepsFront(TrimStart(s));
    }
  }

  /** Text made only of whitespace trims to nothing. */
  lemma {:induction false} TrimStartAllSpace(w: string)
    requires AllSpace(w)
    ensures TrimStart(w) == []
  {
    if w != [] {
      TrimStartAllSpace(w[1..]);
    }
  }

  /** The capitals str.lower() changes, within Latin-1: 'A'..'Z' and the
      accented capitals U+00C0..U+00DE except the sign U+00D7. */
  predicate IsCapital(c: char) {
    'A' <= c <= 'Z' || ('\U{C0}' <= c <= '\U{DE}' && c != '\U{D7}')
  }

  /** The small letters that pair with the capitals: 'a'..'z' and
      U+00E0..U+00FE except the sign U+00F7. */
  predicate IsSmall(c: char) {
    'a' <= c <= 'z' || ('\U{E0}' <= c <= '\U{FE}' && c != '\U{F7}')
  }

  /** The capital of a small letter, 32 below it; every other character is
      left as it is.  Used only to state what lower-casing undoes. */
  function UpperChar(c: char): (r: char)
    ensures IsSmall(c) ==> IsCapital(r)
    ensures !IsSmall(c) ==> r == c
    ensures IsSpace(r) <==> IsSpace(c)
  {
    if IsSmall(c) then (c as int - 32) as char else c
  }

  /** str.lower() on one character: a capital becomes the small letter whose
      capital it is; every other character is left as it is.  The result is
      never a capital, and whitespace stays whitespace. */
  function LowerChar(c: char): (r: char)
    ensures !IsCapital(r)
    ensures IsCapital(c) ==> IsSmall(r) && UpperChar(r) == c
    ensures !IsCapital(c) ==> r == c
    ensures IsSpace(r) <==> IsSpace(c)
  {
    if IsCapital(c) then (c as int + 32) as char else c
  }

  /** Lower-casing undoes upper-casing on every character that is not
      itself a capital. */
  lemma LowerOfUpperChar(c: char)
    requires !IsCapital(c)
    ensures LowerChar(UpperChar(c)) == c
  {
  }

  /** Lower-casing keeps whitespace and non-whitespace apart. */
  lemma {:induction false} LowerKeepsSpace(s: string)
    ensures forall i :: 0 <= i < |s| ==> (IsSpace(Lower(s)[i]) <==> IsSpace(s[i]))
  {
  }

  /** str.lower(), character by character. */
  function Lower(s: string): (r: string)
    ensures |r| == |s|
    ensures forall i :: 0 <= i < |s| ==> r[i] == LowerChar(s[i])
  {
    seq(|s|, i requires 0 <= i < |s| => LowerChar(s[i]))
  }

  /** Upper-casing, character by character, for stating case-insensitivity. */
  function Upper(s: string): (r: string)
    ensures |r| == |s|
    ensures forall i :: 0 <= i < |s| ==> r[i] == UpperChar(s[i])
  {
    seq(|s|, i requires 0 <= i < |s| => UpperChar(s[i]))
  }

  /** Lower-casing undoes upper-casing on a text without capitals. */
  lemma {:induction false} LowerOfUpper(s: string)
    requires forall i :: 0 <= i < |s| ==> !IsCapital(s[i])
    ensures Lower(Upper(s)) == s
  {
    forall i | 0 <= i < |s| ensures Lower(Upper(s))[i] == s[i] {
      LowerOfUpperChar(s[i]);
    }
  }

  /** Lower-casing twice is lower-casing once. */
  lemma {:induction false} LowerIdempotent(s: string)
    ensures Lower(Lower(s)) == Lower(s)
  {
  }

  // ---------------------------------------------------------------------------
  // _normalizar_destino

  /** The table `equivalencias`: accepted spellings of the three zones. */
  const Equivalencias: map<string, Zona> := map[
    "mesma_regiao" := MesmaRegiao,
    "mesma regiao" := MesmaRegiao,
    "mesma regi\U{E3}o" := MesmaRegiao,
    "outra_regiao" := OutraRegiao,
    "outra regiao" := OutraRegiao,
    "outra regi\U{E3}o" := OutraRegiao,
    "internacional" := Internacional
  ]

  /** The spelling used by callers and by the tests for each zone. */
  function Chave(z: Zona): string {
    match z
    case MesmaRegiao => "mesma_regiao"
    case OutraRegiao => "outra_regiao"
    case Internacional => "internacional"
  }

  /** _normalizar_destino: trims, lower-cases and looks the text up in the
      table; any text not in the table is an invalid destination. */
  function NormalizarDestino(destino: string): (r: Result<Zona>)
    ensures r.Err? ==> r.error == InvalidDestination
    ensures r.Ok? <==> Lower(Strip(destino)) in Equivalencias
    ensures r.Ok? ==> Equivalencias[Lower(Strip(destino))] == r.value
  {
    var texto := Lower(Strip(destino));
    if texto !in Equivalencias then Err(InvalidDestination)
    else Ok(Equivalencias[texto])
  }

  /** Text without surrounding whitespace and without capitals is looked up
      as it stands. */
  lemma {:induction false} PlainText(s: string)
    requires s != [] && !IsSpace(s[0]) && !IsSpace(s[|s| - 1])
    requires forall i :: 0 <= i < |s| ==> LowerChar(s[i]) == s[i]
    ensures NormalizarDestino(s) == if s in Equivalencias then Ok(Equivalencias[s]) else Err(InvalidDestination)
  {
    assert TrimStart(s) == s;
    assert Lower(s) == s;
  }

  /** Every zone's own key is accepted and names that zone. */
  lemma ChaveRoundTrip(z: Zona)
    ensures NormalizarDestino(Chave(z)) == Ok(z)
  {
    match z
    case MesmaRegiao => SpellingMesmaRegiaoUnderscore();
    case OutraRegiao => SpellingOutraRegiaoUnderscore();
    case Internacional => SpellingInternacional();
  }

  /** Whitespace at the start contributes nothing. */
  lemma {:induction false} TrimStartAfterSpace(w: string, s: string)
    requires AllSpace(w)
    ensures TrimStart(w + s) == TrimStart(s)
  {
    if w != [] {
      assert (w + s)[1..] == w[1..] + s;
      TrimStartAfterSpace(w[1..], s);
    } else {
      assert w + s == s;
    }
  }

  /** Whitespace at the end contributes nothing. */
  lemma {:induction false} TrimEndBeforeSpace(s: string, w: string)
    requires AllSpace(w)
    ensures TrimEnd(s + w) == TrimEnd(s)
  {
    if w != [] {
      var w' := w[..|w| - 1];
      assert (s + w)[..|s + w| - 1] == s + w';
      TrimEndBeforeSpace(s, w');
    } else {
      assert s + w == s;
    }
  }

  /** Trailing whitespace does not change what stripping leaves. */
  lemma {:induction false} StripBeforeSpace(s: string, w: string)
    requires AllSpace(w)
    ensures TrimEnd(TrimStart(s + w)) == TrimEnd(TrimStart(s))
  {
    if s == [] {
      assert s + w == w;
      TrimStartAllSpace(w);
    } else if IsSpace(s[0]) {
      assert (s + w)[1..] == s[1..] + w;
      StripBeforeSpace(s[1..], w);
    } else {
      TrimEndBeforeSpace(s, w);
    }
  }

  /** Stripping ignores whitespace at both ends. */
  lemma {:induction false} StripIgnoresPadding(w1: string, s: string, w2: string)
    requires AllSpace(w1) && AllSpace(w2)
    ensures Strip(w1 + s + w2) == Strip(s)
  {
    var t := s + w2;
    assert w1 + s + w2 == w1 + t;
    calc {
      Strip(w1 + s + w2);
      TrimEnd(TrimStart(w1 + t));
      { TrimStartAfterSpace(w1, t); }
      TrimEnd(TrimStart(t));
      { StripBeforeSpace(s, w2); }
      TrimEnd(TrimStart(s));
      Strip(s);
    }
  }

  /** Lower-casing and trimming the start commute: lower-casing keeps
      whitespace and non-whitespace apart. */
  lemma {:induction false} TrimStartLower(s: string)
    ensures TrimStart(Lower(s)) == Lower(TrimStart(s))
  {
    LowerKeepsSpace(s);
    if s != [] && IsSpace(s[0]) {
      assert Lower(s)[1..] == Lower(s[1..]);
      TrimStartLower(s[1..]);
    }
  }

  lemma {:induction false} TrimEndLower(s: string)
    ensures TrimEnd(Lower(s)) == Lower(TrimEnd(s))
  {
    LowerKeepsSpace(s);
    if s != [] && IsSpace(s[|s| - 1]) {
      assert Lower(s)[..|s| - 1] == Lower(s[..|s| - 1]);
      TrimEndLower(s[..|s| - 1]);
    }
  }

  /** The destination ignores surrounding whitespace, and lower-casing it
      first changes nothing; UpperKeyAccepted and CaseVariantAccepted show
      that capitals are accepted. */
  lemma {:induction false} NormalizarIgnoresCaseAndPadding(w1: string, destino: string, w2: string)
    requires AllSpace(w1) && AllSpace(w2)
    ensures NormalizarDestino(Lower(destino)) == NormalizarDestino(destino)
    ensures NormalizarDestino(w1 + destino + w2) == NormalizarDestino(destino)
  {
    TrimStartLower(destino);
    TrimEndLower(TrimStart(destino));
    LowerIdempotent(Strip(destino));
    StripIgnoresPadding(w1, destino, w2);
  }

  // The seven spellings of the table, one lemma each, and a text that is not in it.

  lemma SpellingMesmaRegiaoUnderscore()
    ensures NormalizarDestino("mesma_regiao") == Ok(MesmaRegiao)
  {
    PlainText("mesma_regiao");
  }

  lemma SpellingMesmaRegiaoSpace()
    ensures NormalizarDestino("mesma regiao") == Ok(MesmaRegiao)
  {
    PlainText("mesma regiao");
  }

  lemma SpellingMesmaRegiaoAccent()
    ensures NormalizarDestino("mesma regi\U{E3}o") == Ok(MesmaRegiao)
  {
    PlainText("mesma regi\U{E3}o");
  }

  lemma SpellingOutraRegiaoUnderscore()
    ensures NormalizarDestino("outra_regiao") == Ok(OutraRegiao)
  {
    PlainText("outra_regiao");
  }

  lemma SpellingOutraRegiaoSpace()
    ensures NormalizarDestino("outra regiao") == Ok(OutraRegiao)
  {
    PlainText("outra regiao");
  }

  lemma SpellingOutraRegiaoAccent()
    ensures NormalizarDestino("outra regi\U{E3}o") == Ok(OutraRegiao)
  {
    PlainText("outra regi\U{E3}o");
  }

  lemma SpellingInternacional()
    ensures NormalizarDestino("internacional") == Ok(Internacional)
  {
    PlainText("internacional");
  }

  /** Every key of the table is already stripped and lower-cased, so each
      spelling the table lists is accepted with its own zone. */
  lemma EquivalenciasAccepted(k: string)
    requires k in Equivalencias
    ensures NormalizarDestino(k) == Ok(Equivalencias[k])
  {
    if k == "mesma_regiao" { SpellingMesmaRegiaoUnderscore(); }
    else if k == "mesma regiao" { SpellingMesmaRegiaoSpace(); }
    else if k == "mesma regi\U{E3}o" { SpellingMesmaRegiaoAccent(); }
    else if k == "outra_regiao" { SpellingOutraRegiaoUnderscore(); }
    else if k == "outra regiao" { SpellingOutraRegiaoSpace(); }
    else if k == "outra regi\U{E3}o" { SpellingOutraRegiaoAccent(); }
    else { SpellingInternacional(); }
  }

  /** The keys of the table are non-empty, have no whitespace at either
      end and hold no capitals. */
  lemma KeysPlain(k: string)
    requires k in Equivalencias
    ensures k != [] && !IsSpace(k[0]) && !IsSpace(k[|k| - 1])
    ensures forall i :: 0 <= i < |k| ==> !IsCapital(k[i])
  {
  }

  /** Every key written in capitals is accepted with its own zone. */
  lemma {:induction false} UpperKeyAccepted(k: string)
    requires k in Equivalencias
    ensures NormalizarDestino(Upper(k)) == Ok(Equivalencias[k])
  {
    KeysPlain(k);
    var u := Upper(k);
    assert TrimStart(u) == u;
    assert TrimEnd(u) == u;
    LowerOfUpper(k);
  }

  /** Any mix of capitals and small letters of a key, padded with
      whitespace, is accepted with that key's zone. */
  lemma {:induction false} CaseVariantAccepted(w1: string, t: string, w2: string, k: string)
    requires AllSpace(w1) && AllSpace(w2)
    requires k in Equivalencias && Lower(t) == k
    ensures NormalizarDestino(w1 + t + w2) == Ok(Equivalencias[k])
  {
    NormalizarIgnoresCaseAndPadding(w1, t, w2);
    EquivalenciasAccepted(k);
  }

  /** " Outra Regi\U{C3}O " is another region. */
  lemma MixedCaseOutraRegiao()
    ensures NormalizarDestino(" Outra Regi\U{C3}O ") == Ok(OutraRegiao)
  {
    var t := "Outra Regi\U{C3}O";
    assert Lower(t) == "outra regi\U{E3}o";
    assert " " + t + " " == " Outra Regi\U{C3}O ";
    CaseVariantAccepted(" ", t, " ", "outra regi\U{E3}o");
  }

  lemma UnknownDestination()
    ensures NormalizarDestino("interplanetario") == Err(InvalidDestination)
  {
    PlainText("interplanetario");
  }

  /** The accented capital of the table's keys lower-cases to the key's letter. */
  lemma AccentedCapital()
    ensures LowerChar('\U{C3}') == '\U{E3}'
  {
  }

  // ---------------------------------------------------------------------------
  // calcular_frete

  /** The weight tier of calcular_frete: 10 up to 1 kg, 15 up to 5 kg, else 25. */
  function FreteBase(peso: real): (r: real)
    ensures r == 10.0 || r == 15.0 || r == 25.0
  {
    if peso <= 1.0 then 10.0
    else if peso <= 5.0 then 15.0
    else 25.0
  }

  /** The table `multiplicadores`. */
  function Multiplicador(z: Zona): (m: real)
    ensures m >= 1.0
  {
    match z
    case MesmaRegiao => 1.0
    case OutraRegiao => 1.5
    case Internacional => 2.0
  }

  /** calcular_frete: checks the weight, then the order value; an order above
      200 ships free before the destination is looked at; otherwise the fee is
      the weight tier times the zone multiplier. */
  function CalcularFrete(peso: real, destino: string, valorPedido: real): (r: Result<real>)
    ensures r == Err(InvalidWeight) <==> peso <= 0.0 || peso > 20.0
    ensures r == Err(InvalidOrderValue) <==> 0.0 < peso <= 20.0 && valorPedido < 0.0
    ensures r == Err(InvalidDestination) <==>
      0.0 < peso <= 20.0 && 0.0 <= valorPedido <= 200.0 && NormalizarDestino(destino).Err?
    ensures 0.0 < peso <= 20.0 && valorPedido > 200.0 ==> r == Ok(0.0)
    ensures r.Ok? && valorPedido <= 200.0 ==>
      r.value == FreteBase(peso) * Multiplicador(NormalizarDestino(destino).value)
  {
    if peso <= 0.0 then Err(InvalidWeight)
    else if peso > 20.0 then Err(InvalidWeight)
    else if valorPedido < 0.0 then Err(InvalidOrderValue)
    else if valorPedido > 200.0 then Ok(0.0)
    else
      match NormalizarDestino(destino)
      case Err(e) => Err(e)
      case Ok(zona) => Ok(FreteBase(peso) * Multiplicador(zona))
  }

  /** Every fee is one of nine amounts: free, or a tier (10, 15, 25) times a
      multiplier (1, 1.5, 2). */
  lemma {:induction false} FreteValues(peso: real, destino: string, valorPedido: real)
    requires CalcularFrete(peso, destino, valorPedido).Ok?
    ensures CalcularFrete(peso, destino, valorPedido).value in
      {0.0, 10.0, 15.0, 20.0, 22.5, 25.0, 30.0, 37.5, 50.0}
  {
    if valorPedido <= 200.0 {
      ChargedFee(peso, destino, valorPedido);
      match NormalizarDestino(destino).value
      case MesmaRegiao =>
      case OutraRegiao =>
      case Internacional =>
    }
  }

  /** The fee is never negative. */
  lemma {:induction false} FreteNonNegative(peso: real, destino: string, valorPedido: real)
    requires CalcularFrete(peso, destino, valorPedido).Ok?
    ensures CalcularFrete(peso, destino, valorPedido).value >= 0.0
  {
    FreteValues(peso, destino, valorPedido);
  }

  /** The weight tier never decreases with the weight. */
  lemma FreteBaseMonotone(a: real, b: real)
    requires a <= b
    ensures FreteBase(a) <= FreteBase(b)
  {
  }

  /** For the same zone and order value, a heavier parcel never costs less. */
  lemma {:induction false} FreteMonotoneInWeight(a: real, b: real, destino: string, valorPedido: real)
    requires CalcularFrete(a, destino, valorPedido).Ok? && 0.0 < b <= 20.0 && a <= b
    ensures CalcularFrete(b, destino, valorPedido).Ok?
    ensures CalcularFrete(a, destino, valorPedido).value <= CalcularFrete(b, destino, valorPedido).value
  {
    if valorPedido <= 200.0 {
      assert NormalizarDestino(destino).Ok?;
      var m := Multiplicador(NormalizarDestino(destino).value);
      assert CalcularFrete(a, destino, valorPedido) == Ok(FreteBase(a) * m) by {
        ChargedFee(a, destino, valorPedido);
      }
      assert CalcularFrete(b, destino, valorPedido) == Ok(FreteBase(b) * m) by {
        ChargedFee(b, destino, valorPedido);
      }
      assert FreteBase(a) * m <= FreteBase(b) * m by {
        FreteBaseMonotone(a, b);
        ScaleMonotone(FreteBase(a), FreteBase(b), m);
      }
    } else {
      assert CalcularFrete(a, destino, valorPedido) == Ok(0.0);
      assert CalcularFrete(b, destino, valorPedido) == Ok(0.0);
    }
  }

  /** A charged fee is the weight tier times the zone multiplier. */
  lemma {:induction false} ChargedFee(peso: real, destino: string, valorPedido: real)
    requires 0.0 < peso <= 20.0 && 0.0 <= valorPedido <= 200.0
    requires NormalizarDestino(destino).Ok?
    ensures CalcularFrete(peso, destino, valorPedido) ==
      Ok(FreteBase(peso) * Multiplicador(NormalizarDestino(destino).value))
  {
  }

  /** Scaling by a non-negative factor keeps the order. */
  lemma ScaleMonotone(x: real, y: real, m: real)
    requires x <= y && m >= 0.0
    ensures x * m <= y * m
  {
    assert y * m - x * m == (y - x) * m;
  }

  /** For the same weight and an order value that is charged, the same region
      costs no more than another region, which costs no more than abroad. */
  lemma {:induction false} ZoneOrdering(peso: real, valorPedido: real, mesma: string, outra: string, exterior: string)
    requires 0.0 < peso <= 20.0 && 0.0 <= valorPedido <= 200.0
    requires NormalizarDestino(mesma) == Ok(MesmaRegiao)
    requires NormalizarDestino(outra) == Ok(OutraRegiao)
    requires NormalizarDestino(exterior) == Ok(Internacional)
    ensures CalcularFrete(peso, mesma, valorPedido).Ok?
    ensures CalcularFrete(peso, outra, valorPedido).Ok?
    ensures CalcularFrete(peso, exterior, valorPedido).Ok?
    ensures CalcularFrete(peso, mesma, valorPedido).value <= CalcularFrete(peso, outra, valorPedido).value
    ensures CalcularFrete(peso, outra, valorPedido).value <= CalcularFrete(peso, exterior, valorPedido).value
  {
    var b := FreteBase(peso);
    assert CalcularFrete(peso, mesma, valorPedido) == Ok(b * 1.0) by {
      ChargedFee(peso, mesma, valorPedido);
    }
    assert CalcularFrete(peso, outra, valorPedido) == Ok(b * 1.5) by {
      ChargedFee(peso, outra, valorPedido);
    }
    assert CalcularFrete(peso, exterior, valorPedido) == Ok(b * 2.0) by {
      ChargedFee(peso, exterior, valorPedido);
    }
  }

  /** The fees of the test suite. */
  lemma FreteExamples()
    ensures CalcularFrete(0.5, "mesma_regiao", 100.0) == Ok(10.0)
    ensures CalcularFrete(3.0, "mesma_regiao", 100.0) == Ok(15.0)
    ensures CalcularFrete(10.0, "mesma_regiao", 100.0) == Ok(25.0)
    ensures CalcularFrete(10.0, "outra_regiao", 100.0) == Ok(37.5)
    ensures CalcularFrete(10.0, "internacional", 100.0) == Ok(50.0)
    ensures CalcularFrete(5.0, "outra_regiao", 100.0) == Ok(22.5)
    ensures CalcularFrete(5.0, "internacional", 100.0) == Ok(30.0)
    ensures CalcularFrete(5.0, "internacional", 201.0) == Ok(0.0)
  {
    SpellingMesmaRegiaoUnderscore();
    SpellingOutraRegiaoUnderscore();
    SpellingInternacional();
  }

  /** The errors of the test suite. */
  lemma FreteErrorExamples()
    ensures CalcularFrete(0.0, "mesma_regiao", 100.0) == Err(InvalidWeight)
    ensures CalcularFrete(21.0, "mesma_regiao", 100.0) == Err(InvalidWeight)
    ensures CalcularFrete(5.0, "interplanetario", 100.0) == Err(InvalidDestination)
    ensures CalcularFrete(5.0, "mesma_regiao", -1.0) == Err(InvalidOrderValue)
  {
    UnknownDestination();
  }

  /** The weight boundaries 1, 5 and 20 of the test suite. */
  lemma FreteWeightBoundaries()
    ensures CalcularFrete(0.99, "mesma_regiao", 100.0) == Ok(10.0)
    ensures CalcularFrete(1.0, "mesma_regiao", 100.0) == Ok(10.0)
    ensures CalcularFrete(1.01, "mesma_regiao", 100.0) == Ok(15.0)
    ensures CalcularFrete(4.99, "mesma_regiao", 100.0) == Ok(15.0)
    ensures CalcularFrete(5.0, "mesma_regiao", 100.0) == Ok(15.0)
    ensures CalcularFrete(5.01, "mesma_regiao", 100.0) == Ok(25.0)
    ensures CalcularFrete(19.99, "mesma_regiao", 100.0) == Ok(25.0)
    ensures CalcularFrete(20.0, "mesma_regiao", 100.0) == Ok(25.0)
    ensures CalcularFrete(20.01, "mesma_regiao", 100.0) == Err(InvalidWeight)
  {
    SpellingMesmaRegiaoUnderscore();
  }
}
