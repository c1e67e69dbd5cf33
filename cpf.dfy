/** Validation and formatting of Brazilian taxpayer numbers (CPF), after atividade_02/cpf.py.

    A CPF is eleven decimal digits; the last two are check digits, each
    derived from a weighted sum modulo 11 of the digits before it.  The
    validator accepts formatted input ("111.444.777-35") because it first
    drops every character that is not a digit. */
module Cpf {

  datatype Option<T> = None | Some(value: T)

  /** The single failure of formatar_cpf (its ValueError "CPF inválido"). */
  datatype CpfError = InvalidCpf

  datatype Result<T> = Ok(value: T) | Err(error: CpfError)

  // ---------------------------------------------------------------------------
  // Digits

  /** A decimal digit; only the ASCII digits are modelled. */
  predicate IsDigit(c: char) {
    '0' <= c <= '9'
  }

  predicate AllDigits(s: string) {
    forall i :: 0 <= i < |s| ==> IsDigit(s[i])
  }

  /** The value of a digit character, as int() gives it. */
  function DigitValue(c: char): (d: int)
    requires IsDigit(c)
    ensures 0 <= d <= 9
  {
    c as int - '0' as int
  }

  /** The digit characters of s, in order: ''.join(filter(str.isdigit, s)). */
  function DigitsOnly(s: string): (r: string)
    ensures |r| <= |s|
    ensures AllDigits(r)
  {
    if s == [] then []
    else if IsDigit(s[0]) then [s[0]] + DigitsOnly(s[1..])
    else DigitsOnly(s[1..])
  }

  /** The digit values of a string of digits. */
  function Values(s: string): (d: seq<int>)
    requires AllDigits(s)
    ensures |d| == |s|
    ensures forall i :: 0 <= i < |d| ==> 0 <= d[i] <= 9
  {
    seq(|s|, i requires 0 <= i < |s| => DigitValue(s[i]))
  }

  /** The string made of n copies of c (Python's c * n). */
  function Repeat(c: char, n: nat): (r: string)
    ensures |r| == n
    ensures forall i :: 0 <= i < n ==> r[i] == c
  {
    seq(n, _ => c)
  }

  // ---------------------------------------------------------------------------
  // Check digits

  /** d[0] * top + d[1] * (top - 1) + ... + d[n - 1] * (top - n + 1): the value
      that the loop `for i in range(n): soma += d[i] * (top - i)` leaves. */
  function WeightedSum(d: seq<int>, n: nat, top: int): (r: int)
    requires n <= |d|
    ensures (forall i :: 0 <= i < n ==> 0 <= d[i]) && n <= top ==> 0 <= r
  {
    if n == 0 then 0
    else
      var rest := WeightedSum(d, n - 1, top);
      assert 0 <= d[n - 1] && n <= top ==> 0 <= d[n - 1] * (top - (n - 1));
      rest + d[n - 1] * (top - (n - 1))
  }

  /** The check digit for a weighted sum: 0 when the remainder modulo 11 is
      below 2, otherwise 11 minus the remainder. */
  function CheckDigit(soma: int): (r: int)
    ensures 0 <= r <= 9
    ensures r == 0 <==> soma % 11 < 2
  {
    var resto := soma % 11;
    if resto < 2 then 0 else 11 - resto
  }

  /** The unguarded expression 11 - resto leaves the digit range for exactly two
      remainders: it is 11 for remainder 0 and 10 for remainder 1.  Those are
      the remainders the `resto < 2` guard sends to 0. */
  lemma UnguardedCheckDigit(soma: int)
    ensures 11 - soma % 11 == 11 <==> soma % 11 == 0
    ensures 11 - soma % 11 == 10 <==> soma % 11 == 1
    ensures 11 - soma % 11 <= 9 <==> !(soma % 11 < 2)
    ensures soma % 11 < 2 ==> CheckDigit(soma) == 0
    ensures !(soma % 11 < 2) ==> CheckDigit(soma) == 11 - soma % 11
  {
  }

  /** The check digit agrees with the other common formulation, the value of
      10 * soma modulo 11, then modulo 10. */
  lemma CheckDigitAlternative(soma: int)
    ensures CheckDigit(soma) == (10 * soma) % 11 % 10
  {
    var q, r := soma / 11, soma % 11;
    assert soma == 11 * q + r;
    assert 10 * soma == 11 * (10 * q + r) - r;
    if r == 0 {
      assert (10 * soma) % 11 == 0;
    } else {
      assert 10 * soma == 11 * (10 * q + r - 1) + (11 - r);
      assert (10 * soma) % 11 == 11 - r;
    }
  }

  // ---------------------------------------------------------------------------
  // Validity

  /** All digits equal to the first one. */
  predicate AllSame(d: seq<int>) {
    forall i :: 0 <= i < |d| ==> d[i] == d[0]
  }

  /** The check digit computed from the first nine digits. */
  function FirstCheckDigit(d: seq<int>): (r: int)
    requires |d| == 11
    ensures 0 <= r <= 9
  {
    CheckDigit(WeightedSum(d, 9, 10))
  }

  /** The check digit computed from the first ten digits. */
  function SecondCheckDigit(d: seq<int>): (r: int)
    requires |d| == 11
    ensures 0 <= r <= 9
  {
    CheckDigit(WeightedSum(d, 10, 11))
  }

  /** Eleven digits, not all equal, whose last two are the two check digits. */
  predicate ValidDigits(d: seq<int>) {
    && |d| == 11
    && !AllSame(d)
    && d[9] == FirstCheckDigit(d)
    && d[10] == SecondCheckDigit(d)
  }

  /** What validar_cpf answers; None is the Python None. */
  predicate IsValidCpf(cpf: Option<string>) {
    cpf.Some? && ValidDigits(Values(DigitsOnly(cpf.value)))
  }

  /** Comparing a digit string with its first digit repeated is the same as
      asking whether all its digit values are equal. */
  lemma {:induction false} RepeatIffAllSame(s: string)
    requires AllDigits(s) && |s| > 0
    ensures s == Repeat(s[0], |s|) <==> AllSame(Values(s))
  {
    var d := Values(s);
    if AllSame(d) {
      forall i | 0 <= i < |s| ensures s[i] == s[0] {
        assert d[i] == DigitValue(s[i]) && d[0] == DigitValue(s[0]);
      }
    }
  }

  /** validar_cpf: drops non-digits, then rejects a length other than 11, a
      string of one repeated digit, and a wrong first or second check digit. */
  method ValidarCpf(cpf: Option<string>) returns (ok: bool)
    ensures ok == IsValidCpf(cpf)
  {
    if cpf.None? {
      return false;
    }
    var limpo := DigitsOnly(cpf.value);
    if |limpo| != 11 {
      return false;
    }
    ghost var d := Values(limpo);
    RepeatIffAllSame(limpo);
    if limpo == Repeat(limpo[0], 11) {
      return false;
    }

    var soma := 0;
    var i := 0;
    while i < 9
      invariant 0 <= i <= 9
      invariant soma == WeightedSum(d, i, 10)
    {
      soma := soma + DigitValue(limpo[i]) * (10 - i);
      i := i + 1;
    }
    var resto := soma % 11;
    var digito1 := if resto < 2 then 0 else 11 - resto;
    if DigitValue(limpo[9]) != digito1 {
      return false;
    }

    soma := 0;
    i := 0;
    while i < 10
      invariant 0 <= i <= 10
      invariant soma == WeightedSum(d, i, 11)
    {
      soma := soma + DigitValue(limpo[i]) * (11 - i);
      i := i + 1;
    }
    resto := soma % 11;
    var digito2 := if resto < 2 then 0 else 11 - resto;
    if DigitValue(limpo[10]) != digito2 {
      return false;
    }
    return true;
  }

  // ---------------------------------------------------------------------------
  // Properties of validity

  /** A digit string is its own digit string. */
  lemma {:induction false} DigitsOnlyOfDigits(s: string)
    requires AllDigits(s)
    ensures DigitsOnly(s) == s
  {
    if s != [] {
      DigitsOnlyOfDigits(s[1..]);
    }
  }

  /** Dropping non-digits distributes over concatenation. */
  lemma {:induction false} DigitsOnlyAppend(a: string, b: string)
    ensures DigitsOnly(a + b) == DigitsOnly(a) + DigitsOnly(b)
  {
    if a != [] {
      assert (a + b)[0] == a[0];
      assert (a + b)[1..] == a[1..] + b;
      DigitsOnlyAppend(a[1..], b);
    } else {
      assert a + b == b;
    }
  }

  /** Validity ignores separators: a string and its digits are judged alike. */
  lemma {:induction false} SeparatorsIgnored(s: string)
    ensures IsValidCpf(Some(s)) == IsValidCpf(Some(DigitsOnly(s)))
  {
    DigitsOnlyOfDigits(DigitsOnly(s));
  }

  /** The answer for a missing value is false. */
  lemma NoneIsInvalid()
    ensures !IsValidCpf(None)
  {
  }

  /** More or fewer than eleven digits is invalid, whatever they are. */
  lemma {:induction false} WrongLengthIsInvalid(s: string)
    requires |DigitsOnly(s)| != 11
    ensures !IsValidCpf(Some(s))
  {
  }

  /** Eleven equal digits are invalid. */
  lemma {:induction false} RepeatedDigitIsInvalid(s: string)
    requires AllSame(Values(DigitsOnly(s)))
    ensures !IsValidCpf(Some(s))
  {
  }

  /** The sum of the weights top, top - 1, ..., top - n + 1. */
  function WeightTotal(n: nat, top: int): int {
    if n == 0 then 0 else WeightTotal(n - 1, top) + (top - (n - 1))
  }

  /** Weighting n copies of c gives c times the sum of the weights. */
  lemma {:induction false} WeightedSumOfRepeat(d: seq<int>, c: int, n: nat, top: int)
    requires n <= |d|
    requires forall i :: 0 <= i < n ==> d[i] == c
    ensures WeightedSum(d, n, top) == c * WeightTotal(n, top)
  {
    if n > 0 {
      WeightedSumOfRepeat(d, c, n - 1, top);
      var w, t := WeightTotal(n - 1, top), top - (n - 1);
      assert c * w + c * t == c * (w + t);
    }
  }

  /** Each of the ten repeated-digit numbers satisfies both check digits (the
      sums are 54c and 65c, and both give check digit c), so the checksum alone
      would accept "00000000000" and "11111111111"; it is the repeated-digit
      rule that rejects them. */
  lemma RepeatedDigitsPassChecksum(c: int)
    requires 0 <= c <= 9
    ensures var d := seq(11, _ => c); d[9] == FirstCheckDigit(d) && d[10] == SecondCheckDigit(d)
    ensures !ValidDigits(seq(11, _ => c))
  {
    var d := seq(11, _ => c);
    WeightedSumOfRepeat(d, c, 9, 10);
    WeightedSumOfRepeat(d, c, 10, 11);
    assert WeightTotal(9, 10) == 54;
    assert WeightTotal(10, 11) == 65;
    CheckDigitOfRepeat(c);
  }

  /** The sums 54c and 65c of a repeated digit c both have check digit c. */
  lemma CheckDigitOfRepeat(c: int)
    requires 0 <= c <= 9
    ensures CheckDigit(54 * c) == c && CheckDigit(65 * c) == c
  {
    assert 54 * c == 11 * (4 * c) + 10 * c;
    assert 65 * c == 11 * (5 * c) + 10 * c;
    assert (54 * c) % 11 == (10 * c) % 11 == (65 * c) % 11;
    assert c == 0 || (10 * c) % 11 == 11 - c by {
      if c > 0 {
        assert 10 * c == 11 * (c - 1) + (11 - c);
      }
    }
  }

  // ---------------------------------------------------------------------------
  // Formatting

  /** formatar_cpf: fails unless the input is valid, otherwise lays its eleven
      digits out as DDD.DDD.DDD-DD. */
  function FormatarCpf(cpf: Option<string>): (r: Result<string>)
    ensures r.Err? <==> !IsValidCpf(cpf)
    ensures r.Ok? ==> |r.value| == 14 && r.value[3] == '.' && r.value[7] == '.' && r.value[11] == '-'
    ensures r.Ok? ==> forall i :: 0 <= i < 14 && i != 3 && i != 7 && i != 11 ==> IsDigit(r.value[i])
  {
    if !IsValidCpf(cpf) then Err(InvalidCpf)
    else
      var limpo := DigitsOnly(cpf.value);
      Ok(limpo[..3] + "." + limpo[3..6] + "." + limpo[6..9] + "-" + limpo[9..])
  }

  /** A separator between two strings contributes nothing to their digits. */
  lemma {:induction false} DigitsOnlySeparator(a: string, x: char, b: string)
    requires !IsDigit(x)
    ensures DigitsOnly(a + [x] + b) == DigitsOnly(a) + DigitsOnly(b)
  {
    assert a + [x] + b == a + ([x] + b);
    DigitsOnlyAppend(a, [x] + b);
    assert ([x] + b)[1..] == b;
  }

  /** Dropping the separators of DDD.DDD.DDD-DD gives back its digits. */
  lemma {:induction false} DigitsOnlyOfLayout(a: string, b: string, c: string, e: string)
    requires AllDigits(a) && AllDigits(b) && AllDigits(c) && AllDigits(e)
    ensures DigitsOnly(a + "." + b + "." + c + "-" + e) == a + b + c + e
  {
    DigitsOnlyOfDigits(a);
    DigitsOnlyOfDigits(b);
    DigitsOnlyOfDigits(c);
    DigitsOnlyOfDigits(e);
    var p1 := a + "." + b;
    DigitsOnlySeparator(a, '.', b);
    var p2 := p1 + "." + c;
    DigitsOnlySeparator(p1, '.', c);
    var p3 := p2 + "-" + e;
    DigitsOnlySeparator(p2, '-', e);
    assert p3 == a + "." + b + "." + c + "-" + e;
  }

  /** Formatting a number that is already valid digits adds nothing but the
      separators. */
  lemma {:induction false} LayoutValid(a: string, b: string, c: string, e: string)
    requires AllDigits(a) && AllDigits(b) && AllDigits(c) && AllDigits(e)
    ensures IsValidCpf(Some(a + "." + b + "." + c + "-" + e)) == IsValidCpf(Some(a + b + c + e))
  {
    DigitsOnlyOfLayout(a, b, c, e);
    SeparatorsIgnored(a + "." + b + "." + c + "-" + e);
  }

  /** Dropping the separators of the formatted number gives back the digits of
      the input. */
  lemma {:induction false} FormatStripRoundTrip(cpf: Option<string>)
    requires FormatarCpf(cpf).Ok?
    ensures DigitsOnly(FormatarCpf(cpf).value) == DigitsOnly(cpf.value)
  {
    var limpo := DigitsOnly(cpf.value);
    var a, b, c, e := limpo[..3], limpo[3..6], limpo[6..9], limpo[9..];
    assert limpo == a + b + c + e;
    DigitsOnlyOfLayout(a, b, c, e);
  }

  /** Formatting is idempotent: a formatted number is valid and formats to
      itself. */
  lemma {:induction false} FormatIdempotent(cpf: Option<string>)
    requires FormatarCpf(cpf).Ok?
    ensures IsValidCpf(Some(FormatarCpf(cpf).value))
    ensures FormatarCpf(Some(FormatarCpf(cpf).value)) == FormatarCpf(cpf)
  {
    var f := FormatarCpf(cpf).value;
    FormatStripRoundTrip(cpf);
    SeparatorsIgnored(f);
    SeparatorsIgnored(cpf.value);
    var limpo := DigitsOnly(cpf.value);
    assert f == limpo[..3] + "." + limpo[3..6] + "." + limpo[6..9] + "-" + limpo[9..];
  }

  // ---------------------------------------------------------------------------
  // Examples from the test suite

  /** A string of digits whose values are d is valid exactly when d is. */
  lemma {:induction false} DigitsExample(s: string, d: seq<int>)
    requires AllDigits(s) && |d| == |s|
    requires forall i :: 0 <= i < |s| ==> d[i] == DigitValue(s[i])
    ensures IsValidCpf(Some(s)) == ValidDigits(d)
  {
    DigitsOnlyOfDigits(s);
    assert Values(DigitsOnly(s)) == d;
  }

  // The check digits of the numbers used in the test suite, one lemma each.

  lemma CheckDigits11144477735()
    ensures ValidDigits([1, 1, 1, 4, 4, 4, 7, 7, 7, 3, 5])
  {
    var d := [1, 1, 1, 4, 4, 4, 7, 7, 7, 3, 5];
    assert d[3] != d[0];
    assert WeightedSum(d, 9, 10) == 162;
    assert WeightedSum(d, 10, 11) == 204;
  }

  lemma CheckDigits00000000191()
    ensures ValidDigits([0, 0, 0, 0, 0, 0, 0, 0, 1, 9, 1])
  {
    var d := [0, 0, 0, 0, 0, 0, 0, 0, 1, 9, 1];
    assert d[8] != d[0];
    assert WeightedSum(d, 9, 10) == 2;
    assert WeightedSum(d, 10, 11) == 21;
  }

  lemma CheckDigits52998224725()
    ensures ValidDigits([5, 2, 9, 9, 8, 2, 2, 4, 7, 2, 5])
  {
    var d := [5, 2, 9, 9, 8, 2, 2, 4, 7, 2, 5];
    assert d[1] != d[0];
    assert WeightedSum(d, 9, 10) == 295;
    assert WeightedSum(d, 10, 11) == 347;
  }

  /** The first check digit of 123456789-01 is right; the second is not. */
  lemma CheckDigits12345678901()
    ensures var d := [1, 2, 3, 4, 5, 6, 7, 8, 9, 0, 1]; d[9] == FirstCheckDigit(d) && d[10] != SecondCheckDigit(d)
    ensures !ValidDigits([1, 2, 3, 4, 5, 6, 7, 8, 9, 0, 1])
  {
    var d := [1, 2, 3, 4, 5, 6, 7, 8, 9, 0, 1];
    assert WeightedSum(d, 9, 10) == 210;
    assert WeightedSum(d, 10, 11) == 255;
  }

  lemma Valid11144477735()
    ensures IsValidCpf(Some("11144477735"))
  {
    CheckDigits11144477735();
    var s := "11144477735";
    assert |s| == 11;
    DigitsExample(s, [1, 1, 1, 4, 4, 4, 7, 7, 7, 3, 5]);
  }

  lemma Valid00000000191()
    ensures IsValidCpf(Some("00000000191"))
  {
    CheckDigits00000000191();
    var s := "00000000191";
    assert |s| == 11;
    DigitsExample(s, [0, 0, 0, 0, 0, 0, 0, 0, 1, 9, 1]);
  }

  lemma Valid52998224725()
    ensures IsValidCpf(Some("52998224725"))
  {
    CheckDigits52998224725();
    var s := "52998224725";
    assert |s| == 11;
    DigitsExample(s, [5, 2, 9, 9, 8, 2, 2, 4, 7, 2, 5]);
  }

  lemma Invalid12345678901()
    ensures !IsValidCpf(Some("12345678901"))
  {
    CheckDigits12345678901();
    var s := "12345678901";
    assert |s| == 11;
    DigitsExample(s, [1, 2, 3, 4, 5, 6, 7, 8, 9, 0, 1]);
  }

  lemma Valid111444777Dash35()
    ensures IsValidCpf(Some("111.444.777-35"))
  {
    assert IsValidCpf(Some("111.444.777-35")) == IsValidCpf(Some("11144477735")) by {
      LayoutValid("111", "444", "777", "35");
      assert "111" + "." + "444" + "." + "777" + "-" + "35" == "111.444.777-35";
      assert "111" + "444" + "777" + "35" == "11144477735";
    }
    Valid11144477735();
  }

  /** Ten digits followed by a non-digit leave ten digits: invalid. */
  lemma {:induction false} TenDigitsAndALetter(s: string, x: char)
    requires AllDigits(s) && |s| == 10 && !IsDigit(x)
    ensures !IsValidCpf(Some(s + [x]))
  {
    DigitsOnlyAppend(s, [x]);
    DigitsOnlyOfDigits(s);
    assert DigitsOnly([x]) == [];
    WrongLengthIsInvalid(s + [x]);
  }

  lemma InvalidWithLetter()
    ensures !IsValidCpf(Some("1234567890a"))
  {
    assert "1234567890" + "a" == "1234567890a";
    TenDigitsAndALetter("1234567890", 'a');
  }

  lemma InvalidEmpty()
    ensures !IsValidCpf(Some(""))
  {
  }

  /** The formatting of a valid string of eleven digits. */
  lemma {:induction false} FormatOfDigits(s: string)
    requires AllDigits(s) && IsValidCpf(Some(s))
    ensures FormatarCpf(Some(s)) == Ok(s[..3] + "." + s[3..6] + "." + s[6..9] + "-" + s[9..])
  {
    DigitsOnlyOfDigits(s);
  }

  /** formatar_cpf refuses the number whose second check digit is wrong. */
  lemma Formatar12345678901()
    ensures FormatarCpf(Some("12345678901")) == Err(InvalidCpf)
  {
    Invalid12345678901();
  }
}
