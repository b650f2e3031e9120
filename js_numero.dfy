/**
 * JavaScript numbers as this model needs them: a finite value (held exactly, as a real)
 * or NaN, and `Number(s)` applied to a string.
 */
module JsNumero {
  import opened Base
  import opened JsTexto

  datatype JsNum = Num(v: real) | NaN

  function Pot10(k: nat): (r: nat)
    ensures r >= 1
  {
    if k == 0 then 1 else 10 * Pot10(k - 1)
  }

  /** `m` times ten to the power `e`. */
  function Escalar(m: real, e: int): (r: real)
    ensures m >= 0.0 ==> r >= 0.0
  {
    if e >= 0 then m * Pot10(e) as real else m / Pot10(-e) as real
  }

  predicate SoDigitos(d: string) {
    forall i :: 0 <= i < |d| ==> EhDigito(d[i])
  }

  /** The value of a string of decimal digits. */
  function ValorDigitos(d: string): nat
    requires SoDigitos(d)
  {
    if d == [] then 0
    else
      var c := d[|d| - 1];
      assert EhDigito(c);
      10 * ValorDigitos(d[..|d| - 1]) + (c as int - '0' as int)
  }

  /** The length of the run of digits in `s` that starts at position `i`. */
  function DigitosDesde(s: string, i: nat): (n: nat)
    requires i <= |s|
    ensures i + n <= |s|
    ensures i + n == |s| || !EhDigito(s[i + n])
    decreases |s| - i
  {
    if i < |s| && EhDigito(s[i]) then 1 + DigitosDesde(s, i + 1) else 0
  }

  /** Every character of the run `DigitosDesde` finds is a digit. */
  lemma {:induction false} DigitosSao(s: string, i: nat)
    requires i <= |s|
    ensures forall k :: i <= k < i + DigitosDesde(s, i) ==> EhDigito(s[k])
    decreases |s| - i
  {
    if i < |s| && EhDigito(s[i]) {
      DigitosSao(s, i + 1);
    }
  }

  /** A run of digits from `i` to `j`, followed by the end or a non-digit, is the run `DigitosDesde` finds. */
  lemma {:induction false} DigitosAte(s: string, i: nat, j: nat)
    requires i <= j <= |s| && forall k :: i <= k < j ==> EhDigito(s[k])
    requires j == |s| || !EhDigito(s[j])
    ensures DigitosDesde(s, i) == j - i
    decreases j - i
  {
    if i < j {
      DigitosAte(s, i + 1, j);
    }
  }

  /** The value of the digits `s[i..j]`, read in place. */
  function ValorEntre(s: string, i: nat, j: nat): nat
    requires i <= j <= |s| && forall k :: i <= k < j ==> EhDigito(s[k])
    decreases j - i
  {
    if j == i then 0
    else
      assert EhDigito(s[j - 1]);
      10 * ValorEntre(s, i, j - 1) + (s[j - 1] as int - '0' as int)
  }

  /** Reading digits in place is reading the slice. */
  lemma {:induction false} ValorEntreFatia(s: string, i: nat, j: nat)
    requires i <= j <= |s| && forall k :: i <= k < j ==> EhDigito(s[k])
    ensures SoDigitos(s[i..j]) && ValorEntre(s, i, j) == ValorDigitos(s[i..j])
    decreases j - i
  {
    if i < j {
      ValorEntreFatia(s, i, j - 1);
      assert s[i..j][..j - i - 1] == s[i..j - 1];
    }
  }

  /** The exponent part from position `i`: nothing (exponent 0), or [eE][+-]?digits up to the end. */
  function ExpoenteDesde(s: string, i: nat): Option<int>
    requires i <= |s|
  {
    if i == |s| then Some(0)
    else if s[i] != 'e' && s[i] != 'E' then None
    else
      var sinal := i + 1 < |s| && (s[i + 1] == '-' || s[i + 1] == '+');
      var inicio := if sinal then i + 2 else i + 1;
      var d := DigitosDesde(s, inicio);
      DigitosSao(s, inicio);
      if d > 0 && inicio + d == |s| then
        var v := ValorEntre(s, inicio, |s|);
        Some(if sinal && s[i + 1] == '-' then -(v as int) else v as int)
      else None
  }

  /**
   * An unsigned decimal literal: digits, an optional `.` and fraction digits (at least one
   * digit on either side of the point), then an optional exponent and nothing else.
   */
  function SemSinal(t: string): JsNum {
    var a := DigitosDesde(t, 0);
    DigitosSao(t, 0);
    var ponto := a < |t| && t[a] == '.';
    var ini := if ponto then a + 1 else a;
    var f := if ponto then DigitosDesde(t, ini) else 0;
    DigitosSao(t, ini);
    if a + f == 0 then NaN
    else
      match ExpoenteDesde(t, ini + f)
      case None => NaN
      case Some(e) => Num(Escalar(ValorEntre(t, 0, a) as real + Escalar(ValorEntre(t, ini, ini + f) as real, -f), e))
  }

  /** The value of the digits `inteiro.fracao`. */
  function Decimal(inteiro: string, fracao: string): real
    requires SoDigitos(inteiro) && SoDigitos(fracao)
  {
    ValorDigitos(inteiro) as real + Escalar(ValorDigitos(fracao) as real, -|fracao|)
  }

  /**
   * `Number(s)` for a string: surrounding white space is ignored, the empty string is 0,
   * a sign may precede an unsigned decimal literal, anything else is NaN.
   */
  function NumeroDeTexto(s: string): (r: JsNum)
    ensures Trim(s) == [] ==> r == Num(0.0)
  {
    var t := Trim(s);
    if t == [] then Num(0.0) else ComSinal(t)
  }

  /** An optional `-` or `+`, then an unsigned decimal literal. */
  function ComSinal(t: string): JsNum
    requires t != []
  {
    var n := SemSinal(if t[0] == '-' || t[0] == '+' then t[1..] else t);
    if t[0] == '-' && n.Num? then Num(-n.v) else n
  }

  /** A digit string on its own reads as its value. */
  lemma LerInteiro(inteiro: string)
    requires inteiro != [] && SoDigitos(inteiro)
    ensures SemSinal(inteiro) == Num(ValorDigitos(inteiro) as real)
  {
    var n := |inteiro|;
    DigitosAte(inteiro, 0, n);
    ValorEntreFatia(inteiro, 0, n);
    assert inteiro[0..n] == inteiro;
  }

  /** A digit string, `.`, and a non-empty digit string read as that decimal. */
  lemma LerDecimal(inteiro: string, fracao: string)
    requires inteiro != [] && SoDigitos(inteiro)
    requires fracao != [] && SoDigitos(fracao)
    ensures SemSinal(inteiro + "." + fracao) == Num(Decimal(inteiro, fracao))
  {
    var t := inteiro + "." + fracao;
    var a := |inteiro|;
    assert t[a] == '.';
    DigitosAte(t, 0, a);
    DigitosAte(t, a + 1, |t|);
    ValorEntreFatia(t, 0, a);
    ValorEntreFatia(t, a + 1, |t|);
    assert t[0..a] == inteiro && t[a + 1..|t|] == fracao;
  }
}
