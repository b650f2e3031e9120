/**
 * String operations with the meaning JavaScript gives them: `trim`, `toLowerCase`,
 * `split` on a one-character separator, `join`, `replace` of the first occurrence,
 * `includes`, and the `<` comparison of two strings.
 */
module JsTexto {

  /** JavaScript white space and line terminators: what `trim` strips and what `\s` matches. */
  predicate EhEspaco(c: char) {
    c == ' ' || c == '\t' || c == '\n' || c == '\r' || c == '\U{B}' || c == '\U{C}'
    || c == '\U{A0}' || c == '\U{1680}' || ('\U{2000}' <= c <= '\U{200A}')
    || c == '\U{2028}' || c == '\U{2029}' || c == '\U{202F}' || c == '\U{205F}'
    || c == '\U{3000}' || c == '\U{FEFF}'
  }

  /** Line terminators: the characters that `.` does not match in a regular expression. */
  predicate EhFimDeLinha(c: char) {
    c == '\n' || c == '\r' || c == '\U{2028}' || c == '\U{2029}'
  }

  /** `\d`: an ASCII decimal digit. */
  predicate EhDigito(c: char) {
    '0' <= c <= '9'
  }

  lemma DigitoNaoEspaco(c: char)
    requires EhDigito(c)
    ensures !EhEspaco(c)
  {
  }

  /** True when `s` has no white space at either end (a string `trim` leaves alone). */
  predicate Aparado(s: string) {
    s == [] || (!EhEspaco(s[0]) && !EhEspaco(s[|s| - 1]))
  }

  function TrimInicio(s: string): (r: string)
    ensures |r| <= |s|
    ensures r == [] || !EhEspaco(r[0])
  {
    if s != [] && EhEspaco(s[0]) then TrimInicio(s[1..]) else s
  }

  function TrimFim(s: string): (r: string)
    ensures |r| <= |s| && r == s[..|r|]
    ensures r == [] || !EhEspaco(r[|r| - 1])
  {
    if s != [] && EhEspaco(s[|s| - 1]) then TrimFim(s[..|s| - 1]) else s
  }

  /** `String.prototype.trim`. */
  function Trim(s: string): (r: string)
    ensures Aparado(r)
    ensures |r| <= |s|
  {
    var a := TrimInicio(s);
    var r := TrimFim(a);
    assert r != [] ==> !EhEspaco(r[0]) by {
      if r != [] { assert r[0] == a[0]; }
    }
    r
  }

  /** Trimming a string that has no white space at its ends changes nothing. */
  lemma AparadoAteDigito(s: string)
    requires s != [] && !EhEspaco(s[0]) && EhDigito(s[|s| - 1])
    ensures Aparado(s)
  {
    DigitoNaoEspaco(s[|s| - 1]);
  }

  lemma TrimDeAparado(s: string)
    requires Aparado(s)
    ensures Trim(s) == s
  {
  }

  /** `toLowerCase` on one character, for ASCII and the Latin-1 letters (À–Þ, except ×). */
  function MinusculaChar(c: char): (r: char)
    ensures EhEspaco(r) == EhEspaco(c)
    ensures EhDigito(r) == EhDigito(c)
  {
    if 'A' <= c <= 'Z' || ('\U{C0}' <= c <= '\U{DE}' && c != '\U{D7}') then (c as int + 32) as char else c
  }

  /** `String.prototype.toLowerCase`, restricted as `MinusculaChar` is. */
  function Minusculas(s: string): (r: string)
    ensures |r| == |s|
    ensures forall i :: 0 <= i < |s| ==> r[i] == MinusculaChar(s[i])
  {
    seq(|s|, i requires 0 <= i < |s| => MinusculaChar(s[i]))
  }

  /** Lower-casing twice is lower-casing once. */
  lemma MinusculasIdempotente(s: string)
    ensures Minusculas(Minusculas(s)) == Minusculas(s)
  {
  }

  /** Lower-casing keeps a trimmed string trimmed. */
  lemma MinusculasAparado(s: string)
    requires Aparado(s)
    ensures Aparado(Minusculas(s))
  {
  }

  /** `a < b` on JavaScript strings: lexicographic, a proper prefix is smaller. */
  predicate LexMenor(a: string, b: string)
    decreases |a|
  {
    if a == [] then b != []
    else if b == [] then false
    else if a[0] != b[0] then a[0] < b[0]
    else LexMenor(a[1..], b[1..])
  }

  /** `a <= b`, i.e. `!(b < a)`. */
  predicate LexMenorIgual(a: string, b: string) {
    !LexMenor(b, a)
  }

  lemma {:induction false} LexIrreflexivo(a: string)
    ensures !LexMenor(a, a)
  {
    if a != [] { LexIrreflexivo(a[1..]); }
  }

  /** Exactly one of a < b, a == b, b < a holds. */
  lemma {:induction false} LexTricotomia(a: string, b: string)
    ensures LexMenor(a, b) || a == b || LexMenor(b, a)
    ensures !(LexMenor(a, b) && LexMenor(b, a))
    decreases |a|
  {
    if a != [] && b != [] && a[0] == b[0] {
      LexTricotomia(a[1..], b[1..]);
      if a[1..] == b[1..] { assert a == [a[0]] + a[1..] && b == [b[0]] + b[1..]; }
    }
  }

  lemma {:induction false} LexTransitivo(a: string, b: string, c: string)
    requires LexMenor(a, b) && LexMenor(b, c)
    ensures LexMenor(a, c)
    decreases |a|
  {
    if a != [] && b != [] && c != [] && a[0] == b[0] && b[0] == c[0] {
      LexTransitivo(a[1..], b[1..], c[1..]);
    }
  }

  /** `<=` on strings is a total order. */
  lemma LexMenorIgualOrdemTotal(a: string, b: string, c: string)
    ensures LexMenorIgual(a, b) || LexMenorIgual(b, a)
    ensures LexMenorIgual(a, b) && LexMenorIgual(b, a) ==> a == b
    ensures LexMenorIgual(a, b) && LexMenorIgual(b, c) ==> LexMenorIgual(a, c)
  {
    LexTricotomia(a, b);
    LexTricotomia(b, c);
    LexTricotomia(a, c);
    if LexMenor(c, a) && !LexMenor(b, a) && !LexMenor(c, b) {
      if a == b { } else if b == c { } else {
        LexTransitivo(a, b, c);
      }
    }
  }

  /** `s.split(sep)` for a one-character separator: the pieces between separators, empty ones included. */
  function Dividir(s: string, sep: char): (r: seq<string>)
    ensures |r| >= 1
    ensures forall i :: 0 <= i < |r| ==> sep !in r[i]
  {
    if s == [] then [""]
    else
      var resto := Dividir(s[1..], sep);
      if s[0] == sep then [""] + resto else [[s[0]] + resto[0]] + resto[1..]
  }

  /** `parts.join(cola)`. */
  function Juntar(partes: seq<string>, cola: string): string {
    if partes == [] then ""
    else if |partes| == 1 then partes[0]
    else partes[0] + cola + Juntar(partes[1..], cola)
  }

  /** Without the separator there is one piece: the whole string. */
  lemma {:induction false} DividirSemSeparador(s: string, sep: char)
    requires sep !in s
    ensures Dividir(s, sep) == [s]
  {
    if s != [] {
      DividirSemSeparador(s[1..], sep);
      assert s == [s[0]] + s[1..];
    }
  }

  /** Splitting at the first separator: the part before it, then the pieces of the rest. */
  lemma {:induction false} DividirConcat(a: string, sep: char, b: string)
    requires sep !in a
    ensures Dividir(a + [sep] + b, sep) == [a] + Dividir(b, sep)
  {
    var s := a + [sep] + b;
    if a == [] {
      assert s[1..] == b;
    } else {
      assert s[1..] == a[1..] + [sep] + b;
      DividirConcat(a[1..], sep, b);
      assert a == [a[0]] + a[1..];
    }
  }

  /** `parts.map(x => x.trim()).filter(Boolean)`. */
  function AparadasNaoVazias(partes: seq<string>): (r: seq<string>)
    ensures |r| <= |partes|
    ensures forall i :: 0 <= i < |r| ==> r[i] != [] && Aparado(r[i])
  {
    if partes == [] then []
    else
      var t := Trim(partes[0]);
      (if t == [] then [] else [t]) + AparadasNaoVazias(partes[1..])
  }

  /** The position of the first `c` in `s` at or after `i`, or `|s|` when there is none. */
  function Posicao(s: string, c: char, i: nat): (k: nat)
    requires i <= |s|
    ensures i <= k <= |s|
    ensures k < |s| ==> s[k] == c
    ensures forall j :: i <= j < k ==> s[j] != c
    decreases |s| - i
  {
    if i == |s| || s[i] == c then i else Posicao(s, c, i + 1)
  }

  /** The first occurrence is the only position holding `c` with no `c` before it. */
  lemma PosicaoUnica(s: string, c: char, k: nat)
    requires k <= |s| && (k < |s| ==> s[k] == c)
    requires forall j :: 0 <= j < k ==> s[j] != c
    ensures Posicao(s, c, 0) == k
  {
  }

  /** `s.replace(de, para)` with a one-character string pattern: only the FIRST occurrence is replaced. */
  function TrocarPrimeiro(s: string, de: char, para: char): (r: string)
    ensures |r| == |s|
  {
    var k := Posicao(s, de, 0);
    if k == |s| then s else s[k := para]
  }

  /**
   * Without the character nothing changes; otherwise exactly one character changes, the
   * first occurrence, and everything before and after it is kept.
   */
  lemma TrocarPrimeiroSoUma(s: string, de: char, para: char)
    ensures de !in s ==> TrocarPrimeiro(s, de, para) == s
    ensures de in s ==>
              var k := Posicao(s, de, 0);
              && k < |s| && s[k] == de && de !in s[..k]
              && TrocarPrimeiro(s, de, para) == s[..k] + [para] + s[k + 1..]
  {
    var k := Posicao(s, de, 0);
    if k < |s| {
      assert s[k := para] == s[..k] + [para] + s[k + 1..];
    }
  }

  /** Replacing in a concatenation whose first part lacks the character only touches the second part. */
  lemma TrocarPrimeiroConcat(a: string, b: string, de: char, para: char)
    requires de !in a
    ensures TrocarPrimeiro(a + b, de, para) == a + TrocarPrimeiro(b, de, para)
  {
    var s := a + b;
    var kb := Posicao(b, de, 0);
    forall j | 0 <= j < |a| + kb ensures s[j] != de {
      if j < |a| { assert s[j] == a[j]; } else { assert s[j] == b[j - |a|]; }
    }
    PosicaoUnica(s, de, |a| + kb);
    if kb < |b| {
      assert s[|a| + kb := para] == a + b[kb := para];
    }
  }

  /** `s.includes(q)`. */
  predicate Contem(s: string, q: string) {
    (|q| <= |s| && s[..|q|] == q) || (s != [] && Contem(s[1..], q))
  }
}
