/**
 * Reading pasted recount text (`parseInventarioTexto`): one "name separator quantity"
 * line per product, with a regular-expression fallback, into a name-to-quantity map.
 */
module Colagem {
  import opened Base
  import opened JsTexto
  import opened JsNumero

  // ----- The number pattern `-?\d+(?:[.,]\d+)?` -----

  /** A match of the number pattern. An empty `fracao` means the optional part did not match. */
  datatype Token = Token(negativo: bool, inteiro: string, separador: char, fracao: string)

  predicate TokenValido(t: Token) {
    t.inteiro != [] && SoDigitos(t.inteiro) && SoDigitos(t.fracao) && (t.separador == '.' || t.separador == ',')
  }

  function Sinal(t: Token): string {
    if t.negativo then "-" else ""
  }

  /** The matched text. */
  function TextoToken(t: Token): string {
    Sinal(t) + t.inteiro + (if t.fracao == [] then "" else [t.separador] + t.fracao)
  }

  /** The decimal the matched text denotes, whichever of `.` and `,` separates the fraction. */
  function ValorToken(t: Token): real
    requires TokenValido(t)
  {
    if t.negativo then -Magnitude(t) else Magnitude(t)
  }

  /** The value of the digits, ignoring the sign. */
  function Magnitude(t: Token): real
    requires TokenValido(t)
  {
    Decimal(t.inteiro, t.fracao)
  }

  /** Whether the number pattern can start matching at `k`. */
  predicate ComecaNumero(s: string, k: nat) {
    k < |s| && (EhDigito(s[k]) || (s[k] == '-' && k + 1 < |s| && EhDigito(s[k + 1])))
  }

  /** Whether the optional `[.,]\d+` part matches at `b`. */
  predicate TemFracao(s: string, b: nat) {
    b + 1 < |s| && (s[b] == '.' || s[b] == ',') && EhDigito(s[b + 1])
  }

  /** The greedy match of the number pattern anchored at position `k`. */
  function NumeroEm(s: string, k: nat): (r: Option<Token>)
    requires k <= |s|
    ensures r.None? <==> !ComecaNumero(s, k)
    ensures r.Some? ==> TokenValido(r.value)
  {
    var neg := k + 1 < |s| && s[k] == '-' && EhDigito(s[k + 1]);
    var a := if neg then k + 1 else k;
    var d := DigitosDesde(s, a);
    DigitosSao(s, a);
    if d == 0 then None
    else
      var b := a + d;
      if TemFracao(s, b) then
        var f := DigitosDesde(s, b + 1);
        DigitosSao(s, b + 1);
        Some(Token(neg, s[a..b], s[b], s[b + 1..b + 1 + f]))
      else
        Some(Token(neg, s[a..b], '.', ""))
  }

  /** Where the match at `k` ends. */
  lemma NumeroEmFim(s: string, k: nat)
    requires k <= |s| && NumeroEm(s, k).Some?
    ensures var t := NumeroEm(s, k).value;
            var neg := k + 1 < |s| && s[k] == '-' && EhDigito(s[k + 1]);
            var b := (if neg then k + 1 else k) + |t.inteiro|;
            && t.negativo == neg
            && b <= |s| && t.inteiro == s[(if neg then k + 1 else k)..b]
            && (t.fracao != [] <==> TemFracao(s, b))
            && (t.fracao != [] ==> t.separador == s[b] && b + 1 + |t.fracao| <= |s| && t.fracao == s[b + 1..b + 1 + |t.fracao|])
  {
  }

  /** The match is greedy: it is not followed by more digits, nor by a fraction it could have taken. */
  lemma NumeroEmGuloso(s: string, k: nat)
    requires k <= |s| && NumeroEm(s, k).Some?
    ensures var t := NumeroEm(s, k).value;
            var e := k + |TextoToken(t)|;
            && e <= |s|
            && (e == |s| || !EhDigito(s[e]))
            && (t.fracao == [] ==> !TemFracao(s, e))
  {
    NumeroEmFim(s, k);
  }

  /** `str.match(/-?\d+(?:[.,]\d+)?/)`: the leftmost match at or after `k`, as its position and token. */
  function PrimeiroNumeroDesde(s: string, k: nat): (r: Option<(nat, Token)>)
    requires k <= |s|
    ensures r.Some? ==> k <= r.value.0 <= |s| && NumeroEm(s, r.value.0) == Some(r.value.1)
    ensures r.Some? ==> forall m :: k <= m < r.value.0 ==> NumeroEm(s, m).None?
    ensures r.None? ==> forall m :: k <= m <= |s| ==> NumeroEm(s, m).None?
    decreases |s| - k
  {
    match NumeroEm(s, k)
    case Some(t) => Some((k, t))
    case None => if k == |s| then None else PrimeiroNumeroDesde(s, k + 1)
  }

  function PrimeiroNumero(s: string): Option<(nat, Token)> {
    PrimeiroNumeroDesde(s, 0)
  }

  /** The `.`-separated spelling of a token, without its sign. */
  function Corpo(t: Token): string {
    if t.fracao == [] then t.inteiro else t.inteiro + "." + t.fracao
  }

  lemma CorpoValor(t: Token)
    requires TokenValido(t)
    ensures SemSinal(Corpo(t)) == Num(Magnitude(t))
  {
    if t.fracao == [] {
      LerInteiro(t.inteiro);
    } else {
      LerDecimal(t.inteiro, t.fracao);
    }
  }

  /** The `.`-separated spelling starts and ends with a digit. */
  lemma CorpoDelimitado(t: Token)
    requires TokenValido(t)
    ensures Corpo(t) != [] && EhDigito(Corpo(t)[0]) && EhDigito(Corpo(t)[|Corpo(t)| - 1])
  {
  }

  lemma LerNegativo(u: string, m: real)
    requires Aparado(u) && u != [] && u[0] == '-' && SemSinal(u[1..]) == Num(m)
    ensures NumeroDeTexto(u) == Num(-m)
  {
    TrimDeAparado(u);
  }

  lemma LerPositivo(u: string)
    requires Aparado(u) && u != [] && EhDigito(u[0])
    ensures NumeroDeTexto(u) == SemSinal(u)
  {
    TrimDeAparado(u);
  }

  /** A matched number, with `,` replaced by `.`, is read by `Number` as exactly the decimal it shows. */
  lemma ValorDoToken(t: Token)
    requires TokenValido(t)
    ensures NumeroDeTexto(TrocarPrimeiro(TextoToken(t), ',', '.')) == Num(ValorToken(t))
  {
    TrocaNoToken(t);
    ValorDoCorpo(TrocarPrimeiro(TextoToken(t), ',', '.'), t);
  }

  /** The sign and the `.`-separated spelling of a token read as its value. */
  lemma ValorDoCorpo(u: string, t: Token)
    requires TokenValido(t) && u == Sinal(t) + Corpo(t)
    ensures NumeroDeTexto(u) == Num(ValorToken(t))
  {
    CorpoDelimitado(t);
    CorpoValor(t);
    LerComSinal(u, t.negativo, Corpo(t), Magnitude(t));
  }

  /** `Number(u)` for `u` an optional minus sign and a string `c` that starts and ends with a digit. */
  lemma LerComSinal(u: string, negativo: bool, c: string, m: real)
    requires u == (if negativo then "-" else "") + c
    requires c != [] && EhDigito(c[0]) && EhDigito(c[|c| - 1]) && SemSinal(c) == Num(m)
    ensures NumeroDeTexto(u) == Num(if negativo then -m else m)
  {
    if negativo {
      LerNegativoDe(u, c, m);
    } else {
      assert u == c;
      LerPositivoDe(c);
    }
  }

  /** `Number(u)` for `u` a minus sign followed by a string `c` that starts and ends with a digit. */
  lemma LerNegativoDe(u: string, c: string, m: real)
    requires u == "-" + c
    requires c != [] && EhDigito(c[0]) && EhDigito(c[|c| - 1]) && SemSinal(c) == Num(m)
    ensures NumeroDeTexto(u) == Num(-m)
  {
    assert u[1..] == c;
    assert u[|u| - 1] == c[|c| - 1];
    AparadoAteDigito(u);
    LerNegativo(u, m);
  }

  /** `Number(c)` for a string `c` that starts and ends with a digit. */
  lemma LerPositivoDe(c: string)
    requires c != [] && EhDigito(c[0]) && EhDigito(c[|c| - 1])
    ensures NumeroDeTexto(c) == SemSinal(c)
  {
    DigitoNaoEspaco(c[0]);
    AparadoAteDigito(c);
    LerPositivo(c);
  }

  lemma SemVirgula(d: string)
    requires SoDigitos(d)
    ensures ',' !in d
  {
    forall i | 0 <= i < |d| ensures d[i] != ',' { assert EhDigito(d[i]); }
  }

  lemma TrocaNaFracao(separador: char, fracao: string)
    requires SoDigitos(fracao) && (separador == '.' || separador == ',')
    ensures TrocarPrimeiro([separador] + fracao, ',', '.') == "." + fracao
  {
    SemVirgula(fracao);
    assert ([separador] + fracao)[1..] == fracao;
  }

  /** Replacing the first `,` turns the token into its `.`-separated spelling. */
  lemma TrocaNoToken(t: Token)
    requires TokenValido(t)
    ensures TrocarPrimeiro(TextoToken(t), ',', '.') == Sinal(t) + Corpo(t)
  {
    SemVirgula(t.inteiro);
    if t.fracao != [] {
      TrocaComFracao(t);
    } else {
      TrocaSemFracao(t);
    }
  }

  lemma TrocaSemFracao(t: Token)
    requires ',' !in t.inteiro && t.fracao == []
    ensures TrocarPrimeiro(TextoToken(t), ',', '.') == Sinal(t) + Corpo(t)
  {
    var cabeca := Sinal(t) + t.inteiro;
    assert TextoToken(t) == cabeca + "";
    assert ',' !in cabeca;
    TrocarPrimeiroConcat(cabeca, "", ',', '.');
    assert cabeca + "" == Sinal(t) + Corpo(t);
  }

  lemma TrocaComFracao(t: Token)
    requires TokenValido(t) && ',' !in t.inteiro && t.fracao != []
    ensures TrocarPrimeiro(TextoToken(t), ',', '.') == Sinal(t) + Corpo(t)
  {
    var cabeca := Sinal(t) + t.inteiro;
    var cauda := [t.separador] + t.fracao;
    assert TextoToken(t) == cabeca + cauda;
    assert ',' !in cabeca;
    TrocarPrimeiroConcat(cabeca, cauda, ',', '.');
    TrocaNaFracao(t.separador, t.fracao);
    assert cabeca + ("." + t.fracao) == Sinal(t) + Corpo(t);
  }

  // ----- The fallback pattern `(.+?)\s+(-?\d+(?:[.,]\d+)?)` -----

  /** A fallback match: group 1 is `s[inicio..fimGrupo]`, group 2 is `numero`. */
  datatype Casamento = Casamento(inicio: nat, fimGrupo: nat, numero: Token)

  /** The end of the run of white space starting at `j` (what a greedy `\s+` takes). */
  function FimEspacos(s: string, j: nat): (e: nat)
    requires j <= |s|
    ensures j <= e <= |s|
    ensures forall m :: j <= m < e ==> EhEspaco(s[m])
    ensures e == |s| || !EhEspaco(s[e])
    decreases |s| - j
  {
    if j < |s| && EhEspaco(s[j]) then FimEspacos(s, j + 1) else j
  }

  /** `.` matches every character but a line terminator. */
  predicate SemFimDeLinha(s: string, i: nat, j: nat)
    requires i <= j <= |s|
  {
    forall m :: i <= m < j ==> !EhFimDeLinha(s[m])
  }

  /**
   * Whether `\s+` and the number pattern match right after a group 1 ending at `j`. The
   * number cannot start with white space, so only the whole run of white space can work.
   */
  function Casa(s: string, j: nat): Option<Token>
    requires j <= |s|
  {
    var e := FimEspacos(s, j);
    if e > j then NumeroEm(s, e) else None
  }

  /** The lazy `.+?` from `i`: the shortest group 1 of length at least `j - i` that lets the rest match. */
  function AlternativaDesde(s: string, i: nat, j: nat): (r: Option<Casamento>)
    requires i < j <= |s| && SemFimDeLinha(s, i, j - 1)
    ensures r.Some? ==> r.value.inicio == i && j <= r.value.fimGrupo <= |s|
                        && SemFimDeLinha(s, i, r.value.fimGrupo) && Casa(s, r.value.fimGrupo) == Some(r.value.numero)
    ensures r.Some? ==> forall m :: j <= m < r.value.fimGrupo ==> Casa(s, m).None?
    ensures r.None? ==> forall m :: j <= m <= |s| && SemFimDeLinha(s, i, m) ==> Casa(s, m).None?
    decreases |s| - j
  {
    if EhFimDeLinha(s[j - 1]) then None
    else
      match Casa(s, j)
      case Some(t) => Some(Casamento(i, j, t))
      case None => if j < |s| then AlternativaDesde(s, i, j + 1) else None
  }

  /** `line.match(/(.+?)\s+(-?\d+(?:[.,]\d+)?)/)`: the leftmost start, then the shortest group 1. */
  function AlternativaEm(s: string, i: nat): (r: Option<Casamento>)
    requires i <= |s|
    ensures r.Some? ==> i <= r.value.inicio < r.value.fimGrupo <= |s|
                        && SemFimDeLinha(s, r.value.inicio, r.value.fimGrupo)
                        && Casa(s, r.value.fimGrupo) == Some(r.value.numero)
    ensures r.Some? ==> forall m :: r.value.inicio < m < r.value.fimGrupo ==> Casa(s, m).None?
    ensures r.Some? ==> forall a, m :: i <= a < r.value.inicio && a < m <= |s| && SemFimDeLinha(s, a, m)
                                       ==> Casa(s, m).None?
    ensures r.None? ==> forall a, m :: i <= a < m <= |s| && SemFimDeLinha(s, a, m) ==> Casa(s, m).None?
    decreases |s| - i
  {
    if i == |s| then None
    else
      match AlternativaDesde(s, i, i + 1)
      case Some(c) => Some(c)
      case None => AlternativaEm(s, i + 1)
  }

  // ----- One line -----

  /** `line.split(sep).map(x => x.trim()).filter(Boolean)`. */
  function Partes(line: string, sep: char): seq<string> {
    AparadasNaoVazias(Dividir(line, sep))
  }

  /** The separators are tried in order `;`, tab, `:`, `=`, until one gives two or more parts. */
  function Separar(line: string): seq<string> {
    var p1 := Partes(line, ';');
    if |p1| >= 2 then p1
    else
      var p2 := Partes(line, '\t');
      if |p2| >= 2 then p2
      else
        var p3 := Partes(line, ':');
        if |p3| >= 2 then p3 else Partes(line, '=')
  }

  /** A string without the separator gives at most one part. */
  lemma PartesSemSeparador(line: string, sep: char)
    requires sep !in line
    ensures |Partes(line, sep)| <= 1
  {
    DividirSemSeparador(line, sep);
  }

  /** `nome SEP qtd` with one separator gives the two trimmed halves. */
  lemma PartesDeDuas(nome: string, sep: char, qtd: string)
    requires sep !in nome && sep !in qtd && Trim(nome) != [] && Trim(qtd) != []
    ensures Partes(nome + [sep] + qtd, sep) == [Trim(nome), Trim(qtd)]
  {
    DividirConcat(nome, sep, qtd);
    DividirSemSeparador(qtd, sep);
    var ps := [nome, qtd];
    assert ps[1..] == [qtd];
    assert AparadasNaoVazias([qtd]) == [Trim(qtd)] by {
      assert [qtd][1..] == [];
    }
  }

  /** The separators tried before `sep`. */
  function Anteriores(sep: char): seq<char> {
    if sep == ';' then [] else if sep == '\t' then [';'] else if sep == ':' then [';', '\t'] else [';', '\t', ':']
  }

  /** The first separator that gives two or more parts is the one used. */
  lemma SepararEscolhe(line: string, sep: char)
    requires sep == ';' || sep == '\t' || sep == ':' || sep == '='
    requires forall c :: c in Anteriores(sep) ==> |Partes(line, c)| < 2
    requires |Partes(line, sep)| >= 2
    ensures Separar(line) == Partes(line, sep)
  {
    if sep != ';' {
      assert ';' in Anteriores(sep);
      if sep != '\t' {
        assert '\t' in Anteriores(sep);
        if sep != ':' {
          assert ':' in Anteriores(sep);
        }
      }
    }
  }

  lemma NomeEQtdDeDuas(line: string, x: string, y: string)
    requires Separar(line) == [x, y]
    ensures NomeEQtd(line) == (x, y)
  {
    assert [x, y][1..] == [y];
  }

  /**
   * A line `nome SEP qtd`, with SEP one of `;`, tab, `:`, `=`, no other SEP in it and none
   * of the separators tried before SEP, has the trimmed `nome` as its name and the trimmed
   * `qtd` as its quantity text.
   */
  lemma LinhaComSeparador(nome: string, sep: char, qtd: string)
    requires sep == ';' || sep == '\t' || sep == ':' || sep == '='
    requires sep !in nome && sep !in qtd && Trim(nome) != [] && Trim(qtd) != []
    requires forall c :: c in Anteriores(sep) ==> c !in nome && c !in qtd
    ensures NomeEQtd(nome + [sep] + qtd) == (Trim(nome), Trim(qtd))
  {
    var line := nome + [sep] + qtd;
    forall c | c in Anteriores(sep) ensures |Partes(line, c)| < 2 {
      assert c != sep;
      assert c !in line;
      PartesSemSeparador(line, c);
    }
    PartesDeDuas(nome, sep, qtd);
    SepararEscolhe(line, sep);
    NomeEQtdDeDuas(line, Trim(nome), Trim(qtd));
  }

  /** The name and the raw quantity text of a line, before the quantity is read. */
  function NomeEQtd(line: string): (r: (string, string))
    ensures Aparado(r.0)
  {
    var parts := Separar(line);
    if |parts| >= 2 then (parts[0], Juntar(parts[1..], " "))
    else
      match AlternativaEm(line, 0)
      case Some(c) => (Trim(line[c.inicio..c.fimGrupo]), Trim(TextoToken(c.numero)))
      case None => ("", "")
  }

  /** The quantity: the first number in the text, `,` to `.`, through `Number`; no number reads as `Number("")`. */
  function LerQtd(qtd: string): JsNum {
    var numStr := match PrimeiroNumero(qtd) case Some(p) => TextoToken(p.1) case None => "";
    NumeroDeTexto(TrocarPrimeiro(numStr, ',', '.'))
  }

  /** One line's contribution, or None when it is skipped (no name, or a quantity that is not finite). */
  function LerLinha(line: string): (r: Option<(string, real)>)
    ensures r.Some? ==> r.value.0 != [] && Aparado(r.value.0)
  {
    var (nome, qtd) := NomeEQtd(line);
    if nome == [] then None
    else
      match LerQtd(qtd)
      case Num(v) => Some((nome, v))
      case NaN => None
  }

  /**
   * A line with a name always yields an entry: the quantity is the first number in its
   * quantity text, and 0 when that text holds no number at all.
   */
  lemma LerLinhaValor(line: string)
    requires NomeEQtd(line).0 != []
    ensures LerLinha(line).Some? && LerLinha(line).value.0 == NomeEQtd(line).0
    ensures PrimeiroNumero(NomeEQtd(line).1).None? ==> LerLinha(line).value.1 == 0.0
    ensures PrimeiroNumero(NomeEQtd(line).1).Some? ==>
              LerLinha(line).value.1 == ValorToken(PrimeiroNumero(NomeEQtd(line).1).value.1)
  {
    var qtd := NomeEQtd(line).1;
    match PrimeiroNumero(qtd)
    case Some(p) => ValorDoToken(p.1);
    case None => assert TrocarPrimeiro("", ',', '.') == "";
  }

  // ----- The whole text -----

  /** `(texto || "").split(/\r?\n/).map(l => l.trim()).filter(Boolean)`; a `\r` before the newline is trimmed away. */
  function Linhas(texto: string): (r: seq<string>)
    ensures forall i :: 0 <= i < |r| ==> r[i] != [] && Aparado(r[i])
  {
    AparadasNaoVazias(Dividir(texto, '\n'))
  }

  /** What one line gives: `Some((nome, val))`, or None when the line is skipped. */
  type Leitura = Option<(string, real)>

  /** Every line read on its own. */
  function Leituras(linhas: seq<string>): (r: seq<Leitura>)
    ensures |r| == |linhas| && forall i :: 0 <= i < |r| ==> r[i] == LerLinha(linhas[i])
  {
    seq(|linhas|, i requires 0 <= i < |linhas| => LerLinha(linhas[i]))
  }

  /** One iteration of the loop: a read line sets `out[nome] = val`. */
  function Registar(out: map<string, real>, r: Leitura): map<string, real> {
    if r.Some? then out[r.value.0 := r.value.1] else out
  }

  /** The loop over the readings, in order, so a later line wins. */
  function Gravar(rs: seq<Leitura>): map<string, real>
    decreases |rs|
  {
    if rs == [] then map[] else Registar(Gravar(rs[..|rs| - 1]), rs[|rs| - 1])
  }

  /** `parseInventarioTexto(texto)`. */
  function LeituraColagem(texto: string): map<string, real> {
    Gravar(Leituras(Linhas(texto)))
  }

  lemma GravarPasso(rs: seq<Leitura>, i: nat)
    requires i < |rs|
    ensures Gravar(rs[..i + 1]) == Registar(Gravar(rs[..i]), rs[i])
  {
    assert rs[..i + 1][..i] == rs[..i];
  }

  method ParseInventarioTexto(texto: string) returns (out: map<string, real>)
    ensures out == LeituraColagem(texto)
  {
    var lines := Linhas(texto);
    ghost var rs := Leituras(lines);
    out := map[];
    for i := 0 to |lines|
      invariant out == Gravar(rs[..i])
    {
      GravarPasso(rs, i);
      out := Registar(out, LerLinha(lines[i]));
    }
    assert rs[..|lines|] == rs;
  }

  predicate LidoComo(r: Leitura, n: string) {
    r.Some? && r.value.0 == n
  }

  /** A name is in the result exactly when some line reads it. */
  lemma {:induction false} ChavesLidas(rs: seq<Leitura>, n: string)
    ensures n in Gravar(rs) <==> exists i :: 0 <= i < |rs| && LidoComo(rs[i], n)
  {
    if rs != [] {
      var ini := rs[..|rs| - 1];
      ChavesLidas(ini, n);
      if exists i :: 0 <= i < |ini| && LidoComo(ini[i], n) {
        var i :| 0 <= i < |ini| && LidoComo(ini[i], n);
        assert rs[i] == ini[i];
      }
      if exists i :: 0 <= i < |rs| && LidoComo(rs[i], n) {
        var i :| 0 <= i < |rs| && LidoComo(rs[i], n);
        if i < |ini| { assert rs[i] == ini[i]; }
      }
    }
  }

  /** The quantity kept for a name is the one on the last line that reads that name. */
  lemma {:induction false} UltimaLinhaVence(rs: seq<Leitura>, i: nat, n: string, v: real)
    requires i < |rs| && rs[i] == Some((n, v))
    requires forall m :: i < m < |rs| ==> !LidoComo(rs[m], n)
    ensures n in Gravar(rs) && Gravar(rs)[n] == v
  {
    var ini := rs[..|rs| - 1];
    if i < |rs| - 1 {
      UltimaLinhaVence(ini, i, n, v);
    }
  }

  lemma GravarUm(r: Leitura)
    ensures Gravar([r]) == Registar(map[], r)
  {
    assert [r][..0] == [];
  }

  lemma LeiturasUm(line: string)
    ensures Leituras([line]) == [LerLinha(line)]
  {
  }

  /** A text that is one line reads as that line alone. */
  lemma UmaLinha(texto: string, line: string)
    requires Linhas(texto) == [line]
    ensures LeituraColagem(texto) == Registar(map[], LerLinha(line))
  {
    LeiturasUm(line);
    GravarUm(LerLinha(line));
  }

  /** A line without newlines and without surrounding white space is the text's only line. */
  lemma LinhaUnica(texto: string)
    requires texto != [] && Aparado(texto) && '\n' !in texto
    ensures Linhas(texto) == [texto]
  {
    DividirSemSeparador(texto, '\n');
    TrimDeAparado(texto);
    assert [texto][1..] == [];
  }

  // ----- Worked examples -----

  lemma AzeiteQtd()
    ensures Trim(" 3,5") == "3,5"
  {
    AzeiteInicio();
    AzeiteFim();
  }

  lemma AzeiteInicio()
    ensures TrimInicio(" 3,5") == "3,5"
  {
    assert " 3,5"[1..] == "3,5";
  }

  lemma AzeiteFim()
    ensures TrimFim("3,5") == "3,5"
  {
  }

  lemma AzeiteNomeEQtd()
    ensures NomeEQtd("Azeite; 3,5") == ("Azeite", "3,5")
  {
    AzeiteQtd();
    TrimDeAparado("Azeite");
    assert "Azeite; 3,5" == "Azeite" + [';'] + " 3,5";
    LinhaComSeparador("Azeite", ';', " 3,5");
  }

  lemma AzeiteNumero()
    ensures PrimeiroNumero("3,5") == Some((0, Token(false, "3", ',', "5")))
    ensures ValorToken(Token(false, "3", ',', "5")) == 3.5
  {
    assert DigitosDesde("3,5", 1) == 0;
    assert DigitosDesde("3,5", 0) == 1;
    assert DigitosDesde("3,5", 2) == 1;
    assert "3,5"[0..1] == "3";
    assert "3,5"[2..3] == "5";
    assert ValorDigitos("5") == 5 by { assert "5"[..0] == ""; }
    assert ValorDigitos("3") == 3 by { assert "3"[..0] == ""; }
    assert Escalar(5.0, -1) == 0.5;
  }

  lemma AzeiteLinha()
    ensures LerLinha("Azeite; 3,5") == Some(("Azeite", 3.5))
  {
    AzeiteNomeEQtd();
    AzeiteNumero();
    LerLinhaValor("Azeite; 3,5");
  }

  /** "Azeite; 3,5" reads as Azeite with 3.5: `;` separates, the decimal comma is accepted. */
  lemma ExemploAzeite()
    ensures LeituraColagem("Azeite; 3,5") == map["Azeite" := 3.5]
  {
    assert '\n' !in "Azeite; 3,5";
    assert Aparado("Azeite; 3,5");
    LinhaUnica("Azeite; 3,5");
    AzeiteLinha();
    UmaLinha("Azeite; 3,5", "Azeite; 3,5");
  }

  lemma ArrozNomeEQtd()
    ensures NomeEQtd("Arroz;abc") == ("Arroz", "abc")
  {
    assert Aparado("Arroz") && Aparado("abc");
    TrimDeAparado("Arroz");
    TrimDeAparado("abc");
    assert "Arroz;abc" == "Arroz" + [';'] + "abc";
    LinhaComSeparador("Arroz", ';', "abc");
  }

  lemma SemNumeroEmAbc()
    ensures PrimeiroNumero("abc").None?
  {
    forall m | 0 <= m <= |"abc"| ensures !ComecaNumero("abc", m) {
    }
  }

  /** "Arroz;abc" reads as Arroz with 0: a quantity without digits is `Number("")`, which is 0. */
  lemma ExemploSemDigitos()
    ensures LeituraColagem("Arroz;abc") == map["Arroz" := 0.0]
  {
    assert '\n' !in "Arroz;abc";
    assert Aparado("Arroz;abc");
    LinhaUnica("Arroz;abc");
    ArrozNomeEQtd();
    SemNumeroEmAbc();
    LerLinhaValor("Arroz;abc");
    UmaLinha("Arroz;abc", "Arroz;abc");
  }
}
