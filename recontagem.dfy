/**
 * The monthly recount on values: the staged cells, seeding them from the real count,
 * merging a paste, filling blanks with "0", the rows a commit writes, the negative
 * discrepancies it warns about, and the overwrite of the real count.
 */
module Recontagem {
  import opened Base
  import opened JsTexto
  import opened JsNumero
  import opened Ordenacao
  import opened Stock

  /**
   * A staged value: text typed in the input, a number copied from the real count, or a
   * pasted number (stored as `String(v).replace(".", ",")`, whose text is not modelled).
   */
  datatype Celula = Texto(s: string) | Numero(v: real) | Colado(v: real)

  /** `Number(String(raw ?? "").replace(",", "."))` for a staged value, missing or present. */
  function LerCelula(c: Option<Celula>): JsNum {
    match c
    case None => NumeroDeTexto("")
    case Some(Texto(s)) => NumeroDeTexto(TrocarPrimeiro(s, ',', '.'))
    case Some(Numero(v)) => Num(v)
    case Some(Colado(v)) => Num(v)
  }

  /** `v === "" || v === null || typeof v === "undefined"`. */
  predicate EmBranco(c: Option<Celula>) {
    c.None? || c == Some(Texto(""))
  }

  function NomesDe(ps: seq<Produto>): set<string> {
    set p | p in ps :: p.nome
  }

  /** A blank staged value commits as 0, because `Number("")` is 0. */
  lemma BrancoLidoComoZero(c: Option<Celula>)
    requires EmBranco(c)
    ensures LerCelula(c) == Num(0.0)
  {
  }

  /** "0" reads as 0, like a blank. */
  lemma ZeroLidoComoZero()
    ensures LerCelula(Some(Texto("0"))) == Num(0.0)
  {
    assert TrocarPrimeiro("0", ',', '.') == "0";
    assert Aparado("0");
    TrimDeAparado("0");
    LerInteiro("0");
    assert ValorDigitos("0") == 0 by { assert "0"[..0] == ""; }
  }

  // ----- Starting a recount -----

  /** `base[p.nome] = inventarioReal[p.nome] ?? ""` for every product. */
  function Semente(nomes: set<string>, contagem: map<string, real>): (r: map<string, Celula>)
    ensures r.Keys == nomes
  {
    map n | n in nomes :: if n in contagem then Numero(contagem[n]) else Texto("")
  }

  // ----- Pasting -----

  /** `updates`: the parsed values whose name is in the catalogue, in their pasted form. */
  function Atualizacoes(parsed: map<string, real>, nomes: set<string>): map<string, Celula> {
    map n | n in parsed && n in nomes :: Colado(parsed[n])
  }

  /** `{ ...prev, ...updates }`. */
  function AplicarColagem(ed: map<string, Celula>, parsed: map<string, real>, nomes: set<string>): (r: map<string, Celula>)
    ensures forall n :: n in parsed && n in nomes ==> n in r && r[n] == Colado(parsed[n])
    ensures forall n :: !(n in parsed && n in nomes) ==> Consultar(r, n) == Consultar(ed, n)
  {
    ed + Atualizacoes(parsed, nomes)
  }

  /** The parsed names that are not in the catalogue, which are reported and ignored. */
  function NaoEncontrados(parsed: map<string, real>, nomes: set<string>): (r: set<string>)
    ensures forall n :: n in r <==> n in parsed && n !in nomes
  {
    set n | n in parsed && n !in nomes
  }

  /** A pasted value reads back, at commit, as exactly the number that was parsed. */
  lemma ColadoLidoNaGravacao(ed: map<string, Celula>, parsed: map<string, real>, nomes: set<string>, n: string)
    requires n in parsed && n in nomes
    ensures LerCelula(Consultar(AplicarColagem(ed, parsed, nomes), n)) == Num(parsed[n])
  {
  }

  // ----- Filling blanks -----

  /** `preencherVaziosComZeroInventario`: every catalogue name with a blank value becomes "0". */
  function PreencherVazios(ed: map<string, Celula>, nomes: set<string>): (r: map<string, Celula>)
    ensures r.Keys == ed.Keys + nomes
    ensures forall n :: n in nomes && EmBranco(Consultar(ed, n)) ==> r[n] == Texto("0")
    ensures forall n :: n in ed && !(n in nomes && EmBranco(Consultar(ed, n))) ==> r[n] == ed[n]
  {
    map n | n in ed.Keys + nomes :: if n in nomes && EmBranco(Consultar(ed, n)) then Texto("0") else ed[n]
  }

  /** Filling one more name: only that name can change, and only when it is blank. */
  lemma PreencherPasso(ed: map<string, Celula>, nomes: set<string>, n: string)
    ensures var antes := PreencherVazios(ed, nomes);
            PreencherVazios(ed, nomes + {n})
            == if EmBranco(Consultar(antes, n)) then antes[n := Texto("0")] else antes
  {
    var antes := PreencherVazios(ed, nomes);
    var depois := PreencherVazios(ed, nomes + {n});
    var esperado := if EmBranco(Consultar(antes, n)) then antes[n := Texto("0")] else antes;
    assert depois.Keys == esperado.Keys;
    forall m | m in depois ensures depois[m] == esperado[m] {
      if m != n {
        assert m in nomes + {n} <==> m in nomes;
      }
    }
  }

  /** Seeding one more name. */
  lemma SementePasso(nomes: set<string>, contagem: map<string, real>, n: string)
    ensures Semente(nomes + {n}, contagem) == Semente(nomes, contagem)[n := if n in contagem then Numero(contagem[n]) else Texto("")]
  {
  }

  /** Filling twice is filling once. */
  lemma PreencherIdempotente(ed: map<string, Celula>, nomes: set<string>)
    ensures PreencherVazios(PreencherVazios(ed, nomes), nomes) == PreencherVazios(ed, nomes)
  {
  }

  /** Filling blanks does not change what any name commits: blank and "0" both read as 0. */
  lemma PreencherMantemLeitura(ed: map<string, Celula>, nomes: set<string>, n: string)
    ensures LerCelula(Consultar(PreencherVazios(ed, nomes), n)) == LerCelula(Consultar(ed, n))
  {
    if n in nomes && EmBranco(Consultar(ed, n)) {
      ZeroLidoComoZero();
      BrancoLidoComoZero(Consultar(ed, n));
    }
  }

  // ----- Committing -----

  /** A row written to `inventario_real`. */
  datatype Linha = Linha(produto: string, quantidade: real)

  /**
   * `rows`, for any reading `ler` of a name's staged value: one row per product whose value
   * reads as a finite number, in catalogue order.
   */
  function LinhasCom(ps: seq<Produto>, ler: string -> JsNum): (r: seq<Linha>)
    ensures |r| <= |ps|
    ensures forall l :: l in r <==> l.produto in NomesDe(ps) && ler(l.produto) == Num(l.quantidade)
  {
    if ps == [] then []
    else
      var resto := LinhasCom(ps[1..], ler);
      assert NomesDe(ps) == {ps[0].nome} + NomesDe(ps[1..]) by {
        assert ps == [ps[0]] + ps[1..];
      }
      match ler(ps[0].nome)
      case Num(v) => [Linha(ps[0].nome, v)] + resto
      case NaN => resto
  }

  /** How `gravarInventarioMensal` reads a name's staged value. */
  function LeituraDe(ed: map<string, Celula>): string -> JsNum {
    (n: string) => LerCelula(Consultar(ed, n))
  }

  /** `rows` of the staged map `ed`. */
  function LinhasAGravar(ps: seq<Produto>, ed: map<string, Celula>): (r: seq<Linha>)
    ensures |r| <= |ps|
    ensures forall l :: l in r <==> l.produto in NomesDe(ps) && LerCelula(Consultar(ed, l.produto)) == Num(l.quantidade)
  {
    LinhasCom(ps, LeituraDe(ed))
  }

  /** A row with its theoretical stock and the difference `quantidade - teo`. */
  datatype Discrepancia = Discrepancia(produto: string, quantidade: real, teo: real, dif: real)

  function ComDiferenca(l: Linha, inv: map<string, JsNum>): Discrepancia {
    var teo := LerStock(inv, l.produto);
    Discrepancia(l.produto, l.quantidade, teo, l.quantidade - teo)
  }

  /** `.filter(x => x.dif < 0)` over the rows with their differences. */
  function SoNegativas(linhas: seq<Linha>, inv: map<string, JsNum>): (r: seq<Discrepancia>)
    ensures forall d :: d in r <==> d.dif < 0.0 && exists l :: l in linhas && d == ComDiferenca(l, inv)
  {
    if linhas == [] then []
    else
      var d := ComDiferenca(linhas[0], inv);
      var resto := SoNegativas(linhas[1..], inv);
      assert forall l :: l in linhas <==> l == linhas[0] || l in linhas[1..];
      (if d.dif < 0.0 then [d] else []) + resto
  }

  /** `(a, b) => a.dif - b.dif`: ascending by difference, most negative first. */
  function LeDif(a: Discrepancia, b: Discrepancia): bool {
    a.dif <= b.dif
  }

  /** `negativas`: the rows whose count is below the theoretical stock, most negative first. */
  function Negativas(linhas: seq<Linha>, inv: map<string, JsNum>): (r: seq<Discrepancia>)
    ensures Ordenada(r, LeDif)
    ensures multiset(r) == multiset(SoNegativas(linhas, inv))
    ensures forall d :: d in r <==> d.dif < 0.0 && exists l :: l in linhas && d == ComDiferenca(l, inv)
  {
    LeDifPreOrdem();
    var neg := SoNegativas(linhas, inv);
    var r := Ordenar(neg, LeDif);
    forall d ensures d in r <==> d in neg {
      assert d in r <==> d in multiset(r);
      assert d in neg <==> d in multiset(neg);
    }
    r
  }

  lemma LeDifPreOrdem()
    ensures PreOrdemTotal(LeDif)
  {
  }

  /** A row is flagged exactly when its count is below the theoretical stock. */
  lemma NegativaSse(linhas: seq<Linha>, inv: map<string, JsNum>, l: Linha)
    requires l in linhas
    ensures ComDiferenca(l, inv) in Negativas(linhas, inv) <==> l.quantidade < LerStock(inv, l.produto)
  {
  }

  /** `rows.forEach(r => (nextReal[r.produto] = r.quantidade))`. */
  function Sobrescrever(contagem: map<string, real>, linhas: seq<Linha>): map<string, real>
    decreases |linhas|
  {
    if linhas == [] then contagem
    else
      var l := linhas[|linhas| - 1];
      Sobrescrever(contagem, linhas[..|linhas| - 1])[l.produto := l.quantidade]
  }

  predicate TemLinha(linhas: seq<Linha>, n: string) {
    exists i :: 0 <= i < |linhas| && linhas[i].produto == n
  }

  /** Names without a row keep their real count, present or absent. */
  lemma {:induction false} SobrescreverOutros(contagem: map<string, real>, linhas: seq<Linha>, n: string)
    requires !TemLinha(linhas, n)
    ensures Consultar(Sobrescrever(contagem, linhas), n) == Consultar(contagem, n)
    decreases |linhas|
  {
    if linhas != [] {
      var ini := linhas[..|linhas| - 1];
      assert forall i :: 0 <= i < |ini| ==> ini[i] == linhas[i];
      SobrescreverOutros(contagem, ini, n);
    }
  }

  /** A name whose rows all carry `v` ends with `v`. */
  lemma {:induction false} SobrescreverComValor(contagem: map<string, real>, linhas: seq<Linha>, n: string, v: real)
    requires TemLinha(linhas, n)
    requires forall i :: 0 <= i < |linhas| && linhas[i].produto == n ==> linhas[i].quantidade == v
    ensures n in Sobrescrever(contagem, linhas) && Sobrescrever(contagem, linhas)[n] == v
    decreases |linhas|
  {
    var ini := linhas[..|linhas| - 1];
    if linhas[|linhas| - 1].produto != n {
      var i :| 0 <= i < |linhas| && linhas[i].produto == n;
      assert ini[i] == linhas[i];
      assert forall j :: 0 <= j < |ini| ==> ini[j] == linhas[j];
      SobrescreverComValor(contagem, ini, n, v);
    }
  }

  /** A catalogue name that reads as a finite number has rows, and they all carry that number. */
  lemma LinhasDoNome(ps: seq<Produto>, ler: string -> JsNum, n: string, v: real)
    requires n in NomesDe(ps) && ler(n) == Num(v)
    ensures TemLinha(LinhasCom(ps, ler), n)
    ensures forall i :: 0 <= i < |LinhasCom(ps, ler)| && LinhasCom(ps, ler)[i].produto == n
                        ==> LinhasCom(ps, ler)[i].quantidade == v
  {
    var linhas := LinhasCom(ps, ler);
    assert Linha(n, v) in linhas;
    var k :| 0 <= k < |linhas| && linhas[k] == Linha(n, v);
    forall i | 0 <= i < |linhas| && linhas[i].produto == n ensures linhas[i].quantidade == v {
      assert linhas[i] in linhas;
    }
  }

  /** After a commit, every catalogue name whose staged value reads as a finite number holds that number. */
  lemma GravacaoReflete(ps: seq<Produto>, ed: map<string, Celula>, contagem: map<string, real>, n: string)
    requires n in NomesDe(ps) && LerCelula(Consultar(ed, n)).Num?
    ensures n in Sobrescrever(contagem, LinhasAGravar(ps, ed))
    ensures Sobrescrever(contagem, LinhasAGravar(ps, ed))[n] == LerCelula(Consultar(ed, n)).v
  {
    var linhas := LinhasAGravar(ps, ed);
    var v := LerCelula(Consultar(ed, n)).v;
    LinhasDoNome(ps, LeituraDe(ed), n, v);
    SobrescreverComValor(contagem, linhas, n, v);
  }

  /** Every other name keeps its real count, present or absent. */
  lemma GravacaoPreservaOutros(ps: seq<Produto>, ed: map<string, Celula>, contagem: map<string, real>, n: string)
    requires !(n in NomesDe(ps) && LerCelula(Consultar(ed, n)).Num?)
    ensures Consultar(Sobrescrever(contagem, LinhasAGravar(ps, ed)), n) == Consultar(contagem, n)
  {
    var linhas := LinhasAGravar(ps, ed);
    forall i | 0 <= i < |linhas| ensures linhas[i].produto != n {
      assert linhas[i] in linhas;
    }
    SobrescreverOutros(contagem, linhas, n);
  }

  /** Starting a new recount after a commit seeds each committed name with the value just committed. */
  lemma RecontagemAposGravacao(ps: seq<Produto>, ed: map<string, Celula>, contagem: map<string, real>, n: string)
    requires n in NomesDe(ps) && LerCelula(Consultar(ed, n)).Num?
    ensures LerCelula(Consultar(Semente(NomesDe(ps), Sobrescrever(contagem, LinhasAGravar(ps, ed))), n)) == LerCelula(Consultar(ed, n))
  {
    GravacaoReflete(ps, ed, contagem, n);
  }

  /** Committing straight after starting writes 0 for every product that had no real count. */
  lemma SemContagemGravaZero(ps: seq<Produto>, contagem: map<string, real>, n: string)
    requires n in NomesDe(ps) && n !in contagem
    ensures Linha(n, 0.0) in LinhasAGravar(ps, Semente(NomesDe(ps), contagem))
  {
    BrancoLidoComoZero(Some(Texto("")));
  }
}
