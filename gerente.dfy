/**
 * The manager screen's state and its handlers: loading the data, the monthly recount
 * mode with its staged values, paste, fill-blanks and commit, and the open procedência groups.
 */
module GerenteEcra {
  import opened Base
  import opened JsNumero
  import opened Ordenacao
  import opened Stock
  import opened Unidades
  import opened Colagem
  import opened Recontagem
  import opened Procedencias

  /** What `aplicarColagemInventario` ends with: nothing read, or applied with the unmatched names reported. */
  datatype ResultadoColagem = NadaLido | Aplicado(naoEncontrados: set<string>)

  /** What `gravarInventarioMensal` ends with. */
  datatype ResultadoGravacao =
    | SemValoresValidos
    | Cancelado(negativas: seq<Discrepancia>)
    | ErroAoGravar(negativas: seq<Discrepancia>)
    | Gravado(negativas: seq<Discrepancia>)

  /** `(p || []).map(x => ({ ...x, unidade: normalizeUnidade(x.unidade) }))`. */
  function NormalizarUnidades(ps: seq<Produto>): (r: seq<Produto>)
    ensures |r| == |ps|
    ensures forall i :: 0 <= i < |ps| ==> r[i] == ps[i].(unidade := NormalizeUnidade(ps[i].unidade))
  {
    seq(|ps|, i requires 0 <= i < |ps| => ps[i].(unidade := NormalizeUnidade(ps[i].unidade)))
  }

  /** `s[i]` is the next element after the prefix `s[..i]`, so it adds one name. */
  lemma NomesDePasso(ps: seq<Produto>, i: nat)
    requires i < |ps|
    ensures NomesDe(ps[..i + 1]) == NomesDe(ps[..i]) + {ps[i].nome}
  {
    assert ps[..i + 1] == ps[..i] + [ps[i]];
  }

  /**
   * The `forEach` over rows that writes `nextReal[r.produto] = r.quantidade`
   * (also the loop that builds the real-count map from the loaded rows).
   */
  method SobrescreverLinhas(contagem: map<string, real>, linhas: seq<Linha>) returns (r: map<string, real>)
    ensures r == Sobrescrever(contagem, linhas)
  {
    r := contagem;
    for i := 0 to |linhas|
      invariant r == Sobrescrever(contagem, linhas[..i])
    {
      assert linhas[..i + 1][..i] == linhas[..i];
      r := r[linhas[i].produto := linhas[i].quantidade];
    }
    assert linhas[..|linhas|] == linhas;
  }

  /** The loop of `iniciarInventarioMensal` that writes `base[p.nome]` for every product. */
  method SementeDe(ps: seq<Produto>, contagem: map<string, real>) returns (base: map<string, Celula>)
    ensures base == Semente(NomesDe(ps), contagem)
  {
    base := map[];
    for i := 0 to |ps|
      invariant base == Semente(NomesDe(ps[..i]), contagem)
    {
      var n := ps[i].nome;
      NomesDePasso(ps, i);
      SementePasso(NomesDe(ps[..i]), contagem, n);
      base := base[n := if n in contagem then Numero(contagem[n]) else Texto("")];
    }
    assert ps[..|ps|] == ps;
  }

  /** The loop of `preencherVaziosComZeroInventario` that writes `"0"` into `next` where the value is blank. */
  method PreencherVaziosDe(ps: seq<Produto>, ed: map<string, Celula>) returns (next: map<string, Celula>)
    ensures next == PreencherVazios(ed, NomesDe(ps))
  {
    next := ed;
    for i := 0 to |ps|
      invariant next == PreencherVazios(ed, NomesDe(ps[..i]))
    {
      var n := ps[i].nome;
      NomesDePasso(ps, i);
      PreencherPasso(ed, NomesDe(ps[..i]), n);
      if EmBranco(Consultar(next, n)) {
        next := next[n := Texto("0")];
      }
    }
    assert ps[..|ps|] == ps;
  }

  /**
   * The gates of `gravarInventarioMensal` and the write that follows them, on the values
   * alone: no valid row; the confirmation declined (`confirmar`, asked only when some count is
   * below the theoretical stock); the upsert failed (`gravacaoOk`). Only past all three is
   * every row's product overwritten (the `nextReal` loop) and the mode closed.
   */
  method GravarContagem(linhas: seq<Linha>, inv: map<string, JsNum>, contagem: map<string, real>, modo: bool,
                        confirmar: bool, gravacaoOk: bool)
    returns (r: ResultadoGravacao, novaContagem: map<string, real>, novoModo: bool)
    ensures linhas == [] ==> r == SemValoresValidos
    ensures linhas != [] ==>
              var negativas := Negativas(linhas, inv);
              r == if negativas != [] && !confirmar then Cancelado(negativas)
                   else if !gravacaoOk then ErroAoGravar(negativas)
                   else Gravado(negativas)
    ensures r.Gravado? ==> novaContagem == Sobrescrever(contagem, linhas) && !novoModo
    ensures !r.Gravado? ==> novaContagem == contagem && novoModo == modo
  {
    novaContagem, novoModo := contagem, modo;
    if linhas == [] {
      return SemValoresValidos, novaContagem, novoModo;
    }
    var negativas := Negativas(linhas, inv);
    if negativas != [] && !confirmar {
      return Cancelado(negativas), novaContagem, novoModo;
    }
    if !gravacaoOk {
      return ErroAoGravar(negativas), novaContagem, novoModo;
    }
    novaContagem := SobrescreverLinhas(contagem, linhas);
    novoModo := false;
    r := Gravado(negativas);
  }

  class Gerente {
    var produtos: seq<Produto>
    var entradas: seq<Movimento>
    var saidas: seq<Movimento>
    var inventarioReal: map<string, real>
    var modoInventarioMensal: bool
    var inventarioEdicao: map<string, Celula>
    var inventarioColar: string
    var inventarioFiltro: string
    var procedenciasAbertas: map<string, bool>

    constructor ()
      ensures produtos == [] && entradas == [] && saidas == [] && inventarioReal == map[]
      ensures !modoInventarioMensal && inventarioEdicao == map[] && inventarioColar == "" && inventarioFiltro == ""
      ensures procedenciasAbertas == map[]
    {
      produtos, entradas, saidas, inventarioReal := [], [], [], map[];
      modoInventarioMensal, inventarioEdicao, inventarioColar, inventarioFiltro := false, map[], "", "";
      procedenciasAbertas := map[];
    }

    /** `inventarioTeorico`, recomputed from the current movements. */
    function Teorico(): map<string, JsNum>
      reads this
    {
      InventarioTeorico(entradas, saidas)
    }

    /**
     * The client side of `fetchTudo`: the catalogue with normalised units, the movements,
     * and the real count built from the `inventario_real` rows (a later row for a name wins).
     */
    method CarregarDados(ps: seq<Produto>, es: seq<Movimento>, ss: seq<Movimento>, rs: seq<Linha>)
      modifies this`produtos, this`entradas, this`saidas, this`inventarioReal
      ensures produtos == NormalizarUnidades(ps) && entradas == es && saidas == ss
      ensures inventarioReal == Sobrescrever(map[], rs)
    {
      produtos, entradas, saidas := NormalizarUnidades(ps), es, ss;
      inventarioReal := SobrescreverLinhas(map[], rs);
    }

    /** `iniciarInventarioMensal`: stage every product's real count (or ""), clear paste and filter, open the mode. */
    method IniciarInventarioMensal()
      modifies this`inventarioEdicao, this`inventarioColar, this`inventarioFiltro, this`modoInventarioMensal
      ensures inventarioEdicao == Semente(NomesDe(produtos), inventarioReal)
      ensures inventarioColar == "" && inventarioFiltro == "" && modoInventarioMensal
    {
      inventarioEdicao := SementeDe(produtos, inventarioReal);
      inventarioColar := "";
      inventarioFiltro := "";
      modoInventarioMensal := true;
    }

    /** `fecharInventarioMensal`: the staged values stay, only the mode closes. */
    method FecharInventarioMensal()
      modifies this`modoInventarioMensal
      ensures !modoInventarioMensal
    {
      modoInventarioMensal := false;
    }

    /** Typing in a product's count input: `{ ...prev, [p.nome]: e.target.value }`. */
    method EditarContagem(nome: string, texto: string)
      modifies this`inventarioEdicao
      ensures inventarioEdicao == old(inventarioEdicao)[nome := Texto(texto)]
    {
      inventarioEdicao := inventarioEdicao[nome := Texto(texto)];
    }

    /** Typing in the paste box. */
    method EscreverColagem(texto: string)
      modifies this`inventarioColar
      ensures inventarioColar == texto
    {
      inventarioColar := texto;
    }

    /** Typing in the recount search box. */
    method EscreverFiltro(texto: string)
      modifies this`inventarioFiltro
      ensures inventarioFiltro == texto
    {
      inventarioFiltro := texto;
    }

    /** The rows shown in recount mode: sorted by name, filtered by the search text. */
    function ListaInventarioMensal(): (r: seq<Produto>)
      reads this
      ensures Ordenada(r, LeNome)
      ensures forall p :: p in r ==> p in produtos
    {
      var r := InventarioMensalLista(produtos, inventarioFiltro);
      assert forall p :: p in r ==> p in multiset(r);
      r
    }

    /**
     * `aplicarColagemInventario`: parse the paste box; if nothing was read nothing changes,
     * otherwise the catalogue names among the parsed ones are staged and the rest are reported.
     */
    method AplicarColagemInventario() returns (r: ResultadoColagem)
      modifies this`inventarioEdicao
      ensures var parsed := LeituraColagem(old(inventarioColar));
              && (|parsed| == 0 ==> r == NadaLido && inventarioEdicao == old(inventarioEdicao))
              && (|parsed| > 0 ==> r == Aplicado(NaoEncontrados(parsed, NomesDe(produtos)))
                                   && inventarioEdicao == AplicarColagem(old(inventarioEdicao), parsed, NomesDe(produtos)))
    {
      var parsed := ParseInventarioTexto(inventarioColar);
      if |parsed| == 0 {
        return NadaLido;
      }
      var nomes := NomesDe(produtos);
      inventarioEdicao := AplicarColagem(inventarioEdicao, parsed, nomes);
      r := Aplicado(NaoEncontrados(parsed, nomes));
    }

    /** `preencherVaziosComZeroInventario`, as the loop over the catalogue that writes `next`. */
    method PreencherVaziosComZeroInventario()
      modifies this`inventarioEdicao
      ensures inventarioEdicao == PreencherVazios(old(inventarioEdicao), NomesDe(produtos))
    {
      inventarioEdicao := PreencherVaziosDe(produtos, inventarioEdicao);
    }

    /** `gravarInventarioMensal` on the current state; the gates are those of `GravarContagem`. */
    method GravarInventarioMensal(confirmar: bool, gravacaoOk: bool) returns (r: ResultadoGravacao)
      modifies this`inventarioReal, this`modoInventarioMensal
      ensures old(LinhasAGravar(produtos, inventarioEdicao)) == [] ==> r == SemValoresValidos
      ensures old(LinhasAGravar(produtos, inventarioEdicao)) != [] ==>
                var negativas := old(Negativas(LinhasAGravar(produtos, inventarioEdicao), Teorico()));
                r == if negativas != [] && !confirmar then Cancelado(negativas)
                     else if !gravacaoOk then ErroAoGravar(negativas)
                     else Gravado(negativas)
      ensures r.Gravado? ==> inventarioReal == old(Sobrescrever(inventarioReal, LinhasAGravar(produtos, inventarioEdicao)))
                             && !modoInventarioMensal
      ensures !r.Gravado? ==> inventarioReal == old(inventarioReal) && modoInventarioMensal == old(modoInventarioMensal)
    {
      var rows := LinhasAGravar(produtos, inventarioEdicao);
      var inv := CalcularInventarioTeorico(entradas, saidas);
      r, inventarioReal, modoInventarioMensal :=
        GravarContagem(rows, inv, inventarioReal, modoInventarioMensal, confirmar, gravacaoOk);
    }

    /** `toggleProcedencia`. */
    method ToggleProcedencia(k: string)
      modifies this`procedenciasAbertas
      ensures procedenciasAbertas == Alternar(old(procedenciasAbertas), k)
    {
      procedenciasAbertas := Alternar(procedenciasAbertas, k);
    }

    /** `abrirTudoProcedencias`: exactly the current group keys, all open. */
    method AbrirTudoProcedencias()
      modifies this`procedenciasAbertas
      ensures forall k :: k in procedenciasAbertas <==> k in Agrupar(produtos, Procedencia)
      ensures forall k :: k in procedenciasAbertas ==> procedenciasAbertas[k]
    {
      var chaves := ProcedenciasOrdenadas(produtos);
      var all := AbrirTodas(chaves);
      forall k ensures k in chaves <==> k in Agrupar(produtos, Procedencia) {
        assert k in chaves <==> k in multiset(chaves);
      }
      procedenciasAbertas := all;
    }

    /** `fecharTudoProcedencias`. */
    method FecharTudoProcedencias()
      modifies this`procedenciasAbertas
      ensures procedenciasAbertas == FecharTodas()
    {
      procedenciasAbertas := FecharTodas();
    }
  }
}
