/**
 * The team screen: the provisional list of saídas built one line at a time, its removal by
 * position, and the confirmation that stamps every line with the person responsible and
 * inserts the batch; plus the procedência groups and their open/close toggles.
 */
module EquipaEcra {
  import opened Base
  import opened JsNumero
  import opened Ordenacao
  import opened Stock
  import opened Procedencias

  const Cozinha: string := "Cozinha"

  /** A line of `saidasProvisorias`: `{produto, quantidade, unidade, setor, dataHora}`. */
  datatype Provisoria = Provisoria(produto: string, quantidade: real, unidade: string, setor: string, dataHora: string)

  /** A line of the insert payload: the provisional line with `responsavel` attached. */
  datatype Saida = Saida(produto: string, quantidade: real, unidade: string, setor: string, dataHora: string,
                         responsavel: string)

  datatype ResultadoAdicao = QuantidadeInvalida | Adicionada

  datatype ResultadoConfirmacao =
    | ResponsavelObrigatorio
    | ListaVazia
    | ErroAoGuardar(payload: seq<Saida>)
    | Registadas(payload: seq<Saida>)

  /** `{ ...s, responsavel }`. */
  function ComResponsavel(s: Provisoria, responsavel: string): Saida {
    Saida(s.produto, s.quantidade, s.unidade, s.setor, s.dataHora, responsavel)
  }

  /** Dropping `responsavel` again. */
  function SemResponsavel(s: Saida): Provisoria {
    Provisoria(s.produto, s.quantidade, s.unidade, s.setor, s.dataHora)
  }

  /** `saidasProvisorias.map(s => ({ ...s, responsavel }))`. */
  function Payload(lista: seq<Provisoria>, responsavel: string): (r: seq<Saida>)
    ensures |r| == |lista|
    ensures forall i :: 0 <= i < |r| ==> SemResponsavel(r[i]) == lista[i] && r[i].responsavel == responsavel
  {
    if lista == [] then [] else [ComResponsavel(lista[0], responsavel)] + Payload(lista[1..], responsavel)
  }

  /** `prev.filter((_, idx) => idx !== i)`, element by element from the back. */
  function FiltrarIndice<T>(s: seq<T>, i: int): (r: seq<T>)
    ensures r == if 0 <= i < |s| then s[..i] + s[i + 1..] else s
    decreases |s|
  {
    if s == [] then []
    else
      var ini := FiltrarIndice(s[..|s| - 1], i);
      var ultimo := s[|s| - 1];
      assert s == s[..|s| - 1] + [ultimo];
      if |s| - 1 == i then ini else ini + [ultimo]
  }

  /** Removing at a valid position deletes exactly that line: the others keep their order. */
  lemma RemoverUma<T>(s: seq<T>, i: int)
    requires 0 <= i < |s|
    ensures |FiltrarIndice(s, i)| == |s| - 1
    ensures forall k :: 0 <= k < i ==> FiltrarIndice(s, i)[k] == s[k]
    ensures forall k :: i <= k < |s| - 1 ==> FiltrarIndice(s, i)[k] == s[k + 1]
    ensures multiset(FiltrarIndice(s, i)) + multiset{s[i]} == multiset(s)
  {
    assert s == s[..i] + [s[i]] + s[i + 1..];
  }

  /** A confirmed batch as the saídas the theoretical stock reads. */
  function Movimentos(payload: seq<Saida>): (r: seq<Movimento>)
    ensures |r| == |payload|
    ensures forall i :: 0 <= i < |r| ==> r[i] == Movimento(payload[i].produto, Num(payload[i].quantidade), payload[i].dataHora)
  {
    if payload == [] then []
    else [Movimento(payload[0].produto, Num(payload[0].quantidade), payload[0].dataHora)] + Movimentos(payload[1..])
  }

  /**
   * Once a confirmed batch is among the saídas, every product's theoretical stock is lower by
   * exactly the quantities the batch lists for it.
   */
  lemma RegistoBaixaStock(entradas: seq<Movimento>, saidas: seq<Movimento>, payload: seq<Saida>, n: string)
    requires BemFormados(entradas) && BemFormados(saidas)
    ensures LerStock(InventarioTeorico(entradas, saidas + Movimentos(payload)), n)
            == LerStock(InventarioTeorico(entradas, saidas), n) - Soma(Movimentos(payload), QtdPara(n))
  {
    var ms := Movimentos(payload);
    assert BemFormados(saidas + ms);
    TeoricoEhEntradasMenosSaidas(entradas, saidas, n);
    TeoricoEhEntradasMenosSaidas(entradas, saidas + ms, n);
    SomaConcat(saidas, ms, QtdPara(n));
  }

  /** `Number(quantidades[p.id])`: an id never typed into is `undefined`, which reads as NaN. */
  function QuantidadeDigitada(quantidades: map<int, string>, id: int): JsNum {
    if id in quantidades then NumeroDeTexto(quantidades[id]) else NaN
  }

  /** `!qtd || qtd <= 0`: NaN, zero and negatives are refused. */
  predicate QuantidadeValida(q: JsNum) {
    q.Num? && q.v > 0.0
  }

  class Equipa {
    var produtos: seq<Produto>
    var saidasProvisorias: seq<Provisoria>
    var quantidades: map<int, string>
    var responsavel: string
    var pesquisaProduto: string
    var procedenciasAbertas: map<string, bool>

    /** Every provisional line went through the add button: positive quantity, sector "Cozinha". */
    predicate Valid()
      reads this
    {
      forall i :: 0 <= i < |saidasProvisorias| ==>
        saidasProvisorias[i].quantidade > 0.0 && saidasProvisorias[i].setor == Cozinha
    }

    constructor ()
      ensures Valid()
      ensures produtos == [] && saidasProvisorias == [] && quantidades == map[] && responsavel == ""
      ensures pesquisaProduto == "" && procedenciasAbertas == map[]
    {
      produtos, saidasProvisorias, quantidades, responsavel := [], [], map[], "";
      pesquisaProduto, procedenciasAbertas := "", map[];
    }

    /** `setProdutos(data || [])`. */
    method CarregarProdutos(ps: seq<Produto>)
      modifies this`produtos
      ensures produtos == ps
    {
      produtos := ps;
    }

    /** Typing in a product's quantity input. */
    method EditarQuantidade(id: int, texto: string)
      modifies this`quantidades
      ensures quantidades == old(quantidades)[id := texto]
    {
      quantidades := quantidades[id := texto];
    }

    /** Typing in the "Responsável" input. */
    method EditarResponsavel(texto: string)
      modifies this`responsavel
      ensures responsavel == texto
    {
      responsavel := texto;
    }

    /** Typing in the product search box. */
    method EditarPesquisa(texto: string)
      modifies this`pesquisaProduto
      ensures pesquisaProduto == texto
    {
      pesquisaProduto := texto;
    }

    /**
     * The ➕ button of product `p`, at time `agora`: an invalid quantity changes nothing;
     * otherwise one line is appended at the end and only that product's input is cleared.
     */
    method AdicionarSaida(p: Produto, agora: string) returns (r: ResultadoAdicao)
      requires Valid()
      modifies this`saidasProvisorias, this`quantidades
      ensures Valid()
      ensures var q := QuantidadeDigitada(old(quantidades), p.id);
              !QuantidadeValida(q) ==>
                r == QuantidadeInvalida && saidasProvisorias == old(saidasProvisorias) && quantidades == old(quantidades)
      ensures var q := QuantidadeDigitada(old(quantidades), p.id);
              QuantidadeValida(q) ==>
                && r == Adicionada
                && saidasProvisorias == old(saidasProvisorias) + [Provisoria(p.nome, q.v, p.unidade, Cozinha, agora)]
                && quantidades == old(quantidades)[p.id := ""]
    {
      var qtd := QuantidadeDigitada(quantidades, p.id);
      if !QuantidadeValida(qtd) {
        return QuantidadeInvalida;
      }
      saidasProvisorias := saidasProvisorias + [Provisoria(p.nome, qtd.v, p.unidade, Cozinha, agora)];
      quantidades := quantidades[p.id := ""];
      r := Adicionada;
    }

    /** The ❌ button of line `i`. */
    method RemoverSaida(i: int)
      requires Valid()
      modifies this`saidasProvisorias
      ensures Valid()
      ensures saidasProvisorias == FiltrarIndice(old(saidasProvisorias), i)
    {
      saidasProvisorias := FiltrarIndice(saidasProvisorias, i);
    }

    /**
     * "Confirmar Saídas", with `insercaoOk` the outcome of the insert: without a responsible
     * person or with an empty list nothing is sent; a failed insert keeps list and name; a
     * successful one empties both.
     */
    method ConfirmarSaidas(insercaoOk: bool) returns (r: ResultadoConfirmacao)
      requires Valid()
      modifies this`saidasProvisorias, this`responsavel
      ensures Valid()
      ensures old(responsavel) == "" ==> r == ResponsavelObrigatorio
      ensures old(responsavel) != "" && old(saidasProvisorias) == [] ==> r == ListaVazia
      ensures old(responsavel) != "" && old(saidasProvisorias) != [] ==>
                var payload := Payload(old(saidasProvisorias), old(responsavel));
                r == if insercaoOk then Registadas(payload) else ErroAoGuardar(payload)
      ensures r.Registadas? ==> saidasProvisorias == [] && responsavel == ""
      ensures !r.Registadas? ==> saidasProvisorias == old(saidasProvisorias) && responsavel == old(responsavel)
    {
      if responsavel == "" {
        return ResponsavelObrigatorio;
      }
      if |saidasProvisorias| == 0 {
        return ListaVazia;
      }
      var payload := Payload(saidasProvisorias, responsavel);
      if !insercaoOk {
        return ErroAoGuardar(payload);
      }
      saidasProvisorias := [];
      responsavel := "";
      r := Registadas(payload);
    }

    /** `toggleProcedencia`. */
    method ToggleProcedencia(k: string)
      modifies this`procedenciasAbertas
      ensures procedenciasAbertas == Alternar(old(procedenciasAbertas), k)
    {
      procedenciasAbertas := Alternar(procedenciasAbertas, k);
    }

    /** `abrirTudoProcedencias`: exactly the current group keys, all open. */
    method AbrirTudoProcedencias()
      modifies this`procedenciasAbertas
      ensures forall k :: k in procedenciasAbertas <==> k in Agrupar(produtos, Procedencia)
      ensures forall k :: k in procedenciasAbertas ==> procedenciasAbertas[k]
    {
      var chaves := ProcedenciasOrdenadas(produtos);
      var all := AbrirTodas(chaves);
      forall k ensures k in chaves <==> k in Agrupar(produtos, Procedencia) {
        assert k in chaves <==> k in multiset(chaves);
      }
      procedenciasAbertas := all;
    }

    /** `fecharTudoProcedencias`. */
    method FecharTudoProcedencias()
      modifies this`procedenciasAbertas
      ensures procedenciasAbertas == FecharTodas()
    {
      procedenciasAbertas := FecharTodas();
    }
  }
}
