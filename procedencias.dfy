/**
 * Grouping the catalogue by procedência (supplier) for the collapsible lists of both
 * screens, the sorted group keys, and the map of open groups with its three toggles.
 */
module Procedencias {
  import opened Base
  import opened JsTexto
  import opened Ordenacao
  import opened Stock

  const SemProcedencia: string := "Sem proced\U{EA}ncia"

  /** `(p.procedencia ?? "").toString().trim()`, or "Sem procedência" when that is empty. */
  function Procedencia(p: Produto): (r: string)
    ensures r != []
    ensures var raw := Trim(match p.procedencia case Some(s) => s case None => "");
            (raw == [] ==> r == SemProcedencia) && (raw != [] ==> r == raw)
  {
    var raw := Trim(match p.procedencia case Some(s) => s case None => "");
    if raw == [] then SemProcedencia else raw
  }

  /*
   * The grouping below is written for any key function `chave`; the screens use `Procedencia`.
   */

  predicate TemChave(ps: seq<Produto>, chave: Produto -> string, k: string) {
    exists i :: 0 <= i < |ps| && chave(ps[i]) == k
  }

  /** The products of group `k`, in catalogue order. */
  function DoGrupo(ps: seq<Produto>, chave: Produto -> string, k: string): (r: seq<Produto>)
    ensures forall p :: p in r <==> p in ps && chave(p) == k
    decreases |ps|
  {
    if ps == [] then []
    else
      var ini := DoGrupo(ps[..|ps| - 1], chave, k);
      var p := ps[|ps| - 1];
      assert ps == ps[..|ps| - 1] + [p];
      if chave(p) == k then ini + [p] else ini
  }

  /** The `forEach` that pushes each product onto its group's list, creating the list first when needed. */
  function Agrupar(ps: seq<Produto>, chave: Produto -> string): map<string, seq<Produto>>
    decreases |ps|
  {
    if ps == [] then map[]
    else
      var g := Agrupar(ps[..|ps| - 1], chave);
      var p := ps[|ps| - 1];
      var k := chave(p);
      g[k := (if k in g then g[k] else []) + [p]]
  }

  /**
   * The group keys, each once, in the order they were first created. `Object.keys` lists
   * integer-like keys first; the order does not matter here, because the keys are sorted next.
   */
  function ChavesPorOrdem(ps: seq<Produto>, chave: Produto -> string): seq<string>
    decreases |ps|
  {
    if ps == [] then []
    else
      var c := ChavesPorOrdem(ps[..|ps| - 1], chave);
      var k := chave(ps[|ps| - 1]);
      if k in c then c else c + [k]
  }

  lemma PrefixoMais(ps: seq<Produto>, i: nat)
    requires i < |ps|
    ensures ps[..i + 1][..i] == ps[..i] && ps[..i + 1][i] == ps[i]
  {
  }

  /** The grouping loop: push each product onto its key's list, creating the list first when needed. */
  method AgruparPor(ps: seq<Produto>, chave: Produto -> string) returns (grupos: map<string, seq<Produto>>, chaves: seq<string>)
    ensures grupos == Agrupar(ps, chave)
    ensures chaves == ChavesPorOrdem(ps, chave)
  {
    grupos, chaves := map[], [];
    for i := 0 to |ps|
      invariant grupos == Agrupar(ps[..i], chave)
      invariant chaves == ChavesPorOrdem(ps[..i], chave)
    {
      PrefixoMais(ps, i);
      ChavesDoMapa(ps[..i], chave);
      var k := chave(ps[i]);
      if k !in grupos {
        grupos := grupos[k := []];
        chaves := chaves + [k];
      }
      grupos := grupos[k := grupos[k] + [ps[i]]];
    }
    assert ps[..|ps|] == ps;
  }

  /** The key list and the map have the same keys. */
  lemma {:induction false} ChavesDoMapa(ps: seq<Produto>, chave: Produto -> string)
    ensures forall k :: k in ChavesPorOrdem(ps, chave) <==> k in Agrupar(ps, chave)
    decreases |ps|
  {
    if ps != [] {
      ChavesDoMapa(ps[..|ps| - 1], chave);
    }
  }

  lemma {:induction false} ChavesExistentes(ps: seq<Produto>, chave: Produto -> string, k: string)
    ensures k in Agrupar(ps, chave) <==> TemChave(ps, chave, k)
    decreases |ps|
  {
    if ps != [] {
      var ini := ps[..|ps| - 1];
      ChavesExistentes(ini, chave, k);
      if TemChave(ini, chave, k) {
        var i :| 0 <= i < |ini| && chave(ini[i]) == k;
        assert ps[i] == ini[i];
      }
      if TemChave(ps, chave, k) && chave(ps[|ps| - 1]) != k {
        var i :| 0 <= i < |ps| && chave(ps[i]) == k;
        assert ini[i] == ps[i];
      }
    }
  }

  lemma {:induction false} ChavesUmaVez(ps: seq<Produto>, chave: Produto -> string, k: string)
    ensures multiset(ChavesPorOrdem(ps, chave))[k] == if k in Agrupar(ps, chave) then 1 else 0
    decreases |ps|
  {
    if ps != [] {
      var ini := ps[..|ps| - 1];
      ChavesUmaVez(ini, chave, k);
      ChavesDoMapa(ini, chave);
    }
  }

  /** A key exists exactly for the procedências that occur, and each key is listed once. */
  lemma ChavesDoAgrupamento(ps: seq<Produto>, chave: Produto -> string, k: string)
    ensures k in Agrupar(ps, chave) <==> TemChave(ps, chave, k)
    ensures multiset(ChavesPorOrdem(ps, chave))[k] == if TemChave(ps, chave, k) then 1 else 0
  {
    ChavesExistentes(ps, chave, k);
    ChavesUmaVez(ps, chave, k);
  }

  /** Each group's list is the catalogue filtered to that key, in catalogue order. */
  lemma {:induction false} GrupoEhFiltro(ps: seq<Produto>, chave: Produto -> string, k: string)
    requires k in Agrupar(ps, chave)
    ensures Agrupar(ps, chave)[k] == DoGrupo(ps, chave, k)
    decreases |ps|
  {
    var ini := ps[..|ps| - 1];
    var p := ps[|ps| - 1];
    if k in Agrupar(ini, chave) {
      GrupoEhFiltro(ini, chave, k);
    } else if chave(p) == k {
      ChavesExistentes(ini, chave, k);
      DoGrupoVazio(ini, chave, k);
    }
  }

  lemma {:induction false} DoGrupoVazio(ps: seq<Produto>, chave: Produto -> string, k: string)
    requires !TemChave(ps, chave, k)
    ensures DoGrupo(ps, chave, k) == []
    decreases |ps|
  {
    if ps != [] {
      var ini := ps[..|ps| - 1];
      assert forall i :: 0 <= i < |ini| ==> ini[i] == ps[i];
      DoGrupoVazio(ini, chave, k);
      assert chave(ps[|ps| - 1]) != k;
    }
  }

  /** Every product lands in its own group and in no other. */
  lemma UmGrupoPorProduto(ps: seq<Produto>, p: Produto, k: string)
    requires k in Agrupar(ps, Procedencia)
    ensures p in Agrupar(ps, Procedencia)[k] <==> p in ps && Procedencia(p) == k
  {
    GrupoEhFiltro(ps, Procedencia, k);
  }

  /** Every product of the catalogue has a group. */
  lemma TodoProdutoTemGrupo(ps: seq<Produto>, i: nat)
    requires i < |ps|
    ensures Procedencia(ps[i]) in Agrupar(ps, Procedencia)
  {
    ChavesExistentes(ps, Procedencia, Procedencia(ps[i]));
  }

  /** The filter distributes over concatenation, so a group keeps the catalogue's order. */
  lemma {:induction false} DoGrupoConcat(a: seq<Produto>, b: seq<Produto>, chave: Produto -> string, k: string)
    ensures DoGrupo(a + b, chave, k) == DoGrupo(a, chave, k) + DoGrupo(b, chave, k)
    decreases |b|
  {
    if b == [] {
      assert a + b == a;
    } else {
      var ini := b[..|b| - 1];
      assert (a + b)[..|a + b| - 1] == a + ini;
      DoGrupoConcat(a, ini, chave, k);
    }
  }

  // ----- Sorted keys -----

  /** `a.localeCompare(b) <= 0`, with code-point order for the collation. */
  function LeTexto(a: string, b: string): bool {
    LexMenorIgual(a, b)
  }

  lemma LeTextoPreOrdem()
    ensures PreOrdemTotal(LeTexto)
  {
    forall a: string, b: string ensures LeTexto(a, b) || LeTexto(b, a) {
      LexMenorIgualOrdemTotal(a, b, b);
    }
    forall a: string, b: string, c: string | LeTexto(a, b) && LeTexto(b, c) ensures LeTexto(a, c) {
      LexMenorIgualOrdemTotal(a, b, c);
    }
  }

  /** `procedenciasOrdenadas`: the group keys sorted, each exactly once. */
  function ProcedenciasOrdenadas(ps: seq<Produto>): (r: seq<string>)
    ensures Ordenada(r, LeTexto)
    ensures forall k :: multiset(r)[k] == if k in Agrupar(ps, Procedencia) then 1 else 0
  {
    LeTextoPreOrdem();
    var r := Ordenar(ChavesPorOrdem(ps, Procedencia), LeTexto);
    forall k ensures multiset(r)[k] == if k in Agrupar(ps, Procedencia) then 1 else 0 {
      ChavesUmaVez(ps, Procedencia, k);
    }
    r
  }

  // ----- Open groups -----

  /** `!!procedenciasAbertas[proc]`. */
  predicate Aberta(m: map<string, bool>, k: string) {
    k in m && m[k]
  }

  /** `{ ...prev, [proc]: !prev[proc] }`. */
  function Alternar(m: map<string, bool>, k: string): (r: map<string, bool>)
    ensures Aberta(r, k) == !Aberta(m, k)
    ensures forall j :: j != k ==> (j in r <==> j in m) && (j in m ==> r[j] == m[j])
  {
    m[k := !Aberta(m, k)]
  }

  /** Toggling the same group twice leaves every group as it was seen. */
  lemma AlternarDuasVezes(m: map<string, bool>, k: string, j: string)
    ensures Aberta(Alternar(Alternar(m, k), k), j) == Aberta(m, j)
  {
  }

  /** `abrirTudoProcedencias`: a fresh map with every listed key set to true. */
  method AbrirTodas(chaves: seq<string>) returns (all: map<string, bool>)
    ensures forall k :: k in all <==> k in chaves
    ensures forall k :: k in all ==> all[k]
  {
    all := map[];
    for i := 0 to |chaves|
      invariant forall k :: k in all <==> k in chaves[..i]
      invariant forall k :: k in all ==> all[k]
    {
      assert chaves[..i + 1] == chaves[..i] + [chaves[i]];
      all := all[chaves[i] := true];
    }
    assert chaves[..|chaves|] == chaves;
  }

  /** `fecharTudoProcedencias`: no group is open. */
  function FecharTodas(): (r: map<string, bool>)
    ensures forall k :: !Aberta(r, k)
  {
    map[]
  }
}
