/**
 * The manager screen's stock engine: the theoretical stock folded from the entradas and
 * saídas, the below-minimum alert list, the total stock value, the inclusive date-range
 * test used on the history lists, and the sorted, searchable recount list.
 */
module Stock {
  import opened Base
  import opened JsTexto
  import opened JsNumero
  import opened Ordenacao

  /** A catalogue row. `minimo` and `precoUnit` are numbers (possibly NaN) or null. */
  datatype Produto = Produto(id: int, nome: string, unidade: string, procedencia: Option<string>,
                             minimo: Option<JsNum>, precoUnit: Option<JsNum>)

  /** An entrada or a saída: the product it names, `Number(quantidade)`, and its timestamp. */
  datatype Movimento = Movimento(produto: string, quantidade: JsNum, dataHora: string)

  /** `Number(x || 0)`: a missing value, NaN and 0 all read as 0. */
  function OuZero(x: Option<JsNum>): real {
    match x
    case Some(Num(v)) => v
    case _ => 0.0
  }

  function Consultar<V>(m: map<string, V>, n: string): Option<V> {
    if n in m then Some(m[n]) else None
  }

  /** `Number(inventarioTeorico[nome] || 0)`. */
  function LerStock(inv: map<string, JsNum>, n: string): real {
    OuZero(Consultar(inv, n))
  }

  // ----- Theoretical stock -----

  /** One step of the fold: `inv[p] = (inv[p] || 0) + Number(q)` for an entrada, `-` for a saída. */
  function Passo(inv: map<string, JsNum>, m: Movimento, entrada: bool): map<string, JsNum> {
    var base := LerStock(inv, m.produto);
    inv[m.produto := match m.quantidade
                     case Num(q) => Num(if entrada then base + q else base - q)
                     case NaN => NaN]
  }

  /** The `forEach` over a list of movements, left to right. */
  function Acumular(inv: map<string, JsNum>, ms: seq<Movimento>, entrada: bool): map<string, JsNum>
    decreases |ms|
  {
    if ms == [] then inv else Passo(Acumular(inv, ms[..|ms| - 1], entrada), ms[|ms| - 1], entrada)
  }

  /** `inventarioTeorico`: all entradas, then all saídas. */
  function InventarioTeorico(entradas: seq<Movimento>, saidas: seq<Movimento>): map<string, JsNum> {
    Acumular(Acumular(map[], entradas, true), saidas, false)
  }

  /** The memoised computation of `inventarioTeorico`, as the two loops the source runs. */
  method CalcularInventarioTeorico(entradas: seq<Movimento>, saidas: seq<Movimento>) returns (inv: map<string, JsNum>)
    ensures inv == InventarioTeorico(entradas, saidas)
  {
    inv := map[];
    for i := 0 to |entradas|
      invariant inv == Acumular(map[], entradas[..i], true)
    {
      assert entradas[..i + 1][..i] == entradas[..i];
      inv := Passo(inv, entradas[i], true);
    }
    assert entradas[..|entradas|] == entradas;
    ghost var base := inv;
    for i := 0 to |saidas|
      invariant inv == Acumular(base, saidas[..i], false)
    {
      assert saidas[..i + 1][..i] == saidas[..i];
      inv := Passo(inv, saidas[i], false);
    }
    assert saidas[..|saidas|] == saidas;
  }

  /** What movement `m` contributes to product `n`'s sum. */
  function QtdPara(n: string): Movimento -> real {
    (m: Movimento) => if m.produto == n && m.quantidade.Num? then m.quantidade.v else 0.0
  }

  /** Every quantity is a number (no NaN). */
  predicate BemFormados(ms: seq<Movimento>) {
    forall i :: 0 <= i < |ms| ==> ms[i].quantidade.Num?
  }

  predicate Menciona(ms: seq<Movimento>, n: string) {
    exists i :: 0 <= i < |ms| && ms[i].produto == n
  }

  lemma {:induction false} AcumularSoma(inv: map<string, JsNum>, ms: seq<Movimento>, entrada: bool, n: string)
    requires BemFormados(ms)
    ensures LerStock(Acumular(inv, ms, entrada), n)
            == LerStock(inv, n) + (if entrada then Soma(ms, QtdPara(n)) else -Soma(ms, QtdPara(n)))
  {
    if ms != [] {
      var ini, m := ms[..|ms| - 1], ms[|ms| - 1];
      assert BemFormados(ini) by { assert forall i :: 0 <= i < |ini| ==> ini[i] == ms[i]; }
      AcumularSoma(inv, ini, entrada, n);
      assert ms == ini + [m];
      SomaConcat(ini, [m], QtdPara(n));
      assert m.quantidade.Num?;
    }
  }

  lemma {:induction false} ChavesAcumular(inv: map<string, JsNum>, ms: seq<Movimento>, entrada: bool, n: string)
    ensures n in Acumular(inv, ms, entrada) <==> n in inv || Menciona(ms, n)
  {
    if ms != [] {
      var ini := ms[..|ms| - 1];
      ChavesAcumular(inv, ini, entrada, n);
      if Menciona(ms, n) && ms[|ms| - 1].produto != n {
        var i :| 0 <= i < |ms| && ms[i].produto == n;
        assert ini[i] == ms[i];
      }
      if Menciona(ini, n) {
        var i :| 0 <= i < |ini| && ini[i] == ms[i] && ini[i].produto == n;
      }
    }
  }

  lemma {:induction false} AcumularFinito(inv: map<string, JsNum>, ms: seq<Movimento>, entrada: bool)
    requires forall n :: n in inv ==> inv[n].Num?
    requires BemFormados(ms)
    ensures forall n :: n in Acumular(inv, ms, entrada) ==> Acumular(inv, ms, entrada)[n].Num?
  {
    if ms != [] {
      var ini := ms[..|ms| - 1];
      assert BemFormados(ini) by { assert forall i :: 0 <= i < |ini| ==> ini[i] == ms[i]; }
      AcumularFinito(inv, ini, entrada);
    }
  }

  /**
   * With well-formed quantities, a product's theoretical stock is the sum of its entradas
   * minus the sum of its saídas; a name is a key exactly when some movement names it.
   */
  lemma TeoricoEhEntradasMenosSaidas(entradas: seq<Movimento>, saidas: seq<Movimento>, n: string)
    requires BemFormados(entradas) && BemFormados(saidas)
    ensures LerStock(InventarioTeorico(entradas, saidas), n) == Soma(entradas, QtdPara(n)) - Soma(saidas, QtdPara(n))
    ensures n in InventarioTeorico(entradas, saidas) <==> Menciona(entradas, n) || Menciona(saidas, n)
  {
    AcumularSoma(map[], entradas, true, n);
    AcumularSoma(Acumular(map[], entradas, true), saidas, false, n);
    ChavesAcumular(map[], entradas, true, n);
    ChavesAcumular(Acumular(map[], entradas, true), saidas, false, n);
  }

  lemma MesmosMovimentos(a: seq<Movimento>, b: seq<Movimento>, n: string)
    requires multiset(a) == multiset(b)
    ensures BemFormados(a) ==> BemFormados(b)
    ensures Menciona(a, n) <==> Menciona(b, n)
  {
    forall i | 0 <= i < |b| ensures b[i] in a {
      assert b[i] in multiset(b);
    }
    forall i | 0 <= i < |a| ensures a[i] in b {
      assert a[i] in multiset(a);
    }
  }

  /** With well-formed quantities the theoretical stock does not depend on the order of the lists. */
  lemma TeoricoIndependeDaOrdem(entradas: seq<Movimento>, saidas: seq<Movimento>,
                                entradas2: seq<Movimento>, saidas2: seq<Movimento>)
    requires multiset(entradas) == multiset(entradas2) && multiset(saidas) == multiset(saidas2)
    requires BemFormados(entradas) && BemFormados(saidas)
    ensures InventarioTeorico(entradas, saidas) == InventarioTeorico(entradas2, saidas2)
  {
    var a, b := InventarioTeorico(entradas, saidas), InventarioTeorico(entradas2, saidas2);
    MesmosMovimentos(entradas, entradas2, "");
    MesmosMovimentos(saidas, saidas2, "");
    AcumularFinito(map[], entradas, true);
    AcumularFinito(Acumular(map[], entradas, true), saidas, false);
    AcumularFinito(map[], entradas2, true);
    AcumularFinito(Acumular(map[], entradas2, true), saidas2, false);
    forall n ensures (n in a <==> n in b) && (n in a ==> a[n] == b[n]) {
      MesmosMovimentos(entradas, entradas2, n);
      MesmosMovimentos(saidas, saidas2, n);
      TeoricoEhEntradasMenosSaidas(entradas, saidas, n);
      TeoricoEhEntradasMenosSaidas(entradas2, saidas2, n);
      SomaPermutacao(entradas, entradas2, QtdPara(n));
      SomaPermutacao(saidas, saidas2, QtdPara(n));
    }
  }

  /** The fold over `a + b` is the fold over `b` continued from the fold over `a`. */
  lemma {:induction false} AcumularConcat(inv: map<string, JsNum>, a: seq<Movimento>, b: seq<Movimento>, entrada: bool)
    ensures Acumular(inv, a + b, entrada) == Acumular(Acumular(inv, a, entrada), b, entrada)
    decreases |b|
  {
    if b == [] {
      assert a + b == a;
    } else {
      assert (a + b)[..|a + b| - 1] == a + b[..|b| - 1];
      AcumularConcat(inv, a, b[..|b| - 1], entrada);
    }
  }

  predicate NaoMenciona(ms: seq<Movimento>, n: string) {
    forall i :: 0 <= i < |ms| ==> ms[i].produto != n
  }

  /** Movements of other products leave a product's entry, present or absent, as it was. */
  lemma {:induction false} AcumularOutros(inv: map<string, JsNum>, ms: seq<Movimento>, entrada: bool, n: string)
    requires NaoMenciona(ms, n)
    ensures Consultar(Acumular(inv, ms, entrada), n) == Consultar(inv, n)
    decreases |ms|
  {
    if ms != [] {
      var ini := ms[..|ms| - 1];
      assert NaoMenciona(ini, n) by { assert forall i :: 0 <= i < |ini| ==> ini[i] == ms[i]; }
      AcumularOutros(inv, ini, entrada, n);
      assert ms[|ms| - 1].produto != n;
    }
  }

  /** The fold after `a`, one movement `m`, then movements of other products. */
  lemma AcumularUltimo(inv: map<string, JsNum>, a: seq<Movimento>, m: Movimento, b: seq<Movimento>, entrada: bool)
    requires NaoMenciona(b, m.produto)
    ensures Consultar(Acumular(inv, a + [m] + b, entrada), m.produto)
            == Consultar(Passo(Acumular(inv, a, entrada), m, entrada), m.produto)
  {
    AcumularConcat(inv, a + [m], b, entrada);
    assert (a + [m])[..|a + [m]| - 1] == a;
    AcumularOutros(Acumular(inv, a + [m], entrada), b, entrada, m.produto);
  }

  /**
   * In either list, a NaN movement followed only by movements of other products leaves its
   * product NaN: `(inv[p] || 0) + NaN` is NaN.
   */
  lemma AcumularNaNFinal(inv: map<string, JsNum>, a: seq<Movimento>, n: string, t: string, b: seq<Movimento>, entrada: bool)
    requires NaoMenciona(b, n)
    ensures Consultar(Acumular(inv, a + [Movimento(n, NaN, t)] + b, entrada), n) == Some(NaN)
  {
    AcumularUltimo(inv, a, Movimento(n, NaN, t), b, entrada);
  }

  /**
   * In either list, the next movement of a product after a NaN starts it again from 0
   * (`NaN || 0` is 0): right after it the running total is `+q` for an entrada, `-q` for a saída.
   */
  lemma AcumularNaNRecomeca(inv: map<string, JsNum>, a: seq<Movimento>, n: string, t: string, b: seq<Movimento>,
                            q: real, t2: string, entrada: bool)
    requires NaoMenciona(b, n)
    ensures Consultar(Acumular(inv, a + [Movimento(n, NaN, t)] + b + [Movimento(n, Num(q), t2)], entrada), n)
            == Some(Num(if entrada then q else -q))
  {
    var ini := a + [Movimento(n, NaN, t)] + b;
    AcumularNaNFinal(inv, a, n, t, b, entrada);
    assert (ini + [Movimento(n, Num(q), t2)])[..|ini|] == ini;
  }

  /** A NaN saída that is its product's last movement leaves the product NaN, which reads as 0. */
  lemma NaNAnulaStock(entradas: seq<Movimento>, a: seq<Movimento>, n: string, t: string, b: seq<Movimento>)
    requires NaoMenciona(b, n)
    ensures var inv := InventarioTeorico(entradas, a + [Movimento(n, NaN, t)] + b);
            n in inv && inv[n] == NaN && LerStock(inv, n) == 0.0
  {
    AcumularNaNFinal(Acumular(map[], entradas, true), a, n, t, b, false);
  }

  /** A NaN entrada that is its product's last movement (no later entrada, no saída) leaves it NaN, read as 0. */
  lemma NaNEntradaAnulaStock(a: seq<Movimento>, n: string, t: string, b: seq<Movimento>, saidas: seq<Movimento>)
    requires NaoMenciona(b, n) && NaoMenciona(saidas, n)
    ensures var inv := InventarioTeorico(a + [Movimento(n, NaN, t)] + b, saidas);
            n in inv && inv[n] == NaN && LerStock(inv, n) == 0.0
  {
    var e := Acumular(map[], a + [Movimento(n, NaN, t)] + b, true);
    AcumularNaNFinal(map[], a, n, t, b, true);
    AcumularOutros(e, saidas, false, n);
  }

  /**
   * A NaN entrada whose product's next movement is the saída `q` (no entrada in between):
   * the saída starts again from 0, so the running total after it is `-q`.
   */
  lemma NaNRecomecaDoZero(a: seq<Movimento>, n: string, t: string, b: seq<Movimento>, c: seq<Movimento>,
                          q: real, t2: string)
    requires NaoMenciona(b, n) && NaoMenciona(c, n)
    ensures LerStock(InventarioTeorico(a + [Movimento(n, NaN, t)] + b, c + [Movimento(n, Num(q), t2)]), n) == -q
  {
    var e := Acumular(map[], a + [Movimento(n, NaN, t)] + b, true);
    AcumularNaNFinal(map[], a, n, t, b, true);
    AcumularOutros(e, c, false, n);
    assert (c + [Movimento(n, Num(q), t2)])[..|c|] == c;
  }

  // ----- Alerts and valuation -----

  /** `Number(inventarioTeorico[p.nome] || 0) < Number(p.minimo || 0)`. */
  predicate AbaixoDoMinimo(inv: map<string, JsNum>, p: Produto) {
    LerStock(inv, p.nome) < OuZero(p.minimo)
  }

  /** `produtosAbaixoMinimo`: the catalogue filtered to the products below their minimum. */
  function ProdutosAbaixoMinimo(ps: seq<Produto>, inv: map<string, JsNum>): (r: seq<Produto>)
    ensures forall p :: p in r <==> p in ps && AbaixoDoMinimo(inv, p)
    ensures |r| <= |ps|
  {
    if ps == [] then []
    else (if AbaixoDoMinimo(inv, ps[0]) then [ps[0]] else []) + ProdutosAbaixoMinimo(ps[1..], inv)
  }

  /** The filter keeps the catalogue's order: it distributes over concatenation. */
  lemma {:induction false} AbaixoMinimoConcat(a: seq<Produto>, b: seq<Produto>, inv: map<string, JsNum>)
    ensures ProdutosAbaixoMinimo(a + b, inv) == ProdutosAbaixoMinimo(a, inv) + ProdutosAbaixoMinimo(b, inv)
  {
    if a == [] {
      assert a + b == b;
    } else {
      assert (a + b)[1..] == a[1..] + b;
      AbaixoMinimoConcat(a[1..], b, inv);
    }
  }

  /** A product without a minimum, or with a NaN one, is flagged only when its stock is negative. */
  lemma MinimoAusenteLeZero(inv: map<string, JsNum>, p: Produto)
    requires p.minimo.None? || p.minimo == Some(NaN)
    ensures AbaixoDoMinimo(inv, p) <==> LerStock(inv, p.nome) < 0.0
  {
  }

  /** `stock * preco` for one product, with `|| 0` on both. */
  function ValorDe(inv: map<string, JsNum>): Produto -> real {
    (p: Produto) => LerStock(inv, p.nome) * OuZero(p.precoUnit)
  }

  /** The `reduce` of `valorTotalStock`, with its accumulator. */
  function Reduzir(acc: real, ps: seq<Produto>, inv: map<string, JsNum>): real
    decreases |ps|
  {
    if ps == [] then acc else Reduzir(acc + ValorDe(inv)(ps[0]), ps[1..], inv)
  }

  /** `valorTotalStock`. */
  function ValorTotalStock(ps: seq<Produto>, inv: map<string, JsNum>): real {
    Reduzir(0.0, ps, inv)
  }

  lemma {:induction false} ReduzirEhSoma(acc: real, ps: seq<Produto>, inv: map<string, JsNum>)
    ensures Reduzir(acc, ps, inv) == acc + Soma(ps, ValorDe(inv))
    decreases |ps|
  {
    if ps != [] {
      ReduzirEhSoma(acc + ValorDe(inv)(ps[0]), ps[1..], inv);
    }
  }

  /** The total value is the sum of stock × price over the catalogue: 0 for an empty catalogue, independent of order. */
  lemma ValorTotalEhSoma(ps: seq<Produto>, qs: seq<Produto>, inv: map<string, JsNum>)
    requires multiset(ps) == multiset(qs)
    ensures ValorTotalStock(ps, inv) == Soma(ps, ValorDe(inv))
    ensures ps == [] ==> ValorTotalStock(ps, inv) == 0.0
    ensures ValorTotalStock(ps, inv) == ValorTotalStock(qs, inv)
  {
    ReduzirEhSoma(0.0, ps, inv);
    ReduzirEhSoma(0.0, qs, inv);
    SomaPermutacao(ps, qs, ValorDe(inv));
  }

  // ----- Date range -----

  /** `String(iso).slice(0, 10)`. */
  function Prefixo10(iso: string): string {
    if |iso| <= 10 then iso else iso[..10]
  }

  /** `dentroIntervalo(iso, de, ate)`; a null timestamp is given as "". */
  function DentroIntervalo(iso: string, de: string, ate: string): bool {
    if iso == [] then false
    else
      var d := Prefixo10(iso);
      if de != [] && LexMenor(d, de) then false
      else if ate != [] && LexMenor(ate, d) then false
      else true
  }

  /** Both bounds are inclusive: a timestamp is inside the one-day range of its own date. */
  lemma IntervaloInclusivo(iso: string)
    requires iso != []
    ensures DentroIntervalo(iso, Prefixo10(iso), Prefixo10(iso))
  {
    LexIrreflexivo(Prefixo10(iso));
  }

  /** Empty bounds are unbounded: only an empty timestamp is outside. */
  lemma IntervaloSemLimites(iso: string)
    ensures DentroIntervalo(iso, "", "") <==> iso != []
  {
  }

  /** Widening a range keeps every timestamp that was inside it. */
  lemma IntervaloMonotono(iso: string, de: string, ate: string, de2: string, ate2: string)
    requires de2 == [] || (de != [] && LexMenorIgual(de2, de))
    requires ate2 == [] || (ate != [] && LexMenorIgual(ate, ate2))
    requires DentroIntervalo(iso, de, ate)
    ensures DentroIntervalo(iso, de2, ate2)
  {
    var d := Prefixo10(iso);
    if de2 != [] { LexMenorIgualOrdemTotal(de2, de, d); }
    if ate2 != [] { LexMenorIgualOrdemTotal(d, ate, ate2); }
  }

  /** A range whose end is before its start contains nothing. */
  lemma IntervaloInvertidoVazio(iso: string, de: string, ate: string)
    requires de != [] && ate != [] && LexMenor(ate, de)
    ensures !DentroIntervalo(iso, de, ate)
  {
    var d := Prefixo10(iso);
    LexMenorIgualOrdemTotal(de, d, ate);
  }

  // ----- Recount list -----

  /** `(a.nome || "").localeCompare(b.nome || "") <= 0`, with code-point order for the collation. */
  function LeNome(a: Produto, b: Produto): bool {
    LexMenorIgual(a.nome, b.nome)
  }

  lemma LeNomePreOrdem()
    ensures PreOrdemTotal(LeNome)
  {
    forall a: Produto, b: Produto ensures LeNome(a, b) || LeNome(b, a) {
      LexMenorIgualOrdemTotal(a.nome, b.nome, b.nome);
    }
    forall a: Produto, b: Produto, c: Produto | LeNome(a, b) && LeNome(b, c) ensures LeNome(a, c) {
      LexMenorIgualOrdemTotal(a.nome, b.nome, c.nome);
    }
  }

  /** `base.filter(p => (p.nome || "").toLowerCase().includes(q))`. */
  function FiltrarPorNome(ps: seq<Produto>, q: string): (r: seq<Produto>)
    ensures forall p :: multiset(r)[p] == if Contem(Minusculas(p.nome), q) then multiset(ps)[p] else 0
    ensures forall p :: p in r ==> p in ps
  {
    if ps == [] then []
    else
      var resto := FiltrarPorNome(ps[1..], q);
      assert ps == [ps[0]] + ps[1..];
      assert forall p :: p in resto ==> p in multiset(ps[1..]);
      (if Contem(Minusculas(ps[0].nome), q) then [ps[0]] else []) + resto
  }

  /** In a list sorted by name, the head is `LeNome` to every element of the tail. */
  lemma CabecaMenor(ps: seq<Produto>, y: Produto)
    requires Ordenada(ps, LeNome) && ps != [] && y in ps[1..]
    ensures LeNome(ps[0], y)
  {
    var k :| 0 <= k < |ps[1..]| && ps[1..][k] == y;
    assert ps[k + 1] == y;
  }

  /** A name no greater than every element of a sorted list can go in front of it. */
  lemma AntesDeOrdenada(x: Produto, s: seq<Produto>)
    requires Ordenada(s, LeNome) && forall y :: y in s ==> LeNome(x, y)
    ensures Ordenada([x] + s, LeNome)
  {
    var r := [x] + s;
    forall i, j | 0 <= i < j < |r| ensures LeNome(r[i], r[j]) {
      assert r[j] == s[j - 1];
      if i > 0 { assert r[i] == s[i - 1]; }
    }
  }

  lemma {:induction false} FiltrarMantemOrdem(ps: seq<Produto>, q: string)
    requires Ordenada(ps, LeNome)
    ensures Ordenada(FiltrarPorNome(ps, q), LeNome)
  {
    if ps != [] {
      var resto := FiltrarPorNome(ps[1..], q);
      assert Ordenada(ps[1..], LeNome);
      FiltrarMantemOrdem(ps[1..], q);
      if Contem(Minusculas(ps[0].nome), q) {
        forall y | y in resto ensures LeNome(ps[0], y) {
          CabecaMenor(ps, y);
        }
        AntesDeOrdenada(ps[0], resto);
      }
    }
  }

  /**
   * `inventarioMensalLista`: the catalogue sorted by name, then filtered by the trimmed,
   * lower-cased search text (no filter when it is empty).
   */
  function InventarioMensalLista(ps: seq<Produto>, filtro: string): (r: seq<Produto>)
    ensures Ordenada(r, LeNome)
    ensures forall p :: multiset(r)[p]
                        == if Minusculas(Trim(filtro)) == [] || Contem(Minusculas(p.nome), Minusculas(Trim(filtro)))
                           then multiset(ps)[p] else 0
  {
    LeNomePreOrdem();
    var q := Minusculas(Trim(filtro));
    var base := Ordenar(ps, LeNome);
    if q == [] then base
    else
      FiltrarMantemOrdem(base, q);
      FiltrarPorNome(base, q)
  }
}
