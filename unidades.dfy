/** The unit normaliser applied to every product when the catalogue is loaded. */
module Unidades {
  import opened JsTexto

  /** The seven units the product form offers. */
  const Canonicas: set<string> := {"kg", "g", "l", "ml", "un", "cx", "pct"}

  const SinonimosKg: seq<string> := ["kg", "kgs", "quilo", "quilos", "kg.", "kgs."]
  const SinonimosG: seq<string> := ["g", "gr", "grama", "gramas", "g."]
  const SinonimosL: seq<string> := ["l", "lt", "lts", "litro", "litros", "l."]
  const SinonimosMl: seq<string> := ["ml", "mls", "mililitro", "mililitros", "ml."]
  const SinonimosUn: seq<string> := ["un", "uni", "unidade", "unidades"]
  const SinonimosCx: seq<string> := ["cx", "caixa", "caixas"]
  const SinonimosPct: seq<string> := ["pct", "pacote", "pacotes"]

  predicate EhSinonimo(x: string) {
    x in SinonimosKg || x in SinonimosG || x in SinonimosL || x in SinonimosMl
    || x in SinonimosUn || x in SinonimosCx || x in SinonimosPct
  }

  /**
   * `normalizeUnidade(u)`: trim and lower-case, map the known spellings to the canonical
   * unit, pass anything else through. A missing unit is given as "".
   */
  function NormalizeUnidade(u: string): (r: string)
    ensures Trim(u) == [] ==> r == ""
    ensures EhSinonimo(Minusculas(Trim(u))) ==> r in Canonicas
    ensures Minusculas(Trim(u)) in SinonimosKg ==> r == "kg"
    ensures Minusculas(Trim(u)) in SinonimosG ==> r == "g"
    ensures Minusculas(Trim(u)) in SinonimosL ==> r == "l"
    ensures Minusculas(Trim(u)) in SinonimosMl ==> r == "ml"
    ensures Minusculas(Trim(u)) in SinonimosUn ==> r == "un"
    ensures Minusculas(Trim(u)) in SinonimosCx ==> r == "cx"
    ensures Minusculas(Trim(u)) in SinonimosPct ==> r == "pct"
    ensures !EhSinonimo(Minusculas(Trim(u))) ==> r == Minusculas(Trim(u))
  {
    var x := Minusculas(Trim(u));
    assert |x| == |Trim(u)|;
    UnidadeDe(x)
  }

  /** The table lookup on the trimmed, lower-cased unit. */
  function UnidadeDe(x: string): (r: string)
    ensures x == [] ==> r == ""
    ensures EhSinonimo(x) ==> r in Canonicas
    ensures x in SinonimosKg ==> r == "kg"
    ensures x in SinonimosG ==> r == "g"
    ensures x in SinonimosL ==> r == "l"
    ensures x in SinonimosMl ==> r == "ml"
    ensures x in SinonimosUn ==> r == "un"
    ensures x in SinonimosCx ==> r == "cx"
    ensures x in SinonimosPct ==> r == "pct"
    ensures !EhSinonimo(x) ==> r == x
  {
    if x == [] then ""
    else if x in SinonimosKg then "kg"
    else if x in SinonimosG then "g"
    else if x in SinonimosL then "l"
    else if x in SinonimosMl then "ml"
    else if x in SinonimosUn then "un"
    else if x in SinonimosCx then "cx"
    else if x in SinonimosPct then "pct"
    else x
  }

  lemma MinusculasFixa(s: string)
    requires forall i :: 0 <= i < |s| ==> 'a' <= s[i] <= 'z'
    ensures Minusculas(s) == s
  {
  }

  lemma TextoNormal(c: string)
    requires c != [] && forall i :: 0 <= i < |c| ==> 'a' <= c[i] <= 'z'
    ensures Minusculas(Trim(c)) == c
  {
    TrimDeAparado(c);
    MinusculasFixa(c);
  }

  /** Each canonical unit is its own normal form. */
  lemma CanonicaFixa(c: string)
    requires c in Canonicas
    ensures NormalizeUnidade(c) == c
  {
    CanonicaMinuscula(c);
    TextoNormal(c);
    CanonicaNaTabela(c);
  }

  lemma CanonicaMinuscula(c: string)
    requires c in Canonicas
    ensures c != [] && forall i :: 0 <= i < |c| ==> 'a' <= c[i] <= 'z'
  {
  }

  lemma CanonicaNaTabela(c: string)
    requires c in Canonicas
    ensures UnidadeDe(c) == c
  {
    if c == "kg" {
      assert c in SinonimosKg;
    } else if c == "g" {
      assert c !in SinonimosKg && c in SinonimosG;
    } else if c == "l" {
      assert c !in SinonimosKg && c !in SinonimosG && c in SinonimosL;
    } else if c == "ml" {
      assert c !in SinonimosKg && c !in SinonimosG && c !in SinonimosL && c in SinonimosMl;
    } else if c == "un" {
      assert c !in SinonimosKg && c !in SinonimosG && c !in SinonimosL && c !in SinonimosMl;
      assert c in SinonimosUn;
    } else if c == "cx" {
      assert c !in SinonimosKg && c !in SinonimosG && c !in SinonimosL && c !in SinonimosMl;
      assert c !in SinonimosUn && c in SinonimosCx;
    } else {
      assert c !in SinonimosKg && c !in SinonimosG && c !in SinonimosL && c !in SinonimosMl;
      assert c !in SinonimosUn && c !in SinonimosCx && c in SinonimosPct;
    }
  }

  /** Normalising an already normalised unit changes nothing. */
  lemma NormalizeIdempotente(u: string)
    ensures NormalizeUnidade(NormalizeUnidade(u)) == NormalizeUnidade(u)
  {
    var x := Minusculas(Trim(u));
    var r := NormalizeUnidade(u);
    if r in Canonicas {
      CanonicaFixa(r);
    } else if r == "" {
      assert Trim(r) == [];
    } else {
      assert r == x && !EhSinonimo(x);
      MinusculasAparado(Trim(u));
      TrimDeAparado(x);
      MinusculasIdempotente(Trim(u));
    }
  }
}
