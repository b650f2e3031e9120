/**
 * `Array.prototype.sort` with a comparator, as an insertion sort over a
 * total preorder `le`, and sums over sequences (`reduce` with `+`).
 */
module Ordenacao {

  ghost predicate PreOrdemTotal<T(!new)>(le: (T, T) -> bool) {
    && (forall a, b :: le(a, b) || le(b, a))
    && (forall a, b, c :: le(a, b) && le(b, c) ==> le(a, c))
  }

  predicate Ordenada<T>(s: seq<T>, le: (T, T) -> bool) {
    forall i, j :: 0 <= i < j < |s| ==> le(s[i], s[j])
  }

  /** Puts `x` before the first element it is `le` to. */
  function Inserir<T>(x: T, s: seq<T>, le: (T, T) -> bool): seq<T> {
    if s == [] then [x]
    else if le(x, s[0]) then [x] + s
    else [s[0]] + Inserir(x, s[1..], le)
  }

  lemma {:induction false} InserirMultiset<T>(x: T, s: seq<T>, le: (T, T) -> bool)
    ensures multiset(Inserir(x, s, le)) == multiset(s) + multiset{x}
  {
    if s != [] && !le(x, s[0]) {
      InserirMultiset(x, s[1..], le);
      assert s == [s[0]] + s[1..];
    }
  }

  lemma {:induction false} InserirOrdenada<T(!new)>(x: T, s: seq<T>, le: (T, T) -> bool)
    requires PreOrdemTotal(le) && Ordenada(s, le)
    ensures Ordenada(Inserir(x, s, le), le)
  {
    if s == [] {
    } else if le(x, s[0]) {
      var t := [x] + s;
      forall i, j | 0 <= i < j < |t| ensures le(t[i], t[j]) {
        if i == 0 {
          if j > 1 { assert le(s[0], s[j - 1]); }
        } else {
          assert t[i] == s[i - 1] && t[j] == s[j - 1];
        }
      }
    } else {
      var cauda := s[1..];
      InserirOrdenada(x, cauda, le);
      InserirMultiset(x, cauda, le);
      var r := Inserir(x, cauda, le);
      assert le(s[0], x);
      forall y | y in r ensures le(s[0], y) {
        assert y in multiset(r);
        if y != x {
          assert y in multiset(cauda);
          var k :| 0 <= k < |cauda| && cauda[k] == y;
          assert s[k + 1] == y;
        }
      }
      var t := [s[0]] + r;
      forall i, j | 0 <= i < j < |t| ensures le(t[i], t[j]) {
        if i == 0 { assert t[j] == r[j - 1] && r[j - 1] in r; } else { assert t[i] == r[i - 1] && t[j] == r[j - 1]; }
      }
    }
  }

  /** A sorted permutation of `s`. */
  function Ordenar<T(!new)>(s: seq<T>, le: (T, T) -> bool): (r: seq<T>)
    requires PreOrdemTotal(le)
    ensures multiset(r) == multiset(s)
    ensures Ordenada(r, le)
  {
    if s == [] then []
    else
      var resto := Ordenar(s[1..], le);
      InserirOrdenada(s[0], resto, le);
      InserirMultiset(s[0], resto, le);
      assert multiset(s) == multiset(s[1..]) + multiset{s[0]} by {
        assert s == [s[0]] + s[1..];
      }
      Inserir(s[0], resto, le)
  }

  /** Sum of `f` over `s`, left to right. */
  function Soma<T>(s: seq<T>, f: T -> real): real {
    if s == [] then 0.0 else f(s[0]) + Soma(s[1..], f)
  }

  lemma {:induction false} SomaConcat<T>(a: seq<T>, b: seq<T>, f: T -> real)
    ensures Soma(a + b, f) == Soma(a, f) + Soma(b, f)
  {
    if a == [] {
      assert a + b == b;
    } else {
      assert (a + b)[1..] == a[1..] + b;
      SomaConcat(a[1..], b, f);
    }
  }

  /** A sum does not depend on the order of its terms. */
  lemma {:induction false} SomaPermutacao<T>(a: seq<T>, b: seq<T>, f: T -> real)
    requires multiset(a) == multiset(b)
    ensures Soma(a, f) == Soma(b, f)
    decreases |a|
  {
    if a == [] {
      assert |b| == |multiset(b)| == 0;
    } else {
      var x := a[0];
      assert x in multiset(b);
      var k :| 0 <= k < |b| && b[k] == x;
      var resto := b[..k] + b[k + 1..];
      assert b == b[..k] + [x] + b[k + 1..];
      assert a == [x] + a[1..];
      assert multiset(b) == multiset(b[..k]) + multiset{x} + multiset(b[k + 1..]);
      assert multiset(a) == multiset{x} + multiset(a[1..]);
      assert multiset(resto) == multiset(b[..k]) + multiset(b[k + 1..]);
      assert multiset(resto) == multiset(b) - multiset{x};
      assert multiset(a[1..]) == multiset(a) - multiset{x};
      SomaPermutacao(a[1..], resto, f);
      SomaConcat(b[..k] + [x], b[k + 1..], f);
      SomaConcat(b[..k], [x], f);
      SomaConcat(b[..k], b[k + 1..], f);
    }
  }
}
