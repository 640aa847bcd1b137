/** The parts of the database's query engine the product listings use: a
    `find` that keeps the documents a filter accepts, in natural (id) order,
    and a `sort` on a two-part key. */
module Consultas {
  import opened Common
  import Productos

  /** A found document: its id and its record. */
  type Fila = (Id, Productos.Producto)

  /** A sort key compared lexicographically, first part first. A descending
      field is sorted through its negation. */
  datatype Llave = Llave(primaria: int, secundaria: real)

  predicate Precede(a: Llave, b: Llave) {
    a.primaria < b.primaria || (a.primaria == b.primaria && a.secundaria <= b.secundaria)
  }

  predicate Ordenado(xs: seq<Fila>, clave: Productos.Producto -> Llave) {
    forall i, j :: 0 <= i < j < |xs| ==> Precede(clave(xs[i].1), clave(xs[j].1))
  }

  /** No document is listed twice. */
  predicate IdsDistintos(xs: seq<Fila>) {
    forall i, j :: 0 <= i < j < |xs| ==> xs[i].0 != xs[j].0
  }

  /** `find(filtro)` over the documents `ids` names, in that order. */
  function Seleccionar(ps: map<Id, Productos.Producto>, ids: seq<Id>, filtro: Productos.Producto -> bool)
    : (r: seq<Fila>)
    ensures forall i :: 0 <= i < |r| ==>
      r[i].0 in ps && r[i].1 == ps[r[i].0] && filtro(r[i].1) && r[i].0 in ids
    ensures forall i :: 0 <= i < |ids| && ids[i] in ps && filtro(ps[ids[i]]) ==>
      (ids[i], ps[ids[i]]) in r
    ensures (forall i, j :: 0 <= i < j < |ids| ==> ids[i] < ids[j]) ==>
      forall i, j :: 0 <= i < j < |r| ==> r[i].0 < r[j].0
  {
    if ids == [] then []
    else
      var resto := Seleccionar(ps, ids[1..], filtro);
      assert forall i :: 1 <= i < |ids| ==> ids[i] in ids[1..] by {
        forall i | 1 <= i < |ids| ensures ids[i] in ids[1..] {
          assert ids[1..][i - 1] == ids[i];
        }
      }
      if ids[0] in ps && filtro(ps[ids[0]]) then [(ids[0], ps[ids[0]])] + resto else resto
  }

  /** One step of insertion sort: `x` goes before the first element it
      precedes, so it stays ahead of the elements with an equal key. */
  function Insertar(x: Fila, xs: seq<Fila>, clave: Productos.Producto -> Llave): (r: seq<Fila>)
    ensures |r| == |xs| + 1
    ensures multiset(r) == multiset(xs) + multiset{x}
  {
    if xs == [] then [x]
    else if Precede(clave(x.1), clave(xs[0].1)) then [x] + xs
    else
      assert xs == [xs[0]] + xs[1..];
      [xs[0]] + Insertar(x, xs[1..], clave)
  }

  lemma {:induction false} InsertarOrdenado(x: Fila, xs: seq<Fila>, clave: Productos.Producto -> Llave)
    requires Ordenado(xs, clave)
    ensures Ordenado(Insertar(x, xs, clave), clave)
  {
    if xs != [] && !Precede(clave(x.1), clave(xs[0].1)) {
      var tail := xs[1..];
      assert Ordenado(tail, clave) by {
        forall i, j | 0 <= i < j < |tail| ensures Precede(clave(tail[i].1), clave(tail[j].1)) {
          assert tail[i] == xs[i + 1] && tail[j] == xs[j + 1];
        }
      }
      InsertarOrdenado(x, tail, clave);
      CabezaPrecede(x, xs, clave);
      var t := Insertar(x, tail, clave);
      var r := [xs[0]] + t;
      forall i, j | 0 <= i < j < |r| ensures Precede(clave(r[i].1), clave(r[j].1)) {
        if i > 0 {
          assert r[i] == t[i - 1] && r[j] == t[j - 1];
        } else {
          assert r[j] == t[j - 1];
        }
      }
    }
  }

  /** When `x` goes after the head, the head precedes everything the rest
      of the insertion yields. */
  lemma CabezaPrecede(x: Fila, xs: seq<Fila>, clave: Productos.Producto -> Llave)
    requires Ordenado(xs, clave) && xs != [] && !Precede(clave(x.1), clave(xs[0].1))
    ensures forall k :: 0 <= k < |Insertar(x, xs[1..], clave)| ==>
      Precede(clave(xs[0].1), clave(Insertar(x, xs[1..], clave)[k].1))
  {
    var tail := xs[1..];
    var t := Insertar(x, tail, clave);
    forall k | 0 <= k < |t| ensures Precede(clave(xs[0].1), clave(t[k].1)) {
      assert t[k] in multiset(t);
      if t[k] != x {
        assert t[k] in multiset(tail);
        var m :| 0 <= m < |tail| && tail[m] == t[k];
        assert xs[m + 1] == t[k];
      }
    }
  }

  /** Insertion sort, stable: among equal keys the input order is kept
      (`OrdenarEstable`). */
  function Ordenar(xs: seq<Fila>, clave: Productos.Producto -> Llave): (r: seq<Fila>)
    ensures |r| == |xs|
    ensures multiset(r) == multiset(xs)
    ensures Ordenado(r, clave)
  {
    if xs == [] then []
    else
      var t := Ordenar(xs[1..], clave);
      InsertarOrdenado(xs[0], t, clave);
      assert xs == [xs[0]] + xs[1..];
      Insertar(xs[0], t, clave)
  }

  /** The rows of `xs` whose key is `k`, in their order in `xs`. */
  function ConLlave(xs: seq<Fila>, clave: Productos.Producto -> Llave, k: Llave): (r: seq<Fila>)
    ensures |r| <= |xs|
    ensures forall i :: 0 <= i < |r| ==> r[i] in xs && clave(r[i].1) == k
  {
    if xs == [] then []
    else
      var resto := ConLlave(xs[1..], clave, k);
      assert forall i :: 0 <= i < |resto| ==> resto[i] in xs;
      if clave(xs[0].1) == k then [xs[0]] + resto else resto
  }

  /** Inserting `x` puts it ahead of every row with its key: the rows of
      any one key keep their order, `x` first among its own. */
  lemma {:induction false} InsertarEstable(x: Fila, xs: seq<Fila>, clave: Productos.Producto -> Llave, k: Llave)
    ensures ConLlave(Insertar(x, xs, clave), clave, k)
      == (if clave(x.1) == k then [x] else []) + ConLlave(xs, clave, k)
  {
    if xs == [] {
    } else if Precede(clave(x.1), clave(xs[0].1)) {
      assert ([x] + xs)[1..] == xs;
    } else {
      var t := Insertar(x, xs[1..], clave);
      InsertarEstable(x, xs[1..], clave, k);
      assert ([xs[0]] + t)[1..] == t;
      assert clave(xs[0].1) != clave(x.1);
    }
  }

  /** Sorting is stable: for every key, the rows with that key appear in the
      result in the order they had in the input. */
  lemma {:induction false} OrdenarEstable(xs: seq<Fila>, clave: Productos.Producto -> Llave, k: Llave)
    ensures ConLlave(Ordenar(xs, clave), clave, k) == ConLlave(xs, clave, k)
  {
    if xs != [] {
      OrdenarEstable(xs[1..], clave, k);
      InsertarEstable(xs[0], Ordenar(xs[1..], clave), clave, k);
    }
  }

  lemma {:induction false} InsertarDistinto(x: Fila, xs: seq<Fila>, clave: Productos.Producto -> Llave)
    requires IdsDistintos(xs)
    requires forall k :: 0 <= k < |xs| ==> xs[k].0 != x.0
    ensures IdsDistintos(Insertar(x, xs, clave))
  {
    if xs != [] && !Precede(clave(x.1), clave(xs[0].1)) {
      var tail := xs[1..];
      assert IdsDistintos(tail) by {
        forall i, j | 0 <= i < j < |tail| ensures tail[i].0 != tail[j].0 {
          assert tail[i] == xs[i + 1] && tail[j] == xs[j + 1];
        }
      }
      InsertarDistinto(x, tail, clave);
      var t := Insertar(x, tail, clave);
      forall k | 0 <= k < |t| ensures t[k].0 != xs[0].0 {
        assert t[k] in multiset(t);
        if t[k] != x {
          assert t[k] in multiset(tail);
          var m :| 0 <= m < |tail| && tail[m] == t[k];
          assert xs[m + 1] == t[k];
        }
      }
      var r := [xs[0]] + t;
      forall i, j | 0 <= i < j < |r| ensures r[i].0 != r[j].0 {
        assert r[j] == t[j - 1];
        if i > 0 {
          assert r[i] == t[i - 1];
        }
      }
    }
  }

  /** Sorting lists no document twice when its input did not. */
  lemma {:induction false} OrdenarDistinto(xs: seq<Fila>, clave: Productos.Producto -> Llave)
    requires IdsDistintos(xs)
    ensures IdsDistintos(Ordenar(xs, clave))
  {
    if xs != [] {
      var tail := xs[1..];
      assert IdsDistintos(tail) by {
        forall i, j | 0 <= i < j < |tail| ensures tail[i].0 != tail[j].0 {
          assert tail[i] == xs[i + 1] && tail[j] == xs[j + 1];
        }
      }
      OrdenarDistinto(tail, clave);
      var t := Ordenar(tail, clave);
      forall k | 0 <= k < |t| ensures t[k].0 != xs[0].0 {
        assert t[k] in multiset(tail);
        var m :| 0 <= m < |tail| && tail[m] == t[k];
        assert xs[m + 1] == t[k];
      }
      InsertarDistinto(xs[0], t, clave);
    }
  }

  /** `find(filtro).sort(clave)` over the documents `ids` names: the
      accepted documents with their current records, each once, sorted. */
  function Consulta(ps: map<Id, Productos.Producto>, ids: seq<Id>, filtro: Productos.Producto -> bool,
                    clave: Productos.Producto -> Llave)
    : (r: seq<Fila>)
    ensures forall i :: 0 <= i < |r| ==> r[i].0 in ps && r[i].1 == ps[r[i].0] && filtro(r[i].1)
    ensures forall k :: k in ps && k in ids && filtro(ps[k]) ==> (k, ps[k]) in r
    ensures Ordenado(r, clave)
    ensures (forall i, j :: 0 <= i < j < |ids| ==> ids[i] < ids[j]) ==> IdsDistintos(r)
  {
    var sel := Seleccionar(ps, ids, filtro);
    var r := Ordenar(sel, clave);
    assert forall k :: k in ps && k in ids && filtro(ps[k]) ==> (k, ps[k]) in r by {
      forall k | k in ps && k in ids && filtro(ps[k]) ensures (k, ps[k]) in r {
        var i :| 0 <= i < |ids| && ids[i] == k;
        assert (ids[i], ps[ids[i]]) in multiset(sel);
      }
    }
    assert forall i :: 0 <= i < |r| ==> r[i] in sel by {
      forall i | 0 <= i < |r| ensures r[i] in sel {
        assert r[i] in multiset(r);
      }
    }
    assert (forall i, j :: 0 <= i < j < |ids| ==> ids[i] < ids[j]) ==> IdsDistintos(r) by {
      if forall i, j :: 0 <= i < j < |ids| ==> ids[i] < ids[j] {
        OrdenarDistinto(sel, clave);
      }
    }
    r
  }

  /** `$limit: n`: the first `n` rows, or all of them when fewer. */
  function Limitar(xs: seq<Fila>, n: nat): (r: seq<Fila>)
    ensures |r| == if |xs| <= n then |xs| else n
    ensures |xs| <= n ==> r == xs
    ensures forall i :: 0 <= i < |r| ==> r[i] == xs[i]
  {
    if |xs| <= n then xs else xs[..n]
  }

  /** A row of a sorted result that the limit drops is preceded by every
      row the limit keeps, and the limit is full. */
  lemma LimitarConservaLosPrimeros(xs: seq<Fila>, n: nat, clave: Productos.Producto -> Llave, e: Fila)
    requires Ordenado(xs, clave)
    requires e in xs && e !in Limitar(xs, n)
    ensures |Limitar(xs, n)| == n
    ensures forall i :: 0 <= i < n ==> Precede(clave(Limitar(xs, n)[i].1), clave(e.1))
  {
    var k :| 0 <= k < |xs| && xs[k] == e;
    var l := Limitar(xs, n);
    assert forall i :: 0 <= i < |l| ==> l[i] in l;
  }

  /** Limiting keeps the order and lists no document twice. */
  lemma LimitarOrdenado(xs: seq<Fila>, n: nat, clave: Productos.Producto -> Llave)
    requires Ordenado(xs, clave) && IdsDistintos(xs)
    ensures Ordenado(Limitar(xs, n), clave) && IdsDistintos(Limitar(xs, n))
  {
  }
}
