/** The `Carrito` schema: a user's cart lines, each a product reference, a
    quantity and the unit price snapshotted when the line was written. */
module Carritos {
  import opened Common

  datatype Item = Item(producto: Id, cantidad: int, precio: int)

  /** A cart. Its owner is the key it is stored under, which is how the
      unique index on `usuario` is represented. */
  datatype Carrito = Carrito(items: seq<Item>, activo: bool)

  const CantidadMinima: int := 1

  /** `Carrito.create({ usuario })`: an active cart that meets the line
      invariants, asks for nothing and totals 0. */
  function Nuevo(): (c: Carrito)
    ensures c.items == [] && c.activo
    ensures LineasValidas(c.items) && CalcularTotal(c.items) == 0
    ensures forall p :: CantidadDe(c.items, p) == 0 && !Contiene(c.items, p)
  {
    Carrito([], true)
  }

  function Subtotal(it: Item): int {
    it.precio * it.cantidad
  }

  /** `calcularTotal`: the sum of price times quantity over the lines.
      With no negative price or quantity, no line's subtotal exceeds it. */
  function CalcularTotal(items: seq<Item>): (r: int)
    ensures (forall i :: 0 <= i < |items| ==> items[i].precio >= 0 && items[i].cantidad >= 0) ==>
      forall i :: 0 <= i < |items| ==> 0 <= Subtotal(items[i]) <= r
  {
    if items == [] then 0
    else
      var resto := CalcularTotal(items[1..]);
      assert forall i :: 1 <= i < |items| ==> items[i] == items[1..][i - 1];
      assert items[0].precio >= 0 && items[0].cantidad >= 0 ==> Subtotal(items[0]) >= 0;
      Subtotal(items[0]) + resto
  }

  lemma {:induction false} CalcularTotalConcat(a: seq<Item>, b: seq<Item>)
    ensures CalcularTotal(a + b) == CalcularTotal(a) + CalcularTotal(b)
  {
    if a == [] {
      assert a + b == b;
    } else {
      assert (a + b)[1..] == a[1..] + b;
      CalcularTotalConcat(a[1..], b);
    }
  }

  /** With non-negative prices and quantities the total is never negative,
      and an empty cart totals 0. */
  lemma {:induction false} CalcularTotalNoNegativo(items: seq<Item>)
    requires forall i :: 0 <= i < |items| ==> items[i].precio >= 0 && items[i].cantidad >= 0
    ensures CalcularTotal(items) >= 0
    ensures items == [] ==> CalcularTotal(items) == 0
  {
    if items != [] {
      CalcularTotalNoNegativo(items[1..]);
    }
  }

  /** The line invariants: every quantity is at least 1 and no product has
      two lines. */
  predicate LineasValidas(items: seq<Item>) {
    && (forall i :: 0 <= i < |items| ==> items[i].cantidad >= CantidadMinima)
    && (forall i, j :: 0 <= i < j < |items| ==> items[i].producto != items[j].producto)
  }

  predicate Contiene(items: seq<Item>, p: Id) {
    exists i :: 0 <= i < |items| && items[i].producto == p
  }

  /** Total quantity the lines ask of product `p`. */
  function CantidadDe(items: seq<Item>, p: Id): int {
    if items == [] then 0
    else (if items[0].producto == p then items[0].cantidad else 0) + CantidadDe(items[1..], p)
  }

  /** A product no line mentions is asked for nothing. */
  lemma {:induction false} CantidadDeAusente(items: seq<Item>, p: Id)
    requires !Contiene(items, p)
    ensures CantidadDe(items, p) == 0
  {
    if items != [] {
      assert !Contiene(items[1..], p) by {
        forall i | 0 <= i < |items[1..]| ensures items[1..][i].producto != p {
          assert items[1..][i] == items[i + 1];
        }
      }
      CantidadDeAusente(items[1..], p);
    }
  }

  /** With one line per product, a product is asked for exactly its line's
      quantity. */
  lemma {:induction false} CantidadDeUnica(items: seq<Item>, k: nat)
    requires LineasValidas(items)
    requires k < |items|
    ensures CantidadDe(items, items[k].producto) == items[k].cantidad
  {
    var p := items[k].producto;
    var tail := items[1..];
    assert LineasValidas(tail) by {
      forall i, j | 0 <= i < j < |tail| ensures tail[i].producto != tail[j].producto {
        assert tail[i] == items[i + 1] && tail[j] == items[j + 1];
      }
      forall i | 0 <= i < |tail| ensures tail[i].cantidad >= CantidadMinima {
        assert tail[i] == items[i + 1];
      }
    }
    if k == 0 {
      assert !Contiene(tail, p) by {
        forall i | 0 <= i < |tail| ensures tail[i].producto != p {
          assert tail[i] == items[i + 1];
        }
      }
      CantidadDeAusente(tail, p);
    } else {
      assert tail[k - 1] == items[k];
      CantidadDeUnica(tail, k - 1);
    }
  }

  /** Index of the first line for product `p`: the line `items.$` designates. */
  function Posicion(items: seq<Item>, p: Id): (r: Option<nat>)
    ensures r.Some? ==> r.value < |items| && items[r.value].producto == p
    ensures r.Some? ==> forall i :: 0 <= i < r.value ==> items[i].producto != p
    ensures r.None? <==> !Contiene(items, p)
  {
    if items == [] then None
    else if items[0].producto == p then Some(0)
    else
      var r := Posicion(items[1..], p);
      assert Contiene(items, p) ==> Contiene(items[1..], p) by {
        if Contiene(items, p) {
          var i :| 0 <= i < |items| && items[i].producto == p;
          assert items[1..][i - 1] == items[i];
        }
      }
      if r.None? then None else Some(r.value + 1)
  }

  /** Appending a line adds its quantity to its own product only. */
  lemma {:induction false} CantidadDeAgregar(items: seq<Item>, it: Item, q: Id)
    ensures CantidadDe(items + [it], q) == CantidadDe(items, q) + (if it.producto == q then it.cantidad else 0)
  {
    if items == [] {
      assert items + [it] == [it];
    } else {
      assert (items + [it])[1..] == items[1..] + [it];
      CantidadDeAgregar(items[1..], it, q);
    }
  }

  /** Replacing line `k` trades its quantity for the new line's. */
  lemma {:induction false} CantidadDeReemplazar(items: seq<Item>, k: nat, it: Item, q: Id)
    requires k < |items|
    ensures CantidadDe(items[k := it], q)
            == CantidadDe(items, q)
               - (if items[k].producto == q then items[k].cantidad else 0)
               + (if it.producto == q then it.cantidad else 0)
  {
    if k == 0 {
      assert items[k := it][1..] == items[1..];
    } else {
      assert items[k := it][1..] == items[1..][k - 1 := it];
      CantidadDeReemplazar(items[1..], k - 1, it, q);
    }
  }

  /** A line for a product the cart does not hold yet, with at least one
      unit, keeps the line invariants. */
  lemma AgregarLineaValida(items: seq<Item>, it: Item)
    requires LineasValidas(items)
    requires !Contiene(items, it.producto) && it.cantidad >= CantidadMinima
    ensures LineasValidas(items + [it])
  {
    var r := items + [it];
    forall i, j | 0 <= i < j < |r| ensures r[i].producto != r[j].producto {
      if j == |items| {
        assert r[i] == items[i];
      }
    }
  }

  /** Rewriting a line in place for the same product, with at least one
      unit, keeps the line invariants. */
  lemma ReemplazarLineaValida(items: seq<Item>, k: nat, it: Item)
    requires LineasValidas(items) && k < |items|
    requires it.producto == items[k].producto && it.cantidad >= CantidadMinima
    ensures LineasValidas(items[k := it])
  {
  }

  /** `$pull: { items: { producto: p } }`: every line for `p` goes, the
      others stay in order. */
  function Quitar(items: seq<Item>, p: Id): (r: seq<Item>)
    ensures !Contiene(r, p)
    ensures |r| <= |items|
    ensures forall i :: 0 <= i < |r| ==> r[i] in items
    ensures forall q :: q != p ==> CantidadDe(r, q) == CantidadDe(items, q)
  {
    if items == [] then []
    else
      var resto := Quitar(items[1..], p);
      if items[0].producto == p then resto
      else
        assert forall i :: 1 <= i < |[items[0]] + resto| ==> ([items[0]] + resto)[i] == resto[i - 1];
        [items[0]] + resto
  }

  /** `$pull` works line by line: removing from two lists put together is
      removing from each, so the kept lines stay in their order. */
  lemma {:induction false} QuitarConcat(a: seq<Item>, b: seq<Item>, p: Id)
    ensures Quitar(a + b, p) == Quitar(a, p) + Quitar(b, p)
  {
    if a == [] {
      assert a + b == b;
    } else {
      assert (a + b)[0] == a[0];
      assert (a + b)[1..] == a[1..] + b;
      QuitarConcat(a[1..], b, p);
    }
  }

  /** A single line goes exactly when it is for `p`. */
  lemma QuitarLinea(it: Item, p: Id)
    ensures Quitar([it], p) == (if it.producto == p then [] else [it])
  {
    assert [it][1..] == [];
  }

  /** A cart with no line for `p` is left as it was. */
  lemma {:induction false} QuitarAusente(items: seq<Item>, p: Id)
    requires !Contiene(items, p)
    ensures Quitar(items, p) == items
  {
    if items != [] {
      assert !Contiene(items[1..], p) by {
        forall i | 0 <= i < |items[1..]| ensures items[1..][i].producto != p {
          assert items[1..][i] == items[i + 1];
        }
      }
      QuitarAusente(items[1..], p);
      assert items[0].producto != p;
      assert items == [items[0]] + items[1..];
    }
  }

  /** Removing lines keeps the line invariants. */
  lemma {:induction false} QuitarValida(items: seq<Item>, p: Id)
    requires LineasValidas(items)
    ensures LineasValidas(Quitar(items, p))
  {
    if items != [] {
      var tail := items[1..];
      assert LineasValidas(tail) by {
        forall i, j | 0 <= i < j < |tail| ensures tail[i].producto != tail[j].producto {
          assert tail[i] == items[i + 1] && tail[j] == items[j + 1];
        }
        forall i | 0 <= i < |tail| ensures tail[i].cantidad >= CantidadMinima {
          assert tail[i] == items[i + 1];
        }
      }
      QuitarValida(tail, p);
      var resto := Quitar(tail, p);
      if items[0].producto != p {
        var r := [items[0]] + resto;
        assert !Contiene(tail, items[0].producto) by {
          forall i | 0 <= i < |tail| ensures tail[i].producto != items[0].producto {
            assert tail[i] == items[i + 1];
          }
        }
        forall i, j | 0 <= i < j < |r| ensures r[i].producto != r[j].producto {
          assert r[j] == resto[j - 1];
          assert resto[j - 1] in tail;
          if i > 0 {
            assert r[i] == resto[i - 1];
          }
        }
        forall i | 0 <= i < |r| ensures r[i].cantidad >= CantidadMinima {
          if i > 0 {
            assert r[i] == resto[i - 1];
            assert resto[i - 1] in tail;
          }
        }
      }
    }
  }
}
