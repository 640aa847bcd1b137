/** The cart handlers: add (with merge), set quantity, remove, clear and the
    totals. Only the owner may change a cart; the totals are also open to
    administrators. */
module CarritoController {
  import opened Common
  import Usuarios
  import Productos
  import Carritos
  import opened Tienda

  const MsgNoAutorizadoModificar: string := "No autorizado para modificar este carrito"
  const MsgNoAutorizadoVer: string := "No autorizado para ver este carrito"
  const MsgProductoNoDisponible: string := "Producto no encontrado o no disponible"
  const MsgProductoNoEncontrado: string := "Producto no encontrado"
  const MsgCantidadInvalida: string := "La cantidad debe ser mayor a 0"
  const MsgCarritoNoEncontrado: string := "Carrito no encontrado"
  const MsgCarritoOProductoNoEncontrado: string := "Carrito o producto no encontrado"

  function MsgStock(stock: int): string {
    "Stock insuficiente. Stock disponible: " + IntToString(stock)
  }

  /** The lines of user `u`'s cart; a missing cart reads as no lines. */
  function Lineas(s: Store, u: Id): seq<Carritos.Item> {
    if u in s.carritos then s.carritos[u].items else []
  }

  /** The quantity of the line `find` returns for product `p`, or 0. */
  function EnCarrito(s: Store, u: Id, p: Id): int {
    match Carritos.Posicion(Lineas(s, u), p)
    case Some(k) => Lineas(s, u)[k].cantidad
    case None => 0
  }

  /** The product can be added: it exists and is active. */
  predicate Activo(s: Store, p: Id) {
    p in s.productos && s.productos[p].activo
  }

  /** Only user `u`'s cart changed (and now exists); every other collection
      and every other cart is as before. */
  predicate SoloCarrito(s: Store, s': Store, u: Id) {
    u in s'.carritos && s' == s.(carritos := s.carritos[u := s'.carritos[u]])
  }

  /** `agregarAlCarrito` as written: the owner check, the product check and
      the stock check against the requested quantity; the cart is created if
      missing; an existing line is merged (re-checked against the summed
      quantity, price refreshed), otherwise one line is appended. The
      quantity itself is never checked. */
  function AgregarAlCarritoOriginal(s: Store, caller: Principal, usuarioId: Id, productoId: Id, cantidad: int)
    : (r: Result<Store>)
    ensures usuarioId != caller.id ==> r == Err(Respond(403, MsgNoAutorizadoModificar))
    ensures usuarioId == caller.id && !Activo(s, productoId) ==> r == Err(Respond(404, MsgProductoNoDisponible))
    ensures r.Ok? <==>
      && usuarioId == caller.id && Activo(s, productoId)
      && s.productos[productoId].stock >= cantidad
      && s.productos[productoId].stock >= EnCarrito(s, usuarioId, productoId) + cantidad
    ensures r.Err? && r.failure.Respond? && r.failure.status == 400 ==> r.failure == Respond(400, MsgStock(s.productos[productoId].stock))
    ensures r.Ok? ==> SoloCarrito(s, r.value, usuarioId)
    ensures r.Ok? ==>
      var antes := Lineas(s, usuarioId);
      var despues := r.value.carritos[usuarioId].items;
      var nueva := Carritos.Item(productoId, EnCarrito(s, usuarioId, productoId) + cantidad, s.productos[productoId].precio);
      match Carritos.Posicion(antes, productoId)
      case Some(k) => despues == antes[k := nueva]
      case None => despues == antes + [nueva]
  {
    if usuarioId != caller.id then Err(Respond(403, MsgNoAutorizadoModificar))
    else if !Activo(s, productoId) then Err(Respond(404, MsgProductoNoDisponible))
    else
      var prod := s.productos[productoId];
      if prod.stock < cantidad then Err(Respond(400, MsgStock(prod.stock)))
      else
        var carrito := if usuarioId in s.carritos then s.carritos[usuarioId] else Carritos.Nuevo();
        match Carritos.Posicion(carrito.items, productoId)
        case Some(k) =>
          var nuevaCantidad := carrito.items[k].cantidad + cantidad;
          if prod.stock < nuevaCantidad then Err(Respond(400, MsgStock(prod.stock)))
          else
            var it := Carritos.Item(productoId, nuevaCantidad, prod.precio);
            Ok(s.(carritos := s.carritos[usuarioId := carrito.(items := carrito.items[k := it])]))
        case None =>
          var it := Carritos.Item(productoId, cantidad, prod.precio);
          Ok(s.(carritos := s.carritos[usuarioId := carrito.(items := carrito.items + [it])]))
  }

  /** As written, a quantity of 0 is accepted and stored as a line of zero
      units, which breaks the cart's line invariant. */
  lemma AgregarOriginalAceptaCero()
    ensures
      var prod := Productos.Producto("Taza", "Taza de cerámica", 1500, 5, 0, None, Productos.ImagenPorDefecto, true, 0.0, 0);
      var s := Store(map[], map[], map[7 := prod], map[], map[], map[], 8);
      var r := AgregarAlCarritoOriginal(s, Principal(1, Usuarios.Cliente, Usuarios.Direccion(None, None, None, None, None)), 1, 7, 0);
      && CarritosValidos(s)
      && r.Ok?
      && !CarritosValidos(r.value)
      && r.value.carritos[1].items == [Carritos.Item(7, 0, 1500)]
  {
    var prod := Productos.Producto("Taza", "Taza de cerámica", 1500, 5, 0, None, Productos.ImagenPorDefecto, true, 0.0, 0);
    var s := Store(map[], map[], map[7 := prod], map[], map[], map[], 8);
    assert Lineas(s, 1) == [];
    assert EnCarrito(s, 1, 7) == 0;
    var r := AgregarAlCarritoOriginal(s, Principal(1, Usuarios.Cliente, Usuarios.Direccion(None, None, None, None, None)), 1, 7, 0);
    var items := r.value.carritos[1].items;
    assert items == [] + [Carritos.Item(7, 0, 1500)];
    assert !Carritos.LineasValidas(items) by {
      assert items[0].cantidad < Carritos.CantidadMinima;
    }
  }

  /** `agregarAlCarrito` with the missing quantity check: after the owner
      check, a quantity below 1 is rejected with the message the update
      handler uses; the rest is the handler as written. */
  function AgregarAlCarrito(s: Store, caller: Principal, usuarioId: Id, productoId: Id, cantidad: int)
    : (r: Result<Store>)
    ensures usuarioId != caller.id ==> r == Err(Respond(403, MsgNoAutorizadoModificar))
    ensures usuarioId == caller.id && cantidad < Carritos.CantidadMinima ==> r == Err(Respond(400, MsgCantidadInvalida))
    ensures usuarioId == caller.id && cantidad >= Carritos.CantidadMinima && !Activo(s, productoId)
            ==> r == Err(Respond(404, MsgProductoNoDisponible))
    ensures r.Ok? <==>
      && usuarioId == caller.id && cantidad >= Carritos.CantidadMinima && Activo(s, productoId)
      && s.productos[productoId].stock >= cantidad
      && s.productos[productoId].stock >= EnCarrito(s, usuarioId, productoId) + cantidad
    ensures r.Ok? ==> r == AgregarAlCarritoOriginal(s, caller, usuarioId, productoId, cantidad)
  {
    if usuarioId != caller.id then Err(Respond(403, MsgNoAutorizadoModificar))
    else if cantidad < Carritos.CantidadMinima then Err(Respond(400, MsgCantidadInvalida))
    else AgregarAlCarritoOriginal(s, caller, usuarioId, productoId, cantidad)
  }

  /** Adding keeps one line per product and every quantity at least 1: the
      product's quantity grows by exactly the amount added, every other
      product's is unchanged, and the cart gains a line only when the
      product was not in it yet. */
  lemma AgregarPreservaLineas(s: Store, caller: Principal, usuarioId: Id, productoId: Id, cantidad: int)
    requires CarritosValidos(s)
    requires AgregarAlCarrito(s, caller, usuarioId, productoId, cantidad).Ok?
    ensures var s' := AgregarAlCarrito(s, caller, usuarioId, productoId, cantidad).value;
      && CarritosValidos(s')
      && Carritos.CantidadDe(s'.carritos[usuarioId].items, productoId)
         == Carritos.CantidadDe(Lineas(s, usuarioId), productoId) + cantidad
      && (forall q :: q != productoId ==>
            Carritos.CantidadDe(s'.carritos[usuarioId].items, q) == Carritos.CantidadDe(Lineas(s, usuarioId), q))
      && |s'.carritos[usuarioId].items|
         == |Lineas(s, usuarioId)| + (if Carritos.Contiene(Lineas(s, usuarioId), productoId) then 0 else 1)
  {
    var s' := AgregarAlCarrito(s, caller, usuarioId, productoId, cantidad).value;
    var antes := Lineas(s, usuarioId);
    var despues := s'.carritos[usuarioId].items;
    assert Carritos.LineasValidas(antes);
    var nueva := Carritos.Item(productoId, EnCarrito(s, usuarioId, productoId) + cantidad, s.productos[productoId].precio);
    match Carritos.Posicion(antes, productoId)
    case Some(k) =>
      assert despues == antes[k := nueva];
      Carritos.CantidadDeUnica(antes, k);
      Carritos.ReemplazarLineaValida(antes, k, nueva);
      forall q ensures Carritos.CantidadDe(despues, q)
          == Carritos.CantidadDe(antes, q) + (if q == productoId then cantidad else 0) {
        Carritos.CantidadDeReemplazar(antes, k, nueva, q);
      }
    case None =>
      assert despues == antes + [nueva];
      Carritos.AgregarLineaValida(antes, nueva);
      forall q ensures Carritos.CantidadDe(despues, q)
          == Carritos.CantidadDe(antes, q) + (if q == productoId then cantidad else 0) {
        Carritos.CantidadDeAgregar(antes, nueva, q);
      }
  }

  /** `actualizarItemCarrito`: owner only; a missing quantity or one below 1
      is 400; the product must exist (active or not) and have the quantity in
      stock; then the product's line is set to that quantity at the current
      price, and a cart without such a line is 404. */
  function ActualizarItemCarrito(s: Store, caller: Principal, usuarioId: Id, productoId: Id, cantidad: Option<int>)
    : (r: Result<Store>)
    ensures usuarioId != caller.id ==> r == Err(Respond(403, MsgNoAutorizadoModificar))
    ensures usuarioId == caller.id && (cantidad.None? || cantidad.value < Carritos.CantidadMinima)
            ==> r == Err(Respond(400, MsgCantidadInvalida))
    ensures usuarioId == caller.id && cantidad.Some? && cantidad.value >= Carritos.CantidadMinima
              && productoId !in s.productos
            ==> r == Err(Respond(404, MsgProductoNoEncontrado))
    ensures usuarioId == caller.id && cantidad.Some? && cantidad.value >= Carritos.CantidadMinima
              && productoId in s.productos && s.productos[productoId].stock < cantidad.value
            ==> r == Err(Respond(400, MsgStock(s.productos[productoId].stock)))
    ensures r.Ok? <==>
      && usuarioId == caller.id && cantidad.Some? && cantidad.value >= Carritos.CantidadMinima
      && productoId in s.productos && s.productos[productoId].stock >= cantidad.value
      && Carritos.Contiene(Lineas(s, usuarioId), productoId)
    ensures r.Ok? ==> SoloCarrito(s, r.value, usuarioId)
    ensures r.Ok? ==>
      var antes := Lineas(s, usuarioId);
      var k := Carritos.Posicion(antes, productoId).value;
      r.value.carritos[usuarioId].items
        == antes[k := Carritos.Item(productoId, cantidad.value, s.productos[productoId].precio)]
  {
    if usuarioId != caller.id then Err(Respond(403, MsgNoAutorizadoModificar))
    else if cantidad.None? || cantidad.value == 0 || cantidad.value < Carritos.CantidadMinima then
      Err(Respond(400, MsgCantidadInvalida))
    else if productoId !in s.productos then Err(Respond(404, MsgProductoNoEncontrado))
    else
      var prod := s.productos[productoId];
      if prod.stock < cantidad.value then Err(Respond(400, MsgStock(prod.stock)))
      else if usuarioId !in s.carritos then Err(Respond(404, MsgCarritoOProductoNoEncontrado))
      else
        var carrito := s.carritos[usuarioId];
        match Carritos.Posicion(carrito.items, productoId)
        case None => Err(Respond(404, MsgCarritoOProductoNoEncontrado))
        case Some(k) =>
          var it := Carritos.Item(productoId, cantidad.value, prod.precio);
          Ok(s.(carritos := s.carritos[usuarioId := carrito.(items := carrito.items[k := it])]))
  }

  /** Setting a quantity keeps the line invariants, makes the cart hold
      exactly that quantity of the product and leaves the other products'
      quantities and the number of lines alone. */
  lemma ActualizarItemPreservaLineas(s: Store, caller: Principal, usuarioId: Id, productoId: Id, cantidad: Option<int>)
    requires CarritosValidos(s)
    requires ActualizarItemCarrito(s, caller, usuarioId, productoId, cantidad).Ok?
    ensures var s' := ActualizarItemCarrito(s, caller, usuarioId, productoId, cantidad).value;
      && CarritosValidos(s')
      && Carritos.CantidadDe(s'.carritos[usuarioId].items, productoId) == cantidad.value
      && (forall q :: q != productoId ==>
            Carritos.CantidadDe(s'.carritos[usuarioId].items, q) == Carritos.CantidadDe(Lineas(s, usuarioId), q))
      && |s'.carritos[usuarioId].items| == |Lineas(s, usuarioId)|
  {
    var s' := ActualizarItemCarrito(s, caller, usuarioId, productoId, cantidad).value;
    var antes := Lineas(s, usuarioId);
    var k := Carritos.Posicion(antes, productoId).value;
    var it := Carritos.Item(productoId, cantidad.value, s.productos[productoId].precio);
    var despues := s'.carritos[usuarioId].items;
    assert despues == antes[k := it];
    Carritos.ReemplazarLineaValida(antes, k, it);
    Carritos.CantidadDeUnica(antes, k);
    forall q ensures Carritos.CantidadDe(despues, q)
        == Carritos.CantidadDe(antes, q) - (if q == productoId then antes[k].cantidad else 0)
           + (if q == productoId then cantidad.value else 0) {
      Carritos.CantidadDeReemplazar(antes, k, it, q);
    }
  }

  /** `eliminarDelCarrito`: owner only; every line for the product is pulled,
      the others stay; no cart is 404. Stock is not touched. */
  function EliminarDelCarrito(s: Store, caller: Principal, usuarioId: Id, productoId: Id): (r: Result<Store>)
    ensures usuarioId != caller.id ==> r == Err(Respond(403, MsgNoAutorizadoModificar))
    ensures usuarioId == caller.id && usuarioId !in s.carritos ==> r == Err(Respond(404, MsgCarritoNoEncontrado))
    ensures r.Ok? <==> usuarioId == caller.id && usuarioId in s.carritos
    ensures r.Ok? ==> SoloCarrito(s, r.value, usuarioId)
    ensures r.Ok? ==>
      var antes := s.carritos[usuarioId].items;
      var despues := r.value.carritos[usuarioId].items;
      && !Carritos.Contiene(despues, productoId)
      && (forall i :: 0 <= i < |despues| ==> despues[i] in antes)
      && (forall q :: q != productoId ==> Carritos.CantidadDe(despues, q) == Carritos.CantidadDe(antes, q))
      && r.value.carritos[usuarioId].activo == s.carritos[usuarioId].activo
  {
    if usuarioId != caller.id then Err(Respond(403, MsgNoAutorizadoModificar))
    else if usuarioId !in s.carritos then Err(Respond(404, MsgCarritoNoEncontrado))
    else
      var carrito := s.carritos[usuarioId];
      Ok(s.(carritos := s.carritos[usuarioId := carrito.(items := Carritos.Quitar(carrito.items, productoId))]))
  }

  lemma EliminarPreservaLineas(s: Store, caller: Principal, usuarioId: Id, productoId: Id)
    requires CarritosValidos(s)
    requires EliminarDelCarrito(s, caller, usuarioId, productoId).Ok?
    ensures CarritosValidos(EliminarDelCarrito(s, caller, usuarioId, productoId).value)
  {
    Carritos.QuitarValida(s.carritos[usuarioId].items, productoId);
  }

  /** `vaciarCarrito`: owner only; the cart loses every line; no cart is 404. */
  function VaciarCarrito(s: Store, caller: Principal, usuarioId: Id): (r: Result<Store>)
    ensures usuarioId != caller.id ==> r == Err(Respond(403, MsgNoAutorizadoModificar))
    ensures usuarioId == caller.id && usuarioId !in s.carritos ==> r == Err(Respond(404, MsgCarritoNoEncontrado))
    ensures r.Ok? <==> usuarioId == caller.id && usuarioId in s.carritos
    ensures r.Ok? ==> SoloCarrito(s, r.value, usuarioId)
    ensures r.Ok? ==> r.value.carritos[usuarioId].items == []
                      && r.value.carritos[usuarioId].activo == s.carritos[usuarioId].activo
    ensures r.Ok? ==> CarritosValidos(s) ==> CarritosValidos(r.value)
  {
    if usuarioId != caller.id then Err(Respond(403, MsgNoAutorizadoModificar))
    else if usuarioId !in s.carritos then Err(Respond(404, MsgCarritoNoEncontrado))
    else Ok(s.(carritos := s.carritos[usuarioId := s.carritos[usuarioId].(items := [])]))
  }

  /** One line of the totals: the cart line and its subtotal. */
  datatype LineaTotal = LineaTotal(producto: Id, cantidad: int, precio: int, subtotal: int)

  /** The totals document: sum of subtotals, number of lines, sum of
      quantities, and the lines themselves. */
  datatype Totales = Totales(total: int, cantidadItems: nat, cantidadTotal: int, items: seq<LineaTotal>)

  /** Sum of the quantities of the lines. With no negative quantity, no
      line holds more units than the whole cart. */
  function CantidadTotal(items: seq<Carritos.Item>): (r: int)
    ensures (forall i :: 0 <= i < |items| ==> items[i].cantidad >= 0) ==>
      r >= 0 && forall i :: 0 <= i < |items| ==> items[i].cantidad <= r
  {
    if items == [] then 0
    else
      var resto := CantidadTotal(items[1..]);
      assert forall i :: 1 <= i < |items| ==> items[i] == items[1..][i - 1];
      items[0].cantidad + resto
  }

  lemma {:induction false} CantidadTotalConcat(a: seq<Carritos.Item>, b: seq<Carritos.Item>)
    ensures CantidadTotal(a + b) == CantidadTotal(a) + CantidadTotal(b)
  {
    if a == [] {
      assert a + b == b;
    } else {
      assert (a + b)[1..] == a[1..] + b;
      CantidadTotalConcat(a[1..], b);
    }
  }

  /** `calcularTotalCarrito`: the owner or an administrator gets the totals
      the `$unwind`/`$group` pipeline computes, one pass over the lines; no
      cart, or a cart with no lines, gives all zeros. */
  method CalcularTotalCarrito(s: Store, caller: Principal, usuarioId: Id) returns (r: Result<Totales>)
    ensures !DuenoOAdmin(caller, usuarioId) ==> r == Err(Respond(403, MsgNoAutorizadoVer))
    ensures r.Ok? <==> DuenoOAdmin(caller, usuarioId)
    ensures r.Ok? ==>
      var items := Lineas(s, usuarioId);
      && r.value.total == Carritos.CalcularTotal(items)
      && r.value.cantidadItems == |items|
      && r.value.cantidadTotal == CantidadTotal(items)
      && |r.value.items| == |items|
      && (forall i :: 0 <= i < |items| ==>
            r.value.items[i] == LineaTotal(items[i].producto, items[i].cantidad, items[i].precio, Carritos.Subtotal(items[i])))
    ensures r.Ok? && Lineas(s, usuarioId) == [] ==> r.value == Totales(0, 0, 0, [])
  {
    if !DuenoOAdmin(caller, usuarioId) {
      return Err(Respond(403, MsgNoAutorizadoVer));
    }
    var items := Lineas(s, usuarioId);
    var total := 0;
    var cantidadTotal := 0;
    var lineas: seq<LineaTotal> := [];
    var i := 0;
    while i < |items|
      invariant 0 <= i <= |items|
      invariant total == Carritos.CalcularTotal(items[..i])
      invariant cantidadTotal == CantidadTotal(items[..i])
      invariant |lineas| == i
      invariant forall j :: 0 <= j < i ==>
        lineas[j] == LineaTotal(items[j].producto, items[j].cantidad, items[j].precio, Carritos.Subtotal(items[j]))
    {
      var it := items[i];
      assert items[..i + 1] == items[..i] + [it];
      Carritos.CalcularTotalConcat(items[..i], [it]);
      CantidadTotalConcat(items[..i], [it]);
      total := total + it.precio * it.cantidad;
      cantidadTotal := cantidadTotal + it.cantidad;
      lineas := lineas + [LineaTotal(it.producto, it.cantidad, it.precio, it.precio * it.cantidad)];
      i := i + 1;
    }
    assert items[..i] == items;
    return Ok(Totales(total, |items|, cantidadTotal, lineas));
  }

  /** In a valid cart every line holds at least one unit, so the number of
      units is at least the number of lines. */
  lemma {:induction false} TotalesCoherentes(items: seq<Carritos.Item>)
    requires Carritos.LineasValidas(items)
    ensures CantidadTotal(items) >= |items|
  {
    if items != [] {
      var tail := items[1..];
      assert Carritos.LineasValidas(tail) by {
        forall i, j | 0 <= i < j < |tail| ensures tail[i].producto != tail[j].producto {
          assert tail[i] == items[i + 1] && tail[j] == items[j + 1];
        }
        forall i | 0 <= i < |tail| ensures tail[i].cantidad >= Carritos.CantidadMinima {
          assert tail[i] == items[i + 1];
        }
      }
      TotalesCoherentes(tail);
    }
  }
}
