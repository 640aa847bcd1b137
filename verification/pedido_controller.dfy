/** The order workflow: placing an order from the caller's cart, cancelling
    it, and the administrator's status update. */
module PedidoController {
  import opened Common
  import opened Usuarios
  import Productos
  import Carritos
  import Pedidos
  import opened Tienda

  const MsgMetodoObligatorio: string := "El método de pago es obligatorio"
  const MsgCarritoVacio: string := "El carrito está vacío"
  const MsgPedidoNoEncontrado: string := "Pedido no encontrado"
  const MsgNoAutorizadoCancelar: string := "No autorizado para cancelar este pedido"

  /** A cart line can be ordered: its product exists, is active and has at
      least the line's quantity in stock. */
  predicate Disponible(ps: map<Id, Productos.Producto>, it: Carritos.Item) {
    it.producto in ps && ps[it.producto].activo && ps[it.producto].stock >= it.cantidad
  }

  /** `item.producto?.nombre || 'desconocido'`. */
  function NombreODesconocido(ps: map<Id, Productos.Producto>, p: Id): string {
    if p in ps && ps[p].nombre != "" then ps[p].nombre else "desconocido"
  }

  /** The stock check over the cart lines, in order, before any write: the
      first unavailable line decides the answer. */
  function VerificarLineas(ps: map<Id, Productos.Producto>, items: seq<Carritos.Item>): (r: Option<Failure>)
    ensures r.None? <==> forall i :: 0 <= i < |items| ==> Disponible(ps, items[i])
    ensures r.Some? ==> r.value.Respond? && r.value.status == 400
  {
    if items == [] then None
    else
      var it := items[0];
      if it.producto !in ps || !ps[it.producto].activo then
        Some(Respond(400, "El producto " + NombreODesconocido(ps, it.producto) + " no está disponible"))
      else if ps[it.producto].stock < it.cantidad then
        Some(Respond(400, "Stock insuficiente para " + ps[it.producto].nombre
                          + ". Disponible: " + IntToString(ps[it.producto].stock)))
      else
        assert forall i :: 0 <= i < |items[1..]| ==> items[1..][i] == items[i + 1];
        VerificarLineas(ps, items[1..])
  }

  /** The order line made from a cart line: the product's current name, the
      cart's price snapshot, and price times quantity. */
  function Linea(ps: map<Id, Productos.Producto>, it: Carritos.Item): Pedidos.Item
    requires it.producto in ps
  {
    Pedidos.Item(it.producto, ps[it.producto].nombre, it.cantidad, it.precio, Carritos.Subtotal(it))
  }

  /** The order lines made from all cart lines, in cart order. */
  function Instantanea(ps: map<Id, Productos.Producto>, items: seq<Carritos.Item>): (r: seq<Pedidos.Item>)
    requires forall i :: 0 <= i < |items| ==> items[i].producto in ps
    ensures |r| == |items|
    ensures forall i :: 0 <= i < |items| ==>
      && r[i].producto == items[i].producto
      && r[i].nombre == ps[items[i].producto].nombre
      && r[i].cantidad == items[i].cantidad
      && r[i].precio == items[i].precio
      && r[i].subtotal == r[i].precio * r[i].cantidad
  {
    if items == [] then []
    else [Linea(ps, items[0])] + Instantanea(ps, items[1..])
  }

  /** The order's subtotals add up to the cart's `calcularTotal`. */
  lemma {:induction false} InstantaneaTotal(ps: map<Id, Productos.Producto>, items: seq<Carritos.Item>)
    requires forall i :: 0 <= i < |items| ==> items[i].producto in ps
    ensures Pedidos.SumaSubtotales(Instantanea(ps, items)) == Carritos.CalcularTotal(items)
  {
    if items != [] {
      var r := Instantanea(ps, items);
      assert r[1..] == Instantanea(ps, items[1..]);
      InstantaneaTotal(ps, items[1..]);
    }
  }

  /** The order holds of every product exactly what the cart asked of it. */
  lemma {:induction false} InstantaneaCantidades(ps: map<Id, Productos.Producto>, items: seq<Carritos.Item>, p: Id)
    requires forall i :: 0 <= i < |items| ==> items[i].producto in ps
    ensures Pedidos.CantidadDe(Instantanea(ps, items), p) == Carritos.CantidadDe(items, p)
  {
    if items != [] {
      var r := Instantanea(ps, items);
      assert r[1..] == Instantanea(ps, items[1..]);
      InstantaneaCantidades(ps, items[1..], p);
    }
  }

  /** A payment method was sent and is not the empty string. */
  predicate Presente(m: Option<string>) {
    m.Some? && m.value != ""
  }

  /** The caller's cart exists and has at least one line. */
  predicate CarritoConLineas(s: Store, u: Id) {
    u in s.carritos && s.carritos[u].items != []
  }

  /** Every check of order placement passes. */
  predicate PuedePedir(s: Store, caller: Principal, metodoPago: Option<string>) {
    && Presente(metodoPago)
    && CarritoConLineas(s, caller.id)
    && (forall i :: 0 <= i < |s.carritos[caller.id].items| ==>
          Disponible(s.productos, s.carritos[caller.id].items[i]))
    && (forall i :: 0 <= i < |s.carritos[caller.id].items| ==>
          s.carritos[caller.id].items[i].cantidad >= 1)
    && Carritos.CalcularTotal(s.carritos[caller.id].items) >= 0
    && Pedidos.ParseMetodoPago(metodoPago.value).Some?
  }

  /** The writes of `crearPedido` once every check has passed: the order is
      created from the cart's snapshot, each line's quantity is taken out
      of stock and the cart is emptied. The answer is the new store and the
      new order's id. */
  function Pedir(s: Store, caller: Principal, metodo: Pedidos.MetodoPago,
                 direccionEnvio: Option<Direccion>, notas: Option<string>)
    : (r: (Store, Id))
    requires caller.id in s.carritos
    requires forall i :: 0 <= i < |s.carritos[caller.id].items| ==>
      s.carritos[caller.id].items[i].producto in s.productos
    ensures r.1 == s.nextId && r.0.nextId == s.nextId + 1
    ensures r.1 in r.0.pedidos && r.0.pedidos == s.pedidos[r.1 := r.0.pedidos[r.1]]
    ensures
      var o := r.0.pedidos[r.1];
      && o.usuario == caller.id
      && o.estado == Pedidos.Pendiente
      && o.metodoPago == metodo
      && o.direccionEnvio == (if direccionEnvio.Some? then direccionEnvio.value else caller.direccion)
      && o.notas == notas
    ensures
      var items := s.carritos[caller.id].items;
      var o := r.0.pedidos[r.1];
      && o.items == Instantanea(s.productos, items)
      && o.total == Carritos.CalcularTotal(items) && o.total == Pedidos.SumaSubtotales(o.items)
    ensures
      var items := s.carritos[caller.id].items;
      && r.0.productos == DescontarStock(s.productos, items)
      && r.0.productos.Keys == s.productos.Keys
      && (forall p :: p in s.productos ==>
            r.0.productos[p] == s.productos[p].(stock := s.productos[p].stock - Carritos.CantidadDe(items, p)))
    ensures
      && r.0.carritos == s.carritos[caller.id := s.carritos[caller.id].(items := [])]
      && r.0.usuarios == s.usuarios && r.0.categorias == s.categorias && r.0.resenas == s.resenas
  {
    var items := s.carritos[caller.id].items;
    var lineas := Instantanea(s.productos, items);
    InstantaneaTotal(s.productos, items);
    var o := Pedidos.Pedido(caller.id, lineas, Pedidos.SumaSubtotales(lineas), Pedidos.Pendiente, metodo,
                            Or(direccionEnvio, caller.direccion), notas);
    (s.(pedidos := s.pedidos[s.nextId := o],
        productos := DescontarStock(s.productos, items),
        carritos := s.carritos[caller.id := s.carritos[caller.id].(items := [])],
        nextId := s.nextId + 1),
     s.nextId)
  }

  /** `crearPedido`: payment method present, cart non-empty, every line
      available and the order schema satisfied; then the writes of
      `Pedir`. */
  function CrearPedido(s: Store, caller: Principal, metodoPago: Option<string>,
                       direccionEnvio: Option<Direccion>, notas: Option<string>)
    : (r: Result<(Store, Id)>)
    ensures !Presente(metodoPago) ==> r == Err(Respond(400, MsgMetodoObligatorio))
    ensures Presente(metodoPago) && !CarritoConLineas(s, caller.id) ==> r == Err(Respond(400, MsgCarritoVacio))
    ensures Presente(metodoPago) && CarritoConLineas(s, caller.id)
            && (exists i :: 0 <= i < |s.carritos[caller.id].items|
                  && !Disponible(s.productos, s.carritos[caller.id].items[i]))
            ==> r.Err? && r.failure.Respond? && r.failure.status == 400
    ensures r.Ok? ==>
      && Pedidos.ParseMetodoPago(metodoPago.value).Some?
      && r.value == Pedir(s, caller, Pedidos.ParseMetodoPago(metodoPago.value).value, direccionEnvio, notas)
      && Pedidos.MetodoNombre(r.value.0.pedidos[r.value.1].metodoPago) == metodoPago.value
  {
    if !Presente(metodoPago) then Err(Respond(400, MsgMetodoObligatorio))
    else if !CarritoConLineas(s, caller.id) then Err(Respond(400, MsgCarritoVacio))
    else
      var items := s.carritos[caller.id].items;
      var fallo := VerificarLineas(s.productos, items);
      if fallo.Some? then Err(fallo.value)
      else
        var lineas := Instantanea(s.productos, items);
        var total := Pedidos.SumaSubtotales(lineas);
        InstantaneaTotal(s.productos, items);
        var msgs := Pedidos.Errores(lineas, total, metodoPago.value);
        if msgs != [] then Err(Thrown(ValidationError(msgs)))
        else Ok(Pedir(s, caller, Pedidos.ParseMetodoPago(metodoPago.value).value, direccionEnvio, notas))
  }

  /** Placing an order succeeds exactly when every check passes. */
  lemma CrearPedidoAceptaSii(s: Store, caller: Principal, metodoPago: Option<string>,
                             direccionEnvio: Option<Direccion>, notas: Option<string>)
    ensures CrearPedido(s, caller, metodoPago, direccionEnvio, notas).Ok? <==> PuedePedir(s, caller, metodoPago)
  {
    if Presente(metodoPago) && CarritoConLineas(s, caller.id) {
      var items := s.carritos[caller.id].items;
      if VerificarLineas(s.productos, items).None? {
        ErroresInstantanea(s.productos, items, metodoPago.value);
      }
    }
  }

  /** The order schema accepts the snapshot of a cart exactly when every
      cart line asks for at least one unit, the total is not negative and
      the payment method is one of the enumeration. */
  lemma ErroresInstantanea(ps: map<Id, Productos.Producto>, items: seq<Carritos.Item>, metodo: string)
    requires forall i :: 0 <= i < |items| ==> items[i].producto in ps
    ensures var lineas := Instantanea(ps, items);
      Pedidos.Errores(lineas, Pedidos.SumaSubtotales(lineas), metodo) == [] <==>
        && (forall i :: 0 <= i < |items| ==> items[i].cantidad >= 1)
        && Carritos.CalcularTotal(items) >= 0
        && Pedidos.ParseMetodoPago(metodo).Some?
  {
    var lineas := Instantanea(ps, items);
    InstantaneaTotal(ps, items);
    assert forall i :: 0 <= i < |items| ==> lineas[i].cantidad == items[i].cantidad;
  }

  /** With one line per product (the cart invariant), placing an order never
      drives a stock negative: each product loses at most what the check saw
      available. */
  lemma CrearPedidoConservaStock(s: Store, caller: Principal, metodoPago: Option<string>,
                                 direccionEnvio: Option<Direccion>, notas: Option<string>)
    requires CarritosValidos(s) && StockNoNegativo(s)
    requires CrearPedido(s, caller, metodoPago, direccionEnvio, notas).Ok?
    ensures StockNoNegativo(CrearPedido(s, caller, metodoPago, direccionEnvio, notas).value.0)
  {
    var s' := CrearPedido(s, caller, metodoPago, direccionEnvio, notas).value.0;
    var items := s.carritos[caller.id].items;
    forall p | p in s'.productos ensures s'.productos[p].stock >= 0 {
      if Carritos.Contiene(items, p) {
        var k :| 0 <= k < |items| && items[k].producto == p;
        Carritos.CantidadDeUnica(items, k);
        assert Disponible(s.productos, items[k]);
      } else {
        Carritos.CantidadDeAusente(items, p);
      }
    }
  }

  /** `cancelarPedido`: the order must exist (404), belong to the caller or
      the caller be an administrator (403), and still be pending or
      processing (400); then every line's quantity goes back to stock and the
      order becomes cancelled. */
  function CancelarPedido(s: Store, caller: Principal, oid: Id): (r: Result<Store>)
    ensures oid !in s.pedidos ==> r == Err(Respond(404, MsgPedidoNoEncontrado))
    ensures oid in s.pedidos && !DuenoOAdmin(caller, s.pedidos[oid].usuario)
            ==> r == Err(Respond(403, MsgNoAutorizadoCancelar))
    ensures oid in s.pedidos && DuenoOAdmin(caller, s.pedidos[oid].usuario)
            && !Pedidos.Cancelable(s.pedidos[oid].estado)
            ==> r == Err(Respond(400, "No se puede cancelar un pedido en estado: "
                                      + Pedidos.EstadoNombre(s.pedidos[oid].estado)))
    ensures r.Ok? <==>
      oid in s.pedidos && DuenoOAdmin(caller, s.pedidos[oid].usuario) && Pedidos.Cancelable(s.pedidos[oid].estado)
    ensures r.Ok? ==>
      var o := s.pedidos[oid];
      && r.value.pedidos == s.pedidos[oid := o.(estado := Pedidos.Cancelado)]
      && r.value.productos.Keys == s.productos.Keys
      && (forall p :: p in s.productos ==>
            r.value.productos[p] == s.productos[p].(stock := s.productos[p].stock + Pedidos.CantidadDe(o.items, p)))
      && r.value.usuarios == s.usuarios && r.value.categorias == s.categorias
      && r.value.carritos == s.carritos && r.value.resenas == s.resenas
      && r.value.nextId == s.nextId
  {
    if oid !in s.pedidos then Err(Respond(404, MsgPedidoNoEncontrado))
    else
      var o := s.pedidos[oid];
      if !DuenoOAdmin(caller, o.usuario) then Err(Respond(403, MsgNoAutorizadoCancelar))
      else if !Pedidos.Cancelable(o.estado) then
        Err(Respond(400, "No se puede cancelar un pedido en estado: " + Pedidos.EstadoNombre(o.estado)))
      else
        Ok(s.(productos := DevolverStock(s.productos, o.items),
              pedidos := s.pedidos[oid := o.(estado := Pedidos.Cancelado)]))
  }

  /** Taking a cart's quantities out of stock and putting its order lines'
      quantities back leaves every product as it was. */
  lemma {:induction false} DescontarYDevolver(ps: map<Id, Productos.Producto>, items: seq<Carritos.Item>)
    requires forall i :: 0 <= i < |items| ==> items[i].producto in ps
    ensures DevolverStock(DescontarStock(ps, items), Instantanea(ps, items)) == ps
  {
    var ps2 := DevolverStock(DescontarStock(ps, items), Instantanea(ps, items));
    forall p | p in ps ensures ps2[p] == ps[p] {
      DescontarYDevolverEn(ps, items, p);
    }
  }

  lemma DescontarYDevolverEn(ps: map<Id, Productos.Producto>, items: seq<Carritos.Item>, p: Id)
    requires forall i :: 0 <= i < |items| ==> items[i].producto in ps
    requires p in ps
    ensures DevolverStock(DescontarStock(ps, items), Instantanea(ps, items))[p] == ps[p]
  {
    var n := Carritos.CantidadDe(items, p);
    var ps1 := DescontarStock(ps, items);
    assert ps1[p] == ps[p].(stock := ps[p].stock - n);
    InstantaneaCantidades(ps, items, p);
    assert DevolverStock(ps1, Instantanea(ps, items))[p] == ps1[p].(stock := ps1[p].stock + n);
  }

  /** Placing an order and cancelling it straight away gives every product
      back exactly the stock it had, and leaves the order cancelled. */
  lemma CrearYCancelarRestauraStock(s: Store, caller: Principal, metodoPago: Option<string>,
                                    direccionEnvio: Option<Direccion>, notas: Option<string>)
    requires CrearPedido(s, caller, metodoPago, direccionEnvio, notas).Ok?
    ensures
      var r := CrearPedido(s, caller, metodoPago, direccionEnvio, notas);
      var c := CancelarPedido(r.value.0, caller, r.value.1);
      && c.Ok?
      && c.value.productos == s.productos
      && c.value.pedidos[r.value.1].estado == Pedidos.Cancelado
  {
    CrearPedidoAceptaSii(s, caller, metodoPago, direccionEnvio, notas);
    PedirYCancelar(s, caller, Pedidos.ParseMetodoPago(metodoPago.value).value, direccionEnvio, notas);
  }

  lemma PedirYCancelar(s: Store, caller: Principal, metodo: Pedidos.MetodoPago,
                       direccionEnvio: Option<Direccion>, notas: Option<string>)
    requires caller.id in s.carritos
    requires forall i :: 0 <= i < |s.carritos[caller.id].items| ==>
      s.carritos[caller.id].items[i].producto in s.productos
    ensures
      var r := Pedir(s, caller, metodo, direccionEnvio, notas);
      var c := CancelarPedido(r.0, caller, r.1);
      && c.Ok?
      && c.value.productos == s.productos
      && c.value.pedidos[r.1].estado == Pedidos.Cancelado
  {
    var r := Pedir(s, caller, metodo, direccionEnvio, notas);
    var o := r.0.pedidos[r.1];
    assert o.usuario == caller.id && Pedidos.Cancelable(o.estado);
    DescontarYDevolver(s.productos, s.carritos[caller.id].items);
  }

  const MsgEstadoInvalido: string := "Estado inválido. Estados válidos: " + Join(Pedidos.EstadosValidos, ", ")

  /** `actualizarEstadoPedido`: any of the five states is accepted from any
      other, with no transition check; anything else is 400 before the order
      is looked up. */
  function ActualizarEstadoPedido(s: Store, oid: Id, estado: Option<string>): (r: Result<Store>)
    ensures estado.None? || !(estado.value in Pedidos.EstadosValidos) ==> r == Err(Respond(400, MsgEstadoInvalido))
    ensures estado.Some? && estado.value in Pedidos.EstadosValidos && oid !in s.pedidos
            ==> r == Err(Respond(404, MsgPedidoNoEncontrado))
    ensures r.Ok? <==> estado.Some? && estado.value in Pedidos.EstadosValidos && oid in s.pedidos
    ensures r.Ok? ==>
      && oid in r.value.pedidos
      && Pedidos.EstadoNombre(r.value.pedidos[oid].estado) == estado.value
      && r.value == s.(pedidos := s.pedidos[oid := s.pedidos[oid].(estado := r.value.pedidos[oid].estado)])
  {
    if estado.None? || estado.value == "" || Pedidos.ParseEstado(estado.value).None? then
      Err(Respond(400, MsgEstadoInvalido))
    else if oid !in s.pedidos then Err(Respond(404, MsgPedidoNoEncontrado))
    else Ok(s.(pedidos := s.pedidos[oid := s.pedidos[oid].(estado := Pedidos.ParseEstado(estado.value).value)]))
  }

  /** There is no adjacency check: an order in any state can be moved to any
      state, a delivered order back to pending included. */
  lemma EstadoSinTransiciones(s: Store, oid: Id, e: Pedidos.Estado)
    requires oid in s.pedidos
    ensures ActualizarEstadoPedido(s, oid, Some(Pedidos.EstadoNombre(e)))
            == Ok(s.(pedidos := s.pedidos[oid := s.pedidos[oid].(estado := e)]))
  {
    Pedidos.ParseEstadoNombre(e);
  }

  /** The worked example: two units at 10.00 and one at 5.00 make an order of
      25.00, and the two products lose 2 and 1 units. */
  lemma EjemploPedido(s: Store, caller: Principal, a: Id, b: Id)
    requires a != b && a in s.productos && b in s.productos
    requires s.productos[a].activo && s.productos[a].stock == 5
    requires s.productos[b].activo && s.productos[b].stock == 3
    requires caller.id in s.carritos
    requires s.carritos[caller.id].items == [Carritos.Item(a, 2, 1000), Carritos.Item(b, 1, 500)]
    ensures
      var r := CrearPedido(s, caller, Some("efectivo"), None, None);
      && r.Ok?
      && r.value.0.pedidos[r.value.1].total == 2500
      && r.value.0.productos[a].stock == 3
      && r.value.0.productos[b].stock == 2
      && r.value.0.carritos[caller.id].items == []
  {
    CrearPedidoAceptaSii(s, caller, Some("efectivo"), None, None);
    var items := s.carritos[caller.id].items;
    var resto := items[1..];
    assert resto == [Carritos.Item(b, 1, 500)] && resto[1..] == [];
    assert Disponible(s.productos, items[0]) && Disponible(s.productos, items[1]);
    assert Carritos.CalcularTotal(resto) == 500;
    assert Carritos.CalcularTotal(items) == 2500;
    assert Carritos.CantidadDe(resto, a) == 0 && Carritos.CantidadDe(resto, b) == 1;
    assert Carritos.CantidadDe(items, a) == 2 && Carritos.CantidadDe(items, b) == 1;
  }
}
