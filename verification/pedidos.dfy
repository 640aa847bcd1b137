/** The `Pedido` schema: frozen order lines, the total, the status and
    payment-method enumerations, and the validators `Pedido.create` runs. */
module Pedidos {
  import opened Common
  import opened Usuarios

  datatype Estado = Pendiente | Procesando | Enviado | Entregado | Cancelado

  const EstadosValidos: seq<string> := ["pendiente", "procesando", "enviado", "entregado", "cancelado"]

  function EstadoNombre(e: Estado): string {
    match e
    case Pendiente => "pendiente"
    case Procesando => "procesando"
    case Enviado => "enviado"
    case Entregado => "entregado"
    case Cancelado => "cancelado"
  }

  /** Membership in the `estado` enumeration. */
  function ParseEstado(s: string): (r: Option<Estado>)
    ensures r.Some? <==> s in EstadosValidos
    ensures r.Some? ==> EstadoNombre(r.value) == s
  {
    if s == "pendiente" then Some(Pendiente)
    else if s == "procesando" then Some(Procesando)
    else if s == "enviado" then Some(Enviado)
    else if s == "entregado" then Some(Entregado)
    else if s == "cancelado" then Some(Cancelado)
    else None
  }

  lemma ParseEstadoNombre(e: Estado)
    ensures ParseEstado(EstadoNombre(e)) == Some(e)
  {
  }

  /** The states from which an order may still be cancelled. */
  predicate Cancelable(e: Estado) {
    e == Pendiente || e == Procesando
  }

  datatype MetodoPago = Efectivo | Tarjeta | Transferencia | MercadoPago

  const MetodosValidos: seq<string> := ["efectivo", "tarjeta", "transferencia", "mercadopago"]

  function MetodoNombre(m: MetodoPago): string {
    match m
    case Efectivo => "efectivo"
    case Tarjeta => "tarjeta"
    case Transferencia => "transferencia"
    case MercadoPago => "mercadopago"
  }

  /** Membership in the `metodoPago` enumeration. */
  function ParseMetodoPago(s: string): (r: Option<MetodoPago>)
    ensures r.Some? <==> s in MetodosValidos
    ensures r.Some? ==> MetodoNombre(r.value) == s
  {
    if s == "efectivo" then Some(Efectivo)
    else if s == "tarjeta" then Some(Tarjeta)
    else if s == "transferencia" then Some(Transferencia)
    else if s == "mercadopago" then Some(MercadoPago)
    else None
  }

  lemma ParseMetodoPagoNombre(m: MetodoPago)
    ensures ParseMetodoPago(MetodoNombre(m)) == Some(m)
  {
  }

  /** An order line: product reference, the product's name copied at order
      time, quantity, unit price and subtotal. */
  datatype Item = Item(producto: Id, nombre: string, cantidad: int, precio: int, subtotal: int)

  datatype Pedido = Pedido(
    usuario: Id,
    items: seq<Item>,
    total: int,
    estado: Estado,
    metodoPago: MetodoPago,
    direccionEnvio: Direccion,
    notas: Option<string>)

  /** The `min: 1` messages of the lines whose quantity is below 1. */
  function ErroresItems(items: seq<Item>): (msgs: seq<string>)
    ensures msgs == [] <==> forall i :: 0 <= i < |items| ==> items[i].cantidad >= 1
  {
    if items == [] then []
    else
      var head :=
        if items[0].cantidad < 1
        then ["Path `cantidad` (" + IntToString(items[0].cantidad) + ") is less than minimum allowed value (1)."]
        else [];
      var rest := ErroresItems(items[1..]);
      assert (forall i :: 0 <= i < |items| ==> items[i].cantidad >= 1)
        <==> items[0].cantidad >= 1 && (forall i :: 0 <= i < |items[1..]| ==> items[1..][i].cantidad >= 1) by {
        assert forall i :: 0 <= i < |items[1..]| ==> items[1..][i] == items[i + 1];
      }
      head + rest
  }

  /** The validator messages `Pedido.create` raises for the given lines,
      total and payment method string: line quantities at least 1, a total
      of at least 0, and a payment method from the enumeration. */
  function Errores(items: seq<Item>, total: int, metodoPago: string): (msgs: seq<string>)
    ensures msgs == [] <==>
      && (forall i :: 0 <= i < |items| ==> items[i].cantidad >= 1)
      && total >= 0
      && ParseMetodoPago(metodoPago).Some?
  {
    var lineas := ErroresItems(items);
    var tot :=
      if total < 0 then ["Path `total` (" + IntToString(total) + ") is less than minimum allowed value (0)."]
      else [];
    var metodo :=
      if metodoPago == "" then ["El método de pago es obligatorio"]
      else if ParseMetodoPago(metodoPago).None?
      then ["`" + metodoPago + "` is not a valid enum value for path `metodoPago`."]
      else [];
    assert |lineas + tot + metodo| == |lineas| + |tot| + |metodo|;
    lineas + tot + metodo
  }

  /** The subtotals of an order's lines add up to its total. */
  function SumaSubtotales(items: seq<Item>): int {
    if items == [] then 0 else items[0].subtotal + SumaSubtotales(items[1..])
  }

  /** Total quantity an order's lines hold of product `p`. */
  function CantidadDe(items: seq<Item>, p: Id): int {
    if items == [] then 0
    else (if items[0].producto == p then items[0].cantidad else 0) + CantidadDe(items[1..], p)
  }

  /** Some line of the order is for product `p`. */
  predicate IncluyeProducto(o: Pedido, p: Id) {
    exists i :: 0 <= i < |o.items| && o.items[i].producto == p
  }
}
