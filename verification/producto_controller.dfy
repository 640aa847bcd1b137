/** The product handlers: creation through the schema, the stock patch with
    its three operations, the soft delete, the price/brand filter and the
    most-reviewed listing. */
module ProductoController {
  import opened Common
  import opened Tienda
  import Productos
  import opened Consultas

  const MsgProductoNoEncontrado: string := "Producto no encontrado"
  const MsgFaltanDatosStock: string := "Proporcione stock y operación (incrementar/decrementar/establecer)"
  const MsgOperacionInvalida: string := "Operación inválida. Use: incrementar, decrementar o establecer"
  const MsgStockNegativo: string := "El stock no puede ser negativo"

  /** The size of the most-reviewed listing. */
  const LimiteTop: nat := 10

  /** `crearProducto`: the body goes through `Producto.create`; a body the
      schema rejects is handed to the error middleware. */
  function CrearProducto(s: Store, body: Productos.ProductoInput): (r: Result<(Store, Id)>)
    ensures r.Err? <==> Productos.Errores(body) != []
    ensures r.Err? ==> r.failure == Thrown(ValidationError(Productos.Errores(body)))
    ensures r.Ok? ==> r.value.1 in r.value.0.productos
    ensures r.Ok? ==>
      var (s', pid) := r.value;
      && pid == s.nextId && s'.nextId == s.nextId + 1
      && Productos.Valido(s'.productos[pid])
      && s'.productos[pid].precio == body.precio.value
      && s'.productos[pid].categoria == body.categoria.value
      && s'.productos[pid].activo == Or(body.activo, true)
      && s'.productos[pid].stock == Or(body.stock, 0)
      && s' == s.(productos := s.productos[pid := s'.productos[pid]], nextId := s'.nextId)
  {
    match Productos.Crear(body)
    case Err(e) => Err(e)
    case Ok(p) =>
      var pid := s.nextId;
      Ok((s.(productos := s.productos[pid := p], nextId := pid + 1), pid))
  }

  /** Creating a product never makes a stock negative. */
  lemma CrearProductoConservaStock(s: Store, body: Productos.ProductoInput)
    requires StockNoNegativo(s)
    requires CrearProducto(s, body).Ok?
    ensures StockNoNegativo(CrearProducto(s, body).value.0)
  {
  }

  // ---------------------------------------------------------------------
  // The stock patch

  datatype Operacion = Incrementar | Decrementar | Establecer

  function OperacionNombre(op: Operacion): string {
    match op
    case Incrementar => "incrementar"
    case Decrementar => "decrementar"
    case Establecer => "establecer"
  }

  /** The `switch` on `operacion`: only the three exact names are known. */
  function ParseOperacion(s: string): (r: Option<Operacion>)
    ensures r.Some? <==> s in {"incrementar", "decrementar", "establecer"}
    ensures r.Some? ==> OperacionNombre(r.value) == s
  {
    if s == "incrementar" then Some(Incrementar)
    else if s == "decrementar" then Some(Decrementar)
    else if s == "establecer" then Some(Establecer)
    else None
  }

  lemma ParseOperacionNombre(op: Operacion)
    ensures ParseOperacion(OperacionNombre(op)) == Some(op)
  {
  }

  /** The stock the update leaves: `$inc` by `n` or by `-n`, or `$set` to `n`. */
  function NuevoStock(actual: int, op: Operacion, n: int): int {
    match op
    case Incrementar => actual + n
    case Decrementar => actual - n
    case Establecer => n
  }

  /** The request carries both fields, truthy: a missing stock, a stock of
      0 and a missing or empty operation all fail the first guard. */
  predicate DatosStockPresentes(stock: Option<int>, operacion: Option<string>) {
    stock.Some? && stock.value != 0 && operacion.Some? && operacion.value != ""
  }

  /** `actualizarStock`. The update validators run before the document is
      looked up, and they see only the `$set` of `establecer`; `$inc` is not
      validated, so a decrement has no lower bound. */
  function ActualizarStock(s: Store, pid: Id, stock: Option<int>, operacion: Option<string>): (r: Result<Store>)
    ensures !DatosStockPresentes(stock, operacion) ==> r == Err(Respond(400, MsgFaltanDatosStock))
    ensures DatosStockPresentes(stock, operacion) && ParseOperacion(operacion.value).None?
            ==> r == Err(Respond(400, MsgOperacionInvalida))
    ensures DatosStockPresentes(stock, operacion) && operacion.value == "establecer" && stock.value < 0
            ==> r == Err(Thrown(ValidationError([MsgStockNegativo])))
    ensures DatosStockPresentes(stock, operacion) && ParseOperacion(operacion.value).Some?
            && !(operacion.value == "establecer" && stock.value < 0) && pid !in s.productos
            ==> r == Err(Respond(404, MsgProductoNoEncontrado))
    ensures r.Ok? <==>
      && DatosStockPresentes(stock, operacion)
      && ParseOperacion(operacion.value).Some?
      && !(operacion.value == "establecer" && stock.value < 0)
      && pid in s.productos
    ensures r.Ok? ==> pid in r.value.productos
    ensures r.Ok? ==>
      var antes := s.productos[pid].stock;
      var despues := r.value.productos[pid].stock;
      && (operacion.value == "incrementar" ==> despues == antes + stock.value)
      && (operacion.value == "decrementar" ==> despues == antes - stock.value)
      && (operacion.value == "establecer" ==> despues == stock.value)
    ensures r.Ok? ==>
      r.value == s.(productos := s.productos[pid := s.productos[pid].(stock := r.value.productos[pid].stock)])
  {
    if !DatosStockPresentes(stock, operacion) then Err(Respond(400, MsgFaltanDatosStock))
    else match ParseOperacion(operacion.value)
      case None => Err(Respond(400, MsgOperacionInvalida))
      case Some(op) =>
        var n := stock.value;
        if op == Establecer && n < 0 then Err(Thrown(ValidationError([MsgStockNegativo])))
        else if pid !in s.productos then Err(Respond(404, MsgProductoNoEncontrado))
        else
          var p := s.productos[pid];
          Ok(s.(productos := s.productos[pid := p.(stock := NuevoStock(p.stock, op, n))]))
  }

  /** Decrementing by what was just incremented gives the store back. */
  lemma IncrementarDecrementarRestaura(s: Store, pid: Id, n: int)
    requires ActualizarStock(s, pid, Some(n), Some("incrementar")).Ok?
    ensures ActualizarStock(ActualizarStock(s, pid, Some(n), Some("incrementar")).value, pid, Some(n), Some("decrementar"))
            == Ok(s)
  {
    var s1 := ActualizarStock(s, pid, Some(n), Some("incrementar")).value;
    var s2 := ActualizarStock(s1, pid, Some(n), Some("decrementar")).value;
    assert s2.productos == s.productos;
  }

  /** Setting the stock twice to the same value is the same as once. */
  lemma EstablecerIdempotente(s: Store, pid: Id, n: int)
    requires ActualizarStock(s, pid, Some(n), Some("establecer")).Ok?
    ensures var s1 := ActualizarStock(s, pid, Some(n), Some("establecer")).value;
            ActualizarStock(s1, pid, Some(n), Some("establecer")) == Ok(s1)
  {
    var s1 := ActualizarStock(s, pid, Some(n), Some("establecer")).value;
    assert s1.productos[pid := s1.productos[pid]] == s1.productos;
  }

  /** `establecer` and a positive `incrementar` keep every stock at zero or
      above. */
  lemma ActualizarStockConservaNoNegativo(s: Store, pid: Id, n: int, operacion: string)
    requires StockNoNegativo(s)
    requires operacion == "establecer" || (operacion == "incrementar" && n > 0)
    requires ActualizarStock(s, pid, Some(n), Some(operacion)).Ok?
    ensures StockNoNegativo(ActualizarStock(s, pid, Some(n), Some(operacion)).value)
  {
  }

  /** No lower bound on `decrementar`: taking more than the stock holds is
      accepted and leaves it negative, after which the soft delete of that
      product fails the stock validator on `save()`. */
  lemma DecrementarBajoCero(s: Store, pid: Id, n: int)
    requires pid in s.productos && n > s.productos[pid].stock && n != 0
    ensures ActualizarStock(s, pid, Some(n), Some("decrementar")).Ok?
    ensures var s1 := ActualizarStock(s, pid, Some(n), Some("decrementar")).value;
            && s1.productos[pid].stock < 0
            && EliminarProducto(s1, pid).Err?
            && EliminarProducto(s1, pid).failure.Thrown?
            && MsgStockNegativo in EliminarProducto(s1, pid).failure.err.messages
  {
  }

  // ---------------------------------------------------------------------
  // Soft delete

  /** `eliminarProducto`: the product is loaded (404 when absent), marked
      inactive and saved; `save()` validates every loaded path. */
  function EliminarProducto(s: Store, pid: Id): (r: Result<Store>)
    ensures pid !in s.productos ==> r == Err(Respond(404, MsgProductoNoEncontrado))
    ensures pid in s.productos && Productos.ErroresGuardado(s.productos[pid]) != []
            ==> r == Err(Thrown(ValidationError(Productos.ErroresGuardado(s.productos[pid]))))
    ensures r.Ok? <==> pid in s.productos && Productos.ErroresGuardado(s.productos[pid]) == []
    ensures r.Ok? ==> pid in r.value.productos && !r.value.productos[pid].activo
    ensures r.Ok? ==>
      r.value == s.(productos := s.productos[pid := s.productos[pid].(activo := false)])
  {
    if pid !in s.productos then Err(Respond(404, MsgProductoNoEncontrado))
    else
      var p := s.productos[pid].(activo := false);
      var msgs := Productos.ErroresGuardado(p);
      if msgs != [] then Err(Thrown(ValidationError(msgs)))
      else Ok(s.(productos := s.productos[pid := p]))
  }

  /** Deleting twice is deleting once: the record stays, inactive. */
  lemma EliminarIdempotente(s: Store, pid: Id)
    requires EliminarProducto(s, pid).Ok?
    ensures EliminarProducto(EliminarProducto(s, pid).value, pid) == EliminarProducto(s, pid)
  {
    var s1 := EliminarProducto(s, pid).value;
    assert s1.productos[pid := s1.productos[pid].(activo := false)] == s1.productos;
  }

  // ---------------------------------------------------------------------
  // Listings

  /** The filter `filtrarProductos` builds: active, and each condition whose
      query parameter is present; an empty brand adds no condition. Casting
      the `$eq` value through the `marca` path applies its `trim` setter. */
  predicate Coincide(p: Productos.Producto, precioMin: Option<int>, precioMax: Option<int>, marca: Option<string>) {
    && p.activo
    && (precioMin.Some? ==> p.precio >= precioMin.value)
    && (precioMax.Some? ==> p.precio <= precioMax.value)
    && CoincideMarca(p.marca, marca)
  }

  /** The brand condition: none for an absent or empty query value,
      otherwise equality with the trimmed query value. */
  predicate CoincideMarca(guardada: Option<string>, marca: Option<string>) {
    marca.Some? && marca.value != "" ==> guardada == Some(Trim(marca.value))
  }

  /** Padding around a non-blank brand in the query changes nothing: it
      selects the same products as the trimmed brand. */
  lemma MarcaRecortada(guardada: Option<string>, m: string)
    requires !IsBlank(m)
    ensures CoincideMarca(guardada, Some(m)) <==> CoincideMarca(guardada, Some(Trim(m)))
  {
    TrimIdempotent(m);
  }

  function ClavePrecio(p: Productos.Producto): Llave {
    Llave(p.precio, 0.0)
  }

  /** `filtrarProductos`: the matching products, cheapest first. */
  function FiltrarProductos(s: Store, precioMin: Option<int>, precioMax: Option<int>, marca: Option<string>)
    : (r: seq<Fila>)
    ensures forall i :: 0 <= i < |r| ==>
      r[i].0 in s.productos && r[i].1 == s.productos[r[i].0] && Coincide(r[i].1, precioMin, precioMax, marca)
    ensures IdsAcotados(s) ==>
      forall p :: p in s.productos && Coincide(s.productos[p], precioMin, precioMax, marca) ==>
        (p, s.productos[p]) in r
    ensures forall i, j :: 0 <= i < j < |r| ==> r[i].1.precio <= r[j].1.precio
    ensures IdsDistintos(r)
    ensures marca.Some? && marca.value != "" ==>
      forall i :: 0 <= i < |r| ==> r[i].1.marca == Some(Trim(marca.value))
  {
    var ids := KeysBelow(s.productos, s.nextId);
    var r := Consulta(s.productos, ids, p => Coincide(p, precioMin, precioMax, marca), ClavePrecio);
    assert IdsAcotados(s) ==> forall p :: p in s.productos ==> p in ids;
    r
  }

  /** How `$sort: { numeroResenas: -1, calificacionPromedio: -1 }` ranks
      two products: more reviews first, then the higher average. */
  predicate AlMenosTanDestacado(a: Productos.Producto, b: Productos.Producto) {
    a.numeroResenas > b.numeroResenas
    || (a.numeroResenas == b.numeroResenas && a.calificacionPromedio >= b.calificacionPromedio)
  }

  predicate Resenado(p: Productos.Producto) {
    p.activo && p.numeroResenas > 0
  }

  function ClaveTop(p: Productos.Producto): Llave {
    Llave(-p.numeroResenas, -p.calificacionPromedio)
  }

  /** `productosTopResenas`: the active reviewed products, best ranked
      first, at most ten. A reviewed product left out is ranked no higher
      than any of the ten listed. */
  function ProductosTopResenas(s: Store): (r: seq<Fila>)
    ensures |r| <= LimiteTop
    ensures forall i :: 0 <= i < |r| ==>
      r[i].0 in s.productos && r[i].1 == s.productos[r[i].0] && Resenado(r[i].1)
    ensures forall i, j :: 0 <= i < j < |r| ==> AlMenosTanDestacado(r[i].1, r[j].1)
    ensures IdsDistintos(r)
    ensures IdsAcotados(s) ==>
      forall p :: p in s.productos && Resenado(s.productos[p]) && (p, s.productos[p]) !in r ==>
        |r| == LimiteTop && forall i :: 0 <= i < |r| ==> AlMenosTanDestacado(r[i].1, s.productos[p])
  {
    var ids := KeysBelow(s.productos, s.nextId);
    var orden := Consulta(s.productos, ids, Resenado, ClaveTop);
    var r := Limitar(orden, LimiteTop);
    LimitarOrdenado(orden, LimiteTop, ClaveTop);
    RangoTop(orden);
    assert IdsAcotados(s) ==> forall p :: p in s.productos ==> p in ids;
    r
  }

  /** What the ten kept rows of the ranking promise: they are in rank order,
      and any row cut off ranks no higher than each of them. */
  lemma RangoTop(orden: seq<Fila>)
    requires Ordenado(orden, ClaveTop)
    ensures var r := Limitar(orden, LimiteTop);
            forall i, j :: 0 <= i < j < |r| ==> AlMenosTanDestacado(r[i].1, r[j].1)
    ensures var r := Limitar(orden, LimiteTop);
            forall e :: e in orden && e !in r ==>
              |r| == LimiteTop && forall i :: 0 <= i < |r| ==> AlMenosTanDestacado(r[i].1, e.1)
  {
    var r := Limitar(orden, LimiteTop);
    forall e | e in orden && e !in r
      ensures |r| == LimiteTop && forall i :: 0 <= i < |r| ==> AlMenosTanDestacado(r[i].1, e.1)
    {
      LimitarConservaLosPrimeros(orden, LimiteTop, ClaveTop, e);
    }
  }

  /** A deleted product is no longer listed by either listing. */
  lemma EliminadoNoSeLista(s: Store, pid: Id, precioMin: Option<int>, precioMax: Option<int>, marca: Option<string>)
    requires EliminarProducto(s, pid).Ok?
    ensures var s1 := EliminarProducto(s, pid).value;
            && (forall i :: 0 <= i < |FiltrarProductos(s1, precioMin, precioMax, marca)| ==>
                  FiltrarProductos(s1, precioMin, precioMax, marca)[i].0 != pid)
            && (forall i :: 0 <= i < |ProductosTopResenas(s1)| ==> ProductosTopResenas(s1)[i].0 != pid)
  {
  }

  /** A new active product matches the unfiltered listing right away. */
  lemma CreadoSeLista(s: Store, body: Productos.ProductoInput)
    requires IdsAcotados(s)
    requires CrearProducto(s, body).Ok? && body.activo != Some(false)
    ensures var r := CrearProducto(s, body).value;
            (r.1, r.0.productos[r.1]) in FiltrarProductos(r.0, None, None, None)
  {
    var r := CrearProducto(s, body).value;
    assert IdsAcotados(r.0);
    assert Coincide(r.0.productos[r.1], None, None, None);
  }
}
