/** The review handlers: creating a review (one per user and product, the
    verified-purchase flag, the product's rating aggregate), updating and
    deleting it, the per-product star statistics, and the schema's
    aggregate recomputation. */
module ResenaController {
  import opened Common
  import Productos
  import Pedidos
  import Resenas
  import opened Tienda

  const MsgFaltanCampos: string := "Proporcione productoId/producto, calificación y comentario"
  const MsgProductoNoEncontrado: string := "Producto no encontrado"
  const MsgResenaDuplicada: string := "Ya has dejado una reseña para este producto"
  const MsgResenaNoEncontrada: string := "Reseña no encontrada"
  const MsgNoAutorizadoActualizar: string := "No autorizado para actualizar esta reseña"
  const MsgNoAutorizadoEliminar: string := "No autorizado para eliminar esta reseña"

  /** An order proves that user `u` bought product `p`: it is `u`'s, it was
      shipped or delivered, and one of its lines is for `p`. */
  predicate PruebaCompra(o: Pedidos.Pedido, u: Id, p: Id) {
    && o.usuario == u
    && (o.estado == Pedidos.Enviado || o.estado == Pedidos.Entregado)
    && Pedidos.IncluyeProducto(o, p)
  }

  /** Some stored order proves the purchase. */
  predicate CompraVerificada(s: Store, u: Id, p: Id) {
    exists o :: o in s.pedidos && PruebaCompra(s.pedidos[o], u, p)
  }

  /** The `$match`/`$unwind`/`$match`/`$limit: 1` pipeline over the orders
      listed in `ids`: true as soon as one of them proves the purchase. */
  function BuscarCompra(s: Store, ids: seq<Id>, u: Id, p: Id): (r: bool)
    ensures r <==> exists i :: 0 <= i < |ids| && ids[i] in s.pedidos && PruebaCompra(s.pedidos[ids[i]], u, p)
  {
    if ids == [] then false
    else if ids[0] in s.pedidos && PruebaCompra(s.pedidos[ids[0]], u, p) then true
    else
      assert forall i :: 0 < i < |ids| ==> ids[i] == ids[1..][i - 1];
      BuscarCompra(s, ids[1..], u, p)
  }

  /** The flag `crearResena` stores: the pipeline over the orders in id
      order. */
  function Verificado(s: Store, u: Id, p: Id): bool {
    BuscarCompra(s, KeysBelow(s.pedidos, s.nextId), u, p)
  }

  /** With every id below `nextId`, the scan sees every order, so the flag
      is exactly "some shipped or delivered order of the user includes the
      product". */
  lemma VerificadoSiiCompra(s: Store, u: Id, p: Id)
    requires IdsAcotados(s)
    ensures Verificado(s, u, p) <==> CompraVerificada(s, u, p)
  {
    var ids := KeysBelow(s.pedidos, s.nextId);
    if CompraVerificada(s, u, p) {
      var o :| o in s.pedidos && PruebaCompra(s.pedidos[o], u, p);
      assert o in ids;
      var i :| 0 <= i < |ids| && ids[i] == o;
      assert ids[i] in s.pedidos && PruebaCompra(s.pedidos[ids[i]], u, p);
    }
  }

  /** User `u` already reviewed product `p`. */
  predicate YaReseno(m: map<Id, Resenas.Resena>, u: Id, p: Id) {
    exists k :: k in m && m[k].usuario == u && m[k].producto == p
  }

  /** `findByIdAndUpdate(p, { $set: { numeroResenas, calificacionPromedio } })`;
      an id that matches no product changes nothing. */
  function FijarAgregado(ps: map<Id, Productos.Producto>, p: Id, numero: int, promedio: real)
    : (r: map<Id, Productos.Producto>)
    ensures r.Keys == ps.Keys
    ensures p in ps ==> r[p] == ps[p].(numeroResenas := numero, calificacionPromedio := promedio)
    ensures forall q :: q in ps && q != p ==> r[q] == ps[q]
  {
    if p in ps then ps[p := ps[p].(numeroResenas := numero, calificacionPromedio := promedio)] else ps
  }

  /** The ratings of product `p` in the store, in id order. */
  function Calificaciones(s: Store, p: Id): seq<real> {
    Resenas.CalificacionesDe(s.resenas, s.nextId, p)
  }

  /** `req.body.productoId || req.body.producto`. */
  function ProductoPedido(productoId: Option<Id>, producto: Option<Id>): Option<Id> {
    if productoId.Some? then productoId else producto
  }

  /** The fields the create handler needs: `productoId || producto`, and a
      rating and comment that are present and truthy. */
  predicate CamposPresentes(productoId: Option<Id>, producto: Option<Id>, calificacion: Option<real>, comentario: Option<string>) {
    && ProductoPedido(productoId, producto).Some?
    && calificacion.Some? && calificacion.value != 0.0
    && comentario.Some? && comentario.value != ""
  }

  /** `crearResena`: the fields must be present (400), the product must exist
      (404, active or not), the caller must not have reviewed it (400); the
      review is written through the schema with the verified flag, then the
      product's count and raw mean are recomputed from its reviews. The
      answer is the new store and the review's id. */
  function CrearResena(s: Store, caller: Principal, productoId: Option<Id>, producto: Option<Id>,
                       calificacion: Option<real>, comentario: Option<string>)
    : (r: Result<(Store, Id)>)
    ensures !CamposPresentes(productoId, producto, calificacion, comentario) ==> r == Err(Respond(400, MsgFaltanCampos))
    ensures CamposPresentes(productoId, producto, calificacion, comentario) ==>
      var p := ProductoPedido(productoId, producto).value;
      && (p !in s.productos ==> r == Err(Respond(404, MsgProductoNoEncontrado)))
      && (p in s.productos && YaReseno(s.resenas, caller.id, p) ==> r == Err(Respond(400, MsgResenaDuplicada)))
      && (r.Ok? <==>
            p in s.productos && !YaReseno(s.resenas, caller.id, p)
            && Resenas.Errores(calificacion.value, Trim(comentario.value)) == [])
    ensures r.Ok? ==>
      var (s', nid) := r.value;
      var p := ProductoPedido(productoId, producto).value;
      && nid == s.nextId && s'.nextId == s.nextId + 1
      && s'.resenas == s.resenas[nid := Resenas.Resena(caller.id, p, calificacion.value, Trim(comentario.value),
                                                        Verificado(s, caller.id, p))]
      && (IdsAcotados(s) ==> (s'.resenas[nid].verificado <==> CompraVerificada(s, caller.id, p)))
    ensures r.Ok? ==>
      var (s', nid) := r.value;
      var p := ProductoPedido(productoId, producto).value;
      && s'.productos.Keys == s.productos.Keys
      && s'.productos[p] == s.productos[p].(numeroResenas := |Calificaciones(s', p)|,
                                            calificacionPromedio := Resenas.Promedio(Calificaciones(s', p)))
      && (forall q :: q in s.productos && q != p ==> s'.productos[q] == s.productos[q])
      && s'.usuarios == s.usuarios && s'.categorias == s.categorias
      && s'.carritos == s.carritos && s'.pedidos == s.pedidos
  {
    if !CamposPresentes(productoId, producto, calificacion, comentario) then Err(Respond(400, MsgFaltanCampos))
    else
      var p := ProductoPedido(productoId, producto).value;
      if p !in s.productos then Err(Respond(404, MsgProductoNoEncontrado))
      else if YaReseno(s.resenas, caller.id, p) then Err(Respond(400, MsgResenaDuplicada))
      else
        var verificado := Verificado(s, caller.id, p);
        assert IdsAcotados(s) ==> (verificado <==> CompraVerificada(s, caller.id, p)) by {
          if IdsAcotados(s) {
            VerificadoSiiCompra(s, caller.id, p);
          }
        }
        match Resenas.Escribir(caller.id, p, calificacion.value, comentario.value, verificado)
        case Err(f) => Err(f)
        case Ok(resena) =>
          var nid := s.nextId;
          var s1 := s.(resenas := s.resenas[nid := resena], nextId := nid + 1);
          var cs := Calificaciones(s1, p);
          Ok((s1.(productos := FijarAgregado(s.productos, p, |cs|, Resenas.Promedio(cs))), nid))
  }

  /** Creating a review keeps ids bounded, reviews unique and valid, and
      leaves the product with a count equal to its number of reviews (at
      least the new one) and a mean between 1 and 5. */
  lemma CrearResenaInvariantes(s: Store, caller: Principal, productoId: Option<Id>, producto: Option<Id>,
                               calificacion: Option<real>, comentario: Option<string>)
    requires IdsAcotados(s) && Resenas.Unicas(s.resenas) && ResenasValidas(s)
    requires CrearResena(s, caller, productoId, producto, calificacion, comentario).Ok?
    ensures
      var (s', nid) := CrearResena(s, caller, productoId, producto, calificacion, comentario).value;
      var p := s'.resenas[nid].producto;
      && IdsAcotados(s') && Resenas.Unicas(s'.resenas) && ResenasValidas(s')
      && s'.productos[p].numeroResenas == |Resenas.DeProducto(s'.resenas, p)| >= 1
      && 1.0 <= s'.productos[p].calificacionPromedio <= 5.0
  {
    var r := CrearResena(s, caller, productoId, producto, calificacion, comentario);
    var s' := r.value.0;
    var nid := r.value.1;
    var p := ProductoPedido(productoId, producto).value;
    var nueva := s'.resenas[nid];
    assert s'.resenas == s.resenas[nid := nueva];
    assert nueva.producto == p && nueva.usuario == caller.id && Resenas.Valida(nueva);
    assert !YaReseno(s.resenas, caller.id, p);
    assert s'.productos.Keys == s.productos.Keys;
    InsertarResena(s, s', nid, nueva);
    AgregadoTrasInsertar(s', p, nid);
  }

  /** Writing one valid review under the fresh id, for a pair nobody has
      reviewed yet, keeps ids bounded and reviews unique and valid. */
  lemma InsertarResena(s: Store, s': Store, nid: Id, nueva: Resenas.Resena)
    requires IdsAcotados(s) && Resenas.Unicas(s.resenas) && ResenasValidas(s)
    requires nid == s.nextId && s'.nextId == s.nextId + 1
    requires s'.resenas == s.resenas[nid := nueva] && Resenas.Valida(nueva)
    requires !YaReseno(s.resenas, nueva.usuario, nueva.producto)
    requires s'.productos.Keys == s.productos.Keys
    requires s'.usuarios == s.usuarios && s'.categorias == s.categorias
    requires s'.carritos == s.carritos && s'.pedidos == s.pedidos
    ensures IdsAcotados(s') && Resenas.Unicas(s'.resenas) && ResenasValidas(s')
  {
    Resenas.InsertarUnica(s.resenas, nid, nueva);
  }

  /** With ids bounded and reviews valid, a product that has the review
      `nid` is rated by all its reviews, and their mean is between 1 and 5. */
  lemma AgregadoTrasInsertar(s: Store, p: Id, nid: Id)
    requires IdsAcotados(s) && ResenasValidas(s)
    requires nid in s.resenas && s.resenas[nid].producto == p
    ensures |Calificaciones(s, p)| == |Resenas.DeProducto(s.resenas, p)| >= 1
    ensures 1.0 <= Resenas.Promedio(Calificaciones(s, p)) <= 5.0
  {
    Resenas.CalificacionesDeCuentaTodas(s.resenas, s.nextId, p);
    assert nid in Resenas.DeProducto(s.resenas, p);
    Resenas.PromedioEntreLimites(Calificaciones(s, p));
  }

  /** `actualizarResena`: the review must exist (404) and belong to the
      caller, administrators included (403); an omitted rating or comment
      keeps its old value; the result goes through the validators. The
      product's aggregate fields are not touched. */
  function ActualizarResena(s: Store, caller: Principal, rid: Id, calificacion: Option<real>, comentario: Option<string>)
    : (r: Result<Store>)
    ensures rid !in s.resenas ==> r == Err(Respond(404, MsgResenaNoEncontrada))
    ensures rid in s.resenas && s.resenas[rid].usuario != caller.id ==> r == Err(Respond(403, MsgNoAutorizadoActualizar))
    ensures r.Ok? <==>
      && rid in s.resenas && s.resenas[rid].usuario == caller.id
      && Resenas.Errores(Or(calificacion, s.resenas[rid].calificacion),
                         Trim(Or(comentario, s.resenas[rid].comentario))) == []
    ensures r.Ok? ==> rid in r.value.resenas
    ensures r.Ok? ==>
      var antes := s.resenas[rid];
      var despues := r.value.resenas[rid];
      && r.value == s.(resenas := s.resenas[rid := despues])
      && despues.usuario == antes.usuario && despues.producto == antes.producto
      && despues.verificado == antes.verificado
      && (calificacion.None? ==> despues.calificacion == antes.calificacion)
      && (calificacion.Some? ==> despues.calificacion == calificacion.value)
      && (comentario.None? ==> despues.comentario == Trim(antes.comentario))
      && (comentario.Some? ==> despues.comentario == Trim(comentario.value))
      && Resenas.Valida(despues)
  {
    if rid !in s.resenas then Err(Respond(404, MsgResenaNoEncontrada))
    else
      var antes := s.resenas[rid];
      if antes.usuario != caller.id then Err(Respond(403, MsgNoAutorizadoActualizar))
      else
        match Resenas.Escribir(antes.usuario, antes.producto, Or(calificacion, antes.calificacion),
                               Or(comentario, antes.comentario), antes.verificado)
        case Err(f) => Err(f)
        case Ok(despues) => Ok(s.(resenas := s.resenas[rid := despues]))
  }

  /** Updating a review keeps the reviews unique and valid, and never changes
      any product. */
  lemma ActualizarResenaInvariantes(s: Store, caller: Principal, rid: Id, calificacion: Option<real>, comentario: Option<string>)
    requires Resenas.Unicas(s.resenas) && ResenasValidas(s)
    requires ActualizarResena(s, caller, rid, calificacion, comentario).Ok?
    ensures var s' := ActualizarResena(s, caller, rid, calificacion, comentario).value;
      Resenas.Unicas(s'.resenas) && ResenasValidas(s') && s'.productos == s.productos
  {
    var s' := ActualizarResena(s, caller, rid, calificacion, comentario).value;
    Resenas.ReemplazarUnica(s.resenas, rid, s'.resenas[rid]);
  }

  /** `eliminarResena`: the review must exist (404); its author or an
      administrator may delete it (403 otherwise). The product's aggregate
      is not recomputed. */
  function EliminarResena(s: Store, caller: Principal, rid: Id): (r: Result<Store>)
    ensures rid !in s.resenas ==> r == Err(Respond(404, MsgResenaNoEncontrada))
    ensures rid in s.resenas && !DuenoOAdmin(caller, s.resenas[rid].usuario)
            ==> r == Err(Respond(403, MsgNoAutorizadoEliminar))
    ensures r.Ok? <==> rid in s.resenas && DuenoOAdmin(caller, s.resenas[rid].usuario)
    ensures r.Ok? ==> rid !in r.value.resenas && r.value.resenas.Keys == s.resenas.Keys - {rid}
    ensures r.Ok? ==> forall k :: k in r.value.resenas ==> r.value.resenas[k] == s.resenas[k]
    ensures r.Ok? ==> r.value.productos == s.productos && r.value.pedidos == s.pedidos
                      && r.value.usuarios == s.usuarios && r.value.carritos == s.carritos
                      && r.value.categorias == s.categorias && r.value.nextId == s.nextId
  {
    if rid !in s.resenas then Err(Respond(404, MsgResenaNoEncontrada))
    else if !DuenoOAdmin(caller, s.resenas[rid].usuario) then Err(Respond(403, MsgNoAutorizadoEliminar))
    else Ok(s.(resenas := s.resenas - {rid}))
  }

  /** After a delete the author may review the product again. */
  lemma EliminarLiberaResena(s: Store, caller: Principal, rid: Id)
    requires Resenas.Unicas(s.resenas)
    requires EliminarResena(s, caller, rid).Ok?
    ensures var r := s.resenas[rid];
      !YaReseno(EliminarResena(s, caller, rid).value.resenas, r.usuario, r.producto)
  {
  }

  /** `calcularPromedioCalificacion`: with reviews, the product gets their
      count and their mean rounded to one decimal; with none, both fields
      are reset to 0. */
  function CalcularPromedioCalificacion(s: Store, p: Id): (r: Store)
    ensures r.productos.Keys == s.productos.Keys
    ensures p in s.productos && Calificaciones(s, p) != [] ==>
      r.productos[p] == s.productos[p].(numeroResenas := |Calificaciones(s, p)|,
                                        calificacionPromedio := Resenas.PromedioRedondeado(Calificaciones(s, p)))
    ensures p in s.productos && Calificaciones(s, p) == [] ==>
      r.productos[p] == s.productos[p].(numeroResenas := 0, calificacionPromedio := 0.0)
    ensures r == s.(productos := r.productos)
    ensures forall q :: q in s.productos && q != p ==> r.productos[q] == s.productos[q]
  {
    var cs := Calificaciones(s, p);
    if cs != [] then s.(productos := FijarAgregado(s.productos, p, |cs|, Resenas.PromedioRedondeado(cs)))
    else s.(productos := FijarAgregado(s.productos, p, 0, 0.0))
  }

  /** The recomputed aggregate counts every review of the product, and its
      rounded mean is between 1.0 and 5.0 and within five hundredths of the
      exact mean. */
  lemma PromedioCalificacionCorrecto(s: Store, p: Id)
    requires IdsAcotados(s) && ResenasValidas(s) && p in s.productos
    ensures var r := CalcularPromedioCalificacion(s, p);
      && r.productos[p].numeroResenas == |Resenas.DeProducto(s.resenas, p)|
      && (Resenas.DeProducto(s.resenas, p) != {} ==>
            && 1.0 <= r.productos[p].calificacionPromedio <= 5.0
            && -0.05 < r.productos[p].calificacionPromedio - Resenas.Promedio(Calificaciones(s, p)) <= 0.05)
  {
    var cs := Calificaciones(s, p);
    Resenas.CalificacionesDeCuentaTodas(s.resenas, s.nextId, p);
    if cs != [] {
      Resenas.DecimasEntreLimites(cs);
      Resenas.RedondeoCercano(cs);
    }
  }

  /** The statistics of `obtenerResenasPorProducto`: mean, count and one
      count per whole number of stars over the product's reviews; a
      fractional rating is in the count and in no star counter. All zeros
      when the product has no reviews. */
  function EstadisticasResenas(s: Store, p: Id): (e: Resenas.Estadisticas)
    ensures e.totalResenas == |Calificaciones(s, p)|
    ensures e.cinco == |Resenas.ConEstrellas(s.resenas, s.nextId, p, 5.0)|
    ensures e.cuatro == |Resenas.ConEstrellas(s.resenas, s.nextId, p, 4.0)|
    ensures e.tres == |Resenas.ConEstrellas(s.resenas, s.nextId, p, 3.0)|
    ensures e.dos == |Resenas.ConEstrellas(s.resenas, s.nextId, p, 2.0)|
    ensures e.uno == |Resenas.ConEstrellas(s.resenas, s.nextId, p, 1.0)|
    ensures ResenasValidas(s) ==>
      e.uno + e.dos + e.tres + e.cuatro + e.cinco + Resenas.Fraccionarias(Calificaciones(s, p)) == e.totalResenas
    ensures ResenasValidas(s) ==>
      (e.uno + e.dos + e.tres + e.cuatro + e.cinco == e.totalResenas
       <==> forall i :: 0 <= i < |Calificaciones(s, p)| ==> Resenas.Entera(Calificaciones(s, p)[i]))
    ensures Calificaciones(s, p) == [] ==> e == Resenas.Estadisticas(0.0, 0, 0, 0, 0, 0, 0)
  {
    var cs := Calificaciones(s, p);
    Resenas.ContarEstrellas(s.resenas, s.nextId, p, 5.0);
    Resenas.ContarEstrellas(s.resenas, s.nextId, p, 4.0);
    Resenas.ContarEstrellas(s.resenas, s.nextId, p, 3.0);
    Resenas.ContarEstrellas(s.resenas, s.nextId, p, 2.0);
    Resenas.ContarEstrellas(s.resenas, s.nextId, p, 1.0);
    var e := Resenas.EstadisticasDe(cs);
    assert ResenasValidas(s) ==>
      && e.uno + e.dos + e.tres + e.cuatro + e.cinco + Resenas.Fraccionarias(cs) == e.totalResenas
      && (e.uno + e.dos + e.tres + e.cuatro + e.cinco == e.totalResenas
          <==> forall i :: 0 <= i < |cs| ==> Resenas.Entera(cs[i]))
    by {
      if ResenasValidas(s) {
        Resenas.EstrellasSumanTotal(cs);
        Resenas.EstrellasCompletasSiiEnteras(cs);
      }
    }
    e
  }
}
