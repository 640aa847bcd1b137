/** The category handlers: create and update with name normalisation and
    the unique name, delete guarded by the active products that use the
    category, and the per-category product statistics. */
module CategoriaController {
  import opened Common
  import opened Tienda

  const MsgNombreObligatorio: string := "El nombre es obligatorio"
  const MsgNombreDuplicado: string := "El nombre ya existe en la base de datos"
  const MsgCategoriaNoEncontrada: string := "Categoría no encontrada"

  /** Some category other than `excepto` is called `nombre`. */
  predicate NombreEnUso(s: Store, nombre: string, excepto: Option<Id>) {
    exists c :: c in s.categorias && Some(c) != excepto && s.categorias[c].nombre == nombre
  }

  /** The unique index on the category name. */
  predicate NombresUnicos(s: Store) {
    forall a, b :: a in s.categorias && b in s.categorias && a != b ==>
      s.categorias[a].nombre != s.categorias[b].nombre
  }

  /** `crearCategoria`: a missing or blank name is 400; the name is trimmed;
      a name already in use is 400, whether the lookup or the unique index
      finds it; otherwise the category is created, active. */
  function CrearCategoria(s: Store, nombre: Option<string>, descripcion: Option<string>): (r: Result<(Store, Id)>)
    ensures nombre.None? || IsBlank(nombre.value) ==> r == Err(Respond(400, MsgNombreObligatorio))
    ensures nombre.Some? && !IsBlank(nombre.value) && NombreEnUso(s, Trim(nombre.value), None)
            ==> r == Err(Respond(400, MsgNombreDuplicado))
    ensures r.Ok? <==> nombre.Some? && !IsBlank(nombre.value) && !NombreEnUso(s, Trim(nombre.value), None)
    ensures r.Ok? ==>
      var (s', cid) := r.value;
      && cid == s.nextId && s'.nextId == s.nextId + 1
      && s'.categorias == s.categorias[cid := Categoria(Trim(nombre.value), descripcion, true)]
      && s'.categorias[cid].nombre != "" && Unpadded(s'.categorias[cid].nombre)
      && s' == s.(categorias := s'.categorias, nextId := s'.nextId)
  {
    if nombre.None? || IsBlank(nombre.value) then Err(Respond(400, MsgNombreObligatorio))
    else
      var n := Trim(nombre.value);
      if NombreEnUso(s, n, None) then Err(Respond(400, MsgNombreDuplicado))
      else
        var cid := s.nextId;
        Ok((s.(categorias := s.categorias[cid := Categoria(n, descripcion, true)], nextId := cid + 1), cid))
  }

  lemma CrearCategoriaNombresUnicos(s: Store, nombre: Option<string>, descripcion: Option<string>)
    requires NombresUnicos(s) && IdsAcotados(s)
    requires CrearCategoria(s, nombre, descripcion).Ok?
    ensures NombresUnicos(CrearCategoria(s, nombre, descripcion).value.0)
  {
  }

  /** The name an update stores: a truthy name is trimmed, anything else is
      kept as sent. */
  function NombreActualizado(nombre: string): (r: string)
    ensures nombre != "" ==> r == Trim(nombre)
    ensures nombre == "" ==> r == ""
    ensures Unpadded(r)
    ensures r == "" <==> IsBlank(nombre)
    ensures forall i :: 0 <= i < |r| ==> r[i] in nombre
  {
    if nombre != "" then Trim(nombre) else nombre
  }

  /** `actualizarCategoria`: the category must exist (404); the fields sent
      are set, the name trimmed first; a name another category has is 400
      through the unique index. */
  function ActualizarCategoria(s: Store, cid: Id, nombre: Option<string>, descripcion: Option<string>, activo: Option<bool>)
    : (r: Result<Store>)
    ensures cid !in s.categorias ==> r == Err(Respond(404, MsgCategoriaNoEncontrada))
    ensures cid in s.categorias && nombre.Some? && NombreEnUso(s, NombreActualizado(nombre.value), Some(cid))
            ==> r == Err(Respond(400, MsgNombreDuplicado))
    ensures r.Ok? <==>
      cid in s.categorias && !(nombre.Some? && NombreEnUso(s, NombreActualizado(nombre.value), Some(cid)))
    ensures r.Ok? ==> cid in r.value.categorias
    ensures r.Ok? ==>
      var antes := s.categorias[cid];
      var despues := r.value.categorias[cid];
      && r.value == s.(categorias := s.categorias[cid := despues])
      && despues.nombre == (if nombre.Some? then NombreActualizado(nombre.value) else antes.nombre)
      && despues.descripcion == (if descripcion.Some? then descripcion else antes.descripcion)
      && despues.activo == Or(activo, antes.activo)
  {
    if cid !in s.categorias then Err(Respond(404, MsgCategoriaNoEncontrada))
    else
      var antes := s.categorias[cid];
      var n := if nombre.Some? then NombreActualizado(nombre.value) else antes.nombre;
      if nombre.Some? && NombreEnUso(s, n, Some(cid)) then Err(Respond(400, MsgNombreDuplicado))
      else
        var despues := Categoria(n, if descripcion.Some? then descripcion else antes.descripcion, Or(activo, antes.activo));
        Ok(s.(categorias := s.categorias[cid := despues]))
  }

  lemma ActualizarCategoriaNombresUnicos(s: Store, cid: Id, nombre: Option<string>, descripcion: Option<string>, activo: Option<bool>)
    requires NombresUnicos(s)
    requires ActualizarCategoria(s, cid, nombre, descripcion, activo).Ok?
    ensures NombresUnicos(ActualizarCategoria(s, cid, nombre, descripcion, activo).value)
  {
    var s' := ActualizarCategoria(s, cid, nombre, descripcion, activo).value;
    forall a, b | a in s'.categorias && b in s'.categorias && a != b
      ensures s'.categorias[a].nombre != s'.categorias[b].nombre
    {
      if a == cid && nombre.Some? {
        assert !NombreEnUso(s, s'.categorias[cid].nombre, Some(cid));
      } else if b == cid && nombre.Some? {
        assert !NombreEnUso(s, s'.categorias[cid].nombre, Some(cid));
      }
    }
  }

  /** The active products filed under category `c`. */
  function ActivosDe(s: Store, c: Id): set<Id> {
    set p | p in s.productos && s.productos[p].categoria == c && s.productos[p].activo
  }

  /** `eliminarCategoria`: the category must exist (404); while any active
      product uses it the delete is 400 and names the count; otherwise the
      category is removed and nothing else changes. */
  function EliminarCategoria(s: Store, cid: Id): (r: Result<Store>)
    ensures cid !in s.categorias ==> r == Err(Respond(404, MsgCategoriaNoEncontrada))
    ensures cid in s.categorias && ActivosDe(s, cid) != {} ==>
      r == Err(Respond(400, "No se puede eliminar. Hay " + NatToString(|ActivosDe(s, cid)|)
                            + " productos usando esta categoría"))
    ensures r.Ok? <==> cid in s.categorias && ActivosDe(s, cid) == {}
    ensures r.Ok? ==> r.value == s.(categorias := s.categorias - {cid})
    ensures r.Ok? ==> forall p :: p in s.productos && s.productos[p].activo ==> s.productos[p].categoria != cid
  {
    if cid !in s.categorias then Err(Respond(404, MsgCategoriaNoEncontrada))
    else
      var n := |ActivosDe(s, cid)|;
      if n > 0 then
        Err(Respond(400, "No se puede eliminar. Hay " + NatToString(n) + " productos usando esta categoría"))
      else
        assert forall p :: p in s.productos && s.productos[p].activo && s.productos[p].categoria == cid
                           ==> p in ActivosDe(s, cid);
        Ok(s.(categorias := s.categorias - {cid}))
  }

  /** One row of the statistics: the category and how many active products
      it has. */
  datatype EstadisticaCategoria = EstadisticaCategoria(
    id: Id, nombre: string, descripcion: Option<string>, cantidadProductos: nat)

  /** `totalProductos`: the sum of the per-category counts. */
  function Total(rs: seq<EstadisticaCategoria>): nat {
    if rs == [] then 0 else rs[0].cantidadProductos + Total(rs[1..])
  }

  lemma {:induction false} TotalAgregar(rs: seq<EstadisticaCategoria>, x: EstadisticaCategoria)
    ensures Total(rs + [x]) == Total(rs) + x.cantidadProductos
  {
    if rs == [] {
      assert rs + [x] == [x];
    } else {
      assert (rs + [x])[1..] == rs[1..] + [x];
      TotalAgregar(rs[1..], x);
    }
  }

  /** The category is stored and active (`activo: { $ne: false }`). */
  predicate CategoriaActiva(s: Store, c: Id) {
    c in s.categorias && s.categorias[c].activo
  }

  /** Active products whose category is active and has id below `n`. */
  function ContadosHasta(s: Store, n: nat): set<Id> {
    set p | p in s.productos && s.productos[p].activo
            && s.productos[p].categoria < n && CategoriaActiva(s, s.productos[p].categoria)
  }

  /** The statistics rows for the active categories with id below `n`, in
      id order, each with its number of active products. */
  function EstadisticasHasta(s: Store, n: nat): (rs: seq<EstadisticaCategoria>)
    ensures forall i :: 0 <= i < |rs| ==>
      && rs[i].id < n && CategoriaActiva(s, rs[i].id)
      && rs[i].nombre == s.categorias[rs[i].id].nombre
      && rs[i].cantidadProductos == |ActivosDe(s, rs[i].id)|
    ensures forall c: Id :: c < n && CategoriaActiva(s, c) ==> exists i :: 0 <= i < |rs| && rs[i].id == c
  {
    if n == 0 then []
    else
      var prev := EstadisticasHasta(s, n - 1);
      var c := n - 1;
      if CategoriaActiva(s, c) then
        var fila := EstadisticaCategoria(c, s.categorias[c].nombre, s.categorias[c].descripcion, |ActivosDe(s, c)|);
        var rs := prev + [fila];
        assert forall i :: 0 <= i < |prev| ==> rs[i] == prev[i];
        assert rs[|prev|].id == c;
        rs
      else prev
  }

  /** Moving the bound past category `n` adds exactly that category's active
      products, when it is active, and none of them was counted before. */
  lemma ContadosPaso(s: Store, n: nat)
    ensures CategoriaActiva(s, n) ==> ContadosHasta(s, n + 1) == ContadosHasta(s, n) + ActivosDe(s, n)
    ensures CategoriaActiva(s, n) ==> ContadosHasta(s, n) !! ActivosDe(s, n)
    ensures !CategoriaActiva(s, n) ==> ContadosHasta(s, n + 1) == ContadosHasta(s, n)
  {
  }

  /** The rows' total counts every active product of an active category
      below `n` exactly once. */
  lemma {:induction false} TotalHasta(s: Store, n: nat)
    ensures Total(EstadisticasHasta(s, n)) == |ContadosHasta(s, n)|
  {
    if n == 0 {
      assert ContadosHasta(s, n) == {};
    } else {
      var c := n - 1;
      TotalHasta(s, c);
      ContadosPaso(s, c);
      var prev := EstadisticasHasta(s, c);
      if CategoriaActiva(s, c) {
        var fila := EstadisticaCategoria(c, s.categorias[c].nombre, s.categorias[c].descripcion, |ActivosDe(s, c)|);
        assert EstadisticasHasta(s, n) == prev + [fila];
        TotalAgregar(prev, fila);
        var antes, nuevos := ContadosHasta(s, c), ActivosDe(s, c);
        assert antes * nuevos == {};
        assert |antes + nuevos| == |antes| + |nuevos|;
      } else {
        assert EstadisticasHasta(s, n) == prev;
      }
    }
  }

  /** The statistics and their total. */
  datatype Estadisticas = Estadisticas(filas: seq<EstadisticaCategoria>, totalProductos: nat)

  function EstadisticasCategorias(s: Store): (e: Estadisticas)
    ensures e.totalProductos == Total(e.filas)
    ensures forall i :: 0 <= i < |e.filas| ==>
      CategoriaActiva(s, e.filas[i].id) && e.filas[i].cantidadProductos == |ActivosDe(s, e.filas[i].id)|
  {
    var rs := EstadisticasHasta(s, s.nextId);
    Estadisticas(rs, Total(rs))
  }

  /** With ids bounded, every active category has its row and the total is
      the number of active products whose category is active: an inactive
      product, or one in an inactive or missing category, is never
      counted. */
  lemma EstadisticasCuentanActivos(s: Store)
    requires IdsAcotados(s)
    ensures var e := EstadisticasCategorias(s);
      && (forall c: Id :: CategoriaActiva(s, c) ==> exists i :: 0 <= i < |e.filas| && e.filas[i].id == c)
      && e.totalProductos
         == |set p | p in s.productos && s.productos[p].activo && CategoriaActiva(s, s.productos[p].categoria)|
  {
    TotalHasta(s, s.nextId);
    assert ContadosHasta(s, s.nextId)
        == set p | p in s.productos && s.productos[p].activo && CategoriaActiva(s, s.productos[p].categoria);
    var rs := EstadisticasHasta(s, s.nextId);
    assert EstadisticasCategorias(s).filas == rs;
    forall c: Id | CategoriaActiva(s, c)
      ensures exists i :: 0 <= i < |rs| && rs[i].id == c
    {
      assert c in s.categorias;
      assert c < s.nextId;
    }
  }
}
