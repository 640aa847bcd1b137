/** The `Producto` schema: required fields, bounds and defaults. Prices are
    whole cents. */
module Productos {
  import opened Common

  datatype Producto = Producto(
    nombre: string,
    descripcion: string,
    precio: int,
    stock: int,
    categoria: Id,
    marca: Option<string>,
    imagen: string,
    activo: bool,
    calificacionPromedio: real,
    numeroResenas: int)

  const ImagenPorDefecto: string := "https://via.placeholder.com/300"

  /** What a stored product satisfies when it went through the schema. */
  predicate Valido(p: Producto) {
    && p.nombre != "" && Unpadded(p.nombre)
    && p.descripcion != "" && Unpadded(p.descripcion)
    && p.precio >= 0
    && p.stock >= 0
  }

  /** The body handed to `Producto.create`; every field may be absent. */
  datatype ProductoInput = ProductoInput(
    nombre: Option<string>,
    descripcion: Option<string>,
    precio: Option<int>,
    stock: Option<int>,
    categoria: Option<Id>,
    marca: Option<string>,
    imagen: Option<string>,
    activo: Option<bool>,
    calificacionPromedio: Option<real>,
    numeroResenas: Option<int>)

  /** A required string after its `trim` setter: present and non-empty. */
  predicate PresenteTrim(s: Option<string>) {
    s.Some? && Trim(s.value) != ""
  }

  /** The validator messages of a new product, one per failing path in
      schema order; `stock` is never missing because it defaults to 0. */
  function Errores(p: ProductoInput): (msgs: seq<string>)
    ensures msgs == [] <==>
      && PresenteTrim(p.nombre)
      && PresenteTrim(p.descripcion)
      && p.precio.Some? && p.precio.value >= 0
      && (p.stock.None? || p.stock.value >= 0)
      && p.categoria.Some?
  {
    var nombre := if !PresenteTrim(p.nombre) then ["El nombre del producto es obligatorio"] else [];
    var descripcion := if !PresenteTrim(p.descripcion) then ["La descripción es obligatoria"] else [];
    var precio :=
      if p.precio.None? then ["El precio es obligatorio"]
      else if p.precio.value < 0 then ["El precio no puede ser negativo"] else [];
    var stock := if p.stock.Some? && p.stock.value < 0 then ["El stock no puede ser negativo"] else [];
    var categoria := if p.categoria.None? then ["La categoría es obligatoria"] else [];
    assert |nombre + descripcion + precio + stock + categoria|
      == |nombre| + |descripcion| + |precio| + |stock| + |categoria|;
    nombre + descripcion + precio + stock + categoria
  }

  /** `Producto.create`: trimming setters, defaults (stock 0, placeholder
      image, active, no reviews) and validation. The rating fields are taken
      from the body when it carries them. */
  function Crear(p: ProductoInput): (r: Result<Producto>)
    ensures r.Err? <==> Errores(p) != []
    ensures r.Err? ==> r.failure == Thrown(ValidationError(Errores(p)))
    ensures r.Ok? ==> Valido(r.value)
    ensures r.Ok? ==>
      && r.value.precio == p.precio.value
      && r.value.categoria == p.categoria.value
      && r.value.nombre == Trim(p.nombre.value)
      && (p.stock.None? ==> r.value.stock == 0)
      && (p.activo.None? ==> r.value.activo)
      && (p.imagen.None? ==> r.value.imagen == ImagenPorDefecto)
      && (p.calificacionPromedio.None? ==> r.value.calificacionPromedio == 0.0)
      && (p.numeroResenas.None? ==> r.value.numeroResenas == 0)
  {
    var msgs := Errores(p);
    if msgs != [] then Err(Thrown(ValidationError(msgs)))
    else
      Ok(Producto(
        nombre := Trim(p.nombre.value),
        descripcion := Trim(p.descripcion.value),
        precio := p.precio.value,
        stock := Or(p.stock, 0),
        categoria := p.categoria.value,
        marca := match p.marca case Some(m) => Some(Trim(m)) case None => None,
        imagen := Or(p.imagen, ImagenPorDefecto),
        activo := Or(p.activo, true),
        calificacionPromedio := Or(p.calificacionPromedio, 0.0),
        numeroResenas := Or(p.numeroResenas, 0)))
  }

  /** The validators `save()` runs again on a loaded product: every loaded
      path is validated, so a stock driven below zero by `$inc` fails them. */
  function ErroresGuardado(p: Producto): (msgs: seq<string>)
    ensures msgs == [] <==> p.nombre != "" && p.descripcion != "" && p.precio >= 0 && p.stock >= 0
    ensures Valido(p) ==> msgs == []
    ensures p.stock < 0 ==> "El stock no puede ser negativo" in msgs
  {
    (if p.nombre == "" then ["El nombre del producto es obligatorio"] else [])
    + (if p.descripcion == "" then ["La descripción es obligatoria"] else [])
    + (if p.precio < 0 then ["El precio no puede ser negativo"] else [])
    + (if p.stock < 0 then ["El stock no puede ser negativo"] else [])
  }
}
