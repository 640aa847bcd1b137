/** The whole database as one immutable value: one map per collection, keyed
    by document id, and the next id the database will hand out. Every
    handler is a function from a store (and a request) to a new store or a
    failure, so a failed request can never leave a partial write behind. */
module Tienda {
  import opened Common
  import opened Usuarios
  import Productos
  import Carritos
  import Pedidos
  import Resenas

  /** A category: name, optional description and the active flag. */
  datatype Categoria = Categoria(nombre: string, descripcion: Option<string>, activo: bool)

  datatype Store = Store(
    usuarios: map<Id, Usuario>,
    categorias: map<Id, Categoria>,
    productos: map<Id, Productos.Producto>,
    carritos: map<Id, Carritos.Carrito>,
    pedidos: map<Id, Pedidos.Pedido>,
    resenas: map<Id, Resenas.Resena>,
    nextId: nat)

  /** The authenticated caller `protegerRuta` attaches to the request: the
      user's id, role and stored address. */
  datatype Principal = Principal(id: Id, rol: Rol, direccion: Direccion)

  predicate EsAdmin(p: Principal) {
    p.rol == Admin
  }

  /** The ownership check most handlers repeat: the caller owns the record
      or is an administrator. */
  predicate DuenoOAdmin(p: Principal, dueno: Id) {
    p.id == dueno || EsAdmin(p)
  }

  /** Every document id is below `nextId`, so `nextId` is fresh and the
      enumeration of ids below it visits every document. */
  predicate IdsAcotados(s: Store) {
    && (forall k :: k in s.usuarios ==> k < s.nextId)
    && (forall k :: k in s.categorias ==> k < s.nextId)
    && (forall k :: k in s.productos ==> k < s.nextId)
    && (forall k :: k in s.carritos ==> k < s.nextId)
    && (forall k :: k in s.pedidos ==> k < s.nextId)
    && (forall k :: k in s.resenas ==> k < s.nextId)
  }

  /** Every cart keeps its line invariants. */
  predicate CarritosValidos(s: Store) {
    forall u :: u in s.carritos ==> Carritos.LineasValidas(s.carritos[u].items)
  }

  predicate StockNoNegativo(s: Store) {
    forall p :: p in s.productos ==> s.productos[p].stock >= 0
  }

  /** Every order line holds at least one unit. */
  predicate PedidosValidos(s: Store) {
    forall o, i :: o in s.pedidos && 0 <= i < |s.pedidos[o].items| ==> s.pedidos[o].items[i].cantidad >= 1
  }

  /** Every stored review went through the schema validators. */
  predicate ResenasValidas(s: Store) {
    forall k :: k in s.resenas ==> Resenas.Valida(s.resenas[k])
  }

  /** `$inc: { stock: delta }` on one product; an id that matches no
      document changes nothing. */
  function AjustarStock(ps: map<Id, Productos.Producto>, p: Id, delta: int): (r: map<Id, Productos.Producto>)
    ensures r.Keys == ps.Keys
    ensures p in ps ==> r[p] == ps[p].(stock := ps[p].stock + delta)
    ensures forall q :: q in ps && q != p ==> r[q] == ps[q]
  {
    if p in ps then ps[p := ps[p].(stock := ps[p].stock + delta)] else ps
  }

  /** The decrement loop of order placement, one `$inc` per cart line in
      order: each product loses what the lines ask of it, nothing else
      changes. */
  function DescontarStock(ps: map<Id, Productos.Producto>, items: seq<Carritos.Item>)
    : (r: map<Id, Productos.Producto>)
    ensures r.Keys == ps.Keys
    ensures forall p :: p in ps ==>
      r[p] == ps[p].(stock := ps[p].stock - Carritos.CantidadDe(items, p))
  {
    if items == [] then ps
    else DescontarStock(AjustarStock(ps, items[0].producto, -items[0].cantidad), items[1..])
  }

  /** The restoring loop of cancellation, one `$inc` per order line: each
      product gets back what the lines hold of it. */
  function DevolverStock(ps: map<Id, Productos.Producto>, items: seq<Pedidos.Item>)
    : (r: map<Id, Productos.Producto>)
    ensures r.Keys == ps.Keys
    ensures forall p :: p in ps ==>
      r[p] == ps[p].(stock := ps[p].stock + Pedidos.CantidadDe(items, p))
  {
    if items == [] then ps
    else DevolverStock(AjustarStock(ps, items[0].producto, items[0].cantidad), items[1..])
  }
}
