/** The user handlers: registration (which also creates the user's cart),
    login, the administrator's search, profile update with its field and
    role rules, and deletion together with the cart. Password hashing and
    comparison and token signing are parameters. */
module UsuarioController {
  import opened Common
  import opened Usuarios
  import opened Tienda
  import Carritos
  import Auth

  const MsgFaltanDatosRegistro: string := "Por favor proporcione nombre, email y contraseña"
  const MsgFaltanCredenciales: string := "Por favor proporcione email y contraseña"
  const MsgCredencialesInvalidas: string := "Credenciales inválidas"
  const MsgFaltaTermino: string := "Proporcione un término de búsqueda"
  const MsgNoCambiarRol: string := "No autorizado para cambiar el rol"
  const MsgNoActualizar: string := "No autorizado para actualizar este usuario"
  const MsgUsuarioNoEncontrado: string := "Usuario no encontrado"

  /** A body field that is absent or the empty string is falsy. */
  predicate Falta(o: Option<string>) {
    o.None? || o.value == ""
  }

  predicate EmailEnUso(s: Store, email: string) {
    exists u :: u in s.usuarios && s.usuarios[u].email == email
  }

  /** The unique index on `email`. */
  predicate EmailsUnicos(s: Store) {
    forall a, b :: a in s.usuarios && b in s.usuarios && a != b ==> s.usuarios[a].email != s.usuarios[b].email
  }

  /** Every user has a cart, stored under the user's id. */
  predicate CadaUsuarioConCarrito(s: Store) {
    forall u :: u in s.usuarios ==> u in s.carritos
  }

  /** `findOne({ email })` over the users `ids` names, first match. */
  function PrimeroConEmail(s: Store, ids: seq<Id>, email: string): (r: Option<Id>)
    ensures r.Some? ==> r.value in s.usuarios && s.usuarios[r.value].email == email
    ensures (exists i :: 0 <= i < |ids| && ids[i] in s.usuarios && s.usuarios[ids[i]].email == email) ==> r.Some?
  {
    if ids == [] then None
    else if ids[0] in s.usuarios && s.usuarios[ids[0]].email == email then Some(ids[0])
    else
      var r := PrimeroConEmail(s, ids[1..], email);
      assert (exists i :: 0 <= i < |ids| && ids[i] in s.usuarios && s.usuarios[ids[i]].email == email)
             ==> exists i :: 0 <= i < |ids[1..]| && ids[1..][i] in s.usuarios && s.usuarios[ids[1..][i]].email == email
      by {
        if exists i :: 0 <= i < |ids| && ids[i] in s.usuarios && s.usuarios[ids[i]].email == email {
          var i :| 0 <= i < |ids| && ids[i] in s.usuarios && s.usuarios[ids[i]].email == email;
          assert ids[1..][i - 1] == ids[i];
        }
      }
      r
  }

  /** The user an e-mail address names; the query value goes through the
      same lowercase and trim setters as the stored one. */
  function BuscarPorEmail(s: Store, email: string): (r: Option<Id>)
    ensures r.Some? ==> r.value in s.usuarios && s.usuarios[r.value].email == email
    ensures IdsAcotados(s) && EmailEnUso(s, email) ==> r.Some?
  {
    var ids := KeysBelow(s.usuarios, s.nextId);
    assert IdsAcotados(s) && EmailEnUso(s, email) ==>
      exists i :: 0 <= i < |ids| && ids[i] in s.usuarios && s.usuarios[ids[i]].email == email
    by {
      if IdsAcotados(s) && EmailEnUso(s, email) {
        var u :| u in s.usuarios && s.usuarios[u].email == email;
        assert u in ids;
      }
    }
    PrimeroConEmail(s, ids, email)
  }

  // ---------------------------------------------------------------------
  // Registration and login

  datatype RegistroInput = RegistroInput(
    nombre: Option<string>,
    email: Option<string>,
    password: Option<string>,
    telefono: Option<string>,
    direccion: Option<Direccion>,
    rol: Option<string>)

  /** `rol || 'cliente'`: whatever role the body names, or the default. */
  function RolSolicitado(rol: Option<string>): (r: string)
    ensures Falta(rol) ==> r == RolNombre(Cliente)
    ensures !Falta(rol) ==> r == rol.value
    ensures ParseRol(r).Some? <==> Falta(rol) || rol.value == "cliente" || rol.value == "admin"
    ensures Falta(rol) ==> ParseRol(r) == Some(Cliente)
  {
    if Falta(rol) then "cliente" else rol.value
  }

  function Entrada(body: RegistroInput): UsuarioInput
    requires !Falta(body.nombre) && !Falta(body.email) && !Falta(body.password)
  {
    UsuarioInput(body.nombre.value, body.email.value, body.password.value, body.telefono, body.direccion,
                 RolSolicitado(body.rol))
  }

  /** The store after a new user is inserted under the next free id,
      together with that user's empty cart. */
  function Alta(s: Store, u: Usuario): (r: Store)
    ensures r.usuarios.Keys == s.usuarios.Keys + {s.nextId} && r.usuarios[s.nextId] == u
    ensures s.nextId in r.carritos && r.carritos[s.nextId].items == []
    ensures IdsAcotados(s) ==>
      && s.nextId !in s.usuarios && s.nextId !in s.carritos
      && (forall k :: k in s.usuarios ==> r.usuarios[k] == s.usuarios[k])
      && (forall k :: k in s.carritos ==> k in r.carritos && r.carritos[k] == s.carritos[k])
    ensures r.productos == s.productos && r.pedidos == s.pedidos && r.resenas == s.resenas
            && r.categorias == s.categorias && r.nextId == s.nextId + 1
  {
    s.(usuarios := s.usuarios[s.nextId := u], carritos := s.carritos[s.nextId := Carritos.Nuevo()],
       nextId := s.nextId + 1)
  }

  /** `registrarUsuario`: nombre, email and password are required (400);
      `Usuario.create` validates and hashes; an e-mail already stored is a
      duplicate key; then the user's empty cart is created and a token is
      signed for the new id. */
  function Registrar(s: Store, body: RegistroInput, hash: string -> string, firmar: Id -> string)
    : (r: Result<(Store, Id, string)>)
    ensures Falta(body.nombre) || Falta(body.email) || Falta(body.password)
            ==> r == Err(Respond(400, MsgFaltanDatosRegistro))
    ensures !(Falta(body.nombre) || Falta(body.email) || Falta(body.password)) && Errores(Entrada(body)) != []
            ==> r == Err(Thrown(ValidationError(Errores(Entrada(body)))))
    ensures !(Falta(body.nombre) || Falta(body.email) || Falta(body.password)) && Errores(Entrada(body)) == []
            && EmailEnUso(s, NormalizarEmail(body.email.value))
            ==> r == Err(Thrown(DuplicateKey("email")))
    ensures r.Ok? ==> r.value.1 == s.nextId && r.value.1 in r.value.0.usuarios
    ensures r.Ok? ==> r.value.0 == Alta(s, r.value.0.usuarios[r.value.1])
    ensures r.Ok? ==> !EmailEnUso(s, r.value.0.usuarios[r.value.1].email)
    ensures r.Ok? ==>
      var u := r.value.0.usuarios[r.value.1];
      && u.email == NormalizarEmail(body.email.value)
      && u.password == hash(body.password.value)
      && RolNombre(u.rol) == RolSolicitado(body.rol)
      && (Falta(body.rol) ==> u.rol == Cliente)
      && u.activo
    ensures r.Ok? ==> r.value.2 == firmar(r.value.1)
  {
    if Falta(body.nombre) || Falta(body.email) || Falta(body.password) then Err(Respond(400, MsgFaltanDatosRegistro))
    else
      match Usuarios.Crear(Entrada(body), hash)
      case Err(e) => Err(e)
      case Ok(u) =>
        if EmailEnUso(s, u.email) then Err(Thrown(DuplicateKey("email")))
        else if s.nextId in s.carritos then Err(Thrown(DuplicateKey("usuario")))
        else Ok((Alta(s, u), s.nextId, firmar(s.nextId)))
  }

  /** Registration succeeds exactly when the three fields are present, the
      schema accepts them and the e-mail is not taken (ids being fresh, the
      cart insert cannot collide). */
  lemma RegistrarAceptaSii(s: Store, body: RegistroInput, hash: string -> string, firmar: Id -> string)
    requires IdsAcotados(s)
    ensures Registrar(s, body, hash, firmar).Ok? <==>
      && !(Falta(body.nombre) || Falta(body.email) || Falta(body.password))
      && Errores(Entrada(body)) == []
      && !EmailEnUso(s, NormalizarEmail(body.email.value))
  {
  }

  /** Adding a user under a fresh id with an unused e-mail, together with
      a cart, keeps the user invariants. */
  lemma AltaConservaInvariantes(s: Store, u: Usuario)
    requires IdsAcotados(s) && EmailsUnicos(s) && CadaUsuarioConCarrito(s)
    requires !EmailEnUso(s, u.email)
    ensures IdsAcotados(Alta(s, u)) && EmailsUnicos(Alta(s, u)) && CadaUsuarioConCarrito(Alta(s, u))
  {
    var s' := Alta(s, u);
    forall a, b | a in s'.usuarios && b in s'.usuarios && a != b
      ensures s'.usuarios[a].email != s'.usuarios[b].email
    {
      if a == s.nextId {
        assert b in s.usuarios;
      } else if b == s.nextId {
        assert a in s.usuarios;
      }
    }
  }

  /** Registration keeps e-mails unique and every user with a cart. */
  lemma RegistrarConservaInvariantes(s: Store, body: RegistroInput, hash: string -> string, firmar: Id -> string)
    requires IdsAcotados(s) && EmailsUnicos(s) && CadaUsuarioConCarrito(s)
    requires Registrar(s, body, hash, firmar).Ok?
    ensures var s' := Registrar(s, body, hash, firmar).value.0;
            IdsAcotados(s') && EmailsUnicos(s') && CadaUsuarioConCarrito(s')
  {
    var r := Registrar(s, body, hash, firmar);
    var u := r.value.0.usuarios[r.value.1];
    AltaConservaInvariantes(s, u);
  }

  /** Nothing stops a registration from asking for the administrator
      role: a valid body with `rol: "admin"` creates an administrator. */
  lemma RegistroPermiteAdmin(s: Store, body: RegistroInput, hash: string -> string, firmar: Id -> string)
    requires body.rol == Some("admin")
    requires Registrar(s, body, hash, firmar).Ok?
    ensures var r := Registrar(s, body, hash, firmar).value;
            r.0.usuarios[r.1].rol == Admin
  {
  }

  /** `loginUsuario`: both fields are required (400); an unknown e-mail and
      a wrong password give the same 401, so the answer does not reveal
      which one failed. `comparar` stands for bcrypt's compare. */
  function Login(s: Store, email: Option<string>, password: Option<string>,
                 comparar: (string, string) -> bool, firmar: Id -> string)
    : (r: Result<(Id, string)>)
    ensures Falta(email) || Falta(password) ==> r == Err(Respond(400, MsgFaltanCredenciales))
    ensures !(Falta(email) || Falta(password)) && r.Err? ==> r == Err(Respond(401, MsgCredencialesInvalidas))
    ensures IdsAcotados(s) && !(Falta(email) || Falta(password)) && !EmailEnUso(s, NormalizarEmail(email.value))
            ==> r == Err(Respond(401, MsgCredencialesInvalidas))
    ensures r.Ok? ==>
      && r.value.0 in s.usuarios
      && s.usuarios[r.value.0].email == NormalizarEmail(email.value)
      && comparar(password.value, s.usuarios[r.value.0].password)
      && r.value.1 == firmar(r.value.0)
  {
    if Falta(email) || Falta(password) then Err(Respond(400, MsgFaltanCredenciales))
    else
      match BuscarPorEmail(s, NormalizarEmail(email.value))
      case None => Err(Respond(401, MsgCredencialesInvalidas))
      case Some(uid) =>
        if !comparar(password.value, s.usuarios[uid].password) then Err(Respond(401, MsgCredencialesInvalidas))
        else Ok((uid, firmar(uid)))
  }

  /** With e-mails unique, the lookup finds the one user holding the e-mail. */
  lemma BuscarEncuentraUnico(s: Store, e: string, u: Id)
    requires IdsAcotados(s) && EmailsUnicos(s)
    requires u in s.usuarios && s.usuarios[u].email == e
    ensures BuscarPorEmail(s, e) == Some(u)
  {
    assert EmailEnUso(s, e);
  }

  /** With e-mails unique, a stored user holding the normalised e-mail and
      matching the password is the one login lets in. */
  lemma LoginAceptaUsuario(s: Store, email: Option<string>, password: Option<string>,
                           comparar: (string, string) -> bool, firmar: Id -> string, u: Id)
    requires IdsAcotados(s) && EmailsUnicos(s)
    requires !(Falta(email) || Falta(password))
    requires u in s.usuarios && s.usuarios[u].email == NormalizarEmail(email.value)
    requires comparar(password.value, s.usuarios[u].password)
    ensures Login(s, email, password, comparar, firmar) == Ok((u, firmar(u)))
  {
    BuscarEncuentraUnico(s, NormalizarEmail(email.value), u);
  }

  /** With e-mails unique, login succeeds exactly when both fields are
      present and the stored user with the normalised e-mail has a hash the
      password compares with. */
  lemma LoginAceptaSii(s: Store, email: Option<string>, password: Option<string>,
                       comparar: (string, string) -> bool, firmar: Id -> string)
    requires IdsAcotados(s) && EmailsUnicos(s)
    ensures Login(s, email, password, comparar, firmar).Ok? <==>
      && !(Falta(email) || Falta(password))
      && exists u :: u in s.usuarios && s.usuarios[u].email == NormalizarEmail(email.value)
                     && comparar(password.value, s.usuarios[u].password)
  {
    if !(Falta(email) || Falta(password)) {
      var e := NormalizarEmail(email.value);
      if exists u :: u in s.usuarios && s.usuarios[u].email == e && comparar(password.value, s.usuarios[u].password) {
        var u :| u in s.usuarios && s.usuarios[u].email == e && comparar(password.value, s.usuarios[u].password);
        LoginAceptaUsuario(s, email, password, comparar, firmar, u);
      }
    }
  }

  /** Whoever just registered can log in with the same e-mail and password
      and gets a token for the new account. */
  lemma RegistrarLuegoLogin(s: Store, body: RegistroInput, hash: string -> string, firmar: Id -> string,
                            comparar: (string, string) -> bool)
    requires IdsAcotados(s)
    requires Registrar(s, body, hash, firmar).Ok?
    requires body.password.Some? && comparar(body.password.value, hash(body.password.value))
    ensures var r := Registrar(s, body, hash, firmar).value;
            Login(r.0, body.email, body.password, comparar, firmar) == Ok((r.1, r.2))
  {
    var r := Registrar(s, body, hash, firmar);
    var u := r.value.0.usuarios[r.value.1];
    UnicoConEmail(s, u);
  }

  /** After adding a user under a fresh id with an unused e-mail, looking
      that e-mail up finds the new user. */
  lemma UnicoConEmail(s: Store, u: Usuario)
    requires IdsAcotados(s) && !EmailEnUso(s, u.email)
    ensures BuscarPorEmail(Alta(s, u), u.email) == Some(s.nextId)
  {
    var s' := Alta(s, u);
    assert IdsAcotados(s');
    assert EmailEnUso(s', u.email);
  }

  /** The token handed out at registration opens the protected routes for
      the new user, given that verification accepts what signing produced. */
  lemma RegistrarLuegoAutenticar(s: Store, body: RegistroInput, hash: string -> string, firmar: Id -> string,
                                 verificar: string -> Auth.Verificacion)
    requires Registrar(s, body, hash, firmar).Ok?
    requires var r := Registrar(s, body, hash, firmar).value;
             r.2 != "" && ' ' !in r.2 && verificar(r.2) == Auth.Valido(r.1)
    ensures var r := Registrar(s, body, hash, firmar).value;
            var a := Auth.ProtegerRuta(r.0, Some(Auth.Esquema + " " + r.2), verificar);
            a.Ok? && a.value.id == r.1 && a.value.rol == r.0.usuarios[r.1].rol
  {
    var token := Registrar(s, body, hash, firmar).value.2;
    Auth.TokenDeCabecera(token, "");
    assert Auth.Esquema + " " + token + "" == Auth.Esquema + " " + token;
  }

  // ---------------------------------------------------------------------
  // Search

  /** `n` occurs in `h` starting at position `i`. */
  predicate EnPosicion(n: string, h: string, i: int) {
    0 <= i && i + |n| <= |h| && h[i..i + |n|] == n
  }

  ghost predicate Ocurre(n: string, h: string) {
    exists i :: EnPosicion(n, h, i)
  }

  function EsSubcadena(n: string, h: string): (r: bool)
    ensures r <==> Ocurre(n, h)
    decreases |h|
  {
    if |n| > |h| then false
    else if h[..|n|] == n then
      assert EnPosicion(n, h, 0);
      true
    else
      var r := EsSubcadena(n, h[1..]);
      assert Ocurre(n, h) ==> Ocurre(n, h[1..]) by {
        if Ocurre(n, h) {
          var i :| EnPosicion(n, h, i);
          assert i != 0;
          assert h[1..][i - 1..i - 1 + |n|] == h[i..i + |n|];
          assert EnPosicion(n, h[1..], i - 1);
        }
      }
      assert Ocurre(n, h[1..]) ==> Ocurre(n, h) by {
        if Ocurre(n, h[1..]) {
          var i :| EnPosicion(n, h[1..], i);
          assert h[i + 1..i + 1 + |n|] == h[1..][i..i + |n|];
          assert EnPosicion(n, h, i + 1);
        }
      }
      r
  }

  /** The case-insensitive pattern match `buscarUsuarios` runs on an active
      user's name or e-mail. */
  ghost predicate CoincideBusqueda(u: Usuario, patron: string) {
    var p := ToLowerAscii(patron);
    u.activo && (Ocurre(p, ToLowerAscii(u.nombre)) || Ocurre(p, ToLowerAscii(u.email)))
  }

  function Buscar(s: Store, ids: seq<Id>, patron: string): (r: seq<Id>)
    ensures forall i :: 0 <= i < |r| ==> r[i] in s.usuarios && CoincideBusqueda(s.usuarios[r[i]], patron) && r[i] in ids
    ensures forall i :: 0 <= i < |ids| && ids[i] in s.usuarios && CoincideBusqueda(s.usuarios[ids[i]], patron)
              ==> ids[i] in r
  {
    if ids == [] then []
    else
      var resto := Buscar(s, ids[1..], patron);
      assert forall i :: 1 <= i < |ids| ==> ids[i] in ids[1..] by {
        forall i | 1 <= i < |ids| ensures ids[i] in ids[1..] {
          assert ids[1..][i - 1] == ids[i];
        }
      }
      var u := if ids[0] in s.usuarios then Some(s.usuarios[ids[0]]) else None;
      var coincide := u.Some? && u.value.activo
        && (EsSubcadena(ToLowerAscii(patron), ToLowerAscii(u.value.nombre))
            || EsSubcadena(ToLowerAscii(patron), ToLowerAscii(u.value.email)));
      if coincide then [ids[0]] + resto else resto
  }

  /** `buscarUsuarios`: a missing or blank term is 400; otherwise the active
      users whose name or e-mail contains the trimmed term, ignoring case. */
  function BuscarUsuarios(s: Store, termino: Option<string>): (r: Result<seq<Id>>)
    ensures r.Err? <==> termino.None? || IsBlank(termino.value)
    ensures r.Err? ==> r == Err(Respond(400, MsgFaltaTermino))
    ensures r.Ok? ==> forall i :: 0 <= i < |r.value| ==>
      r.value[i] in s.usuarios && CoincideBusqueda(s.usuarios[r.value[i]], Trim(termino.value))
    ensures r.Ok? && IdsAcotados(s) ==>
      forall u :: u in s.usuarios && CoincideBusqueda(s.usuarios[u], Trim(termino.value)) ==> u in r.value
  {
    if termino.None? || IsBlank(termino.value) then Err(Respond(400, MsgFaltaTermino))
    else
      var ids := KeysBelow(s.usuarios, s.nextId);
      assert IdsAcotados(s) ==> forall u :: u in s.usuarios ==> u in ids;
      Ok(Buscar(s, ids, Trim(termino.value)))
  }

  /** A user whose name contains the term, in any case, is found. */
  lemma BuscarEncuentraPorNombre(s: Store, u: Id, termino: string)
    requires IdsAcotados(s) && u in s.usuarios && s.usuarios[u].activo
    requires !IsBlank(termino) && ToLowerAscii(s.usuarios[u].nombre) == ToLowerAscii(Trim(termino))
    ensures BuscarUsuarios(s, Some(termino)).Ok? && u in BuscarUsuarios(s, Some(termino)).value
  {
    CoincidePorNombre(s.usuarios[u], Trim(termino));
  }

  /** An active user whose whole name equals the pattern, ignoring case,
      matches it. */
  lemma CoincidePorNombre(u: Usuario, t: string)
    requires u.activo && ToLowerAscii(u.nombre) == ToLowerAscii(t)
    ensures CoincideBusqueda(u, t)
  {
    var n := ToLowerAscii(u.nombre);
    assert n[0..|n|] == n;
    assert EnPosicion(ToLowerAscii(t), n, 0);
  }

  // ---------------------------------------------------------------------
  // Update and delete

  /** The body of an update. `email` and `password` are read off and
      dropped; `rol` is kept only for an administrator. */
  datatype CambiosUsuario = CambiosUsuario(
    nombre: Option<string>,
    telefono: Option<string>,
    direccion: Option<Direccion>,
    activo: Option<bool>,
    rol: Option<string>,
    email: Option<string>,
    password: Option<string>)

  /** The update validators on the paths being set: the trimmed name must
      not be empty and a role must be one of the enumeration. */
  function ErroresCambios(nombre: Option<string>, rol: Option<string>): (msgs: seq<string>)
    ensures msgs == [] <==> (nombre.None? || Trim(nombre.value) != "") && (rol.None? || ParseRol(rol.value).Some?)
  {
    (if nombre.Some? && Trim(nombre.value) == "" then ["El nombre es obligatorio"] else [])
    + (if rol.Some? && ParseRol(rol.value).None? then ["`" + rol.value + "` is not a valid enum value for path `rol`."] else [])
  }

  /** `actualizarUsuario`: a non-administrator sending a role is 403, so is
      a non-administrator updating someone else; the validators run before
      the lookup; a missing user is 404. E-mail and password never change. */
  function ActualizarUsuario(s: Store, caller: Principal, uid: Id, body: CambiosUsuario): (r: Result<Store>)
    ensures !Falta(body.rol) && !EsAdmin(caller) ==> r == Err(Respond(403, MsgNoCambiarRol))
    ensures Falta(body.rol) && uid != caller.id && !EsAdmin(caller) ==> r == Err(Respond(403, MsgNoActualizar))
    ensures r.Ok? <==>
      && (Falta(body.rol) || EsAdmin(caller))
      && DuenoOAdmin(caller, uid)
      && ErroresCambios(body.nombre, if Falta(body.rol) then None else body.rol) == []
      && uid in s.usuarios
    ensures r.Ok? ==> uid in r.value.usuarios
    ensures r.Ok? ==>
      var antes := s.usuarios[uid];
      var despues := r.value.usuarios[uid];
      && despues.email == antes.email
      && despues.password == antes.password
      && (Falta(body.rol) ==> despues.rol == antes.rol)
      && (!Falta(body.rol) ==> RolNombre(despues.rol) == body.rol.value)
      && despues.nombre == (if body.nombre.Some? then Trim(body.nombre.value) else antes.nombre)
      && despues.activo == Or(body.activo, antes.activo)
      && r.value == s.(usuarios := s.usuarios[uid := despues])
  {
    if !Falta(body.rol) && !EsAdmin(caller) then Err(Respond(403, MsgNoCambiarRol))
    else if uid != caller.id && !EsAdmin(caller) then Err(Respond(403, MsgNoActualizar))
    else
      var rol := if Falta(body.rol) then None else body.rol;
      var msgs := ErroresCambios(body.nombre, rol);
      if msgs != [] then Err(Thrown(ValidationError(msgs)))
      else if uid !in s.usuarios then Err(Respond(404, MsgUsuarioNoEncontrado))
      else
        var u := s.usuarios[uid];
        var u' := u.(
          nombre := if body.nombre.Some? then Trim(body.nombre.value) else u.nombre,
          telefono := if body.telefono.Some? then Some(Trim(body.telefono.value)) else u.telefono,
          direccion := Or(body.direccion, u.direccion),
          activo := Or(body.activo, u.activo),
          rol := if rol.Some? then ParseRol(rol.value).value else u.rol);
        Ok(s.(usuarios := s.usuarios[uid := u']))
  }

  /** An update keeps e-mails unique and leaves carts alone. */
  lemma ActualizarConservaInvariantes(s: Store, caller: Principal, uid: Id, body: CambiosUsuario)
    requires EmailsUnicos(s) && CadaUsuarioConCarrito(s)
    requires ActualizarUsuario(s, caller, uid, body).Ok?
    ensures EmailsUnicos(ActualizarUsuario(s, caller, uid, body).value)
    ensures CadaUsuarioConCarrito(ActualizarUsuario(s, caller, uid, body).value)
  {
  }

  /** A client cannot raise anyone's role, their own included. */
  lemma ClienteNoEscalaRol(s: Store, caller: Principal, uid: Id, body: CambiosUsuario)
    requires caller.rol == Cliente
    requires ActualizarUsuario(s, caller, uid, body).Ok?
    ensures uid == caller.id
    ensures ActualizarUsuario(s, caller, uid, body).value.usuarios[uid].rol == s.usuarios[uid].rol
  {
  }

  /** `eliminarUsuario`: 404 for a missing user; otherwise the user's cart
      and the user are deleted. Orders and reviews stay. */
  function EliminarUsuario(s: Store, uid: Id): (r: Result<Store>)
    ensures uid !in s.usuarios ==> r == Err(Respond(404, MsgUsuarioNoEncontrado))
    ensures r.Ok? <==> uid in s.usuarios
    ensures r.Ok? ==>
      && uid !in r.value.usuarios && uid !in r.value.carritos
      && (forall u :: u in s.usuarios && u != uid ==> u in r.value.usuarios && r.value.usuarios[u] == s.usuarios[u])
      && (forall u :: u in s.carritos && u != uid ==> u in r.value.carritos && r.value.carritos[u] == s.carritos[u])
      && r.value.usuarios.Keys == s.usuarios.Keys - {uid}
      && r.value.carritos.Keys == s.carritos.Keys - {uid}
      && r.value.pedidos == s.pedidos && r.value.resenas == s.resenas && r.value.productos == s.productos
  {
    if uid !in s.usuarios then Err(Respond(404, MsgUsuarioNoEncontrado))
    else Ok(s.(usuarios := s.usuarios - {uid}, carritos := s.carritos - {uid}))
  }

  /** Deleting keeps every remaining user with a cart, and a deleted user
      can no longer pass the authentication gate. */
  lemma EliminarConservaInvariantes(s: Store, uid: Id, authorization: Option<string>,
                                    verificar: string -> Auth.Verificacion)
    requires CadaUsuarioConCarrito(s) && EmailsUnicos(s)
    requires EliminarUsuario(s, uid).Ok?
    ensures CadaUsuarioConCarrito(EliminarUsuario(s, uid).value)
    ensures EmailsUnicos(EliminarUsuario(s, uid).value)
    ensures var a := Auth.ProtegerRuta(EliminarUsuario(s, uid).value, authorization, verificar);
            a.Ok? ==> a.value.id != uid
  {
  }
}
