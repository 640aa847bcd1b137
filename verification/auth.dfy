/** The authentication middleware: the bearer token taken from the
    `Authorization` header, `protegerRuta` resolving it to an active user,
    and the `verificarRol` gate. Signature verification is a parameter: it
    either yields the user id the token was signed for, or reports the token
    expired or otherwise invalid. */
module Auth {
  import opened Common
  import opened Usuarios
  import opened Tienda

  const MsgTokenNoProporcionado: string := "No autorizado. Token no proporcionado."
  const MsgUsuarioNoEncontrado: string := "Usuario no encontrado"
  const MsgUsuarioInactivo: string := "Usuario inactivo"
  const MsgTokenExpirado: string := "Token expirado. Por favor, inicie sesión nuevamente."
  const MsgTokenInvalido: string := "Token inválido"
  const MsgNoAutenticado: string := "Usuario no autenticado"

  const Esquema: string := "Bearer"

  /** What `jwt.verify` makes of a token. */
  datatype Verificacion = Valido(id: Id) | Expirado | Invalido

  predicate Comienza(prefijo: string, s: string) {
    |prefijo| <= |s| && s[..|prefijo|] == prefijo
  }

  /** The index of the first space, if any. */
  function PrimerEspacio(s: string): (r: Option<nat>)
    ensures r.None? <==> ' ' !in s
    ensures r.Some? ==> r.value < |s| && s[r.value] == ' ' && ' ' !in s[..r.value]
  {
    if s == [] then None
    else if s[0] == ' ' then Some(0)
    else
      match PrimerEspacio(s[1..])
      case None => None
      case Some(i) =>
        assert s[1..][..i] == s[1..i + 1];
        assert s[..i + 1] == [s[0]] + s[1..][..i];
        Some(i + 1)
  }

  /** `s.split(' ')`: the pieces between single spaces, empty pieces
      included. */
  function Campos(s: string): (r: seq<string>)
    ensures |r| >= 1
    ensures forall i :: 0 <= i < |r| ==> ' ' !in r[i]
    decreases |s|
  {
    match PrimerEspacio(s)
    case None => [s]
    case Some(i) => [s[..i]] + Campos(s[i + 1..])
  }

  /** Joining the pieces with single spaces gives the string back. */
  lemma {:induction false} UnirCampos(s: string)
    ensures Join(Campos(s), " ") == s
    decreases |s|
  {
    match PrimerEspacio(s)
    case None =>
    case Some(i) =>
      var resto := Campos(s[i + 1..]);
      UnirCampos(s[i + 1..]);
      assert Campos(s)[1..] == resto;
      assert s == s[..i] + " " + s[i + 1..];
  }

  /** The token `protegerRuta` reads: only from a header starting with
      "Bearer", the second space-separated piece, and an empty piece counts
      as no token. */
  function ExtraerToken(authorization: Option<string>): (r: Option<string>)
    ensures authorization.None? || !Comienza(Esquema, authorization.value) ==> r.None?
    ensures r.Some? ==> r.value != "" && ' ' !in r.value
    ensures r.Some? ==> |Campos(authorization.value)| >= 2 && Campos(authorization.value)[1] == r.value
  {
    if authorization.None? || !Comienza(Esquema, authorization.value) then None
    else
      var campos := Campos(authorization.value);
      if |campos| < 2 || campos[1] == "" then None else Some(campos[1])
  }

  /** A header "Bearer <t>", possibly followed by more space-separated
      text, yields exactly `t`. */
  lemma TokenDeCabecera(t: string, resto: string)
    requires t != "" && ' ' !in t
    requires resto == "" || resto[0] == ' '
    ensures ExtraerToken(Some(Esquema + " " + t + resto)) == Some(t)
  {
    SegundoCampo(Esquema, t, resto);
    var h := Esquema + " " + t + resto;
    assert Comienza(Esquema, h) by {
      assert h[..|Esquema|] == Esquema;
    }
  }

  /** After a first piece without spaces and one space, the second piece is
      the token up to the next space. */
  lemma SegundoCampo(a: string, t: string, resto: string)
    requires ' ' !in a && ' ' !in t
    requires resto == "" || resto[0] == ' '
    ensures |Campos(a + " " + t + resto)| >= 2 && Campos(a + " " + t + resto)[1] == t
  {
    var cola := t + resto;
    assert a + " " + t + resto == a + [' '] + cola;
    CamposTras(a, cola);
    PrimerCampo(t, resto);
  }

  /** A piece without spaces, then the end or a space: it is the first
      piece. */
  lemma PrimerCampo(t: string, resto: string)
    requires ' ' !in t
    requires resto == "" || resto[0] == ' '
    ensures Campos(t + resto)[0] == t
  {
    if resto == "" {
      assert t + resto == t;
    } else {
      PartirEnEspacio(t, resto);
      CamposTras(t, resto[1..]);
    }
  }

  lemma PartirEnEspacio(t: string, resto: string)
    requires resto != [] && resto[0] == ' '
    ensures t + resto == t + [' '] + resto[1..]
  {
    assert resto == [' '] + resto[1..];
  }

  /** A piece without spaces followed by a space splits off first. */
  lemma CamposTras(a: string, b: string)
    requires ' ' !in a
    ensures Campos(a + [' '] + b) == [a] + Campos(b)
  {
    var h := a + [' '] + b;
    PrimerEspacioTras(a, b);
    assert h[..|a|] == a && h[|a| + 1..] == b;
  }

  /** In `a + " " + b` with no space in `a`, the first space is the one
      after `a`. */
  lemma {:induction false} PrimerEspacioTras(a: string, b: string)
    requires ' ' !in a
    ensures PrimerEspacio(a + [' '] + b) == Some(|a|)
    decreases |a|
  {
    var h := a + [' '] + b;
    if a != [] {
      assert h[0] == a[0] && a[0] != ' ';
      assert h[1..] == a[1..] + [' '] + b;
      PrimerEspacioTras(a[1..], b);
    }
  }

  /** `protegerRuta`: every failure is 401, each cause with its own
      message; success attaches the stored user's id, role and address. */
  function ProtegerRuta(s: Store, authorization: Option<string>, verificar: string -> Verificacion)
    : (r: Result<Principal>)
    ensures r.Err? ==> r.failure.Respond? && r.failure.status == 401
    ensures ExtraerToken(authorization).None? ==> r == Err(Respond(401, MsgTokenNoProporcionado))
    ensures ExtraerToken(authorization).Some? && verificar(ExtraerToken(authorization).value) == Expirado
            ==> r == Err(Respond(401, MsgTokenExpirado))
    ensures ExtraerToken(authorization).Some? && verificar(ExtraerToken(authorization).value) == Invalido
            ==> r == Err(Respond(401, MsgTokenInvalido))
    ensures ExtraerToken(authorization).Some? && verificar(ExtraerToken(authorization).value).Valido?
            ==> var id := verificar(ExtraerToken(authorization).value).id;
                && (id !in s.usuarios ==> r == Err(Respond(401, MsgUsuarioNoEncontrado)))
                && (id in s.usuarios && !s.usuarios[id].activo ==> r == Err(Respond(401, MsgUsuarioInactivo)))
    ensures r.Ok? <==>
      && ExtraerToken(authorization).Some?
      && verificar(ExtraerToken(authorization).value).Valido?
      && verificar(ExtraerToken(authorization).value).id in s.usuarios
      && s.usuarios[verificar(ExtraerToken(authorization).value).id].activo
    ensures r.Ok? ==>
      && r.value.id == verificar(ExtraerToken(authorization).value).id
      && r.value.rol == s.usuarios[r.value.id].rol
      && r.value.direccion == s.usuarios[r.value.id].direccion
  {
    match ExtraerToken(authorization)
    case None => Err(Respond(401, MsgTokenNoProporcionado))
    case Some(token) =>
      match verificar(token)
      case Expirado => Err(Respond(401, MsgTokenExpirado))
      case Invalido => Err(Respond(401, MsgTokenInvalido))
      case Valido(id) =>
        if id !in s.usuarios then Err(Respond(401, MsgUsuarioNoEncontrado))
        else if !s.usuarios[id].activo then Err(Respond(401, MsgUsuarioInactivo))
        else Ok(Principal(id, s.usuarios[id].rol, s.usuarios[id].direccion))
  }

  /** Why `protegerRuta` turns a request away. */
  datatype Rechazo = SinToken | TokenVencido | TokenRechazado | UsuarioDesconocido | UsuarioDesactivado

  /** The first check a request fails, in the order the middleware runs
      them; none when it passes them all. */
  function Causa(s: Store, authorization: Option<string>, verificar: string -> Verificacion): Option<Rechazo> {
    if ExtraerToken(authorization).None? then Some(SinToken)
    else
      var v := verificar(ExtraerToken(authorization).value);
      if v.Expirado? then Some(TokenVencido)
      else if v.Invalido? then Some(TokenRechazado)
      else if v.id !in s.usuarios then Some(UsuarioDesconocido)
      else if !s.usuarios[v.id].activo then Some(UsuarioDesactivado)
      else None
  }

  /** The cause a client reads off a rejection message. */
  function CausaDeMensaje(msg: string): Option<Rechazo> {
    if msg == MsgTokenNoProporcionado then Some(SinToken)
    else if msg == MsgTokenExpirado then Some(TokenVencido)
    else if msg == MsgTokenInvalido then Some(TokenRechazado)
    else if msg == MsgUsuarioNoEncontrado then Some(UsuarioDesconocido)
    else if msg == MsgUsuarioInactivo then Some(UsuarioDesactivado)
    else None
  }

  /** A request passes exactly when no check fails, and a rejection's
      message tells which check failed: the five messages are distinct. */
  lemma MensajeRevelaCausa(s: Store, authorization: Option<string>, verificar: string -> Verificacion)
    ensures ProtegerRuta(s, authorization, verificar).Ok? <==> Causa(s, authorization, verificar).None?
    ensures ProtegerRuta(s, authorization, verificar).Err? ==>
      CausaDeMensaje(ProtegerRuta(s, authorization, verificar).failure.error) == Causa(s, authorization, verificar)
  {
    assert |MsgTokenNoProporcionado| == 38 && |MsgTokenExpirado| == 52 && |MsgTokenInvalido| == 14;
    assert |MsgUsuarioNoEncontrado| == 21 && |MsgUsuarioInactivo| == 16;
  }

  function MsgRolSinPermiso(rol: Rol): string {
    "El rol '" + RolNombre(rol) + "' no tiene permiso para acceder a este recurso"
  }

  /** `verificarRol(...roles)`: no authenticated caller is 401, a role
      outside the list is 403, anything else passes unchanged. */
  function VerificarRol(usuario: Option<Principal>, roles: seq<Rol>): (r: Result<Principal>)
    ensures usuario.None? ==> r == Err(Respond(401, MsgNoAutenticado))
    ensures usuario.Some? && usuario.value.rol !in roles ==> r == Err(Respond(403, MsgRolSinPermiso(usuario.value.rol)))
    ensures r.Ok? <==> usuario.Some? && usuario.value.rol in roles
    ensures r.Ok? ==> r == Ok(usuario.value)
  {
    match usuario
    case None => Err(Respond(401, MsgNoAutenticado))
    case Some(p) => if p.rol in roles then Ok(p) else Err(Respond(403, MsgRolSinPermiso(p.rol)))
  }

  /** The admin-only routes, `protegerRuta` then `verificarRol('admin')`:
      the request passes exactly when the token names an active
      administrator; every other caller is stopped with 401 or 403. */
  lemma SoloAdministradores(s: Store, authorization: Option<string>, verificar: string -> Verificacion)
    ensures var a := ProtegerRuta(s, authorization, verificar);
            var r := if a.Ok? then VerificarRol(Some(a.value), [Admin]) else a;
            && (r.Ok? <==> a.Ok? && s.usuarios[a.value.id].rol == Admin)
            && (r.Err? ==> r.failure.Respond? && r.failure.status in {401, 403})
  {
  }
}
