/** The `Usuario` schema: its fields, defaults, setters and validators, and
    the password hook that runs before a save. */
module Usuarios {
  import opened Common

  datatype Rol = Cliente | Admin

  function RolNombre(r: Rol): string {
    match r
    case Cliente => "cliente"
    case Admin => "admin"
  }

  /** The `enum: ['cliente', 'admin']` check on a role string. */
  function ParseRol(s: string): (r: Option<Rol>)
    ensures r.Some? <==> (s == "cliente" || s == "admin")
    ensures r.Some? ==> RolNombre(r.value) == s
  {
    if s == "cliente" then Some(Cliente)
    else if s == "admin" then Some(Admin)
    else None
  }

  lemma ParseRolNombre(r: Rol)
    ensures ParseRol(RolNombre(r)) == Some(r)
  {
  }

  datatype Direccion = Direccion(
    calle: Option<string>,
    ciudad: Option<string>,
    provincia: Option<string>,
    codigoPostal: Option<string>,
    pais: Option<string>)

  const PaisPorDefecto: string := "Argentina"

  /** The nested `direccion` sub-document after defaults: `pais` falls back
      to "Argentina" whether or not an address was given. */
  function ConPaisPorDefecto(d: Option<Direccion>): (r: Direccion)
    ensures r.pais.Some?
    ensures d.Some? && d.value.pais.Some? ==> r == d.value
    ensures d.Some? ==> r.calle == d.value.calle && r.ciudad == d.value.ciudad
                        && r.provincia == d.value.provincia && r.codigoPostal == d.value.codigoPostal
    ensures (d.None? || d.value.pais.None?) ==> r.pais == Some(PaisPorDefecto)
  {
    match d
    case None => Direccion(None, None, None, None, Some(PaisPorDefecto))
    case Some(x) => if x.pais.Some? then x else x.(pais := Some(PaisPorDefecto))
  }

  /** A stored user; `password` holds the bcrypt hash. */
  datatype Usuario = Usuario(
    nombre: string,
    email: string,
    password: string,
    telefono: Option<string>,
    direccion: Direccion,
    rol: Rol,
    activo: bool)

  /** The e-mail setters: `lowercase` then `trim`. */
  function NormalizarEmail(s: string): (r: string)
    ensures Unpadded(r)
    ensures forall i :: 0 <= i < |r| ==> !('A' <= r[i] <= 'Z')
    ensures r == Trim(ToLowerAscii(s))
  {
    var l := ToLowerAscii(s);
    SinMayusculasTrim(l);
    Trim(l)
  }

  /** `r` is `s` with a blank prefix of `k` characters and a blank suffix
      cut off and the middle lower-cased. */
  predicate RecorteEnMinusculas(r: string, s: string, k: nat) {
    && k + |r| <= |s|
    && (forall i :: 0 <= i < k ==> IsSpace(s[i]))
    && (forall i :: k + |r| <= i < |s| ==> IsSpace(s[i]))
    && (forall i :: 0 <= i < |r| ==> r[i] == MinusculaAscii(s[k + i]))
  }

  /** The normalised e-mail is the input with its white-space margins cut
      off and the rest lower-cased. */
  lemma NormalizarRecorte(s: string)
    ensures exists k: nat :: RecorteEnMinusculas(NormalizarEmail(s), s, k)
  {
    var l := ToLowerAscii(s);
    var r := NormalizarEmail(s);
    TrimRecorta(l);
    var k: nat :| EsRecorte(r, l, k);
    RecorteDeMinusculas(s, r, k);
  }

  /** Cutting the margins off the lower-cased input is lower-casing the
      middle of the input. */
  lemma RecorteDeMinusculas(s: string, r: string, k: nat)
    requires EsRecorte(r, ToLowerAscii(s), k)
    ensures RecorteEnMinusculas(r, s, k)
  {
    var l := ToLowerAscii(s);
    MargenesMinusculas(s, k, |r|);
    forall i | 0 <= i < |r| ensures r[i] == MinusculaAscii(s[k + i]) {
      assert r[i] == l[k + i];
    }
  }

  /** Lower-casing keeps white space where it was and adds none. */
  lemma MargenesMinusculas(s: string, k: nat, n: nat)
    requires k + n <= |s|
    requires forall i :: 0 <= i < k ==> IsSpace(ToLowerAscii(s)[i])
    requires forall i :: k + n <= i < |s| ==> IsSpace(ToLowerAscii(s)[i])
    ensures forall i :: 0 <= i < k ==> IsSpace(s[i])
    ensures forall i :: k + n <= i < |s| ==> IsSpace(s[i])
  {
    var l := ToLowerAscii(s);
    forall i | 0 <= i < k ensures IsSpace(s[i]) {
      assert IsSpace(l[i]);
    }
    forall i | k + n <= i < |s| ensures IsSpace(s[i]) {
      assert IsSpace(l[i]);
    }
  }

  /** Trimming keeps only characters of its input, so it adds no capital
      letter. */
  lemma SinMayusculasTrim(l: string)
    requires forall i :: 0 <= i < |l| ==> !('A' <= l[i] <= 'Z')
    ensures forall i :: 0 <= i < |Trim(l)| ==> !('A' <= Trim(l)[i] <= 'Z')
  {
    var r := Trim(l);
    forall i | 0 <= i < |r| ensures !('A' <= r[i] <= 'Z') {
      assert r[i] in l;
      var j :| 0 <= j < |l| && l[j] == r[i];
    }
  }

  /** The pattern `^\S+@\S+\.\S+$`: no white space at all, and some `@` with
      at least one character before it, then some `.` with at least one
      character between the two and at least one after the dot. */
  predicate EmailForma(s: string) {
    && (forall k :: 0 <= k < |s| ==> !IsSpace(s[k]))
    && exists i, j :: 0 < i && i + 1 < j && j + 1 < |s| && s[i] == '@' && s[j] == '.'
  }

  lemma EmailFormaEjemplos()
    ensures EmailForma("ana@tienda.com")
    ensures !EmailForma("ana@tienda")
    ensures !EmailForma("@tienda.com")
    ensures !EmailForma("ana @tienda.com")
  {
    assert "ana@tienda.com"[3] == '@' && "ana@tienda.com"[10] == '.';
    assert IsSpace("ana @tienda.com"[3]);
  }

  const LongitudMinimaPassword: nat := 6

  /** The fields a registration hands to `Usuario.create`. */
  datatype UsuarioInput = UsuarioInput(
    nombre: string,
    email: string,
    password: string,
    telefono: Option<string>,
    direccion: Option<Direccion>,
    rol: string)

  /** The validator messages of a new user, one per failing path in schema
      order (a path reports its first failing validator); setters run before
      validators, so `nombre` and `email` are checked after trimming. */
  function Errores(u: UsuarioInput): (msgs: seq<string>)
    ensures msgs == [] <==>
      && Trim(u.nombre) != ""
      && NormalizarEmail(u.email) != ""
      && EmailForma(NormalizarEmail(u.email))
      && |u.password| >= LongitudMinimaPassword
      && ParseRol(u.rol).Some?
  {
    var email := NormalizarEmail(u.email);
    var nombre := if Trim(u.nombre) == "" then ["El nombre es obligatorio"] else [];
    var correo :=
      if email == "" then ["El email es obligatorio"]
      else if !EmailForma(email) then ["Email inválido"] else [];
    var clave :=
      if u.password == "" then ["La contraseña es obligatoria"]
      else if |u.password| < LongitudMinimaPassword
      then ["Path `password` (`" + u.password + "`) is shorter than the minimum allowed length (6)."]
      else [];
    var rol := if ParseRol(u.rol).None? then ["`" + u.rol + "` is not a valid enum value for path `rol`."] else [];
    assert |nombre + correo + clave + rol| == |nombre| + |correo| + |clave| + |rol|;
    nombre + correo + clave + rol
  }

  /** The `pre('save')` hook: the stored password is hashed again only when
      it was modified; `hash` stands for bcrypt with a fresh salt. */
  function GuardarPassword(almacenado: string, modificado: bool, hash: string -> string): (r: string)
    ensures modificado ==> r == hash(almacenado)
    ensures !modificado ==> r == almacenado
  {
    if modificado then hash(almacenado) else almacenado
  }

  /** Saving a second time without touching the password keeps the hash of
      the first save: the plain password is hashed exactly once. */
  lemma PasswordHasheadaUnaVez(plano: string, hash: string -> string)
    ensures GuardarPassword(GuardarPassword(plano, true, hash), false, hash) == hash(plano)
  {
  }

  /** `Usuario.create`: setters, defaults, validation, then the hashing hook.
      `activo` defaults to true and `direccion.pais` to "Argentina". */
  function Crear(u: UsuarioInput, hash: string -> string): (r: Result<Usuario>)
    ensures r.Err? <==> Errores(u) != []
    ensures r.Err? ==> r.failure == Thrown(ValidationError(Errores(u)))
    ensures r.Ok? ==>
      && r.value.nombre == Trim(u.nombre) && r.value.nombre != ""
      && r.value.email == NormalizarEmail(u.email) && EmailForma(r.value.email)
      && |u.password| >= LongitudMinimaPassword
      && r.value.password == hash(u.password)
      && RolNombre(r.value.rol) == u.rol
      && r.value.activo
      && r.value.direccion == ConPaisPorDefecto(u.direccion)
  {
    var msgs := Errores(u);
    if msgs != [] then Err(Thrown(ValidationError(msgs)))
    else
      Ok(Usuario(
        nombre := Trim(u.nombre),
        email := NormalizarEmail(u.email),
        password := GuardarPassword(u.password, true, hash),
        telefono := match u.telefono case Some(t) => Some(Trim(t)) case None => None,
        direccion := ConPaisPorDefecto(u.direccion),
        rol := ParseRol(u.rol).value,
        activo := true))
  }
}
