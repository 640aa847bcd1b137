/** The `Resena` schema: rating and comment bounds, the one-review-per-
    (user, product) index, and the rating aggregate a product carries. */
module Resenas {
  import opened Common

  datatype Resena = Resena(
    usuario: Id,
    producto: Id,
    calificacion: real,
    comentario: string,
    verificado: bool)

  /** The schema types the rating as a plain `Number`: bounded, not whole. */
  const CalificacionMinima: real := 1.0
  const CalificacionMaxima: real := 5.0
  const LongitudMaximaComentario: nat := 500

  /** What a stored review satisfies when it went through the schema. */
  predicate Valida(r: Resena) {
    && CalificacionMinima <= r.calificacion <= CalificacionMaxima
    && r.comentario != "" && Unpadded(r.comentario)
    && |r.comentario| <= LongitudMaximaComentario
  }

  /** The validator messages of a review whose comment already went through
      its `trim` setter, one per failing path. */
  function Errores(calificacion: real, comentario: string): (msgs: seq<string>)
    ensures msgs == [] <==>
      CalificacionMinima <= calificacion <= CalificacionMaxima
      && comentario != "" && |comentario| <= LongitudMaximaComentario
  {
    var cal :=
      if calificacion < CalificacionMinima then ["La calificación mínima es 1"]
      else if calificacion > CalificacionMaxima then ["La calificación máxima es 5"]
      else [];
    var com :=
      if comentario == "" then ["El comentario es obligatorio"]
      else if |comentario| > LongitudMaximaComentario then ["El comentario no puede exceder 500 caracteres"]
      else [];
    assert |cal + com| == |cal| + |com|;
    cal + com
  }

  /** Writing a review through the schema: the comment is trimmed, then the
      rating and comment validators run. `verificado` is whatever the caller
      determined; the schema's default is false. */
  function Escribir(usuario: Id, producto: Id, calificacion: real, comentario: string, verificado: bool)
    : (r: Result<Resena>)
    ensures r.Err? <==> Errores(calificacion, Trim(comentario)) != []
    ensures r.Err? ==> r.failure == Thrown(ValidationError(Errores(calificacion, Trim(comentario))))
    ensures r.Ok? ==> Valida(r.value)
    ensures r.Ok? ==> r.value == Resena(usuario, producto, calificacion, Trim(comentario), verificado)
  {
    var c := Trim(comentario);
    var msgs := Errores(calificacion, c);
    if msgs != [] then Err(Thrown(ValidationError(msgs)))
    else Ok(Resena(usuario, producto, calificacion, c, verificado))
  }

  /** The unique index on (usuario, producto): no two reviews share both. */
  predicate Unicas(m: map<Id, Resena>) {
    forall a, b :: a in m && b in m && a != b ==>
      !(m[a].usuario == m[b].usuario && m[a].producto == m[b].producto)
  }

  /** A review whose (user, product) pair no stored review has can be
      written without breaking the index. */
  lemma InsertarUnica(m: map<Id, Resena>, k: Id, r: Resena)
    requires Unicas(m)
    requires forall j :: j in m ==> !(m[j].usuario == r.usuario && m[j].producto == r.producto)
    ensures Unicas(m[k := r])
  {
  }

  /** Rewriting a review in place, same author and product, keeps the
      index unique. */
  lemma ReemplazarUnica(m: map<Id, Resena>, k: Id, r: Resena)
    requires Unicas(m) && k in m
    requires r.usuario == m[k].usuario && r.producto == m[k].producto
    ensures Unicas(m[k := r])
  {
    var m' := m[k := r];
    forall a, b | a in m' && b in m' && a != b
      ensures !(m'[a].usuario == m'[b].usuario && m'[a].producto == m'[b].producto)
    {
      assert m'[a].usuario == m[a].usuario && m'[a].producto == m[a].producto;
      assert m'[b].usuario == m[b].usuario && m'[b].producto == m[b].producto;
    }
  }

  /** The ids of the reviews of product `p`. */
  function DeProducto(m: map<Id, Resena>, p: Id): set<Id> {
    set k | k in m && m[k].producto == p
  }

  /** The ratings of product `p`'s reviews with id below `n`, in id order:
      what `$match: { producto }` feeds to `$group`. */
  function CalificacionesDe(m: map<Id, Resena>, n: nat, p: Id): (cs: seq<real>)
    ensures |cs| == |set k | k in DeProducto(m, p) && k < n|
    ensures (forall k :: k in m && k < n ==> k in DeProducto(m, p) ==> Valida(m[k]))
            ==> forall i :: 0 <= i < |cs| ==> CalificacionMinima <= cs[i] <= CalificacionMaxima
  {
    if n == 0 then
      assert (set k | k in DeProducto(m, p) && k < n) == {};
      []
    else
      var prev := CalificacionesDe(m, n - 1, p);
      var antes := set k | k in DeProducto(m, p) && k < n - 1;
      var ahora := set k | k in DeProducto(m, p) && k < n;
      if n - 1 in m && m[n - 1].producto == p then
        assert ahora == antes + {n - 1};
        assert n - 1 !in antes;
        prev + [m[n - 1].calificacion]
      else
        assert ahora == antes;
        prev
  }

  /** With every id below `n`, the enumeration sees every review of `p`. */
  lemma CalificacionesDeCuentaTodas(m: map<Id, Resena>, n: nat, p: Id)
    requires forall k :: k in m ==> k < n
    ensures |CalificacionesDe(m, n, p)| == |DeProducto(m, p)|
  {
    assert (set k | k in DeProducto(m, p) && k < n) == DeProducto(m, p);
  }

  /** `$sum` of the ratings. */
  function Suma(cs: seq<real>): real {
    if cs == [] then 0.0 else cs[0] + Suma(cs[1..])
  }

  lemma {:induction false} SumaAcotada(cs: seq<real>, lo: real, hi: real)
    requires forall i :: 0 <= i < |cs| ==> lo <= cs[i] <= hi
    ensures lo * (|cs| as real) <= Suma(cs) <= hi * (|cs| as real)
  {
    if cs != [] {
      SumaAcotada(cs[1..], lo, hi);
      assert lo * (|cs| as real) == lo + lo * (|cs[1..]| as real);
      assert hi * (|cs| as real) == hi + hi * (|cs[1..]| as real);
    }
  }

  /** `$avg` of the ratings; no reviews averages to 0. */
  function Promedio(cs: seq<real>): (r: real)
    ensures cs == [] ==> r == 0.0
    ensures cs != [] ==> r * (|cs| as real) == Suma(cs)
  {
    if cs == [] then 0.0 else Suma(cs) / (|cs| as real)
  }

  lemma CotaInferiorDiv(a: real, n: real, b: real)
    requires n > 0.0 && b * n <= a
    ensures b <= a / n
  {
  }

  lemma CotaSuperiorDiv(a: real, n: real, b: real)
    requires n > 0.0 && a <= b * n
    ensures a / n <= b
  {
  }

  /** A mean of ratings between 1 and 5 lies between 1 and 5. */
  lemma PromedioEntreLimites(cs: seq<real>)
    requires cs != []
    requires forall i :: 0 <= i < |cs| ==> CalificacionMinima <= cs[i] <= CalificacionMaxima
    ensures 1.0 <= Promedio(cs) <= 5.0
  {
    SumaAcotada(cs, CalificacionMinima, CalificacionMaxima);
    var n := |cs| as real;
    var a := Suma(cs);
    assert Promedio(cs) == a / n;
    CotaInferiorDiv(a, n, 1.0);
    CotaSuperiorDiv(a, n, 5.0);
  }

  /** `Math.round(mean * 10)`: JavaScript rounds halves upwards, so this is
      floor(10 * mean + 1/2). */
  function Decimas(cs: seq<real>): int {
    (Promedio(cs) * 10.0 + 0.5).Floor
  }

  /** The mean rounded to one decimal place, `Math.round(avg * 10) / 10`. */
  function PromedioRedondeado(cs: seq<real>): real {
    (Decimas(cs) as real) / 10.0
  }

  /** Rounding to one decimal moves the mean by at most five hundredths, and
      by strictly less downwards. */
  lemma RedondeoCercano(cs: seq<real>)
    ensures -0.05 < PromedioRedondeado(cs) - Promedio(cs) <= 0.05
  {
    var x := Promedio(cs) * 10.0 + 0.5;
    assert x.Floor as real <= x < x.Floor as real + 1.0;
  }

  /** With ratings between 1 and 5 the rounded mean stays between 1.0 and
      5.0: the tenths lie between 10 and 50. */
  lemma DecimasEntreLimites(cs: seq<real>)
    requires cs != []
    requires forall i :: 0 <= i < |cs| ==> CalificacionMinima <= cs[i] <= CalificacionMaxima
    ensures 10 <= Decimas(cs) <= 50
    ensures 1.0 <= PromedioRedondeado(cs) <= 5.0
  {
    PromedioEntreLimites(cs);
    var x := Promedio(cs) * 10.0 + 0.5;
    assert 10.5 <= x <= 50.5;
    assert x.Floor as real <= x < x.Floor as real + 1.0;
  }

  /** Number of ratings equal to `v`. */
  function Contar(cs: seq<real>, v: real): nat {
    if cs == [] then 0 else (if cs[0] == v then 1 else 0) + Contar(cs[1..], v)
  }

  lemma {:induction false} ContarAgregar(cs: seq<real>, x: real, v: real)
    ensures Contar(cs + [x], v) == Contar(cs, v) + (if x == v then 1 else 0)
  {
    if cs == [] {
      assert cs + [x] == [x];
    } else {
      assert (cs + [x])[1..] == cs[1..] + [x];
      ContarAgregar(cs[1..], x, v);
    }
  }

  /** The ids of `p`'s reviews below `n` whose rating is exactly `v`. */
  function ConEstrellas(m: map<Id, Resena>, n: nat, p: Id, v: real): set<Id> {
    set k | k in m && k < n && m[k].producto == p && m[k].calificacion == v
  }

  /** Counting a rating in the enumeration counts the reviews that gave it. */
  lemma {:induction false} ContarEstrellas(m: map<Id, Resena>, n: nat, p: Id, v: real)
    ensures Contar(CalificacionesDe(m, n, p), v) == |ConEstrellas(m, n, p, v)|
  {
    if n == 0 {
      assert ConEstrellas(m, n, p, v) == {};
    } else {
      ContarEstrellas(m, n - 1, p, v);
      var prev := CalificacionesDe(m, n - 1, p);
      var antes := ConEstrellas(m, n - 1, p, v);
      var ahora := ConEstrellas(m, n, p, v);
      if n - 1 in m && m[n - 1].producto == p {
        assert CalificacionesDe(m, n, p) == prev + [m[n - 1].calificacion];
        ContarAgregar(prev, m[n - 1].calificacion, v);
        if m[n - 1].calificacion == v {
          assert ahora == antes + {n - 1};
        } else {
          assert ahora == antes;
        }
      } else {
        assert CalificacionesDe(m, n, p) == prev;
        assert ahora == antes;
      }
    }
  }

  /** A whole number of stars. */
  predicate Entera(x: real) {
    x.Floor as real == x
  }

  /** Number of ratings that are not a whole number of stars. */
  function Fraccionarias(cs: seq<real>): nat {
    if cs == [] then 0 else (if Entera(cs[0]) then 0 else 1) + Fraccionarias(cs[1..])
  }

  /** No rating is fractional exactly when every rating is whole. */
  lemma {:induction false} FraccionariasCero(cs: seq<real>)
    ensures Fraccionarias(cs) == 0 <==> forall i :: 0 <= i < |cs| ==> Entera(cs[i])
  {
    if cs != [] {
      FraccionariasCero(cs[1..]);
      assert forall i :: 1 <= i < |cs| ==> cs[i] == cs[1..][i - 1];
    }
  }

  /** The per-product summary: mean, count and how many reviews gave each
      number of stars. */
  datatype Estadisticas = Estadisticas(
    calificacionPromedio: real,
    totalResenas: nat,
    cinco: nat,
    cuatro: nat,
    tres: nat,
    dos: nat,
    uno: nat)

  /** The `$group` stage: `$avg`, `$sum: 1`, and one
      `$cond: [{ $eq: ['$calificacion', k] }, 1, 0]` counter per whole number
      of stars. */
  function EstadisticasDe(cs: seq<real>): Estadisticas {
    Estadisticas(Promedio(cs), |cs|, Contar(cs, 5.0), Contar(cs, 4.0), Contar(cs, 3.0), Contar(cs, 2.0), Contar(cs, 1.0))
  }

  /** With every rating between 1 and 5, a review lands in a star counter
      exactly when its rating is whole: the five counters and the fractional
      ratings together make up the total. With no reviews every field is 0. */
  lemma {:induction false} EstrellasSumanTotal(cs: seq<real>)
    requires forall i :: 0 <= i < |cs| ==> CalificacionMinima <= cs[i] <= CalificacionMaxima
    ensures var e := EstadisticasDe(cs);
      e.uno + e.dos + e.tres + e.cuatro + e.cinco + Fraccionarias(cs) == e.totalResenas
    ensures cs == [] ==> EstadisticasDe(cs) == Estadisticas(0.0, 0, 0, 0, 0, 0, 0)
  {
    if cs != [] {
      EstrellasSumanTotal(cs[1..]);
      if Entera(cs[0]) {
        var k := cs[0].Floor;
        assert 1 <= k <= 5;
        assert cs[0] == k as real;
      }
    }
  }

  /** The counters add up to the total exactly when every rating is whole. */
  lemma EstrellasCompletasSiiEnteras(cs: seq<real>)
    requires forall i :: 0 <= i < |cs| ==> CalificacionMinima <= cs[i] <= CalificacionMaxima
    ensures var e := EstadisticasDe(cs);
      e.uno + e.dos + e.tres + e.cuatro + e.cinco == e.totalResenas
      <==> forall i :: 0 <= i < |cs| ==> Entera(cs[i])
  {
    EstrellasSumanTotal(cs);
    FraccionariasCero(cs);
  }

  /** A rating of four and a half stars is counted in the total and under no
      number of stars. */
  lemma MediaEstrellaNoSeCuenta()
    ensures var e := EstadisticasDe([4.5, 5.0]);
      e.totalResenas == 2 && e.cinco == 1 && e.cuatro == 0
      && e.uno + e.dos + e.tres + e.cuatro + e.cinco == 1
  {
    var cs := [4.5, 5.0];
    assert cs[1..] == [5.0] && cs[1..][1..] == [];
  }
}
