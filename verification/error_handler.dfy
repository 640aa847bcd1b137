/** The error middleware of `middleware/errorHandler.js`: how a forwarded
    error becomes a status code and the `error` string of an envelope whose
    `success` is always false. */
module ErrorHandler {
  import opened Common

  const MsgIdInvalido: string := "Recurso no encontrado. ID inválido."
  const MsgPorDefecto: string := "Error del servidor"
  const CodigoDuplicado: int := 11000

  /** The JSON answer: `success`, the status and the `error` string. */
  datatype Respuesta = Respuesta(success: bool, status: nat, error: string)

  /** `Object.keys(err.keyValue)[0]`, which is `undefined` when there is no
      key, and the message built from it. */
  function MsgDuplicado(keyValue: seq<string>): string {
    "El " + (if keyValue == [] then "undefined" else keyValue[0]) + " ya existe en la base de datos"
  }

  /** The error object after the three rewrites, each later test overriding
      an earlier one: its optional status and its message. */
  datatype Traducido = Traducido(statusCode: Option<int>, message: string)

  function Reescribir(e: DbError): (t: Traducido)
    ensures e.name == "ValidationError" ==> t == Traducido(Some(400), Join(e.messages, ", "))
    ensures e.name != "ValidationError" && e.code == Some(CodigoDuplicado)
            ==> t == Traducido(Some(400), MsgDuplicado(e.keyValue))
    ensures e.name != "ValidationError" && e.code != Some(CodigoDuplicado) && e.name == "CastError"
            ==> t == Traducido(Some(404), MsgIdInvalido)
    ensures e.name != "ValidationError" && e.code != Some(CodigoDuplicado) && e.name != "CastError"
            ==> t == Traducido(e.statusCode, e.message)
  {
    var copia := Traducido(e.statusCode, e.message);
    var t1 := if e.name == "CastError" then Traducido(Some(404), MsgIdInvalido) else copia;
    var t2 := if e.code == Some(CodigoDuplicado) then Traducido(Some(400), MsgDuplicado(e.keyValue)) else t1;
    if e.name == "ValidationError" then Traducido(Some(400), Join(e.messages, ", ")) else t2
  }

  /** `error.statusCode || 500` and `error.message || 'Error del servidor'`:
      a zero or missing status and an empty message fall back. */
  function Translate(e: DbError): (r: Respuesta)
    ensures !r.success
    ensures r.status != 0 && r.error != ""
    ensures e.name == "ValidationError" ==> r.status == 400 && (e.messages != [] && e.messages[0] != "" ==> r.error == Join(e.messages, ", "))
    ensures e.name != "ValidationError" && e.code == Some(CodigoDuplicado)
            ==> r == Respuesta(false, 400, MsgDuplicado(e.keyValue))
    ensures e.name != "ValidationError" && e.code != Some(CodigoDuplicado) && e.name == "CastError"
            ==> r == Respuesta(false, 404, MsgIdInvalido)
    ensures e.name != "ValidationError" && e.code != Some(CodigoDuplicado) && e.name != "CastError"
            ==> && r.status == (if e.statusCode.Some? && e.statusCode.value > 0 then e.statusCode.value else 500)
                && r.error == (if e.message != "" then e.message else MsgPorDefecto)
  {
    var t := Reescribir(e);
    var status := if t.statusCode.Some? && t.statusCode.value > 0 then t.statusCode.value else 500;
    var msg := if t.message != "" then t.message else MsgPorDefecto;
    Respuesta(false, status, msg)
  }

  /** How a handler failure reaches the client: an answer the handler gave
      itself, or the middleware's translation of a forwarded error. */
  function Responder(f: Failure): (r: Respuesta)
    ensures !r.success
    ensures f.Respond? ==> r.status == f.status && r.error == f.error
    ensures f.Thrown? ==> r == Translate(f.err)
  {
    match f
    case Respond(status, error) => Respuesta(false, status, error)
    case Thrown(e) => Translate(e)
  }

  /** Every schema-validation failure the handlers forward is a 400 whose
      message lists each validator message, joined by ", ". */
  lemma ValidacionEs400(msgs: seq<string>)
    requires msgs != [] && msgs[0] != ""
    ensures Responder(Thrown(ValidationError(msgs))) == Respuesta(false, 400, Join(msgs, ", "))
  {
  }

  /** A duplicate key is a 400 naming the first key, whatever name the
      error carries besides. */
  lemma DuplicadoEs400(key: string)
    ensures Responder(Thrown(DuplicateKey(key))) == Respuesta(false, 400, "El " + key + " ya existe en la base de datos")
  {
  }

  /** Among the three recognised kinds the validation test is last in the
      source, so it decides an error that matches more than one. */
  lemma PrecedenciaValidacion(e: DbError)
    requires e.name == "ValidationError" && e.code == Some(CodigoDuplicado)
    ensures Translate(e).status == 400
    ensures e.messages != [] && e.messages[0] != "" ==> Translate(e).error == Join(e.messages, ", ")
  {
  }
}
