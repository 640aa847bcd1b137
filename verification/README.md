# Tienda: a Dafny model of the e-commerce backend's business rules

This project models the request handlers of a small Express/Mongoose shop.
It covers users, categories, products, carts, orders and reviews, and proves
the rules those handlers enforce.

The whole database is one immutable value, `Tienda.Store`: one map per
collection keyed by document id, and the next id to hand out. Carts are keyed
by their owner's id, which is how the one-cart-per-user index is represented.

Every handler is a pure function from a store and a request to
`Ok(new store, …)` or `Err(failure)`. A failure carries no store, so a request
that fails never leaves a partial write behind. A failure is one of two kinds:

- `Respond(status, error)`: the handler answered by itself.
- `Thrown(DbError)`: the handler forwarded a schema or database error to the
  error middleware, whose translation (`ErrorHandler.Translate`) gives the
  status and message that errorHandler.js answers with.

Collections are read in id order (`Common.KeysBelow`). Under the invariant
`Tienda.IdsAcotados`, every id is below `nextId`, so that enumeration sees
every document.

Modules. The schema, middleware and controller modules each mirror one
source file; `Common`, `Tienda` and `Consultas` gather what several of
them share:

- `Common`: shared types and helpers.
- `Tienda`: the store and the stock writes.
- `Usuarios`, `Productos`, `Carritos`, `Pedidos`, `Resenas`: the schemas.
- `Consultas`: `find`/`sort`/`limit`.
- `Auth`, `ErrorHandler`: the middleware.
- `UsuarioController`, `ProductoController`, `CategoriaController`,
  `CarritoController`, `PedidoController`, `ResenaController`: one per
  controller.

Four behaviours of the code are easy to assume otherwise, and the model
keeps them as written:

- Creating a review writes the raw mean (`$avg`) onto the product. Only the
  schema's `calcularPromedioCalificacion` rounds it to one decimal.
- Updating a review does not recompute the product's aggregate, and neither
  does deleting one.
- Adding to, changing, removing from and emptying a cart are owner-only,
  with no administrator exemption. Only the totals are open to
  administrators.
- The administrator's status update moves an order from any of the five
  states to any other.

Ratings are plain numbers, as the schema's `Number` type allows, so a rating
of 4.5 is valid. The star statistics count such a review in the total and
under no number of stars (`Resenas.EstrellasSumanTotal`).

External services are parameters of the model:

- JWT signing and verification: `firmar: Id -> string` and
  `verificar: string -> Verificacion`.
- bcrypt hashing and comparison: `hash` and `comparar`.

## Model

| member | source | states |
|---|---|---|
| Common.Trim | models/Producto.js:4-13 | the `trim` setter: the result has no white space at either end, uses only characters of the input, and is empty exactly when the input is blank |
| Common.TrimRecorta | models/Producto.js:4-13 | the `trim` setter's result is the input with a blank prefix and a blank suffix cut off and the middle kept character for character |
| Common.TrimIdempotent | models/Usuario.js:5-9 | trimming an already trimmed value changes nothing |
| Common.ToLowerAscii | models/Usuario.js:10-17 | the `lowercase` setter maps each capital A-Z to its small letter and leaves every other character where it was, so the result has no capital letter |
| Tienda.AjustarStock | controllers/pedidoController.js:72-75 | one `$inc` on a product's stock changes only that product's stock, by exactly the delta; a missing id changes nothing |
| Tienda.DescontarStock | controllers/pedidoController.js:71-76 | the decrement loop takes off each product exactly the total quantity the cart lines ask of it; no product appears or disappears |
| Tienda.DevolverStock | controllers/pedidoController.js:314-319 | the restoring loop gives each product back exactly the quantity the order lines hold of it |
| Usuarios.ParseRol | models/Usuario.js:35-39 | a role string is accepted exactly when it is "cliente" or "admin", and the parsed role prints back as that string |
| Usuarios.ParseRolNombre | models/Usuario.js:35-39 | every role survives printing and parsing |
| Usuarios.ConPaisPorDefecto | models/Usuario.js:28-34 | the stored address always has a country, "Argentina" when none was sent, and keeps every other field sent |
| Usuarios.NormalizarEmail | models/Usuario.js:14-15 | the stored e-mail is the lower-cased input trimmed, so it has no padding and no capital letter |
| Usuarios.NormalizarRecorte | models/Usuario.js:14-15 | the stored e-mail is the input with its white-space margins cut off and every character of the middle lower-cased |
| Usuarios.RecorteDeMinusculas | models/Usuario.js:14-15 | trimming after lower-casing equals lower-casing the input's middle, the margins being blank in the input itself |
| Usuarios.SinMayusculasTrim | models/Usuario.js:14-15 | trimming after lowercasing brings back no capital letter |
| Usuarios.EmailFormaEjemplos | models/Usuario.js:16 | the e-mail pattern accepts "ana@tienda.com" and rejects a missing dot part, a missing local part and an inner space |
| Usuarios.Errores | models/Usuario.js:4-43 | a new user has no validation message exactly when the trimmed name is non-empty, the normalised e-mail is non-empty and well formed, the password has at least 6 characters and the role is in the enumeration |
| Usuarios.PasswordHasheadaUnaVez | models/Usuario.js:49-55 | saving again without touching the password keeps the hash of the plain password, so it is never hashed twice |
| Usuarios.Crear | models/Usuario.js:3-55 | `Usuario.create` fails with the validator messages exactly when there are any; otherwise the user has the trimmed name, the normalised valid e-mail, the hashed password, the requested role, is active and has a country |
| Productos.Errores | models/Producto.js:3-29 | a new product has no validation message exactly when its trimmed name and description are present, the price is present and not negative, a given stock is not negative and the category is present |
| Productos.Crear | models/Producto.js:3-50 | `Producto.create` fails exactly on validator messages; a created product is valid, keeps price and category, and gets stock 0, the placeholder image, active, and zero rating and count by default |
| Productos.ErroresGuardado | models/Producto.js:4-24 | re-validating a loaded product fails exactly when a required string is empty or the price or stock is negative; a negative stock always reports the stock message |
| Carritos.Nuevo | models/Carrito.js:21-32 | a new cart is active, meets the line invariants, asks for nothing of any product and totals 0 |
| Carritos.CalcularTotal | models/Carrito.js:38-42 | `calcularTotal`: with no negative price or quantity, every line's subtotal is non-negative and at most the total |
| Carritos.CalcularTotalConcat | models/Carrito.js:38-42 | the total of two line lists put together is the sum of their totals |
| Carritos.CalcularTotalNoNegativo | models/Carrito.js:38-42 | with non-negative prices and quantities the total is not negative, and no lines total 0 |
| Carritos.CantidadDeAusente | models/Carrito.js:3-19 | a product no line mentions is asked for nothing |
| Carritos.CantidadDeUnica | models/Carrito.js:9-14 | with one line per product, a product is asked for exactly its line's quantity |
| Carritos.Posicion | controllers/carritoController.js:155-157 | `find` on the lines: the first line for the product, or none exactly when no line has it |
| Carritos.CantidadDeAgregar | controllers/carritoController.js:184-195 | appending a line adds its quantity to its own product only |
| Carritos.CantidadDeReemplazar | controllers/carritoController.js:170-181 | rewriting a line trades its old quantity for the new one, for its product only |
| Carritos.AgregarLineaValida | models/Carrito.js:9-14 | appending a line for a product not yet in the cart, with at least one unit, keeps the line invariants |
| Carritos.ReemplazarLineaValida | models/Carrito.js:9-14 | rewriting a line in place for the same product, with at least one unit, keeps the line invariants |
| Carritos.Quitar | controllers/carritoController.js:298-306 | `$pull` removes every line for the product, keeps only lines that were there, and leaves every other product's quantity |
| Carritos.QuitarConcat | controllers/carritoController.js:298-306 | `$pull` works line by line: removing from two lists put together is removing from each, so the kept lines keep their order |
| Carritos.QuitarLinea | controllers/carritoController.js:298-306 | a single line is removed exactly when it is for the product; with the line-by-line lemma this determines the result for every cart |
| Carritos.QuitarAusente | controllers/carritoController.js:298-306 | a cart with no line for the product is left exactly as it was |
| Carritos.QuitarValida | models/Carrito.js:9-14 | removing lines keeps the line invariants |
| Pedidos.ParseEstado | models/Pedido.js:37-41 | a status string is accepted exactly when it is one of the five states, and prints back as itself |
| Pedidos.ParseEstadoNombre | models/Pedido.js:37-41 | every state survives printing and parsing |
| Pedidos.ParseMetodoPago | models/Pedido.js:42-46 | a payment method is accepted exactly when it is one of the four methods, and prints back as itself |
| Pedidos.ParseMetodoPagoNombre | models/Pedido.js:42-46 | every payment method survives printing and parsing |
| Pedidos.ErroresItems | models/Pedido.js:10-14 | the order lines raise no message exactly when every quantity is at least 1 |
| Pedidos.Errores | models/Pedido.js:25-46 | an order raises no message exactly when every line quantity is at least 1, the total is at least 0 and the payment method is in the enumeration |
| Resenas.Errores | models/Resena.js:14-25 | a review raises no message exactly when the rating is between 1 and 5 and the comment is non-empty and at most 500 characters |
| Resenas.Escribir | models/Resena.js:3-29 | writing a review fails exactly on those messages; a written review is valid and stores the trimmed comment |
| Resenas.InsertarUnica | models/Resena.js:35 | a review for a (user, product) pair nobody has yet keeps the unique index |
| Resenas.ReemplazarUnica | models/Resena.js:35 | rewriting a review in place with the same author and product keeps the unique index |
| Resenas.CalificacionesDe | models/Resena.js:39-48 | the `$match` on the product yields one rating per review of the product, each between 1 and 5 when the reviews are valid |
| Resenas.CalificacionesDeCuentaTodas | models/Resena.js:44 | with every id below the bound, the count of ratings is the number of the product's reviews |
| Resenas.Promedio | models/Resena.js:45 | `$avg`: the mean times the count is the sum, and no ratings average to 0 |
| Resenas.PromedioEntreLimites | models/Resena.js:14-19 | the mean of ratings between 1 and 5 is between 1 and 5 |
| Resenas.RedondeoCercano | models/Resena.js:53 | rounding to one decimal moves the mean by at most 0.05 up and by less than 0.05 down |
| Resenas.DecimasEntreLimites | models/Resena.js:53 | the rounded mean of valid ratings stays between 1.0 and 5.0 |
| Resenas.ContarEstrellas | controllers/resenaController.js:152-156 | each star counter equals the number of the product's reviews with exactly that rating |
| Resenas.EstrellasSumanTotal | controllers/resenaController.js:145-158 | with ratings between 1 and 5 (as the schema demands), the five `$eq` counters plus the number of fractional ratings make up the total; with no reviews every field is 0 |
| Resenas.FraccionariasCero | controllers/resenaController.js:152-156 | no rating is fractional exactly when every rating is a whole number of stars |
| Resenas.EstrellasCompletasSiiEnteras | controllers/resenaController.js:145-158 | the five counters add up to the total exactly when every rating is whole |
| Resenas.MediaEstrellaNoSeCuenta | controllers/resenaController.js:145-158 | a product rated 4.5 and 5 has a total of 2 but only one review in the star counters, under five stars |
| Auth.PrimerEspacio | middleware/auth.js:10 | the index of the first space, with no space before it, or none exactly when there is no space |
| Auth.Campos | middleware/auth.js:10 | `split(' ')` gives at least one piece and no piece contains a space |
| Auth.UnirCampos | middleware/auth.js:10 | joining the pieces with single spaces gives the header back |
| Auth.PrimerEspacioTras | middleware/auth.js:10 | in "a b" with no space in a, the first space is the one right after a |
| Auth.CamposTras | middleware/auth.js:10 | a piece without spaces followed by a space splits off as the first piece |
| Auth.PrimerCampo | middleware/auth.js:10 | a piece without spaces, then the end or a space, is the first piece |
| Auth.SegundoCampo | middleware/auth.js:10 | after a first piece and a space, the second piece is the text up to the next space |
| Auth.ExtraerToken | middleware/auth.js:9-11 | a token is read only from a header starting with "Bearer"; it is the second piece, non-empty and without spaces |
| Auth.TokenDeCabecera | middleware/auth.js:9-11 | the header "Bearer t", possibly followed by more space-separated text, yields exactly t |
| Auth.ProtegerRuta | middleware/auth.js:5-56 | every rejection is a 401; no token, expired, invalid, unknown user and inactive user each get their own message; the request passes exactly when the token names an active stored user, whose id, role and address are attached |
| Auth.MensajeRevelaCausa | middleware/auth.js:9-54 | a request passes exactly when none of the checks, run in order, fails; a rejection's message tells which check failed, since the five messages are distinct |
| Auth.VerificarRol | middleware/auth.js:59-77 | no user is 401, a role outside the list is 403 naming the role, and otherwise the caller passes unchanged |
| Auth.SoloAdministradores | middleware/auth.js:59-77 | behind both gates a request passes exactly when the token names an active administrator; every other request is stopped with 401 or 403 |
| ErrorHandler.Reescribir | middleware/errorHandler.js:9-26 | the three rewrites in source order: a validation error wins over a duplicate key, which wins over a cast error; any other error keeps its own status and message |
| ErrorHandler.Translate | middleware/errorHandler.js:2-32 | the answer never has success set and always has a status and a message: the rewritten ones, or 500 and "Error del servidor" |
| ErrorHandler.ValidacionEs400 | middleware/errorHandler.js:23-26 | a validation error is a 400 whose message joins the validator messages with ", " |
| ErrorHandler.DuplicadoEs400 | middleware/errorHandler.js:16-20 | a duplicate key is a 400 naming the key |
| ErrorHandler.PrecedenciaValidacion | middleware/errorHandler.js:16-26 | an error that is both a validation error and a duplicate key is answered as a validation error |
| Consultas.Seleccionar | controllers/productoController.js:68 | `find(filtro)` returns exactly the stored documents the filter accepts, with their current records, in id order |
| Consultas.Insertar | controllers/productoController.js:70 | one insertion step adds exactly the new row and drops none |
| Consultas.InsertarOrdenado | controllers/productoController.js:70 | inserting into a sorted list keeps it sorted |
| Consultas.CabezaPrecede | controllers/productoController.js:70 | the head of a sorted list precedes everything inserted behind it |
| Consultas.Ordenar | controllers/productoController.js:70 | `sort` returns a permutation of its input, sorted by the key |
| Consultas.InsertarDistinto | controllers/productoController.js:70 | inserting a document not yet listed lists no document twice |
| Consultas.OrdenarDistinto | controllers/productoController.js:70 | sorting lists no document twice when its input did not |
| Consultas.InsertarEstable | controllers/productoController.js:70 | one insertion step puts the new row ahead of every row with its key and keeps the order of the rows of every key |
| Consultas.OrdenarEstable | controllers/productoController.js:70 | sorting is stable: for every key, the rows with that key come out in their input order |
| Consultas.Consulta | controllers/productoController.js:68-70 | `find(...).sort(...)`: every accepted document exactly once, with its record, sorted |
| Consultas.Limitar | controllers/productoController.js:98-100 | `$limit: n` keeps exactly the first n rows when there are more, and everything when there are fewer |
| Consultas.LimitarConservaLosPrimeros | controllers/productoController.js:95-100 | a row the limit drops from a sorted list is preceded by every row kept, and the limit is full |
| Consultas.LimitarOrdenado | controllers/productoController.js:95-100 | limiting keeps the order and lists no document twice |
| ProductoController.CrearProducto | controllers/productoController.js:6-17 | creation fails exactly on the schema messages; otherwise exactly one valid product is added under the fresh id with the requested price, category, active flag and stock |
| ProductoController.CrearProductoConservaStock | controllers/productoController.js:6-17 | creating a product keeps every stock non-negative |
| ProductoController.ParseOperacion | controllers/productoController.js:170-185 | only the three exact operation names are known, and each prints back as itself |
| ProductoController.ParseOperacionNombre | controllers/productoController.js:170-185 | every operation survives printing and parsing |
| ProductoController.ActualizarStock | controllers/productoController.js:156-210 | a missing or zero stock or a missing operation is 400; an unknown operation is 400; a negative `establecer` fails validation before the lookup; a missing product is 404; otherwise only that product's stock changes, by +n, by -n or to n |
| ProductoController.IncrementarDecrementarRestaura | controllers/productoController.js:170-176 | decrementing by what was just incremented gives the store back |
| ProductoController.EstablecerIdempotente | controllers/productoController.js:177-179 | setting the stock to the same value twice is the same as once |
| ProductoController.ActualizarStockConservaNoNegativo | controllers/productoController.js:170-179 | `establecer` and a positive `incrementar` keep every stock non-negative |
| ProductoController.DecrementarBajoCero | controllers/productoController.js:174-176 | a decrement larger than the stock is accepted and leaves it negative, after which the soft delete of that product fails on the stock validator |
| ProductoController.EliminarProducto | controllers/productoController.js:245-268 | a missing product is 404; a product the validators reject cannot be saved; otherwise the product stays stored with only its active flag cleared |
| ProductoController.EliminarIdempotente | controllers/productoController.js:257-258 | deleting twice is deleting once |
| ProductoController.FiltrarProductos | controllers/productoController.js:42-80 | the listing holds exactly the active products that satisfy each given bound and brand, once each, cheapest first; with a non-empty brand every listed product carries the trimmed query brand |
| ProductoController.MarcaRecortada | controllers/productoController.js:60-62 | the `$eq` brand value is cast through the schema's `trim` setter, so a padded non-blank brand selects the same products as the trimmed one |
| ProductoController.ProductosTopResenas | controllers/productoController.js:85-127 | at most ten active reviewed products, most reviews first and then the higher mean, once each; a reviewed product left out ranks no higher than any listed one |
| ProductoController.RangoTop | controllers/productoController.js:95-100 | the ten kept rows are in rank order and any row cut off ranks no higher than each of them |
| ProductoController.EliminadoNoSeLista | controllers/productoController.js:47-92 | a soft-deleted product appears in neither listing |
| ProductoController.CreadoSeLista | controllers/productoController.js:47-70 | a newly created active product appears in the unfiltered listing |
| CategoriaController.CrearCategoria | controllers/categoriaController.js:16-41 | a missing or blank name is 400; a name in use is 400; otherwise exactly one active category with the trimmed name is added under the fresh id |
| CategoriaController.CrearCategoriaNombresUnicos | controllers/categoriaController.js:27-38 | creating a category keeps names unique |
| CategoriaController.NombreActualizado | controllers/categoriaController.js:129 | the stored name has no padding, uses only characters that were sent, and is empty exactly when a blank name was sent |
| CategoriaController.ActualizarCategoria | controllers/categoriaController.js:123-148 | a missing category is 404; a name another category has is 400; otherwise only that category changes, to the fields sent |
| CategoriaController.ActualizarCategoriaNombresUnicos | controllers/categoriaController.js:131-145 | updating a category keeps names unique |
| CategoriaController.EliminarCategoria | controllers/categoriaController.js:153-176 | a missing category is 404; while active products use it the delete is 400 and reports their count; otherwise only the category is removed, and no active product refers to it |
| CategoriaController.TotalAgregar | controllers/categoriaController.js:88 | the total over rows plus one more row grows by that row's count |
| CategoriaController.ContadosPaso | controllers/categoriaController.js:61-84 | moving past a category adds exactly its active products when it is active, none of them counted before |
| CategoriaController.EstadisticasHasta | controllers/categoriaController.js:60-86 | one row per active category below the bound, each counting that category's active products |
| CategoriaController.TotalHasta | controllers/categoriaController.js:60-88 | the rows' total counts every active product of an active category exactly once |
| CategoriaController.EstadisticasCategorias | controllers/categoriaController.js:58-93 | every row is an active category with its count of active products, and the total is the sum of the rows |
| CategoriaController.EstadisticasCuentanActivos | controllers/categoriaController.js:60-88 | every active category has its row, and the total is the number of active products in active categories |
| UsuarioController.PrimeroConEmail | controllers/usuarioController.js:67 | `findOne({ email })` returns a user with that e-mail, and finds one whenever one is listed |
| UsuarioController.BuscarPorEmail | controllers/usuarioController.js:67 | the lookup returns a user with that e-mail, and one is found whenever the e-mail is in use |
| UsuarioController.BuscarEncuentraUnico | controllers/usuarioController.js:67 | with e-mails unique, the lookup returns exactly the one user holding the e-mail |
| UsuarioController.RolSolicitado | controllers/usuarioController.js:27 | `rol || 'cliente'`: the requested role passes the enumeration exactly when it was omitted, empty, "cliente" or "admin", and an omitted role is the client role |
| UsuarioController.Alta | controllers/usuarioController.js:21-31 | the insert adds exactly the new user and an empty cart under the fresh id; with ids bounded it overwrites no user or cart, and no other collection changes |
| UsuarioController.Registrar | controllers/usuarioController.js:8-49 | missing fields are 400; schema failures are forwarded; a taken e-mail is a duplicate key; otherwise exactly the new user and an empty cart are added under the fresh id, with the normalised e-mail, the hashed password, the requested role ("cliente" by default), active, and a token for that id |
| UsuarioController.RegistrarAceptaSii | controllers/usuarioController.js:13-31 | registration succeeds exactly when the three fields are present, the schema accepts them and the e-mail is not taken |
| UsuarioController.AltaConservaInvariantes | controllers/usuarioController.js:21-31 | adding a user with an unused e-mail and a cart keeps ids bounded, e-mails unique and every user with a cart |
| UsuarioController.RegistrarConservaInvariantes | controllers/usuarioController.js:21-31 | registration keeps ids bounded, e-mails unique and every user with a cart |
| UsuarioController.RegistroPermiteAdmin | controllers/usuarioController.js:27 | a registration that asks for "admin" creates an administrator |
| UsuarioController.Login | controllers/usuarioController.js:54-102 | missing fields are 400; an unknown e-mail and a wrong password give the same 401; success names the stored user with that e-mail whose hash the password matches, and a token for that user |
| UsuarioController.LoginAceptaSii | controllers/usuarioController.js:67-84 | with e-mails unique, login succeeds exactly when a stored user has the normalised e-mail and the password matches their hash |
| UsuarioController.LoginAceptaUsuario | controllers/usuarioController.js:67-84 | with e-mails unique, the stored user with the normalised e-mail whose hash matches the password is the one login lets in, with their token |
| UsuarioController.RegistrarLuegoLogin | controllers/usuarioController.js:54-102 | whoever just registered logs in with the same e-mail and password and gets the same token |
| UsuarioController.UnicoConEmail | controllers/usuarioController.js:67 | after adding a user with an unused e-mail, that e-mail finds the new user |
| UsuarioController.RegistrarLuegoAutenticar | controllers/usuarioController.js:34 | the registration token, sent as "Bearer <token>", passes the authentication gate for the new user with their role |
| UsuarioController.EsSubcadena | controllers/usuarioController.js:138-145 | the substring test holds exactly when the pattern occurs at some position |
| UsuarioController.Buscar | controllers/usuarioController.js:140-148 | the scan returns exactly the listed active users whose lower-cased name or e-mail contains the lower-cased pattern |
| UsuarioController.BuscarUsuarios | controllers/usuarioController.js:127-158 | a missing or blank term is 400; otherwise exactly the active users matching the trimmed term, ignoring case |
| UsuarioController.BuscarEncuentraPorNombre | controllers/usuarioController.js:138-145 | an active user whose name equals the term, ignoring case, is found |
| UsuarioController.CoincidePorNombre | controllers/usuarioController.js:138-145 | an active user whose name equals the pattern, ignoring case, matches it |
| UsuarioController.ErroresCambios | controllers/usuarioController.js:219-226 | the update validators pass exactly when a sent name is non-blank after trimming and a sent role is in the enumeration |
| UsuarioController.ActualizarUsuario | controllers/usuarioController.js:194-242 | a non-administrator sending a role is 403, and so is a non-administrator updating someone else; it succeeds exactly when the caller may, the sent name and role pass the validators and the user exists; a success changes only that user, never in e-mail or password, and the role only when an administrator sent one |
| UsuarioController.ActualizarConservaInvariantes | controllers/usuarioController.js:196-221 | an update keeps e-mails unique and every user with a cart |
| UsuarioController.ClienteNoEscalaRol | controllers/usuarioController.js:199-217 | a client can update only themselves and never changes a role |
| UsuarioController.EliminarUsuario | controllers/usuarioController.js:247-272 | a missing user is 404; otherwise exactly that user and their cart are removed, and orders, reviews and products stay |
| UsuarioController.EliminarConservaInvariantes | controllers/usuarioController.js:259-262 | deleting keeps every remaining user with a cart and e-mails unique, and the deleted user no longer passes authentication |
| CarritoController.AgregarAlCarritoOriginal | controllers/carritoController.js:113-209 | add as written: 403 for another user's cart, 404 for a missing or inactive product, 400 when the requested or merged quantity exceeds stock; otherwise only the caller's cart changes, by merging into the product's line or appending one, at the current price |
| CarritoController.AgregarOriginalAceptaCero | controllers/carritoController.js:136-195 | as written, adding 0 units is accepted and stores a line of zero units, breaking the line invariant |
| CarritoController.AgregarAlCarrito | controllers/carritoController.js:113-209 | add with the quantity check: below 1 is 400; every accepted add is the as-written add |
| CarritoController.AgregarPreservaLineas | controllers/carritoController.js:155-195 | adding keeps the line invariants, raises the product's quantity by exactly the amount added, keeps the other products' quantities, and adds a line only for a new product |
| CarritoController.ActualizarItemCarrito | controllers/carritoController.js:214-280 | 403 for another user's cart; a missing quantity or one below 1 is 400; a missing product is 404; too little stock is 400; a cart without the line is 404; otherwise that line gets the quantity and the current price |
| CarritoController.ActualizarItemPreservaLineas | controllers/carritoController.js:252-264 | setting a quantity keeps the line invariants, makes the cart hold exactly that quantity of the product and keeps the other quantities and the number of lines |
| CarritoController.EliminarDelCarrito | controllers/carritoController.js:285-323 | 403 for another user's cart, 404 for no cart; otherwise the product's lines go, the others keep their quantities, and stock is untouched |
| CarritoController.EliminarPreservaLineas | controllers/carritoController.js:298-306 | removing a product keeps the line invariants |
| CarritoController.VaciarCarrito | controllers/carritoController.js:328-361 | 403 for another user's cart, 404 for no cart; otherwise the cart loses every line and nothing else changes |
| CarritoController.CantidadTotalConcat | controllers/carritoController.js:76 | the quantity sum over two line lists put together is the sum of the two |
| CarritoController.CantidadTotal | controllers/carritoController.js:76 | with no negative quantity, the sum of quantities is non-negative and no line holds more units than it |
| CarritoController.CalcularTotalCarrito | controllers/carritoController.js:49-108 | the owner or an administrator gets the price-times-quantity total, the number of lines, the sum of quantities and each line's subtotal; no cart or no lines gives all zeros; anyone else is 403 |
| CarritoController.TotalesCoherentes | models/Carrito.js:12 | in a valid cart the number of units is at least the number of lines |
| PedidoController.VerificarLineas | controllers/pedidoController.js:31-46 | the availability pass fails with a 400 exactly when some line's product is missing or inactive or has less stock than the line asks |
| PedidoController.Instantanea | controllers/pedidoController.js:49-55 | each order line copies the cart line's product, quantity and snapshot price, the product's current name, and has subtotal price times quantity |
| PedidoController.InstantaneaTotal | controllers/pedidoController.js:58 | the order lines' subtotals add up to the cart's `calcularTotal` |
| PedidoController.InstantaneaCantidades | controllers/pedidoController.js:49-55 | the order holds of each product exactly what the cart asked of it |
| PedidoController.Pedir | controllers/pedidoController.js:61-82 | the writes: a pending order for the caller under the fresh id, with the snapshot lines, the cart's total, the method, the sent address or the caller's, and the notes; each product's stock drops by its cart quantity; the cart is emptied; users, categories and reviews are unchanged |
| PedidoController.CrearPedido | controllers/pedidoController.js:9-96 | a missing method is 400, an empty or missing cart is 400, an unavailable line is 400; a success is exactly the writes above with the parsed method |
| PedidoController.CrearPedidoAceptaSii | controllers/pedidoController.js:13-68 | an order is placed exactly when a method is sent, the cart has lines, every line is available with at least one unit, the total is not negative and the method is in the enumeration |
| PedidoController.ErroresInstantanea | controllers/pedidoController.js:61-68 | the order schema accepts a cart's snapshot exactly when every quantity is at least 1, the total is not negative and the method is valid |
| PedidoController.CrearPedidoConservaStock | controllers/pedidoController.js:31-76 | with one line per product, placing an order never drives a stock negative |
| PedidoController.CancelarPedido | controllers/pedidoController.js:286-333 | a missing order is 404; neither owner nor administrator is 403; a state other than pending or processing is 400 naming it; otherwise each line's quantity goes back to stock, the order becomes cancelled and nothing else changes |
| PedidoController.DescontarYDevolver | controllers/pedidoController.js:314-319 | putting back an order's line quantities undoes taking out its cart's quantities, for every product |
| PedidoController.DescontarYDevolverEn | controllers/pedidoController.js:314-319 | the same for one product |
| PedidoController.CrearYCancelarRestauraStock | controllers/pedidoController.js:286-333 | placing an order and cancelling it at once restores every product's stock and leaves the order cancelled |
| PedidoController.PedirYCancelar | controllers/pedidoController.js:298-323 | cancelling right after the order writes succeeds, restores the stock and leaves the order cancelled |
| PedidoController.ActualizarEstadoPedido | controllers/pedidoController.js:242-281 | a missing or unknown state is 400 before the lookup; a missing order is 404; otherwise only that order's state changes, to the state named |
| PedidoController.EstadoSinTransiciones | controllers/pedidoController.js:246-258 | any order can be moved to any state, a delivered one back to pending included |
| PedidoController.EjemploPedido | controllers/pedidoController.js:49-82 | two units at 10.00 and one at 5.00 make an order of 25.00, the products lose 2 and 1 units and the cart is emptied |
| ResenaController.BuscarCompra | controllers/resenaController.js:59-64 | the purchase pipeline finds a match exactly when one of the scanned orders is the user's, shipped or delivered, and has a line for the product |
| ResenaController.VerificadoSiiCompra | controllers/resenaController.js:59-66 | the verified flag is true exactly when some shipped or delivered order of the user includes the product |
| ResenaController.FijarAgregado | controllers/resenaController.js:91-93 | the `$set` writes the count and mean onto that product only |
| ResenaController.CrearResena | controllers/resenaController.js:20-103 | missing fields are 400, an unknown product is 404, a second review of the pair is 400, schema failures are forwarded; otherwise one review with the verified flag is added under the fresh id, and only that product changes, to its review count and raw mean |
| ResenaController.CrearResenaInvariantes | controllers/resenaController.js:45-93 | creating a review keeps ids bounded and reviews unique and valid; the product's count is its number of reviews, at least 1, and its mean is between 1 and 5 |
| ResenaController.InsertarResena | controllers/resenaController.js:69-74 | writing a valid review for an unreviewed pair under the fresh id keeps ids bounded and reviews unique and valid |
| ResenaController.AgregadoTrasInsertar | controllers/resenaController.js:78-93 | a product with a review is counted over all its reviews, and its mean is between 1 and 5 |
| ResenaController.ActualizarResena | controllers/resenaController.js:254-280 | a missing review is 404, someone else's is 403 (administrators included); an omitted field keeps its value; only that review changes, still valid; no product changes |
| ResenaController.ActualizarResenaInvariantes | controllers/resenaController.js:268-272 | updating a review keeps reviews unique and valid and changes no product |
| ResenaController.EliminarResena | controllers/resenaController.js:285-303 | a missing review is 404; neither author nor administrator is 403; otherwise exactly that review is removed and nothing else changes |
| ResenaController.EliminarLiberaResena | controllers/resenaController.js:297 | after a delete the author may review the product again |
| ResenaController.CalcularPromedioCalificacion | models/Resena.js:38-61 | with reviews, the product gets their count and their mean rounded to one decimal; with none, both are reset to 0; no other product changes |
| ResenaController.PromedioCalificacionCorrecto | models/Resena.js:50-59 | the recomputed count is the number of the product's reviews, and the rounded mean is between 1.0 and 5.0 and within 0.05 of the exact mean |
| ResenaController.EstadisticasResenas | controllers/resenaController.js:145-168 | each star counter counts the product's reviews with exactly that whole rating; with valid reviews the counters plus the fractional ratings make up the total, and the counters alone do exactly when every rating is whole; with none every field is 0 |

## Left out

- The error handler that server.js actually mounts (server.js:47-67) and the
  route tables. They are Express wiring; `ErrorHandler` models
  middleware/errorHandler.js instead.
- Concurrency. Each handler is one atomic transition. In the code, the order
  writes (order, stock decrements, cart clear) and the cart merge
  (read, then write) are separate database calls. Concurrent requests could
  interleave with them or see them half done.
- The `post('save')` and `post('remove')` hooks of the review schema. The
  save hook is not awaited, and whether the remove hook fires after
  `deleteOne` depends on the library version. `CalcularPromedioCalificacion`
  models the static they call, and no handler is assumed to run it.
- ObjectId parsing (`asObjectId`) and CastError 404s from malformed ids. Ids
  are opaque naturals here.
- Read-only handlers: the plain list and get handlers, the order statistics
  and the top-rated join. `obtenerResenasPorProducto` is modelled only
  through its statistics (`EstadisticasResenas`).
- `actualizarProducto` (controllers/productoController.js:215-240): a generic
  `$set` of the body. It is not one of the rules modelled here.
- The category schema file is not part of this model. A category is a name,
  an optional description and an active flag. Its unique name is modelled
  through the lookup and the duplicate-key answer.
- Sort orders that only shape a response: the statistics rows' order, the
  search results' name order, and the order of equal prices in the filter.
  Equal prices keep id order there, because the model's sort is stable
  (`Consultas.OrdenarEstable`).
- `buscarUsuarios` compiles the term as a regular expression. The model
  treats it as a literal substring. Case folding is ASCII-only throughout,
  and strings are sequences of code points.
- Carritos.CalcularTotal: prices are whole cents and quantities whole
  units. The schema's `Number` fields also accept fractional values, and the
  code multiplies and adds them in floating point. Neither fractions nor that
  rounding is modelled, so the totals here are exact.
- PedidoController.InstantaneaTotal: the same whole-cent assumption holds for
  the order lines' subtotals and the order total.
- ProductoController.ActualizarStock: stock and the patch amount are whole
  units. The code would also accept a fractional amount.
- `parseFloat`/`parseInt` on string query and body values. The numeric
  parameters arrive already parsed.
- `GuardarPassword`'s bcrypt salt. `hash` is one fixed function.
- ProductoController.FiltrarProductos: does not model `parseFloat` of a
  non-numeric bound (NaN), which in the code matches no product.
- UsuarioController.Registrar: when creating the user's cart fails after the
  user was written, the code leaves the user without a cart. The model
  rejects the whole registration with the duplicate-key error instead. Ids
  being fresh, that branch cannot occur under `IdsAcotados`.
- The cart line's `cantidad` default of 1. Requests carry an explicit
  integer quantity.
- `activo` of a cart is stored but never read by the handlers.
- The password's `select: false` read restriction. It is a response-shaping
  rule.
- `direccionEnvio`'s sub-fields are not validated. `telefono` is trimmed
  and then not used by any rule. `marca` is trimmed and read only by the
  brand filter (`ProductoController.CoincideMarca`).
- PedidoController.VerificarLineas: states the 400 status of a failing line,
  not the exact text of the first failing line's message.

## Findings

| source | as written | input that shows it | evidently intended | confidence | as-written member | corrected member |
|---|---|---|---|---|---|---|
| controllers/carritoController.js:113-195 | `agregarAlCarrito` never checks the requested quantity, and `updateOne` runs no validators, so the schema's `min: 1` is not applied | an active product with stock 5 and `cantidad: 0` adds a line of 0 units, and a negative quantity also passes the stock check | reject a quantity below 1 with 400, as `actualizarItemCarrito` does | not executed | CarritoController.AgregarAlCarritoOriginal (counterexample CarritoController.AgregarOriginalAceptaCero) | CarritoController.AgregarAlCarrito (invariant CarritoController.AgregarPreservaLineas) |
