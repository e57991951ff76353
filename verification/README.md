# Pizzeria order core, modelled in Dafny

This project models the order-handling core of the pizzeria system. The system exists as two versions: a legacy one (`v1-legacy`) and a layered one (`v2-clean-architecture`). The model covers these parts:

* **Order states.** RECIBIDO → PREPARANDO → HORNEANDO → TERMINADO → ENTREGADO, plus CANCELADO. Each state object has `avanzar` and `getNombreEstado`.
* **`Pedido` (v1).** The order holds its id, total, current state and list of observers. `setEstadoActual` notifies every observer; `avanzarEstado` delegates to the current state. Observers are added without duplicates and removed by first occurrence.
* **`GestorPedidos` (v1).** The in-memory register of orders. It holds the id counter (`siguienteId`) and the pricing strategy.
* **Pricing strategies.** `PrecioEstandar`: 100 base, +20 for a stuffed crust ("RELLENA"), +15 per ingredient; condiments are free. `PrecioPromocion`: 90 % of the standard price.
* **`Pizza` (v2) and its builder and director.** The pizza is mutated in place; the builder returns itself for chaining; the director fills in the basic pizza.
* **`RepositorioPedidosTxt`.** The text format of an order: nine `;`-separated fields, with ingredients and condiments joined by `|`. The repository loads a file of such lines and rewrites it.
* **`ServicioPedidos` (v1 and v2).** The one-time initial load (from the file in v1, from the repository in v2), order creation, the strategy switch, listing, lookup, advance and cancel, and the rewrite of the file after every change.
* **Panel controller helpers.** The state-name fallback, the item text `Pedido #0003 - …`, the distribution of orders into the five board columns with the count of active orders, and the extraction of `PED0003` from an item text.
* **Detail controller helpers.** Extraction of the order number from the detail label and conversion back to an id, the condiment classification by keyword, and the split of a pizza's items into ingredients and condiments.

Mutable Java objects (`Pedido`, `GestorPedidos`, `Pizza`, the builder and director, the repository, the service) are Dafny classes whose methods declare what they modify. Each method's postcondition ties the new state to a pure specification, in most cases through the record `RegistroPedido` of an order's persisted fields. The properties of those specifications are proved as lemmas. The text format, the number formats (`%04d`, `%.2f`, `Integer.parseInt`, `Double.parseDouble`) and the string helpers (`trim`, `split`, `String.join`, ASCII case mapping) are pure functions.

## Model

| member | source | states |
|---|---|---|
| Estados.Siguiente | v2-clean-architecture/src/main/java/negocio/patrones/state/EstadoRecibido.java:12-17 | the successor state exists exactly for non-final states; it is one stage further and never CANCELADO |
| Estados.TrasAvanzar | v2-clean-architecture/src/main/java/negocio/patrones/state/EstadoCancelado.java:21-24 | advancing a missing state does nothing, and advancing a final state (ENTREGADO, CANCELADO) leaves it as it is |
| Estados.FinalEstable | v1-legacy/src/main/java/negocio/patrones/state/EstadoEntregado.java:12-16 | any number of advances leaves a final state unchanged |
| Estados.CicloCompleto | v2-clean-architecture/src/main/java/negocio/patrones/state/EstadoTerminado.java:12-17 | starting at RECIBIDO, n advances reach stage min(n, 4) and never reach CANCELADO |
| Estados.AvanzarVecesEtapa | v2-clean-architecture/src/main/java/negocio/patrones/state/EstadoHorneando.java:12-17 | from any non-cancelled state, n advances add n stages, capped at ENTREGADO |
| Estados.Nombre | v2-clean-architecture/src/main/java/negocio/patrones/state/EstadoPreparando.java:19-22 | every state name is a non-empty upper-case word |
| Estados.NombreInyectivo | v2-clean-architecture/src/main/java/negocio/patrones/state/EstadoRecibido.java:19-22 | distinct states have distinct names |
| Estados.NombreEstado | v1-legacy/src/main/java/negocio/modelo/Pedido.java:62-64 | an order's state name is empty exactly when it has no state |
| Estados.NombreIdentifica | v1-legacy/src/main/java/negocio/modelo/Pedido.java:92-102 | a case-insensitive comparison with a state's name holds exactly when the order is in that state |
| Pedidos.Pedido.constructor | v1-legacy/src/main/java/negocio/modelo/Pedido.java:26-31 | a new order is RECIBIDO, has id 0, the given pizza and total, and no observers |
| Pedidos.Pedido.SetId | v1-legacy/src/main/java/negocio/modelo/Pedido.java:37-39 | the id changes and no other field does |
| Pedidos.Pedido.SetTotal | v1-legacy/src/main/java/negocio/modelo/Pedido.java:54-56 | the total changes and no other field does |
| Pedidos.Pedido.NombreEstadoActual | v1-legacy/src/main/java/negocio/modelo/Pedido.java:62-64 | the name is empty exactly when the state is missing |
| Pedidos.Pedido.EsCancelado | v1-legacy/src/main/java/negocio/modelo/Pedido.java:92-94 | true exactly when the state is CANCELADO |
| Pedidos.Pedido.EsEntregado | v1-legacy/src/main/java/negocio/modelo/Pedido.java:96-98 | true exactly when the state is ENTREGADO |
| Pedidos.Pedido.EsFinalizado | v1-legacy/src/main/java/negocio/modelo/Pedido.java:100-102 | true exactly when the state is ENTREGADO or CANCELADO |
| Pedidos.Pedido.SetEstadoActual | v1-legacy/src/main/java/negocio/modelo/Pedido.java:71-74 | the state becomes the new one, and every observer receives exactly one notification carrying that state |
| Pedidos.Pedido.NotificarObservadores | v1-legacy/src/main/java/negocio/modelo/Pedido.java:116-127 | one delivery per observer in list order; a failing observer is recorded as failed and does not stop the others |
| Pedidos.Pedido.Actualizar | v1-legacy/src/main/java/negocio/modelo/Pedido.java:119-125 | one observer's notification is appended, marked failed when the observer throws |
| Pedidos.Pedido.AvanzarEstado | v1-legacy/src/main/java/negocio/modelo/Pedido.java:80-90 | a final state is left untouched with no notification; otherwise the state becomes its successor and the observers are notified twice (once by setEstadoActual inside the state's avanzar, once by avanzarEstado itself) |
| Pedidos.Avanzar | v2-clean-architecture/src/main/java/negocio/patrones/state/EstadoRecibido.java:12-17 | the state object's advance moves the order to the successor state through setEstadoActual, or does nothing for a final state |
| Pedidos.Pedido.AgregarObservador | v1-legacy/src/main/java/negocio/modelo/Pedido.java:104-108 | a null or already registered observer is ignored, any other is appended, and the list stays free of duplicates |
| Pedidos.Pedido.QuitarObservador | v1-legacy/src/main/java/negocio/modelo/Pedido.java:110-114 | removes the first occurrence of the observer and leaves the rest in order |
| Pedidos.QuitarSinDuplicados | v1-legacy/src/main/java/negocio/modelo/Pedido.java:110-114 | on a duplicate-free list, removal deletes the observer entirely, keeps every other observer and shortens the list by one exactly when the observer was present |
| Pedidos.Ronda | v1-legacy/src/main/java/negocio/modelo/Pedido.java:116-127 | a notification round has one delivery per observer, in order, carrying the current state |
| Pedidos.RondaUnaVez | v1-legacy/src/main/java/negocio/modelo/Pedido.java:116-127 | with a duplicate-free observer list, one round notifies each registered observer exactly once and nobody else |
| Pedidos.DosEntregas | v1-legacy/src/main/java/negocio/modelo/Pedido.java:71-74 | with a duplicate-free observer list, the two notification rounds of one successful advance notify a registered observer exactly twice |
| Pedidos.RegistrosIntactos | v2-clean-architecture/src/main/java/persistencia/RepositorioPedidosTxt.java:130-153 | an order's persisted record reads only the order, its pizza and the pizza's two lists, so a change that leaves those objects alone leaves every record intact |
| Gestor.PosicionPorId | v1-legacy/src/main/java/negocio/servicios/GestorPedidos.java:69-74 | the result is the first position holding the id; none means no order has that id |
| Gestor.GestorPedidos.constructor | v1-legacy/src/main/java/negocio/servicios/GestorPedidos.java:23-26 | the register starts empty with id counter 1 and the standard strategy |
| Gestor.GestorPedidos.SetEstrategia | v1-legacy/src/main/java/negocio/servicios/GestorPedidos.java:37-41 | a null strategy is ignored; otherwise it replaces the current one; orders and counter are unchanged |
| Gestor.GestorPedidos.RegistrarPedido | v1-legacy/src/main/java/negocio/servicios/GestorPedidos.java:47-53 | the new order gets the counter as id, an id no stored order has, a total priced by the current strategy and state RECIBIDO; the counter advances by one |
| Gestor.GestorPedidos.RegistrarPedidoExistente | v1-legacy/src/main/java/negocio/servicios/GestorPedidos.java:59-67 | a null order is ignored; otherwise it is appended and the counter moves past its id, so every stored id stays below the counter |
| Gestor.GestorPedidos.BuscarPorId | v1-legacy/src/main/java/negocio/servicios/GestorPedidos.java:69-74 | returns the first order with that id, or none when no order has it |
| Gestor.GestorPedidos.AvanzarEstado | v1-legacy/src/main/java/negocio/servicios/GestorPedidos.java:79-86 | the first order with that id advances one state; every other order is unchanged, and all are unchanged when the id is unknown |
| Gestor.GestorPedidos.CancelarPedido | v1-legacy/src/main/java/negocio/servicios/GestorPedidos.java:92-99 | the first order with that id becomes CANCELADO unless it is already final; every other order is unchanged |
| Gestor.GestorPedidos.GetPedidos | v1-legacy/src/main/java/negocio/servicios/GestorPedidos.java:102-104 | returns the stored orders in registration order |
| Gestor.SiguienteIdInt32 | v1-legacy/src/main/java/negocio/servicios/GestorPedidos.java:64-66 | the Java int counter update as written; it can wrap below an id it has just seen |
| Gestor.DesbordeSiguienteId | v1-legacy/src/main/java/negocio/servicios/GestorPedidos.java:64-66 | an existing order with id 2147483647 wraps the counter to -2147483648, which lies below that id |
| Precios.PrecioEstandar | v1-legacy/src/main/java/negocio/patrones/strategy/PrecioEstandar.java:17-28 | the standard price is at least the base price and a whole multiple of 5.00 |
| Precios.RecargoRellena | v1-legacy/src/main/java/negocio/patrones/strategy/PrecioEstandar.java:17-28 | `equalsIgnoreCase("rellena")` holds exactly for the seven letters of "rellena" in any mix of letter cases; such a crust costs 120 plus 15 per ingredient, and every other crust, a missing one included, costs 100 plus 15 per ingredient |
| Precios.IngredienteSuma | v1-legacy/src/main/java/negocio/patrones/strategy/PrecioEstandar.java:25 | adding one ingredient raises the standard price by exactly 15 |
| Precios.CondimentosNoCuentan | v1-legacy/src/main/java/negocio/patrones/strategy/PrecioEstandar.java:17-28 | condiments never change either price |
| Precios.PrecioPromocion | v1-legacy/src/main/java/negocio/patrones/strategy/PrecioPromocion.java:18-24 | the promotional price is exactly 90 % of the standard price, between 90 and the standard price |
| Precios.CalcularTotal | v1-legacy/src/main/java/negocio/servicios/GestorPedidos.java:47-53 | the order total follows the active strategy and is never below 90 |
| Precios.EjemploDosIngredientes | v1-legacy/src/main/java/negocio/patrones/strategy/PrecioPromocion.java:18-24 | a traditional pizza with two ingredients costs 130 standard and 117 promotional |
| Pizzas.Pizza.constructor | v2-clean-architecture/src/main/java/negocio/modelo/Pizza.java:12-21 | a new pizza has no attributes and two fresh, empty lists |
| Pizzas.Pizza.SetId | v2-clean-architecture/src/main/java/negocio/modelo/Pizza.java:27-29 | only the id changes |
| Pizzas.Pizza.SetNombre | v2-clean-architecture/src/main/java/negocio/modelo/Pizza.java:35-37 | only the name changes |
| Pizzas.Pizza.SetMasa | v2-clean-architecture/src/main/java/negocio/modelo/Pizza.java:43-45 | only the crust changes |
| Pizzas.Pizza.SetSalsa | v2-clean-architecture/src/main/java/negocio/modelo/Pizza.java:51-53 | only the sauce changes |
| Pizzas.Pizza.SetQueso | v2-clean-architecture/src/main/java/negocio/modelo/Pizza.java:59-61 | only the cheese changes |
| Pizzas.Pizza.SetTipoOrilla | v2-clean-architecture/src/main/java/negocio/modelo/Pizza.java:67-69 | only the edge type changes |
| Pizzas.Pizza.AgregarIngrediente | v2-clean-architecture/src/main/java/negocio/modelo/Pizza.java:71-73 | the ingredient is appended to the live list the getter exposes; nothing else changes |
| Pizzas.Pizza.AgregarCondimento | v2-clean-architecture/src/main/java/negocio/modelo/Pizza.java:75-77 | the condiment is appended to the live list the getter exposes; nothing else changes |
| Pizzas.Lista.Agregar | v2-clean-architecture/src/main/java/negocio/modelo/Pizza.java:19-20 | appending to a list keeps its earlier elements and adds the new one at the end |
| Constructores.PizzaPersonalizadaBuilder.constructor | v2-clean-architecture/src/main/java/negocio/patrones/builder/PizzaPersonalizadaBuilder.java:14-16 | the builder starts from a fresh, empty pizza |
| Constructores.PizzaPersonalizadaBuilder.ConMasa | v2-clean-architecture/src/main/java/negocio/patrones/builder/PizzaPersonalizadaBuilder.java:18-22 | sets only the crust and returns the same builder |
| Constructores.PizzaPersonalizadaBuilder.ConSalsa | v2-clean-architecture/src/main/java/negocio/patrones/builder/PizzaPersonalizadaBuilder.java:24-28 | sets only the sauce and returns the same builder |
| Constructores.PizzaPersonalizadaBuilder.ConQueso | v2-clean-architecture/src/main/java/negocio/patrones/builder/PizzaPersonalizadaBuilder.java:30-34 | sets only the cheese and returns the same builder |
| Constructores.PizzaPersonalizadaBuilder.AgregarIngrediente | v2-clean-architecture/src/main/java/negocio/patrones/builder/PizzaPersonalizadaBuilder.java:36-40 | appends only to the ingredients and returns the same builder |
| Constructores.PizzaPersonalizadaBuilder.AgregarCondimento | v2-clean-architecture/src/main/java/negocio/patrones/builder/PizzaPersonalizadaBuilder.java:42-46 | appends only to the condiments and returns the same builder |
| Constructores.PizzaPersonalizadaBuilder.ConTipoOrilla | v2-clean-architecture/src/main/java/negocio/patrones/builder/PizzaPersonalizadaBuilder.java:48-52 | sets only the edge type and returns the same builder |
| Constructores.PizzaPersonalizadaBuilder.Build | v2-clean-architecture/src/main/java/negocio/patrones/builder/PizzaPersonalizadaBuilder.java:54-59 | returns the builder's own pizza, not a copy |
| Constructores.BuildComparte | v2-clean-architecture/src/main/java/negocio/patrones/builder/PizzaPersonalizadaBuilder.java:54-59 | because build shares its pizza, an ingredient added through the builder after build shows in the built pizza |
| Constructores.DirectorConstructorPizza.constructor | v2-clean-architecture/src/main/java/negocio/patrones/builder/DirectorConstructorPizza.java:19-21 | the director keeps the given builder |
| Constructores.DirectorConstructorPizza.SetBuilder | v2-clean-architecture/src/main/java/negocio/patrones/builder/DirectorConstructorPizza.java:23-25 | the director switches to the given builder |
| Constructores.DirectorConstructorPizza.ConstruirPizzaBasica | v2-clean-architecture/src/main/java/negocio/patrones/builder/DirectorConstructorPizza.java:31-38 | sets crust Tradicional, sauce Tomate, cheese Mozzarella and edge Normal on the builder's pizza and changes nothing else |
| Constructores.PizzaBasicaNueva | v2-clean-architecture/src/main/java/negocio/patrones/builder/DirectorConstructorPizza.java:31-38 | a basic pizza from a new builder has no ingredients or condiments and costs 100 standard, 90 promotional |
| Codec.LeerNombre | v2-clean-architecture/src/main/java/persistencia/RepositorioPedidosTxt.java:155-166 | reading back any state's name yields that state |
| Codec.EstadoPorNombreLee | v2-clean-architecture/src/main/java/persistencia/RepositorioPedidosTxt.java:155-166 | a stored name, trimmed and upper-cased, selects the state with that name; anything unrecognised, null included, falls back to RECIBIDO |
| Codec.EstadoPorClaveLee | v1-legacy/src/main/java/negocio/servicios/ServicioPedidos.java:278-290 | each state name selects its state, and only RECIBIDO is reached from other keys |
| Codec.DepurarMiembros | v1-legacy/src/main/java/negocio/servicios/ServicioPedidos.java:70-86 | the cleaned entries are exactly the trimmed, non-null, non-blank inputs |
| Codec.DepurarLimpias | v2-clean-architecture/src/main/java/negocio/servicios/ServicioPedidos.java:80-90 | cleaning entries that are already trimmed and non-blank returns them unchanged |
| Codec.ParsearRegistro | v2-clean-architecture/src/main/java/persistencia/RepositorioPedidosTxt.java:81-96 | a parsed line has at least nine fields, a 32-bit id and a state |
| Codec.ListaIdaVuelta | v2-clean-architecture/src/main/java/persistencia/RepositorioPedidosTxt.java:99-114 | splitting a joined list of clean entries on `\|` returns the same entries |
| Codec.CamposLimpios | v2-clean-architecture/src/main/java/persistencia/RepositorioPedidosTxt.java:130-153 | a serialised order has nine fields, none containing `;` or surrounding blanks |
| Codec.LeerCampos | v2-clean-architecture/src/main/java/persistencia/RepositorioPedidosTxt.java:84-120 | parsing the nine serialised fields gives back the order with empty attributes read as empty text |
| Codec.ParsearSerializar | v2-clean-architecture/src/main/java/persistencia/RepositorioPedidosTxt.java:81-153 | parsing a serialised well-formed order returns that order, normalised |
| Codec.SinEstadoSePierde | v2-clean-architecture/src/main/java/persistencia/RepositorioPedidosTxt.java:147-153 | an order with no state is written with an empty last field, which Java's split drops, so the line is not read back |
| Codec.LeerSerializado | v2-clean-architecture/src/main/java/persistencia/RepositorioPedidosTxt.java:36-60 | loading one serialised well-formed order yields exactly that order |
| Codec.CargarConcat | v2-clean-architecture/src/main/java/persistencia/RepositorioPedidosTxt.java:36-60 | loading two blocks of lines is loading each and concatenating |
| Codec.CargarRegistros | v2-clean-architecture/src/main/java/persistencia/RepositorioPedidosTxt.java:36-60 | loading never yields more orders than lines; blank and malformed lines are skipped |
| Codec.CargarGuardar | v2-clean-architecture/src/main/java/persistencia/RepositorioPedidosTxt.java:36-75 | loading the file that saving wrote, split into lines the way `readLine` splits it, returns the saved orders, normalised, for well-formed orders (`Codec.BienFormado`: a 32-bit id, a state, texts and list entries without `;`, `|`, line breaks or surrounding blanks, non-blank entries) whose total is below 10 000 000.00 in magnitude |
| Codec.CargarLineas | v2-clean-architecture/src/main/java/persistencia/RepositorioPedidosTxt.java:36-60 | reading the serialised lines of well-formed orders one by one returns the orders, normalised, in order |
| Codec.LineasSinSaltos | v2-clean-architecture/src/main/java/persistencia/RepositorioPedidosTxt.java:66-75 | the lines written for well-formed orders come back from `readLine` exactly as written |
| Codec.EscritasSinSaltos | v2-clean-architecture/src/main/java/persistencia/RepositorioPedidosTxt.java:66-75 | texts without a line break, each written and followed by `newLine`, are read back one per line and unchanged |
| Codec.SerializarSinSaltos | v2-clean-architecture/src/main/java/persistencia/RepositorioPedidosTxt.java:130-153 | the line of a well-formed order holds no line break |
| Codec.UnirLimpiosSinSaltos | v2-clean-architecture/src/main/java/persistencia/RepositorioPedidosTxt.java:130-153 | joining clean fields with `;` adds no line break |
| Codec.ListaLimpia | v2-clean-architecture/src/main/java/persistencia/RepositorioPedidosTxt.java:140-146 | a `\|`-joined list of clean entries is a clean field: no `;`, no line break, no surrounding blanks |
| Codec.IntATextoLimpio | v2-clean-architecture/src/main/java/persistencia/RepositorioPedidosTxt.java:134 | the id as written is non-empty and clean |
| Codec.TotalATextoLimpio | v2-clean-architecture/src/main/java/persistencia/RepositorioPedidosTxt.java:149 | the total as written is clean |
| Codec.NombreLimpio | v2-clean-architecture/src/main/java/persistencia/RepositorioPedidosTxt.java:150 | the state name as written is clean |
| Codec.LeerLinea | v2-clean-architecture/src/main/java/persistencia/RepositorioPedidosTxt.java:47-56 | one line yields at most one order |
| Codec.PocosCamposSePierden | v2-clean-architecture/src/main/java/persistencia/RepositorioPedidosTxt.java:81-87 | a non-blank line of fewer than nine `;`-separated fields is dropped on reload |
| Codec.SerializarConSalto | v2-clean-architecture/src/main/java/persistencia/RepositorioPedidosTxt.java:130-153 | the line of an order whose crust text holds a line break is cut in two at that break |
| Codec.SaltoEnMasaSePierde | v2-clean-architecture/src/main/java/persistencia/RepositorioPedidosTxt.java:36-75 | an order whose crust text holds a line break is written across two lines, neither of which reloads: the order is lost |
| Codec.SerializarSinBordes | v2-clean-architecture/src/main/java/persistencia/RepositorioPedidosTxt.java:130-153 | a serialised line is non-empty and has no surrounding blanks, so the loader does not skip it as blank |
| Texto.Trim | v2-clean-architecture/src/main/java/persistencia/RepositorioPedidosTxt.java:48 | the trimmed text is no longer than the input and has no character at or below U+0020 at either end |
| Texto.TrimSinBordes | v2-clean-architecture/src/main/java/persistencia/RepositorioPedidosTxt.java:48 | text without such characters at its ends is left unchanged |
| Texto.TrimIdempotente | v2-clean-architecture/src/main/java/persistencia/RepositorioPedidosTxt.java:48 | trimming twice is trimming once |
| Texto.TrimMinusculas | v2-clean-architecture/src/main/java/com/pizzasystem/controladores/DetallePedidoController.java:160-163 | lower-casing and trimming commute, so `toLowerCase().trim()` is `trim().toLowerCase()` |
| Texto.MayusculasIdentidad | v2-clean-architecture/src/main/java/persistencia/RepositorioPedidosTxt.java:157 | upper-casing text without a lower-case letter changes nothing |
| Texto.MayusculasConcat | v2-clean-architecture/src/main/java/persistencia/RepositorioPedidosTxt.java:157 | upper-casing works character by character across a concatenation |
| Texto.ReemplazarPrefijo | v2-clean-architecture/src/main/java/com/pizzasystem/controladores/PanelControlPedidosController.java:221-223 | `replace` on a text that starts with the pattern removes that occurrence and goes on after it |
| Texto.ReemplazarSinInicio | v2-clean-architecture/src/main/java/com/pizzasystem/controladores/PanelControlPedidosController.java:221-223 | `replace` leaves a leading part that cannot start the pattern untouched |
| Texto.UnirAgregar | v2-clean-architecture/src/main/java/persistencia/RepositorioPedidosTxt.java:142 | `String.join` of one more piece is the old join, the separator and the piece |
| Texto.UnirSinCaracter | v2-clean-architecture/src/main/java/persistencia/RepositorioPedidosTxt.java:142-146 | `String.join` adds no character other than the separator |
| Texto.UnirBordes | v2-clean-architecture/src/main/java/persistencia/RepositorioPedidosTxt.java:142-146 | a join begins with its first piece and ends with its last |
| Texto.PartirUnir | v2-clean-architecture/src/main/java/persistencia/RepositorioPedidosTxt.java:84 | cutting a join at every separator gives back the joined pieces |
| Texto.SplitUnir | v2-clean-architecture/src/main/java/persistencia/RepositorioPedidosTxt.java:99-100 | `split` undoes `String.join` when no piece holds the separator and the last piece is not empty |
| Texto.SplitUnirAcotado | v2-clean-architecture/src/main/java/persistencia/RepositorioPedidosTxt.java:84-87 | `split` of a join gives no more pieces than were joined |
| Texto.SplitSeparadorFinal | v2-clean-architecture/src/main/java/persistencia/RepositorioPedidosTxt.java:84 | a trailing separator leaves no trailing empty piece |
| Texto.SplitPrimero | v2-clean-architecture/src/main/java/com/pizzasystem/controladores/PanelControlPedidosController.java:231-232 | the first piece of `split` is the text before the first separator |
| Texto.SplitSegundo | v2-clean-architecture/src/main/java/com/pizzasystem/controladores/PanelControlPedidosController.java:226-230 | the second piece of `split` is the text between the first and the second separator |
| Texto.SplitSoloDelimitador | v2-clean-architecture/src/main/java/com/pizzasystem/controladores/PanelControlPedidosController.java:231 | `split` of a non-empty text made only of the separator gives no pieces |
| Texto.SplitEmpiezaConDelimitador | v2-clean-architecture/src/main/java/com/pizzasystem/controladores/PanelControlPedidosController.java:231 | `split` of a text that starts with the separator and holds another character gives an empty first piece |
| Texto.EscritaSinSaltos | v2-clean-architecture/src/main/java/persistencia/RepositorioPedidosTxt.java:47-70 | a text without line breaks, written and followed by `newLine`, is read back by `readLine` as that one line |
| Texto.EscritaConSalto | v2-clean-architecture/src/main/java/persistencia/RepositorioPedidosTxt.java:47-70 | a text with one line break inside, written and followed by `newLine`, is read back as two lines |
| Numeros.ParseInt | v2-clean-architecture/src/main/java/persistencia/RepositorioPedidosTxt.java:88 | a parsed id fits in a Java `int` |
| Numeros.ParseIntATexto | v2-clean-architecture/src/main/java/persistencia/RepositorioPedidosTxt.java:88 | `Integer.parseInt` reads back every `int` as `append` writes it |
| Numeros.Formato04 | v2-clean-architecture/src/main/java/com/pizzasystem/controladores/PanelControlPedidosController.java:132 | `%04d` text has at least four characters, all digits but for a leading minus |
| Numeros.ParseIntFormato04 | v2-clean-architecture/src/main/java/com/pizzasystem/controladores/DetallePedidoController.java:261-270 | `Integer.parseInt` reads back every `int` written as `%04d` |
| Numeros.ParseTotalATexto | v2-clean-architecture/src/main/java/persistencia/RepositorioPedidosTxt.java:95 | `Double.parseDouble` reads back every total, in cents, as the model writes it |
| Numeros.ParseTotalSigno | v2-clean-architecture/src/main/java/persistencia/RepositorioPedidosTxt.java:95 | a leading minus negates the parsed amount |
| Repositorio.Disco.constructor | v2-clean-architecture/src/main/java/persistencia/RepositorioPedidosTxt.java:38-43 | the file holds the given lines, or is absent |
| Repositorio.AgregarIngredientes | v2-clean-architecture/src/main/java/persistencia/RepositorioPedidosTxt.java:109-111 | appends the non-blank pieces of the ingredient field, in order, and changes nothing else |
| Repositorio.AgregarCondimentos | v2-clean-architecture/src/main/java/persistencia/RepositorioPedidosTxt.java:112-114 | appends the non-blank pieces of the condiment field, in order, and changes nothing else |
| Repositorio.ParsearPedido | v2-clean-architecture/src/main/java/persistencia/RepositorioPedidosTxt.java:81-128 | yields an order exactly when the line parses, and the fresh order's persisted fields are the parsed record |
| Repositorio.ParsearCampos | v2-clean-architecture/src/main/java/persistencia/RepositorioPedidosTxt.java:88-120 | builds an order exactly when the id and total parse, with the parsed record as its fields |
| Repositorio.CamposDeLinea | v2-clean-architecture/src/main/java/persistencia/RepositorioPedidosTxt.java:88-100 | field parsing fails exactly when the id or total does not parse, and otherwise gives the trimmed fields, the filtered lists and the named state |
| Repositorio.NuevoPedido | v2-clean-architecture/src/main/java/persistencia/RepositorioPedidosTxt.java:103-120 | the fresh order and pizza carry exactly the given fields |
| Repositorio.LeerLineaPedido | v2-clean-architecture/src/main/java/persistencia/RepositorioPedidosTxt.java:47-56 | reading one line gives the same orders as the pure loader on that line |
| Repositorio.LeerSiguiente | v2-clean-architecture/src/main/java/persistencia/RepositorioPedidosTxt.java:47-56 | one loop step appends the line's order, if any, and leaves earlier orders intact |
| Repositorio.LeerPedidos | v2-clean-architecture/src/main/java/persistencia/RepositorioPedidosTxt.java:44-57 | the loaded orders are fresh and their records are the pure loader's result |
| Repositorio.SerializarPedidos | v2-clean-architecture/src/main/java/persistencia/RepositorioPedidosTxt.java:66-75 | writes one serialised line per order, in order |
| Repositorio.RepositorioPedidosTxt.constructor | v2-clean-architecture/src/main/java/persistencia/RepositorioPedidosTxt.java:30 | the repository works on the given store file |
| Repositorio.RepositorioPedidosTxt.CargarPedidos | v2-clean-architecture/src/main/java/persistencia/RepositorioPedidosTxt.java:36-60 | a missing file gives no orders; otherwise the orders are the pure loader's result on its lines |
| Repositorio.RepositorioPedidosTxt.GuardarPedidos | v2-clean-architecture/src/main/java/persistencia/RepositorioPedidosTxt.java:66-75 | the file is replaced by one serialised line per order, in order, each followed by a line break, and holds the lines `readLine` will see in it |
| Servicio.Bandera.constructor | v1-legacy/src/main/java/negocio/servicios/ServicioPedidos.java:42 | the one-time load flag starts unset |
| Servicio.UnirConBarras | v1-legacy/src/main/java/negocio/servicios/ServicioPedidos.java:258-261 | the hand-written join loop produces the same text as joining with `\|` |
| Servicio.SerializarPedidoLegado | v1-legacy/src/main/java/negocio/servicios/ServicioPedidos.java:247-276 | the legacy serialiser writes exactly the line of the repository's format |
| Servicio.ReescribirLegado | v1-legacy/src/main/java/negocio/servicios/ServicioPedidos.java:234-245 | the legacy rewrite writes one serialised line per order, in order |
| Servicio.ParsearPedidoLegado | v1-legacy/src/main/java/negocio/servicios/ServicioPedidos.java:176-232 | the legacy parser reads a line like the repository does and attaches two fresh, distinct observers |
| Servicio.CargarDesdeArchivo | v1-legacy/src/main/java/negocio/servicios/ServicioPedidos.java:153-174 | the register gains, in order, the orders stored in the file, and nothing is lost from it |
| Servicio.CargarLineaLegado | v1-legacy/src/main/java/negocio/servicios/ServicioPedidos.java:160-168 | one loop turn registers the line's order, if it parses, as existing, and the stored records become those of the lines read so far |
| Servicio.CargarDesdeRepositorio | v2-clean-architecture/src/main/java/negocio/servicios/ServicioPedidos.java:46-56 | the register gains, in order, the orders the repository loads |
| Servicio.RegistrarExistentes | v2-clean-architecture/src/main/java/negocio/servicios/ServicioPedidos.java:50-54 | each loaded order is registered as existing, in order, and the register ends as the old orders followed by the loaded ones |
| Servicio.CargaInicial | v2-clean-architecture/src/main/java/negocio/servicios/ServicioPedidos.java:40-57 | the stored orders are loaded only on the first construction; later constructions leave the register alone |
| Servicio.ConstruirPizza | v1-legacy/src/main/java/negocio/servicios/ServicioPedidos.java:64-86 | the pizza carries the given attributes and only the non-null, non-blank ingredient and condiment entries, trimmed, in order |
| Servicio.AgregarIngredientesDe | v2-clean-architecture/src/main/java/negocio/servicios/ServicioPedidos.java:80-84 | a null list adds nothing; otherwise the pizza's ingredients grow by the non-null, non-blank entries, trimmed, in order, and nothing else changes |
| Servicio.AgregarCondimentosDe | v2-clean-architecture/src/main/java/negocio/servicios/ServicioPedidos.java:86-90 | a null list adds nothing; otherwise the pizza's condiments grow by the non-null, non-blank entries, trimmed, in order, and nothing else changes |
| Servicio.AgregarObservadoresDemo | v1-legacy/src/main/java/negocio/servicios/ServicioPedidos.java:94-95 | the order gets two fresh, distinct, working observers and no persisted field changes |
| Servicio.RegistrarConObservadores | v2-clean-architecture/src/main/java/negocio/servicios/ServicioPedidos.java:95-99 | the order is registered with a new id and priced by the strategy, then given two observers |
| Servicio.ServicioPedidos.constructor | v2-clean-architecture/src/main/java/negocio/servicios/ServicioPedidos.java:40-57 | the service wraps the shared register and loads the stored orders once |
| Servicio.ServicioPedidos.CrearPedidoDesdeDatosSimples | v2-clean-architecture/src/main/java/negocio/servicios/ServicioPedidos.java:66-105 | the new order has a fresh id, a pizza with the cleaned entries, the strategy's price, state RECIBIDO and two observers; the file then holds every order |
| Servicio.ServicioPedidos.CambiarEstrategiaPromocion | v2-clean-architecture/src/main/java/negocio/servicios/ServicioPedidos.java:110-116 | the strategy becomes the promotion when active, the standard one otherwise; orders are untouched |
| Servicio.ServicioPedidos.ListarPedidos | v2-clean-architecture/src/main/java/negocio/servicios/ServicioPedidos.java:118-120 | returns the register's orders in order |
| Servicio.ServicioPedidos.BuscarPedidoPorId | v2-clean-architecture/src/main/java/negocio/servicios/ServicioPedidos.java:122-124 | returns the first stored order with the id, or none exactly when no order has it |
| Servicio.ServicioPedidos.AvanzarEstadoPedido | v2-clean-architecture/src/main/java/negocio/servicios/ServicioPedidos.java:129-132 | advances the first order with the id, touches no other, and rewrites the file with every order |
| Servicio.ServicioPedidos.CancelarPedido | v2-clean-architecture/src/main/java/negocio/servicios/ServicioPedidos.java:137-140 | cancels the first order with the id unless it is final, touches no other, and rewrites the file |
| Servicio.ServicioPedidos.GuardarCambiosEnDisco | v2-clean-architecture/src/main/java/negocio/servicios/ServicioPedidos.java:142-144 | the file is replaced by every order's line, each followed by a line break, as `readLine` will split it; the orders are untouched |
| PanelControl.EstadoDePedido | v2-clean-architecture/src/main/java/com/pizzasystem/controladores/PanelControlPedidosController.java:204-211 | an order without a state shows as RECIBIDO; otherwise it shows its state's name |
| PanelControl.ColumnaDelPedido | v2-clean-architecture/src/main/java/com/pizzasystem/controladores/PanelControlPedidosController.java:150-158 | each order lands in its state's column; cancelled and unknown states go to RECIBIDO |
| PanelControl.ActivoDelPedido | v2-clean-architecture/src/main/java/com/pizzasystem/controladores/PanelControlPedidosController.java:144-147 | an order counts as active exactly when it is neither delivered nor cancelled |
| PanelControl.TextoCancelado | v2-clean-architecture/src/main/java/com/pizzasystem/controladores/PanelControlPedidosController.java:134-142 | an item text carries the `[CANCELADO] ` mark exactly when the order is cancelled |
| PanelControl.Colocar | v2-clean-architecture/src/main/java/com/pizzasystem/controladores/PanelControlPedidosController.java:144-158 | placing one item grows exactly its column by that text, the item total by one, and the active count by one exactly when the item is active |
| PanelControl.CargarPedidosDesdeServicio | v2-clean-architecture/src/main/java/com/pizzasystem/controladores/PanelControlPedidosController.java:117-163 | the loop's board equals the board of the listed orders' records |
| PanelControl.TableroColumnas | v2-clean-architecture/src/main/java/com/pizzasystem/controladores/PanelControlPedidosController.java:129-158 | the board shows every order once, each order's text is in its column, and every text shown comes from an order in that column |
| PanelControl.TableroActivos | v2-clean-architecture/src/main/java/com/pizzasystem/controladores/PanelControlPedidosController.java:126-147 | the active count equals the number of orders neither delivered nor cancelled |
| PanelControl.ExtraerNumeroPedido | v2-clean-architecture/src/main/java/com/pizzasystem/controladores/PanelControlPedidosController.java:217-238 | any number that is returned starts with `PED` |
| PanelControl.ExtraerDeTexto | v2-clean-architecture/src/main/java/com/pizzasystem/controladores/PanelControlPedidosController.java:132-142 | extracting the number from any item the board shows, cancelled or not, gives `PED` followed by the order's four-digit id |
| PanelControl.ExtraerSoloEspacio | v2-clean-architecture/src/main/java/com/pizzasystem/controladores/PanelControlPedidosController.java:217-238 | when the part after the only `#` consists of one or more spaces and nothing else, `split(" ")` gives no pieces and taking the first one throws, with or without the cancelled mark |
| PanelControl.ExtraerEspacioInicial | v2-clean-architecture/src/main/java/com/pizzasystem/controladores/PanelControlPedidosController.java:226-234 | when the part after the only `#` starts with a space and goes on with other text, the first space-piece is empty and the result is a bare `PED` |
| PanelControl.UbicarPedido | v2-clean-architecture/src/main/java/com/pizzasystem/controladores/PanelControlPedidosController.java:131-158 | the state text, item text, active flag and column taken for one order are those the board specification gives for its record |
| PanelControl.ColumnaPorNombre | v2-clean-architecture/src/main/java/com/pizzasystem/controladores/PanelControlPedidosController.java:150-158 | a state's own name is routed to that state's column |
| PanelControl.ActivoPorNombre | v2-clean-architecture/src/main/java/com/pizzasystem/controladores/PanelControlPedidosController.java:144-147 | a state's name counts as active exactly for the non-final states |
| PanelControl.TotalSinSeparadores | v2-clean-architecture/src/main/java/com/pizzasystem/controladores/PanelControlPedidosController.java:134-138 | the `%.2f` text of a total holds only digits, a minus sign and the point: no `#`, `[` or space |
| DetallePedido.ExtraerNumeroPedido | v2-clean-architecture/src/main/java/com/pizzasystem/controladores/DetallePedidoController.java:255-259 | a number taken from the label has no surrounding blanks |
| DetallePedido.ObtenerIdDesdeNumeroPedido | v2-clean-architecture/src/main/java/com/pizzasystem/controladores/DetallePedidoController.java:261-270 | the id is a 32-bit integer, -1 when the number is missing or unparsable |
| DetallePedido.IdDesdeNumero | v2-clean-architecture/src/main/java/com/pizzasystem/controladores/DetallePedidoController.java:261-270 | the number `PED` + four-digit id converts back to that id |
| DetallePedido.IdDesdeEtiqueta | v2-clean-architecture/src/main/java/com/pizzasystem/controladores/DetallePedidoController.java:255-270 | the label `Pedido #PED…` gives back the number, and the number gives back the id |
| DetallePedido.IdDesdeTablero | v2-clean-architecture/src/main/java/com/pizzasystem/controladores/PanelControlPedidosController.java:168-183 | opening the detail from any board item recovers the order's id |
| DetallePedido.EtiquetaSinNumero | v2-clean-architecture/src/main/java/com/pizzasystem/controladores/DetallePedidoController.java:255-259 | a label with nothing after `#` makes the array access fail |
| DetallePedido.CondimentoSinCaso | v2-clean-architecture/src/main/java/com/pizzasystem/controladores/DetallePedidoController.java:160-175 | the classification ignores letter case |
| DetallePedido.CondimentoSinBordes | v2-clean-architecture/src/main/java/com/pizzasystem/controladores/DetallePedidoController.java:160-175 | the classification ignores surrounding blanks |
| DetallePedido.CondimentoPorPalabra | v2-clean-architecture/src/main/java/com/pizzasystem/controladores/DetallePedidoController.java:163-174 | a name containing any of the condiment keywords is a condiment |
| DetallePedido.NumeroDesdeEtiqueta | v2-clean-architecture/src/main/java/com/pizzasystem/controladores/DetallePedidoController.java:255-259 | a label `Pedido #` followed by a number without `#` and without surrounding blanks gives that number back |
| DetallePedido.CifrasTrasPed | v2-clean-architecture/src/main/java/com/pizzasystem/controladores/DetallePedidoController.java:261-270 | an upper-case, trimmed `PED` number hands the integer parser exactly its digits |
| DetallePedido.NumeroPedidoForma | v2-clean-architecture/src/main/java/com/pizzasystem/controladores/DetallePedidoController.java:255-270 | `PED` and an id as `%04d` has no `#`, no surrounding blanks and no lower-case letter |
| DetallePedido.SepararIngredientes | v2-clean-architecture/src/main/java/com/pizzasystem/controladores/DetallePedidoController.java:116-124 | the loop produces the non-condiment items and the condiment items of the pizza, each in the pizza's order |
| DetallePedido.SeparacionCompleta | v2-clean-architecture/src/main/java/com/pizzasystem/controladores/DetallePedidoController.java:116-124 | the two lists together are a permutation of the items, each holds only its class, and each keeps the original order |
| DetallePedido.FiltrarParticion | v2-clean-architecture/src/main/java/com/pizzasystem/controladores/DetallePedidoController.java:116-124 | filtering by a predicate and by its complement splits a list without loss or duplication |
| DetallePedido.FiltrarOrden | v2-clean-architecture/src/main/java/com/pizzasystem/controladores/DetallePedidoController.java:116-124 | a filtered list is a subsequence of the original |

## Left out

- File I/O: the text file is a `Disco` object that holds its lines, or nothing when the file is missing. Read and write errors (`IOException`) are not modelled, and neither are the catch blocks that print them.
- `RepositorioTickets` and ticket generation (v2 `ServicioPedidos` lines 150-164) are not part of this model.
- JavaFX views, the `Timeline` auto-refresh, the status clock text and the detail window's "Base:"/"Hora:" lines are left out. They are UI and clock reads.
- The singleton `getInstance` of `GestorPedidos` is an object passed to the service. The static `cargado` flag is a shared `Bandera` object.
- Observer bodies (`PanelControlEmpleado`, `PantallaEstadoCliente`) are reduced to a delivery record with a "fails" flag. Their own UI effects are not modelled.
- Money is modelled in integer cents, so the 0.90 factor is exact. `Double.parseDouble` is modelled only for texts of the form the program writes: an optional sign, digits, a point and one or two decimals.
- Numeros.TotalATexto: writes every total in plain notation. Java's `Double.toString` switches to E-notation (`1.0E7`) from 10 000 000.00 upwards in magnitude, which the model's parser does not read. The save-and-load lemmas therefore cover only totals below that bound (`Codec.TotalSinExponente`).
- Numeros.ParseInt: accepts ASCII digits only. Java's `Integer.parseInt` also accepts other Unicode decimal digits, such as the fullwidth `３`. This affects `DetallePedido.ObtenerIdDesdeNumeroPedido` and `Codec.ParsearRegistro` on such input.
- `%.2f` is assumed to format with a `.` decimal separator, whatever the locale.
- Letter case is mapped for ASCII letters only. Non-ASCII letters such as the "É" of "orégano" are not folded.
- The order's `fechaHora` timestamp is not modelled.
- `EstadoPedidoClienteController` and the log parsing it does are not part of this model.
- DetallePedido.SepararIngredientes: splits only the pizza's ingredient list. The controller's use of the condiment list is commented out in the source.
- Servicio.CargarDesdeArchivo: states only the records gained, in order. It does not state which fresh objects hold them.
- Servicio.CargarDesdeRepositorio: states only the records gained, in order. It does not state which fresh objects hold them.
- Servicio.ServicioPedidos.constructor: states the records of the first load, not the identity of the loaded objects.
- Gestor.GestorPedidos.RegistrarPedidoExistente: uses an unbounded counter rather than the Java `int`. See Findings.
- Gestor.GestorPedidos.RegistrarPedido: uses an unbounded counter. Java's `siguienteId++` wraps from 2147483647 to -2147483648 after 2^31 registrations, and the model does not show that.
- Codec.CargarGuardar: holds only for well-formed orders (`Codec.BienFormado`). Outside that set the saved file does not give the same orders back:
  - an order with no state is lost (`Codec.SinEstadoSePierde`);
  - a line break in the crust text loses the order (`Codec.SaltoEnMasaSePierde`); the same loss for line breaks in the other text fields is not stated;
  - surrounding blanks on a text or a list entry are trimmed on reload, so a crust " Delgada " comes back as "Delgada";
  - a `;` inside a text shifts every later field, and a `|` inside a list entry splits it into two entries;
  - a blank list entry is dropped on reload;
  - an id outside the 32-bit range does not parse back.
  These losses other than the first two are not stated as lemmas.
- Precios.RecargoRellena: the comparison folds ASCII letters only. No non-ASCII letter folds to a letter of "rellena" under Java's `equalsIgnoreCase`, so the result is the same.
- `newLine()` is modelled as writing `\n`. Java writes `System.lineSeparator()`, which is `\r\n` on Windows. Both read back the same, because `Texto.Renglones` treats `\r\n` as one line break, just as `readLine` does.
- List entries are never null in the model: `Pizzas.Lista.Agregar`, `Pizzas.Pizza.AgregarIngrediente` and `Pizzas.Pizza.AgregarCondimento` take a `string`, while Java's `ArrayList.add` also accepts `null`. No modelled caller passes one: the service filters out null entries, and `split` never yields null.
- PanelControl.ExtraerSoloEspacio: states the throwing case only for a text with a single `#`. The cancelled-mark form additionally needs no `[` before the `#`.

## Findings

| source | as written | input that shows it | evidently intended | confidence | as-written member | corrected member |
|---|---|---|---|---|---|---|
| v1-legacy/src/main/java/negocio/servicios/GestorPedidos.java:64-66 | `siguienteId = pedido.getId() + 1` in 32-bit `int` arithmetic | an existing order with id 2147483647 sets the counter to -2147483648 | the counter stays above every stored id, so new orders never reuse an id | not executed | Gestor.DesbordeSiguienteId | Gestor.GestorPedidos.RegistrarPedidoExistente |
