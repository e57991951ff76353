/** `ServicioPedidos`, the facade the screens call, in its two versions.
    Both load the store file once per run (a static flag), create orders
    through the builder, register them in the shared `GestorPedidos`,
    attach two demo observers and rewrite the whole file after every
    change. The legacy version reads and writes the file itself and gives
    reloaded orders the demo observers too; the clean version delegates to
    `RepositorioPedidosTxt`. */
module Servicio {
  import opened Tipos
  import opened Texto
  import opened Numeros
  import opened Estados
  import opened Pizzas
  import opened Precios
  import opened Codec
  import opened Pedidos
  import opened Gestor
  import opened Constructores
  import opened Repositorio

  /** `v1-legacy` or `v2-clean-architecture`. */
  datatype Version = Legado | Limpio

  /** The static `pedidosCargadosDesdeArchivo`, shared by every service
      instance of a run. */
  class Bandera {
    var cargado: bool

    constructor ()
      ensures !cargado
    {
      cargado := false;
    }
  }

  /** The records a load adds: none without a file, otherwise those of the
      file's lines. */
  function Almacenados(lineas: Option<seq<string>>): seq<RegistroPedido>
  {
    if lineas.None? then [] else CargarRegistros(lineas.value)
  }

  /** The entries `crearPedidoDesdeDatosSimples` keeps from a list argument:
      none from a null list. */
  function Entradas(xs: Option<seq<Option<string>>>): seq<string>
  {
    if xs.None? then [] else Depurar(xs.value)
  }

  // ---------------------------------------------------------------
  // The legacy writer: `serializarPedido` with hand-written joins
  // ---------------------------------------------------------------

  /** The index loop of the legacy `serializarPedido` that writes a list:
      each entry, and a `|` after every entry but the last. It writes
      what `String.join("|", …)` writes. */
  method UnirConBarras(xs: seq<string>) returns (s: string)
    ensures s == Unir('|', xs)
  {
    s := "";
    for i := 0 to |xs|
      invariant s == Unir('|', xs[..i]) + (if 0 < i < |xs| then "|" else "")
    {
      if i > 0 {
        UnirAgregar('|', xs[..i], xs[i]);
      }
      assert xs[..i + 1] == xs[..i] + [xs[i]];
      s := s + xs[i];
      if i < |xs| - 1 {
        s := s + "|";
      }
    }
    assert xs[..|xs|] == xs;
  }

  /** One more field and its `;` after the first `j`. */
  lemma CampoSiguiente(cs: seq<string>, j: nat)
    requires 0 < j < |cs|
    ensures Unir(';', cs[..j]) + ";" + cs[j] == Unir(';', cs[..j + 1])
  {
    assert cs[..j + 1] == cs[..j] + [cs[j]];
    UnirAgregar(';', cs[..j], cs[j]);
  }

  /** The legacy `serializarPedido`, appending field by field to a
      `StringBuilder`: the same line the clean version's `String.join`
      writes. */
  method SerializarPedidoLegado(p: Pedido) returns (s: string)
    ensures s == Serializar(p.Registro())
  {
    var r := p.Registro();
    var ing := UnirConBarras(r.ingredientes);
    var con := UnirConBarras(r.condimentos);
    s := IntATexto(r.id) + ";";
    s := s + NullToEmpty(r.masa) + ";";
    s := s + NullToEmpty(r.salsa) + ";";
    s := s + NullToEmpty(r.queso) + ";";
    s := s + NullToEmpty(r.tipoOrilla) + ";";
    s := s + ing + ";";
    s := s + con + ";";
    s := s + TotalATexto(r.total) + ";";
    s := s + NombreEstado(r.estado);
    SerializarCampo(r);
  }

  /** The record's line, written out field by field. */
  lemma SerializarCampo(r: RegistroPedido)
    ensures Serializar(r) == IntATexto(r.id) + ";" + NullToEmpty(r.masa) + ";" + NullToEmpty(r.salsa) + ";"
      + NullToEmpty(r.queso) + ";" + NullToEmpty(r.tipoOrilla) + ";" + Unir('|', r.ingredientes) + ";"
      + Unir('|', r.condimentos) + ";" + TotalATexto(r.total) + ";" + NombreEstado(r.estado)
  {
    var cs := Campos(r);
    assert cs[..1] == [cs[0]];
    CampoSiguiente(cs, 1);
    CampoSiguiente(cs, 2);
    CampoSiguiente(cs, 3);
    CampoSiguiente(cs, 4);
    CampoSiguiente(cs, 5);
    CampoSiguiente(cs, 6);
    CampoSiguiente(cs, 7);
    CampoSiguiente(cs, 8);
    assert cs[..9] == cs;
  }

  /** One turn of the legacy write loop; the orders read so far are left
      as they were. */
  method EscribirLineaLegado(ps: seq<Pedido>, i: nat) returns (linea: string)
    requires i < |ps|
    ensures linea == Serializar(ps[i].Registro())
    ensures Registros(ps[..i]) == old(Registros(ps[..i]))
  {
    linea := SerializarPedidoLegado(ps[i]);
    RegistrosIntactos(ps[..i]);
  }

  /** The write loop of the legacy `reescribirArchivoDesdeMemoria`: one
      line per order, in list order. */
  method ReescribirLegado(ps: seq<Pedido>) returns (salida: seq<string>)
    ensures salida == Lineas(Registros(ps))
  {
    salida := [];
    var i := 0;
    while i < |ps|
      invariant 0 <= i <= |ps|
      invariant salida == Lineas(Registros(ps[..i]))
    {
      var linea := EscribirLineaLegado(ps, i);
      RegistrosPaso(ps, i);
      LineasPaso(Registros(ps[..i]), ps[i].Registro());
      salida := salida + [linea];
      i := i + 1;
    }
    assert ps[..i] == ps;
  }

  // ---------------------------------------------------------------
  // Loading
  // ---------------------------------------------------------------

  /** The two demo observers (`PantallaEstadoCliente` and
      `PanelControlEmpleado`): new objects that only print, so they never
      throw. No order's record changes. */
  method AgregarObservadoresDemo(p: Pedido, ghost otros: seq<Pedido>)
    requires p.observadores == []
    modifies p
    ensures |p.observadores| == 2 && SinDuplicados(p.observadores)
    ensures forall o :: o in p.observadores ==> fresh(o) && !o.falla
    ensures p.id == old(p.id) && p.total == old(p.total)
    ensures p.estadoActual == old(p.estadoActual) && p.entregas == old(p.entregas)
    ensures p.Registro() == old(p.Registro())
    ensures p !in otros ==> Registros(otros) == old(Registros(otros))
  {
    var pantalla := new Observador(false);
    var panel := new Observador(false);
    p.AgregarObservador(Some(pantalla));
    p.AgregarObservador(Some(panel));
    if p !in otros {
      RegistrosIntactos(otros);
    }
  }

  /** The legacy `parsearPedido`: the shared parsing, then the two demo
      observers, added after the state is set, so the state change
      notifies nobody. The orders read before are left as they were. */
  method ParsearPedidoLegado(ghost previos: seq<Pedido>, linea: string) returns (r: Option<Pedido>)
    ensures Registros(previos) == old(Registros(previos))
    ensures (if r.Some? then [r.value.Registro()] else []) == LeerLinea(linea)
    ensures r.Some? ==> fresh(r.value) && fresh(r.value.pizza) && r.value.entregas == []
    ensures r.Some? ==> |r.value.observadores| == 2 && SinDuplicados(r.value.observadores)
    ensures r.Some? ==> forall o :: o in r.value.observadores ==> fresh(o) && !o.falla
  {
    r := LeerConservando(previos, linea);
    if r.Some? {
      AgregarObservadoresDemo(r.value, previos);
    }
  }

  /** `LeerLineaPedido`, leaving the orders read before as they were. */
  method LeerConservando(ghost previos: seq<Pedido>, linea: string) returns (r: Option<Pedido>)
    ensures Registros(previos) == old(Registros(previos))
    ensures (if r.Some? then [r.value.Registro()] else []) == LeerLinea(linea)
    ensures r.Some? ==>
      fresh(r.value) && fresh(r.value.pizza) && r.value.observadores == [] && r.value.entregas == []
  {
    r := LeerLineaPedido(linea);
    RegistrosIntactos(previos);
  }

  /** One line of the legacy `cargarDesdeArchivo`: the order it holds, if
      any, is registered as existing, with its demo observers. */
  method CargarLineaLegado(gestor: GestorPedidos, lineas: seq<string>, i: nat, ghost base: seq<RegistroPedido>)
    returns (ghost nuevo: Option<Pedido>)
    requires i < |lineas|
    requires gestor.Valid() && Registros(gestor.pedidos) == base + CargarRegistros(lineas[..i])
    modifies gestor
    ensures gestor.Valid() && gestor.estrategia == old(gestor.estrategia)
    ensures Registros(gestor.pedidos) == base + CargarRegistros(lineas[..i + 1])
    ensures gestor.pedidos == old(gestor.pedidos) + if nuevo.Some? then [nuevo.value] else []
    ensures nuevo.Some? ==> fresh(nuevo.value) && |nuevo.value.observadores| == 2
  {
    ghost var antes := Registros(gestor.pedidos);
    var r := ParsearPedidoLegado(gestor.pedidos, lineas[i]);
    ghost var leido := if r.Some? then [r.value.Registro()] else [];
    CargarExtiende(base, antes, leido, lineas, i);
    RegistrarLeido(gestor, r);
    nuevo := r;
  }

  /** The records after one more line. */
  lemma CargarExtiende(base: seq<RegistroPedido>, antes: seq<RegistroPedido>, leido: seq<RegistroPedido>,
                       lineas: seq<string>, i: nat)
    requires i < |lineas|
    requires antes == base + CargarRegistros(lineas[..i]) && leido == LeerLinea(lineas[i])
    ensures antes + leido == base + CargarRegistros(lineas[..i + 1])
  {
    CargarPaso(lineas, i);
    Asociar(base, CargarRegistros(lineas[..i]), leido);
  }

  /** `registrarPedidoExistente` on an order just read: the stored records
      grow by its record, if there is one. */
  method RegistrarLeido(gestor: GestorPedidos, r: Option<Pedido>)
    requires gestor.Valid()
    modifies gestor
    ensures gestor.Valid() && gestor.estrategia == old(gestor.estrategia)
    ensures gestor.pedidos == old(gestor.pedidos) + if r.Some? then [r.value] else []
    ensures Registros(gestor.pedidos) == old(Registros(gestor.pedidos)) + if r.Some? then [r.value.Registro()] else []
  {
    ghost var ps := gestor.pedidos;
    gestor.RegistrarPedidoExistente(r);
    RegistrosIntactos(ps);
    if r.Some? {
      RegistrosUno(ps, r.value);
    } else {
      assert gestor.pedidos == ps;
    }
  }

  /** The legacy `cargarDesdeArchivo`: no file loads nothing; otherwise
      every line's order is registered in file order (each with two demo
      observers, as `CargarLineaLegado` states). */
  method CargarDesdeArchivo(gestor: GestorPedidos, disco: Disco)
    requires gestor.Valid()
    modifies gestor
    ensures gestor.Valid() && gestor.estrategia == old(gestor.estrategia)
    ensures Registros(gestor.pedidos) == old(Registros(gestor.pedidos)) + Almacenados(disco.lineas)
  {
    if disco.lineas.None? {
      return;
    }
    var lineas := disco.lineas.value;
    ghost var base := Registros(gestor.pedidos);
    var i := 0;
    while i < |lineas|
      invariant 0 <= i <= |lineas|
      invariant gestor.Valid() && gestor.estrategia == old(gestor.estrategia)
      invariant Registros(gestor.pedidos) == base + CargarRegistros(lineas[..i])
    {
      ghost var nuevo := CargarLineaLegado(gestor, lineas, i, base);
      i := i + 1;
    }
    assert lineas[..i] == lineas;
  }

  /** The registration loop of the clean constructor: every loaded order
      is registered as existing, in order. */
  method RegistrarExistentes(gestor: GestorPedidos, ps: seq<Pedido>)
    requires gestor.Valid()
    modifies gestor
    ensures gestor.Valid() && gestor.estrategia == old(gestor.estrategia)
    ensures gestor.pedidos == old(gestor.pedidos) + ps
  {
    var i := 0;
    while i < |ps|
      invariant 0 <= i <= |ps|
      invariant gestor.Valid() && gestor.estrategia == old(gestor.estrategia)
      invariant gestor.pedidos == old(gestor.pedidos) + ps[..i]
    {
      assert ps[..i + 1] == ps[..i] + [ps[i]];
      gestor.RegistrarPedidoExistente(Some(ps[i]));
      i := i + 1;
    }
    assert ps[..i] == ps;
  }

  /** `RegistrarExistentes` seen through the records: the manager's
      records grow by those of `ps`. */
  method RegistrarRegistros(gestor: GestorPedidos, ps: seq<Pedido>)
    requires gestor.Valid()
    modifies gestor
    ensures gestor.Valid() && gestor.estrategia == old(gestor.estrategia)
    ensures Registros(gestor.pedidos) == old(Registros(gestor.pedidos)) + old(Registros(ps))
  {
    ghost var todos := gestor.pedidos + ps;
    RegistrosConcat(gestor.pedidos, ps);
    RegistrarExistentes(gestor, ps);
    RegistrosIntactos(todos);
  }

  /** The clean constructor's load: the repository's orders, registered
      as existing. */
  method CargarDesdeRepositorio(gestor: GestorPedidos, repo: RepositorioPedidosTxt)
    requires gestor.Valid()
    modifies gestor
    ensures gestor.Valid() && gestor.estrategia == old(gestor.estrategia)
    ensures Registros(gestor.pedidos) == old(Registros(gestor.pedidos)) + Almacenados(repo.disco.lineas)
  {
    var ps := LeerRepositorio(gestor.pedidos, repo);
    RegistrarRegistros(gestor, ps);
  }

  /** `repoPedidos.cargarPedidos()`, which leaves the manager's records as
      they were. */
  method LeerRepositorio(ghost previos: seq<Pedido>, repo: RepositorioPedidosTxt) returns (ps: seq<Pedido>)
    ensures Registros(ps) == Almacenados(repo.disco.lineas)
    ensures Registros(previos) == old(Registros(previos))
  {
    ps := repo.CargarPedidos();
    RegistrosIntactos(previos);
  }

  // ---------------------------------------------------------------
  // Building a pizza from the screen's data
  // ---------------------------------------------------------------

  /** One entry of the toppings loop: kept ones, trimmed, go through the
      builder. */
  method AgregarIngredienteEntrada(b: PizzaPersonalizadaBuilder, x: Option<string>)
    requires b.Valid()
    modifies b.pizza.ingredientes
    ensures b.pizza.ingredientes.elementos == old(b.pizza.ingredientes.elementos) + Depurada(x)
  {
    if x.Some? && !IsBlank(x.value) {
      var _ := b.AgregarIngrediente(Trim(x.value));
    }
  }

  /** One entry of the seasonings loop. */
  method AgregarCondimentoEntrada(b: PizzaPersonalizadaBuilder, x: Option<string>)
    requires b.Valid()
    modifies b.pizza.condimentos
    ensures b.pizza.condimentos.elementos == old(b.pizza.condimentos.elementos) + Depurada(x)
  {
    if x.Some? && !IsBlank(x.value) {
      var _ := b.AgregarCondimento(Trim(x.value));
    }
  }

  /** The toppings loop of `crearPedidoDesdeDatosSimples`: a null list adds
      nothing; otherwise every non-null, non-blank entry, trimmed, goes
      through the builder in order. */
  method AgregarIngredientesDe(b: PizzaPersonalizadaBuilder, xs: Option<seq<Option<string>>>)
    requires b.Valid()
    modifies b.pizza.ingredientes
    ensures b.pizza.Datos() == old(b.pizza.Datos()).(ingredientes := old(b.pizza.Datos()).ingredientes + Entradas(xs))
  {
    if xs.None? {
      return;
    }
    var entradas := xs.value;
    ghost var inicio := b.pizza.ingredientes.elementos;
    var i := 0;
    while i < |entradas|
      invariant 0 <= i <= |entradas|
      invariant b.pizza.ingredientes.elementos == inicio + Depurar(entradas[..i])
    {
      DepurarPaso(entradas, i);
      Asociar(inicio, Depurar(entradas[..i]), Depurada(entradas[i]));
      AgregarIngredienteEntrada(b, entradas[i]);
      i := i + 1;
    }
    assert entradas[..i] == entradas;
  }

  /** The seasonings loop of `crearPedidoDesdeDatosSimples`. */
  method AgregarCondimentosDe(b: PizzaPersonalizadaBuilder, xs: Option<seq<Option<string>>>)
    requires b.Valid()
    modifies b.pizza.condimentos
    ensures b.pizza.Datos() == old(b.pizza.Datos()).(condimentos := old(b.pizza.Datos()).condimentos + Entradas(xs))
  {
    if xs.None? {
      return;
    }
    var entradas := xs.value;
    ghost var inicio := b.pizza.condimentos.elementos;
    var i := 0;
    while i < |entradas|
      invariant 0 <= i <= |entradas|
      invariant b.pizza.condimentos.elementos == inicio + Depurar(entradas[..i])
    {
      DepurarPaso(entradas, i);
      Asociar(inicio, Depurar(entradas[..i]), Depurada(entradas[i]));
      AgregarCondimentoEntrada(b, entradas[i]);
      i := i + 1;
    }
    assert entradas[..i] == entradas;
  }

  /** The builder part of `crearPedidoDesdeDatosSimples`: a new pizza with
      the four texts as given (null included) and the kept entries. */
  method ConstruirPizza(masa: Option<string>, salsa: Option<string>, queso: Option<string>,
                        tipoOrilla: Option<string>, ingredientes: Option<seq<Option<string>>>,
                        condimentos: Option<seq<Option<string>>>)
    returns (pizza: Pizza)
    ensures fresh(pizza) && fresh(pizza.ingredientes) && fresh(pizza.condimentos)
    ensures pizza.Datos() == DatosPizza(0, None, masa, salsa, queso, tipoOrilla,
      Entradas(ingredientes), Entradas(condimentos))
  {
    var builder := new PizzaPersonalizadaBuilder();
    var b := builder.ConMasa(masa);
    b := b.ConSalsa(salsa);
    b := b.ConQueso(queso);
    b := b.ConTipoOrilla(tipoOrilla);
    AgregarIngredientesDe(builder, ingredientes);
    AgregarCondimentosDe(builder, condimentos);
    pizza := builder.Build();
  }

  /** The registration step of `crearPedidoDesdeDatosSimples`: the order
      is registered first (next id, the current strategy's price, RECIBIDO)
      and the two demo observers are attached afterwards, so they have not
      been notified of anything. */
  method RegistrarConObservadores(gestor: GestorPedidos, pizza: Pizza) returns (p: Pedido)
    requires gestor.Valid()
    modifies gestor
    ensures gestor.Valid() && gestor.estrategia == old(gestor.estrategia)
    ensures fresh(p) && p.pizza == pizza && gestor.pedidos == old(gestor.pedidos) + [p]
    ensures p.id == old(gestor.siguienteId) && gestor.siguienteId == old(gestor.siguienteId) + 1
    ensures forall q :: q in old(gestor.pedidos) ==> q.id != p.id
    ensures p.total == CalcularTotal(gestor.estrategia, pizza.Datos())
    ensures p.estadoActual == Some(Recibido) && p.entregas == []
    ensures |p.observadores| == 2 && SinDuplicados(p.observadores)
    ensures forall o :: o in p.observadores ==> fresh(o) && !o.falla
  {
    p := gestor.RegistrarPedido(pizza);
    AgregarObservadoresDemo(p, []);
  }

  /** The load a service's constructor performs: only while the flag is
      down, the legacy version reading the file line by line and the clean
      one through the repository; the flag is raised afterwards. */
  method CargaInicial(version: Version, gestor: GestorPedidos, repo: RepositorioPedidosTxt, bandera: Bandera)
    requires gestor.Valid()
    modifies gestor, bandera
    ensures gestor.Valid() && gestor.estrategia == old(gestor.estrategia) && bandera.cargado
    ensures old(bandera.cargado) ==> gestor.pedidos == old(gestor.pedidos)
    ensures !old(bandera.cargado) ==>
      Registros(gestor.pedidos) == old(Registros(gestor.pedidos)) + Almacenados(repo.disco.lineas)
  {
    if !bandera.cargado {
      if version == Legado {
        CargarDesdeArchivo(gestor, repo.disco);
      } else {
        CargarDesdeRepositorio(gestor, repo);
      }
      label Cargado:
      bandera.cargado := true;
      RegistrosIntactos@Cargado(gestor.pedidos);
    }
  }

  // ---------------------------------------------------------------
  // The service
  // ---------------------------------------------------------------

  class ServicioPedidos {
    const version: Version
    /** The shared `GestorPedidos.getInstancia()`. */
    const gestor: GestorPedidos
    /** `pedidos_store.txt`. */
    const disco: Disco
    /** The clean version's `repoPedidos` over the same file. */
    const repo: RepositorioPedidosTxt
    const bandera: Bandera

    ghost predicate Valid()
      reads this, gestor, gestor.pedidos
    {
      gestor.Valid() && repo.disco == disco
    }

    /** `new ServicioPedidos()`: the first service of a run loads the file
        into the manager and raises the flag; later ones load nothing. Only
        the legacy version gives the loaded orders observers. */
    constructor (version: Version, gestor: GestorPedidos, disco: Disco, bandera: Bandera)
      requires gestor.Valid()
      modifies gestor, bandera
      ensures Valid() && bandera.cargado
      ensures this.version == version && this.gestor == gestor && this.disco == disco && this.bandera == bandera
      ensures gestor.estrategia == old(gestor.estrategia)
      ensures old(bandera.cargado) ==> gestor.pedidos == old(gestor.pedidos)
      ensures !old(bandera.cargado) ==>
        Registros(gestor.pedidos) == old(Registros(gestor.pedidos)) + Almacenados(disco.lineas)
    {
      this.version := version;
      this.gestor := gestor;
      this.disco := disco;
      this.bandera := bandera;
      this.repo := new RepositorioPedidosTxt(disco);
      new;
      RegistrosIntactos(gestor.pedidos);
      CargaInicial(version, gestor, repo, bandera);
    }

    /** `reescribirArchivoDesdeMemoria` / `guardarCambiosEnDisco`: the file
        becomes one line per stored order, in registration order, as
        `readLine` will split them. */
    method GuardarCambiosEnDisco()
      requires Valid()
      modifies disco
      ensures disco.lineas == Some(Escritas(Lineas(Registros(gestor.pedidos))))
      ensures unchanged(gestor.pedidos)
    {
      var ps := gestor.GetPedidos();
      if version == Legado {
        var salida := ReescribirLegado(ps);
        label Escrito:
        disco.lineas := Some(Escritas(salida));
        RegistrosIntactos@Escrito(ps);
      } else {
        repo.GuardarPedidos(ps);
      }
    }

    /** `crearPedidoDesdeDatosSimples`: builds the pizza, registers it
        (priced by the current strategy, next id), gives the order the two
        demo observers and rewrites the file with every stored order. */
    method CrearPedidoDesdeDatosSimples(masa: Option<string>, salsa: Option<string>, queso: Option<string>,
                                        tipoOrilla: Option<string>, ingredientes: Option<seq<Option<string>>>,
                                        condimentos: Option<seq<Option<string>>>)
      returns (p: Pedido)
      requires Valid()
      modifies gestor, disco
      ensures Valid()
      ensures fresh(p) && fresh(p.pizza) && gestor.pedidos == old(gestor.pedidos) + [p]
      ensures p.id == old(gestor.siguienteId) && gestor.siguienteId == old(gestor.siguienteId) + 1
      ensures forall q :: q in old(gestor.pedidos) ==> q.id != p.id
      ensures p.pizza.Datos() == DatosPizza(0, None, masa, salsa, queso, tipoOrilla,
        Entradas(ingredientes), Entradas(condimentos))
      ensures gestor.estrategia == old(gestor.estrategia)
      ensures p.total == CalcularTotal(gestor.estrategia, p.pizza.Datos())
      ensures p.estadoActual == Some(Recibido) && p.entregas == []
      ensures |p.observadores| == 2 && SinDuplicados(p.observadores)
      ensures forall o :: o in p.observadores ==> fresh(o) && !o.falla
      ensures disco.lineas == Some(Escritas(Lineas(Registros(gestor.pedidos))))
    {
      var pizza := ConstruirPizza(masa, salsa, queso, tipoOrilla, ingredientes, condimentos);
      p := RegistrarConObservadores(gestor, pizza);
      GuardarCambiosEnDisco();
    }

    /** `cambiarEstrategiaPromocion`: promotion pricing when active,
        standard pricing otherwise, for orders created from now on. */
    method CambiarEstrategiaPromocion(activa: bool)
      requires Valid()
      modifies gestor
      ensures Valid()
      ensures gestor.estrategia == if activa then Promocion else Estandar
      ensures gestor.pedidos == old(gestor.pedidos) && gestor.siguienteId == old(gestor.siguienteId)
    {
      if activa {
        gestor.SetEstrategia(Some(Promocion));
      } else {
        gestor.SetEstrategia(Some(Estandar));
      }
    }

    /** `listarPedidos`: the stored orders in registration order. */
    method ListarPedidos() returns (r: seq<Pedido>)
      ensures r == gestor.pedidos
    {
      r := gestor.GetPedidos();
    }

    /** `buscarPedidoPorId`: the first stored order with that id, or null. */
    method BuscarPedidoPorId(id: int) returns (r: Option<Pedido>)
      ensures r.Some? <==> exists i :: 0 <= i < |gestor.pedidos| && gestor.pedidos[i].id == id
      ensures r.Some? ==> r.value in gestor.pedidos && r.value.id == id
      ensures r == match PosicionPorId(gestor.pedidos, id)
        case None => None
        case Some(k) => Some(gestor.pedidos[k])
    {
      r := gestor.BuscarPorId(id);
    }

    /** `avanzarEstadoPedido`: advances the first order with that id (if
        any and not finished) and rewrites the file. */
    method AvanzarEstadoPedido(idPedido: int)
      requires Valid()
      modifies gestor.pedidos, disco
      ensures Valid()
      ensures match old(PosicionPorId(gestor.pedidos, idPedido))
        case None => forall q :: q in gestor.pedidos ==> unchanged(q)
        case Some(k) => Avanzado(gestor.pedidos[k]) && forall q :: q in gestor.pedidos && q != gestor.pedidos[k] ==> unchanged(q)
      ensures disco.lineas == Some(Escritas(Lineas(Registros(gestor.pedidos))))
    {
      gestor.AvanzarEstado(idPedido);
      GuardarCambiosEnDisco();
    }

    /** `cancelarPedido`: cancels the first order with that id (if any and
        not finished) and rewrites the file. */
    method CancelarPedido(idPedido: int)
      requires Valid()
      modifies gestor.pedidos, disco
      ensures Valid()
      ensures match old(PosicionPorId(gestor.pedidos, idPedido))
        case None => forall q :: q in gestor.pedidos ==> unchanged(q)
        case Some(k) => Cancelacion(gestor.pedidos[k]) && forall q :: q in gestor.pedidos && q != gestor.pedidos[k] ==> unchanged(q)
      ensures disco.lineas == Some(Escritas(Lineas(Registros(gestor.pedidos))))
    {
      gestor.CancelarPedido(idPedido);
      GuardarCambiosEnDisco();
    }
  }
}
