/** `RepositorioPedidosTxt`: reads the store file into fresh orders and
    overwrites it with a snapshot of a list of orders. The file itself is a
    `Disco` holding its lines, or nothing when it does not exist. */
module Repositorio {
  import opened Tipos
  import opened Texto
  import opened Numeros
  import opened Estados
  import opened Pizzas
  import opened Codec
  import opened Pedidos

  /** The store file `pedidos_store.txt`: its lines, or `None` when the
      file does not exist. */
  class Disco {
    var lineas: Option<seq<string>>

    constructor (lineas: Option<seq<string>>)
      ensures this.lineas == lineas
    {
      this.lineas := lineas;
    }
  }

  /** The entries a split list field keeps: non-blank pieces, trimmed. */
  function EntradasDeCampo(piezas: seq<string>): seq<string>
  {
    Depurar(Envolver(piezas))
  }

  /** One more piece through the entry filter. */
  lemma EntradasDeCampoPaso(xs: seq<string>, i: nat, x: string)
    requires i < |xs| && x == Trim(xs[i])
    ensures EntradasDeCampo(xs[..i + 1]) == EntradasDeCampo(xs[..i]) + if !IsBlank(xs[i]) then [x] else []
  {
    assert xs[..i + 1][..i] == xs[..i];
    assert Envolver(xs[..i + 1]) == Envolver(xs[..i]) + [Some(xs[i])];
    DepurarConcat(Envolver(xs[..i]), [Some(xs[i])]);
    ConcatenarUno(Depurada, Some(xs[i]));
  }

  /** The pieces of a trimmed list field: none for empty text, the
      `|`-separated pieces otherwise. */
  function Piezas(t: string): seq<string>
  {
    if t == "" then [] else Split(t, '|')
  }

  /** The toppings loop of `parsearPedido`: every non-blank piece,
      trimmed, is appended in order. */
  method AgregarIngredientes(pizza: Pizza, piezas: seq<string>)
    requires pizza.Valid()
    modifies pizza.ingredientes
    ensures pizza.Datos() == old(pizza.Datos()).(ingredientes := old(pizza.Datos()).ingredientes + EntradasDeCampo(piezas))
  {
    ghost var inicio := pizza.ingredientes.elementos;
    var i := 0;
    while i < |piezas|
      invariant 0 <= i <= |piezas|
      invariant pizza.ingredientes.elementos == inicio + EntradasDeCampo(piezas[..i])
    {
      var x := Trim(piezas[i]);
      EntradasDeCampoPaso(piezas, i, x);
      if !IsBlank(piezas[i]) {
        pizza.AgregarIngrediente(x);
      }
      i := i + 1;
    }
    assert piezas[..i] == piezas;
  }

  /** The seasonings loop of `parsearPedido`. */
  method AgregarCondimentos(pizza: Pizza, piezas: seq<string>)
    requires pizza.Valid()
    modifies pizza.condimentos
    ensures pizza.Datos() == old(pizza.Datos()).(condimentos := old(pizza.Datos()).condimentos + EntradasDeCampo(piezas))
  {
    ghost var inicio := pizza.condimentos.elementos;
    var i := 0;
    while i < |piezas|
      invariant 0 <= i <= |piezas|
      invariant pizza.condimentos.elementos == inicio + EntradasDeCampo(piezas[..i])
    {
      var x := Trim(piezas[i]);
      EntradasDeCampoPaso(piezas, i, x);
      if !IsBlank(piezas[i]) {
        pizza.AgregarCondimento(x);
      }
      i := i + 1;
    }
    assert piezas[..i] == piezas;
  }

  /** The body of `parsearPedido` in either version: split the line, read
      id and total (any failure gives null), rebuild the pizza adding the
      non-blank list entries trimmed, and build the order with that id and
      the named state. The result equals the record `ParsearRegistro`
      reads from the line, on fresh objects with no observers. */
  method ParsearPedido(linea: string) returns (r: Option<Pedido>)
    ensures r.None? <==> ParsearRegistro(linea).None?
    ensures r.Some? ==> r.value.Registro() == ParsearRegistro(linea).value
    ensures r.Some? ==>
      fresh(r.value) && fresh(r.value.pizza) && fresh(r.value.pizza.ingredientes) && fresh(r.value.pizza.condimentos)
    ensures r.Some? ==> r.value.pizza.Valid() && r.value.observadores == [] && r.value.entregas == []
  {
    var partes := Split(linea, ';');
    if |partes| < 9 {
      return None;
    }
    var r' := ParsearCampos(partes);
    assert ParsearRegistro(linea) == ParsearPartes(partes);
    r := r';
  }

  /** `parsearPedido` once the line has at least nine fields. */
  method ParsearCampos(partes: seq<string>) returns (r: Option<Pedido>)
    requires |partes| >= 9
    ensures r.None? <==> ParsearPartes(partes).None?
    ensures r.Some? ==> r.value.Registro() == ParsearPartes(partes).value
    ensures r.Some? ==>
      fresh(r.value) && fresh(r.value.pizza) && fresh(r.value.pizza.ingredientes) && fresh(r.value.pizza.condimentos)
    ensures r.Some? ==> r.value.pizza.Valid() && r.value.observadores == [] && r.value.entregas == []
  {
    CamposDeLinea(partes);
    var id := ParseInt(Trim(partes[0]));
    if id.None? {
      return None;
    }
    var total := ParseTotal(Trim(partes[7]));
    if total.None? {
      return None;
    }
    var masa, salsa, queso, orilla := Trim(partes[1]), Trim(partes[2]), Trim(partes[3]), Trim(partes[4]);
    var ingStr, conStr, estadoStr := Trim(partes[5]), Trim(partes[6]), Trim(partes[8]);
    var pedido := NuevoPedido(id.value, masa, salsa, queso, orilla, Piezas(ingStr), Piezas(conStr),
      total.value, EstadoPorNombre(Some(estadoStr)));
    r := Some(pedido);
  }

  /** What `ParsearPartes` reads from each field. */
  lemma CamposDeLinea(partes: seq<string>)
    requires |partes| >= 9
    ensures ParsearPartes(partes).None? <==> ParseInt(Trim(partes[0])).None? || ParseTotal(Trim(partes[7])).None?
    ensures ParsearPartes(partes).Some? ==> ParsearPartes(partes).value == RegistroPedido(
      ParseInt(Trim(partes[0])).value, Some(Trim(partes[1])), Some(Trim(partes[2])), Some(Trim(partes[3])),
      Some(Trim(partes[4])), EntradasDeCampo(Piezas(Trim(partes[5]))), EntradasDeCampo(Piezas(Trim(partes[6]))),
      ParseTotal(Trim(partes[7])).value, Some(EstadoPorNombre(Some(Trim(partes[8])))))
  {
    ListaDeCampoPiezas(Trim(partes[5]));
    ListaDeCampoPiezas(Trim(partes[6]));
  }

  /** The list a field reads to is the filtered pieces of the field. */
  lemma ListaDeCampoPiezas(t: string)
    ensures ListaDeCampo(t) == EntradasDeCampo(Piezas(t))
  {
    if t == "" {
      assert Envolver([]) == [];
    }
  }

  /** The objects `parsearPedido` builds from the converted fields: a
      fresh pizza with the four texts and the kept list entries, and a
      fresh order with that pizza, total, id and state. Setting the state
      notifies, but nobody is listening yet. */
  method NuevoPedido(id: int, masa: string, salsa: string, queso: string, orilla: string,
                     ingPiezas: seq<string>, conPiezas: seq<string>, total: int, estado: Estado)
    returns (pedido: Pedido)
    ensures pedido.Registro() == RegistroPedido(id, Some(masa), Some(salsa), Some(queso), Some(orilla),
      EntradasDeCampo(ingPiezas), EntradasDeCampo(conPiezas), total, Some(estado))
    ensures fresh(pedido) && fresh(pedido.pizza) && fresh(pedido.pizza.ingredientes) && fresh(pedido.pizza.condimentos)
    ensures pedido.pizza.Valid() && pedido.observadores == [] && pedido.entregas == []
  {
    var pizza := new Pizza();
    pizza.SetMasa(Some(masa));
    pizza.SetSalsa(Some(salsa));
    pizza.SetQueso(Some(queso));
    pizza.SetTipoOrilla(Some(orilla));
    AgregarIngredientes(pizza, ingPiezas);
    AgregarCondimentos(pizza, conPiezas);

    pedido := new Pedido(pizza, total);
    pedido.SetId(id);
    pedido.SetEstadoActual(Some(estado));
  }

  /** The order list a line contributes once read: nothing for a blank or
      unparsable line. */
  method LeerLineaPedido(linea: string) returns (r: Option<Pedido>)
    ensures (if r.Some? then [r.value.Registro()] else []) == LeerLinea(linea)
    ensures r.Some? ==>
      fresh(r.value) && fresh(r.value.pizza) && fresh(r.value.pizza.ingredientes) && fresh(r.value.pizza.condimentos)
    ensures r.Some? ==> r.value.pizza.Valid() && r.value.observadores == [] && r.value.entregas == []
  {
    var t := Trim(linea);
    if t == "" {
      return None;
    }
    r := ParsearPedido(t);
  }

  /** Reading orders is independent per order. */
  lemma {:induction false} RegistrosConcat(a: seq<Pedido>, b: seq<Pedido>)
    ensures Registros(a + b) == Registros(a) + Registros(b)
    decreases |b|
  {
    if b == [] {
      assert a + b == a;
    } else {
      var b' := b[..|b| - 1];
      assert (a + b)[..|a + b| - 1] == a + b';
      RegistrosConcat(a, b');
    }
  }

  lemma LineasPaso(rs: seq<RegistroPedido>, r: RegistroPedido)
    ensures Lineas(rs + [r]) == Lineas(rs) + [Serializar(r)]
  {
    assert (rs + [r])[..|rs|] == rs;
  }

  lemma CargarPaso(lineas: seq<string>, i: nat)
    requires i < |lineas|
    ensures CargarRegistros(lineas[..i + 1]) == CargarRegistros(lineas[..i]) + LeerLinea(lineas[i])
  {
    assert lineas[..i + 1] == lineas[..i] + [lineas[i]];
    CargarConcat(lineas[..i], [lineas[i]]);
    CargarUna(lineas[i]);
  }

  /** One turn of the read loop of `cargarPedidos`: the order the line
      holds, if any, is appended to the list read so far. */
  method LeerSiguiente(ps: seq<Pedido>, linea: string) returns (ps': seq<Pedido>)
    ensures Registros(ps') == old(Registros(ps)) + LeerLinea(linea)
    ensures forall p :: p in ps' ==> p in ps || fresh(p)
  {
    var r := LeerLineaPedido(linea);
    RegistrosIntactos(ps);
    if r.Some? {
      RegistrosConcat(ps, [r.value]);
      ps' := ps + [r.value];
    } else {
      ps' := ps;
    }
  }

  /** The read loop of `cargarPedidos` over the lines of an existing
      file: the orders are new objects. */
  method LeerPedidos(lineas: seq<string>) returns (ps: seq<Pedido>)
    ensures Registros(ps) == CargarRegistros(lineas)
    ensures forall p :: p in ps ==> fresh(p)
  {
    ps := [];
    var i := 0;
    while i < |lineas|
      invariant 0 <= i <= |lineas|
      invariant Registros(ps) == CargarRegistros(lineas[..i])
      invariant forall p :: p in ps ==> fresh(p)
    {
      CargarPaso(lineas, i);
      ps := LeerSiguiente(ps, lineas[i]);
      i := i + 1;
    }
    assert lineas[..i] == lineas;
  }

  /** The write loop of `guardarPedidos`: one line per order, in order. */
  method SerializarPedidos(ps: seq<Pedido>) returns (salida: seq<string>)
    ensures salida == Lineas(Registros(ps))
  {
    salida := [];
    var i := 0;
    while i < |ps|
      invariant 0 <= i <= |ps|
      invariant salida == Lineas(Registros(ps[..i]))
    {
      RegistrosPaso(ps, i);
      LineasPaso(Registros(ps[..i]), ps[i].Registro());
      salida := salida + [Serializar(ps[i].Registro())];
      i := i + 1;
    }
    assert ps[..i] == ps;
  }

  class RepositorioPedidosTxt {
    const disco: Disco

    constructor (disco: Disco)
      ensures this.disco == disco
    {
      this.disco := disco;
    }

    /** `cargarPedidos`: no file gives no orders; otherwise every line is
        trimmed, blank ones skipped and unparsable ones dropped, in file
        order. The orders are new objects. */
    method CargarPedidos() returns (ps: seq<Pedido>)
      ensures Registros(ps) == if disco.lineas.None? then [] else CargarRegistros(disco.lineas.value)
      ensures forall p :: p in ps ==> fresh(p)
    {
      if disco.lineas.None? {
        return [];
      }
      ps := LeerPedidos(disco.lineas.value);
    }

    /** `guardarPedidos`: the file is replaced by one serialized line per
        order, in list order, each followed by `newLine`; the file holds
        them as `readLine` will split them. */
    method GuardarPedidos(ps: seq<Pedido>)
      modifies disco
      ensures disco.lineas == Some(Escritas(Lineas(Registros(ps))))
    {
      var salida := SerializarPedidos(ps);
      label Escrito:
      disco.lineas := Some(Escritas(salida));
      RegistrosIntactos@Escrito(ps);
    }
  }
}
