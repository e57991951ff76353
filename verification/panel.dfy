/** The order board (`PanelControlPedidosController`): each order is shown
    as a short text in one of five columns, the active orders are counted,
    and the order number is read back from a clicked text. The board itself
    is a value here: the five column lists the view holds and the count
    `setActivos` receives. */
module PanelControl {
  import opened Tipos
  import opened Texto
  import opened Numeros
  import opened Estados
  import opened Codec
  import opened Pedidos

  // ---------------------------------------------------------------
  // One order's text, state and column
  // ---------------------------------------------------------------

  /** `safeEstado`: RECIBIDO for a missing or blank state name, the
      trimmed name otherwise. */
  function SafeEstado(nombre: Option<string>): string
  {
    match nombre
    case None => "RECIBIDO"
    case Some(e) => if IsBlank(e) then "RECIBIDO" else Trim(e)
  }

  /** The board's state text for an order: `safeEstado` of its
      `getNombreEstado`. */
  function EstadoDe(r: RegistroPedido): string
  {
    SafeEstado(Some(NombreEstado(r.estado)))
  }

  /** The state text of an order is the name of its state, or RECIBIDO
      when it has none. */
  lemma EstadoDePedido(r: RegistroPedido)
    ensures EstadoDe(r) == if r.estado.None? then "RECIBIDO" else Nombre(r.estado.value)
  {
    if r.estado.Some? {
      var n := Nombre(r.estado.value);
      assert !EsEspacioJava(n[0]);
      TrimSinBordes(n);
    }
  }

  /** The fixed text between the id and the total. */
  const ENTRE_ID_Y_TOTAL := " - Pizza personalizada\nTotal: $"

  /** The first line of an item: "Pedido #", the id as `%04d`, and the
      total with two decimals on the second line. */
  function TextoBase(id: int, total: int): string
  {
    "Pedido #" + Formato04(id) + ENTRE_ID_Y_TOTAL + TotalDosDecimales(total)
  }

  /** The text an order is shown with: a cancelled order's text carries
      "[CANCELADO] " in front. */
  function TextoPanel(id: int, total: int, estado: string): string
  {
    if EqualsIgnoreCase("CANCELADO", estado) then "[CANCELADO] " + TextoBase(id, total) else TextoBase(id, total)
  }

  function TextoDe(r: RegistroPedido): string
  {
    TextoPanel(r.id, r.total, EstadoDe(r))
  }

  /** Whether an order counts as active: its state text is neither
      ENTREGADO nor CANCELADO, ignoring case. */
  predicate EsActivo(estado: string)
  {
    !EqualsIgnoreCase(estado, "ENTREGADO") && !EqualsIgnoreCase(estado, "CANCELADO")
  }

  datatype Columna = ColumnaRecibido | ColumnaPreparando | ColumnaHorneando | ColumnaTerminado | ColumnaEntregado

  /** The `switch` on the upper-cased state text. */
  function ColumnaDe(estado: string): Columna
  {
    ColumnaPorClave(Mayusculas(estado))
  }

  /** The `switch` itself: each of the first five state names has its
      own column; CANCELADO and every other text go to the RECIBIDO
      column. */
  function ColumnaPorClave(clave: string): Columna
  {
    if clave == "RECIBIDO" then ColumnaRecibido
    else if clave == "PREPARANDO" then ColumnaPreparando
    else if clave == "HORNEANDO" then ColumnaHorneando
    else if clave == "TERMINADO" then ColumnaTerminado
    else if clave == "ENTREGADO" then ColumnaEntregado
    else ColumnaRecibido
  }

  /** A state's own name is routed to that state's column. */
  lemma ColumnaPorNombre(e: Estado)
    ensures ColumnaPorClave(Nombre(e)) == ColumnaPorEstado(Some(e))
  {
    var clave := Nombre(e);
    match e
    case Recibido =>
    case Preparando =>
      assert clave[0] == 'P';
    case Horneando =>
      assert clave[0] == 'H';
    case Terminado =>
      assert clave[0] == 'T';
    case Entregado =>
      assert clave[0] == 'E';
    case Cancelado =>
      assert clave[0] == 'C';
  }

  /** Reference routing by the order's state itself. */
  function ColumnaPorEstado(o: Option<Estado>): Columna
  {
    match o
    case None => ColumnaRecibido
    case Some(Recibido) => ColumnaRecibido
    case Some(Preparando) => ColumnaPreparando
    case Some(Horneando) => ColumnaHorneando
    case Some(Terminado) => ColumnaTerminado
    case Some(Entregado) => ColumnaEntregado
    case Some(Cancelado) => ColumnaRecibido
  }

  /** Reference definition of an active order: it has no state, or a
      state it can still advance from. */
  predicate PedidoActivo(r: RegistroPedido)
  {
    r.estado.None? || !EsFinal(r.estado.value)
  }

  /** An order's text lands in the column of its own state; cancelled
      orders and orders without a state land in RECIBIDO. */
  lemma ColumnaDelPedido(r: RegistroPedido)
    ensures ColumnaDe(EstadoDe(r)) == ColumnaPorEstado(r.estado)
  {
    EstadoDePedido(r);
    if r.estado.Some? {
      MayusculasIdentidad(Nombre(r.estado.value));
      ColumnaPorNombre(r.estado.value);
    }
  }

  /** An order is counted as active exactly when it is neither delivered
      nor cancelled. */
  lemma ActivoDelPedido(r: RegistroPedido)
    ensures EsActivo(EstadoDe(r)) <==> PedidoActivo(r)
  {
    var e := if r.estado.None? then Recibido else r.estado.value;
    assert EstadoDe(r) == Nombre(e) by {
      EstadoDePedido(r);
    }
    ActivoPorNombre(e);
  }

  /** A state's name counts as active exactly for the non-final states. */
  lemma ActivoPorNombre(e: Estado)
    ensures EsActivo(Nombre(e)) <==> !EsFinal(e)
  {
    NombreIdentifica(Entregado, Some(e));
    NombreIdentifica(Cancelado, Some(e));
  }

  /** An order's text starts with "[CANCELADO] " exactly when the order is
      cancelled. */
  lemma TextoCancelado(r: RegistroPedido)
    ensures "[CANCELADO] " <= TextoDe(r) <==> r.estado == Some(Cancelado)
  {
    EstadoDePedido(r);
    if r.estado.Some? {
      NombreIdentifica(Cancelado, r.estado);
    }
    assert TextoBase(r.id, r.total)[0] == 'P';
  }

  // ---------------------------------------------------------------
  // The board
  // ---------------------------------------------------------------

  /** The five column lists and the active count. */
  datatype Tablero = Tablero(
    recibido: seq<string>,
    preparando: seq<string>,
    horneando: seq<string>,
    terminado: seq<string>,
    entregado: seq<string>,
    activos: nat)

  /** The board right after its lists are cleared. */
  const TABLERO_VACIO := Tablero([], [], [], [], [], 0)

  function Lista(t: Tablero, c: Columna): seq<string>
  {
    match c
    case ColumnaRecibido => t.recibido
    case ColumnaPreparando => t.preparando
    case ColumnaHorneando => t.horneando
    case ColumnaTerminado => t.terminado
    case ColumnaEntregado => t.entregado
  }

  function Total(t: Tablero): nat
  {
    |t.recibido| + |t.preparando| + |t.horneando| + |t.terminado| + |t.entregado|
  }

  /** Where one order goes: its column, whether it is counted as active,
      and the text it is shown with. */
  datatype Ubicacion = Ubicacion(columna: Columna, activo: bool, texto: string)

  /** The loop body's decisions for one order. */
  function Ubicar(r: RegistroPedido): Ubicacion
  {
    var estado := EstadoDe(r);
    Ubicacion(ColumnaDe(estado), EsActivo(estado), TextoPanel(r.id, r.total, estado))
  }

  /** One order placed on the board: its text goes to the end of its
      column and no other column changes; the count grows by one when the
      order is active. */
  function Colocar(t: Tablero, u: Ubicacion): (r: Tablero)
    ensures forall c :: Lista(r, c) == Lista(t, c) + (if c == u.columna then [u.texto] else [])
    ensures Total(r) == Total(t) + 1
    ensures r.activos == t.activos + (if u.activo then 1 else 0)
  {
    var n := if u.activo then t.activos + 1 else t.activos;
    match u.columna
    case ColumnaRecibido => t.(recibido := t.recibido + [u.texto], activos := n)
    case ColumnaPreparando => t.(preparando := t.preparando + [u.texto], activos := n)
    case ColumnaHorneando => t.(horneando := t.horneando + [u.texto], activos := n)
    case ColumnaTerminado => t.(terminado := t.terminado + [u.texto], activos := n)
    case ColumnaEntregado => t.(entregado := t.entregado + [u.texto], activos := n)
  }

  /** The board after the items `xs` were placed in list order, each
      where `f` puts it. */
  function Repartir<T>(f: T -> Ubicacion, xs: seq<T>): Tablero
    decreases |xs|
  {
    if xs == [] then TABLERO_VACIO
    else Colocar(Repartir(f, xs[..|xs| - 1]), f(xs[|xs| - 1]))
  }

  /** The board `cargarPedidosDesdeServicio` fills for the orders `rs`. */
  function TableroDe(rs: seq<RegistroPedido>): Tablero
  {
    Repartir(Ubicar, rs)
  }

  /** Placing one more item places it after the others. */
  lemma RepartirAgregar<T>(f: T -> Ubicacion, xs: seq<T>, x: T)
    ensures Repartir(f, xs + [x]) == Colocar(Repartir(f, xs), f(x))
  {
    assert (xs + [x])[..|xs|] == xs;
  }

  /** The decisions `cargarPedidosDesdeServicio` takes for one order: its
      state text through `safeEstado`, its `%04d` and `%.2f` text with
      the cancelled mark, whether it is active, and the `switch` key. */
  method UbicarPedido(p: Pedido) returns (u: Ubicacion)
    ensures u == Ubicar(p.Registro())
  {
    var estado := SafeEstado(Some(p.NombreEstadoActual()));
    var display := TextoPanel(p.id, p.total, estado);
    var activo := !EqualsIgnoreCase(estado, "ENTREGADO") && !EqualsIgnoreCase(estado, "CANCELADO");
    u := Ubicacion(ColumnaDe(estado), activo, display);
  }

  /** `cargarPedidosDesdeServicio`: clears the columns, then places each
      order the service lists, in order, counting the active ones. */
  method CargarPedidosDesdeServicio(ps: seq<Pedido>) returns (t: Tablero)
    ensures t == TableroDe(Registros(ps))
  {
    t := TABLERO_VACIO;
    var i := 0;
    while i < |ps|
      invariant 0 <= i <= |ps|
      invariant t == Repartir(Ubicar, Registros(ps[..i]))
    {
      label Inicio:
      var u := UbicarPedido(ps[i]);
      RegistrosIntactos@Inicio(ps[..i]);
      TableroPaso(ps, i);
      ghost var antes := t;
      if u.activo {
        t := t.(activos := t.activos + 1);
      }
      match u.columna {
        case ColumnaRecibido => t := t.(recibido := t.recibido + [u.texto]);
        case ColumnaPreparando => t := t.(preparando := t.preparando + [u.texto]);
        case ColumnaHorneando => t := t.(horneando := t.horneando + [u.texto]);
        case ColumnaTerminado => t := t.(terminado := t.terminado + [u.texto]);
        case ColumnaEntregado => t := t.(entregado := t.entregado + [u.texto]);
      }
      assert t == Colocar(antes, u);
      i := i + 1;
    }
    assert ps[..|ps|] == ps;
  }

  /** The board for one more order of the list is the board so far with
      that order placed. */
  lemma TableroPaso(ps: seq<Pedido>, i: nat)
    requires i < |ps|
    ensures Repartir(Ubicar, Registros(ps[..i + 1])) == Colocar(Repartir(Ubicar, Registros(ps[..i])), Ubicar(ps[i].Registro()))
  {
    RegistrosPaso(ps, i);
    RepartirAgregar(Ubicar, Registros(ps[..i]), ps[i].Registro());
  }

  /** Every item is placed exactly once: the columns hold as many texts
      as there are items. */
  lemma {:induction false} RepartirTotal<T>(f: T -> Ubicacion, xs: seq<T>)
    ensures Total(Repartir(f, xs)) == |xs|
    decreases |xs|
  {
    if xs != [] {
      RepartirTotal(f, xs[..|xs| - 1]);
    }
  }

  /** Each item's text is in its own column. */
  lemma {:induction false} RepartirColumna<T>(f: T -> Ubicacion, xs: seq<T>, i: nat)
    requires i < |xs|
    ensures f(xs[i]).texto in Lista(Repartir(f, xs), f(xs[i]).columna)
    decreases |xs|
  {
    var n := |xs| - 1;
    var u := f(xs[i]);
    var antes := Repartir(f, xs[..n]);
    assert Repartir(f, xs) == Colocar(antes, f(xs[n]));
    if i < n {
      RepartirColumna(f, xs[..n], i);
      assert xs[..n][i] == xs[i];
      assert Lista(Repartir(f, xs), u.columna) == Lista(antes, u.columna)
        + (if u.columna == f(xs[n]).columna then [f(xs[n]).texto] else []);
    }
  }

  /** A column holds nothing but the texts of items routed to it. */
  lemma {:induction false} RepartirOrigen<T>(f: T -> Ubicacion, xs: seq<T>, c: Columna, x: string)
    requires x in Lista(Repartir(f, xs), c)
    ensures exists i :: 0 <= i < |xs| && f(xs[i]).columna == c && f(xs[i]).texto == x
    decreases |xs|
  {
    var n := |xs| - 1;
    var pre := xs[..n];
    if x in Lista(Repartir(f, pre), c) {
      RepartirOrigen(f, pre, c, x);
      var i :| 0 <= i < |pre| && f(pre[i]).columna == c && f(pre[i]).texto == x;
      assert xs[i] == pre[i];
    } else {
      assert f(xs[n]).columna == c && f(xs[n]).texto == x;
    }
  }

  /** The positions of the items that satisfy `p`. */
  function Posiciones<T>(p: T -> bool, xs: seq<T>): set<int>
  {
    set i | 0 <= i < |xs| && p(xs[i])
  }

  /** The count is the number of items that satisfy `activo`, when `f`
      counts exactly those. */
  lemma {:induction false} RepartirActivos<T>(f: T -> Ubicacion, activo: T -> bool, xs: seq<T>)
    requires forall x :: f(x).activo == activo(x)
    ensures Repartir(f, xs).activos == |Posiciones(activo, xs)|
    decreases |xs|
  {
    if xs != [] {
      var n := |xs| - 1;
      var pre := xs[..n];
      RepartirActivos(f, activo, pre);
      var nuevo: set<int> := if activo(xs[n]) then {n} else {};
      assert Posiciones(activo, xs) == Posiciones(activo, pre) + nuevo by {
        forall i | 0 <= i < n ensures xs[i] == pre[i] { }
      }
      assert n !in Posiciones(activo, pre);
    }
  }

  /** Every order is on the board once: the columns hold as many texts as
      there are orders, each order's text is in the column of its state,
      and a column holds only texts of orders in its state. */
  lemma TableroColumnas(rs: seq<RegistroPedido>)
    ensures Total(TableroDe(rs)) == |rs|
    ensures forall i :: 0 <= i < |rs| ==> TextoDe(rs[i]) in Lista(TableroDe(rs), ColumnaPorEstado(rs[i].estado))
    ensures forall c, x :: x in Lista(TableroDe(rs), c) ==>
      exists i :: 0 <= i < |rs| && ColumnaPorEstado(rs[i].estado) == c && TextoDe(rs[i]) == x
  {
    RepartirTotal(Ubicar, rs);
    forall i | 0 <= i < |rs|
      ensures TextoDe(rs[i]) in Lista(TableroDe(rs), ColumnaPorEstado(rs[i].estado))
    {
      RepartirColumna(Ubicar, rs, i);
      ColumnaDelPedido(rs[i]);
    }
    forall c, x | x in Lista(TableroDe(rs), c)
      ensures exists i :: 0 <= i < |rs| && ColumnaPorEstado(rs[i].estado) == c && TextoDe(rs[i]) == x
    {
      RepartirOrigen(Ubicar, rs, c, x);
      var i :| 0 <= i < |rs| && Ubicar(rs[i]).columna == c && Ubicar(rs[i]).texto == x;
      ColumnaDelPedido(rs[i]);
    }
  }

  /** The indices of the active orders. */
  function IndicesActivos(rs: seq<RegistroPedido>): set<int>
  {
    set i | 0 <= i < |rs| && PedidoActivo(rs[i])
  }

  /** The count `setActivos` receives is the number of orders that are
      neither delivered nor cancelled. */
  lemma TableroActivos(rs: seq<RegistroPedido>)
    ensures TableroDe(rs).activos == |IndicesActivos(rs)|
  {
    forall r ensures Ubicar(r).activo == PedidoActivo(r) {
      ActivoDelPedido(r);
    }
    RepartirActivos(Ubicar, PedidoActivo, rs);
    forall i ensures i in Posiciones(PedidoActivo, rs) <==> i in IndicesActivos(rs) { }
    assert Posiciones(PedidoActivo, rs) == IndicesActivos(rs);
  }

  // ---------------------------------------------------------------
  // Reading the order number back from an item
  // ---------------------------------------------------------------

  /** `extraerNumeroPedido`: "PED0000" when there is no text; otherwise
      the number after the `#` of the text with the cancelled mark
      dropped. */
  function ExtraerNumeroPedido(info: Option<string>): (r: Resultado<string>)
    ensures r.Ok? ==> "PED" <= r.valor
  {
    match info
    case None => Ok("PED0000")
    case Some(t) => NumeroTrasAlmohadilla(SinCancelado(t))
  }

  /** A text that starts with "[CANCELADO]" loses every "[CANCELADO] " in
      it. */
  function SinCancelado(t: string): string
  {
    if "[CANCELADO]" <= t then ReemplazarTodo(t, "[CANCELADO] ", "") else t
  }

  /** "PED" and the first piece of the second `#`-piece; "PED0000" when
      there is no `#` or no second piece. */
  function NumeroTrasAlmohadilla(texto: string): (r: Resultado<string>)
    ensures r.Ok? ==> "PED" <= r.valor
  {
    if '#' !in texto then Ok("PED0000")
    else
      var partes := Split(texto, '#');
      if |partes| <= 1 then Ok("PED0000")
      else
        match PrimerTrozo(partes[1])
        case Ok(sub) => Ok("PED" + sub)
        case Excepcion(e) => Excepcion(e)
  }

  /** The text before the first space, or else before the first dash,
      trimmed. A text made only of spaces (or only of dashes) splits into
      no pieces at all, and taking the first one throws. */
  function PrimerTrozo(sub: string): Resultado<string>
  {
    if ' ' in sub then
      var q := Split(sub, ' ');
      if |q| == 0 then Excepcion("ArrayIndexOutOfBoundsException") else Ok(Trim(q[0]))
    else if '-' in sub then
      var q := Split(sub, '-');
      if |q| == 0 then Excepcion("ArrayIndexOutOfBoundsException") else Ok(Trim(q[0]))
    else Ok(Trim(sub))
  }

  /** A word without spaces and without outer blanks, followed by a space,
      is what the first piece gives back. */
  lemma PrimerTrozoPalabra(f: string, cola: string)
    requires f != "" && ' ' !in f && SinBordes(f)
    requires cola != "" && cola[0] == ' '
    ensures PrimerTrozo(f + cola) == Ok(f)
  {
    assert (f + cola)[|f|] == ' ';
    AntesDeConcat(f, cola, ' ');
    SplitPrimero(f + cola, ' ');
    TrimSinBordes(f);
  }

  /** The second `#`-piece of a text with one `#` is what follows it. */
  lemma NumeroTrasUnica(a: string, resto: string)
    requires '#' !in a && '#' !in resto && resto != ""
    ensures NumeroTrasAlmohadilla(a + ['#'] + resto) ==
      match PrimerTrozo(resto) case Ok(sub) => Ok("PED" + sub) case Excepcion(e) => Excepcion(e)
  {
    assert (a + ['#'] + resto)[|a|] == '#';
    AntesDeConcat(resto, "", '#');
    assert resto + "" == resto;
    SplitSegundo(a, resto, '#');
  }

  /** The cancelled mark is dropped, and text without '[' is kept. */
  lemma SinCanceladoMarca(t: string)
    requires '[' !in t
    ensures SinCancelado(t) == t && SinCancelado("[CANCELADO] " + t) == t
  {
    assert !("[CANCELADO]" <= t) by {
      if |t| > 0 {
        assert t[0] != '[';
      }
    }
    ReemplazarPrefijo("[CANCELADO] ", "", t);
    ReemplazarSinInicio(t, "", "[CANCELADO] ", "");
    assert t + "" == t;
  }

  /** The characters a `%.2f` total is written with. */
  lemma TotalSinSeparadores(c: int)
    ensures forall i :: 0 <= i < |TotalDosDecimales(c)| ==>
      EsDigito(TotalDosDecimales(c)[i]) || TotalDosDecimales(c)[i] in "-."
  {
  }

  /** An id written as `%04d` is one word: no blanks, no marks. */
  lemma IdUnaPalabra(id: int)
    ensures var f := Formato04(id);
      f != "" && ' ' !in f && '#' !in f && '[' !in f && SinBordes(f)
  {
    var f := Formato04(id);
    assert forall i :: 0 <= i < |f| ==> f[i] != ' ' && f[i] != '#' && f[i] != '[';
    assert f[|f| - 1] != ' ';
  }

  lemma EntreIdYTotalSinMarcas()
    ensures ENTRE_ID_Y_TOTAL[0] == ' ' && '#' !in ENTRE_ID_Y_TOTAL && '[' !in ENTRE_ID_Y_TOTAL
  {
  }

  /** What follows the id on an item: a space first, and no `#` or `[`. */
  lemma ColaSinMarcas(total: int)
    ensures var cola := ENTRE_ID_Y_TOTAL + TotalDosDecimales(total);
      cola != "" && cola[0] == ' ' && '#' !in cola && '[' !in cola
  {
    var t := TotalDosDecimales(total);
    assert '#' !in t && '[' !in t by {
      TotalSinSeparadores(total);
      assert forall i :: 0 <= i < |t| ==> t[i] != '#' && t[i] != '[';
    }
    EntreIdYTotalSinMarcas();
  }

  /** Reading an item back gives "PED" and the order's id as `%04d`,
      whether or not the order is cancelled. */
  lemma ExtraerDeTexto(id: int, total: int, estado: string)
    ensures ExtraerNumeroPedido(Some(TextoPanel(id, total, estado))) == Ok("PED" + Formato04(id))
  {
    var f := Formato04(id);
    var cola := ENTRE_ID_Y_TOTAL + TotalDosDecimales(total);
    IdUnaPalabra(id);
    ColaSinMarcas(total);
    assert TextoBase(id, total) == "Pedido #" + (f + cola);
    ExtraerDeBase(f, cola);
  }

  /** An item text "Pedido #", a word, and a tail starting with a space
      reads back as "PED" and the word, with or without the cancelled
      mark. */
  lemma ExtraerDeBase(f: string, cola: string)
    requires f != "" && ' ' !in f && '#' !in f && '[' !in f && SinBordes(f)
    requires cola != "" && cola[0] == ' ' && '#' !in cola && '[' !in cola
    ensures var base := "Pedido #" + (f + cola);
      ExtraerNumeroPedido(Some(base)) == Ok("PED" + f)
      && ExtraerNumeroPedido(Some("[CANCELADO] " + base)) == Ok("PED" + f)
  {
    NumeroDeBase(f, cola);
    BaseSinCorchete(f + cola);
    SinCanceladoMarca("Pedido #" + (f + cola));
  }

  /** The number after the only `#` of an item text is its first word. */
  lemma NumeroDeBase(f: string, cola: string)
    requires f != "" && ' ' !in f && '#' !in f && SinBordes(f)
    requires cola != "" && cola[0] == ' ' && '#' !in cola
    ensures NumeroTrasAlmohadilla("Pedido #" + (f + cola)) == Ok("PED" + f)
  {
    assert "Pedido #" + (f + cola) == "Pedido " + ['#'] + (f + cola);
    PrimerTrozoPalabra(f, cola);
    NumeroTrasUnica("Pedido ", f + cola);
  }

  lemma BaseSinCorchete(resto: string)
    requires '[' !in resto
    ensures '[' !in "Pedido #" + resto
  {
    assert '[' !in "Pedido #";
  }

  /** A `#` followed by nothing but spaces makes the read throw: the
      spaces split into no pieces and the first one is taken. */
  lemma ExtraerSoloEspacio(a: string, sub: string)
    requires '#' !in a
    requires sub != "" && forall i :: 0 <= i < |sub| ==> sub[i] == ' '
    ensures NumeroTrasAlmohadilla(a + ['#'] + sub).Excepcion?
    ensures var t := a + ['#'] + sub;
      '[' !in a ==> ExtraerNumeroPedido(Some(t)).Excepcion? && ExtraerNumeroPedido(Some("[CANCELADO] " + t)).Excepcion?
  {
    var t := a + ['#'] + sub;
    assert sub[0] == ' ';
    SplitSoloDelimitador(sub, ' ');
    NumeroTrasUnica(a, sub);
    if '[' !in a {
      assert '[' !in t;
      SinCanceladoMarca(t);
    }
  }

  /** A `#` followed by a space and then more text reads back as bare
      "PED": the first space-piece is the empty text before that space. */
  lemma ExtraerEspacioInicial(a: string, sub: string, i: nat)
    requires '#' !in a && '#' !in sub
    requires 0 < i < |sub| && sub[0] == ' ' && sub[i] != ' '
    ensures NumeroTrasAlmohadilla(a + ['#'] + sub) == Ok("PED")
    ensures var t := a + ['#'] + sub;
      '[' !in a + sub ==> ExtraerNumeroPedido(Some(t)) == Ok("PED") && ExtraerNumeroPedido(Some("[CANCELADO] " + t)) == Ok("PED")
  {
    var t := a + ['#'] + sub;
    SplitEmpiezaConDelimitador(sub, ' ', i);
    assert Trim("") == "";
    assert "PED" + "" == "PED";
    NumeroTrasUnica(a, sub);
    if '[' !in a + sub {
      assert '[' !in t;
      SinCanceladoMarca(t);
    }
  }
}
