/** The flat-text store format shared by `RepositorioPedidosTxt` and the
    legacy `ServicioPedidos`: one order per line,
    `id;masa;salsa;queso;tipoOrilla;ing1|ing2;con1|con2;total;ESTADO`. */
module Codec {
  import opened Tipos
  import opened Texto
  import opened Numeros
  import opened Estados

  /** An order as one store line holds it. */
  datatype RegistroPedido = RegistroPedido(
    id: int,
    masa: Option<string>,
    salsa: Option<string>,
    queso: Option<string>,
    tipoOrilla: Option<string>,
    ingredientes: seq<string>,
    condimentos: seq<string>,
    total: int,
    estado: Option<Estado>)

  /** `nullToEmpty`. */
  function NullToEmpty(s: Option<string>): string
  {
    match s
    case None => ""
    case Some(t) => t
  }

  /** The nine fields of a line, lists joined with `|`. */
  function Campos(r: RegistroPedido): seq<string>
  {
    [IntATexto(r.id), NullToEmpty(r.masa), NullToEmpty(r.salsa), NullToEmpty(r.queso),
     NullToEmpty(r.tipoOrilla), Unir('|', r.ingredientes), Unir('|', r.condimentos),
     TotalATexto(r.total), NombreEstado(r.estado)]
  }

  /** `serializarPedido`: the nine fields joined with `;`. */
  function Serializar(r: RegistroPedido): string
  {
    Unir(';', Campos(r))
  }

  /** `estadoPorNombre`: the trimmed, upper-cased name picks the state;
      null and every other text give RECIBIDO. */
  function EstadoPorNombre(o: Option<string>): Estado
  {
    match o
    case None => Recibido
    case Some(s) => EstadoPorClave(Mayusculas(Trim(s)))
  }

  /** The comparison chain of `estadoPorNombre` on the normalised name. */
  function EstadoPorClave(clave: string): Estado
  {
    if clave == "PREPARANDO" then Preparando
    else if clave == "HORNEANDO" then Horneando
    else if clave == "TERMINADO" then Terminado
    else if clave == "ENTREGADO" then Entregado
    else if clave == "CANCELADO" then Cancelado
    else Recibido
  }

  /** A state's own name picks that state, and only its name picks a
      state other than RECIBIDO. */
  lemma EstadoPorClaveLee(clave: string, e: Estado)
    ensures clave == Nombre(e) ==> EstadoPorClave(clave) == e
    ensures EstadoPorClave(clave) == e && e != Recibido ==> clave == Nombre(e)
  {
    if clave == Nombre(e) {
      match e
      case Recibido =>
        assert clave[0] == 'R';
      case Preparando =>
      case Horneando =>
        assert clave[0] == 'H';
      case Terminado =>
        assert clave[0] == 'T';
      case Entregado =>
        assert clave[0] == 'E';
      case Cancelado =>
        assert clave[0] == 'C';
    }
  }

  /** A text whose trimmed, upper-cased form is a state's name reads as
      that state, and only such a text reads as a state other than
      RECIBIDO. */
  lemma EstadoPorNombreLee(o: Option<string>, e: Estado)
    ensures o.Some? && Mayusculas(Trim(o.value)) == Nombre(e) ==> EstadoPorNombre(o) == e
    ensures EstadoPorNombre(o) == e && e != Recibido ==> o.Some? && Mayusculas(Trim(o.value)) == Nombre(e)
  {
    if o.Some? {
      EstadoPorClaveLee(Mayusculas(Trim(o.value)), e);
    }
  }

  lemma LeerNombre(e: Estado)
    ensures EstadoPorNombre(Some(Nombre(e))) == e
  {
    TrimSinBordes(Nombre(e));
    MayusculasIdentidad(Nombre(e));
    EstadoPorNombreLee(Some(Nombre(e)), e);
  }

  // ---------------------------------------------------------------
  // List entries
  // ---------------------------------------------------------------

  /** An entry the code keeps: not null and not blank. */
  predicate Conservable(x: Option<string>) {
    x.Some? && !IsBlank(x.value)
  }

  /** What the entry filter makes of one entry. */
  function Depurada(x: Option<string>): (r: seq<string>)
    ensures |r| <= 1
  {
    if Conservable(x) then [Trim(x.value)] else []
  }

  /** The entry filter every loader and `crearPedidoDesdeDatosSimples`
      apply: null and blank entries are dropped, the rest are trimmed, and
      the order is kept. */
  function Depurar(xs: seq<Option<string>>): (r: seq<string>)
    ensures |r| <= |xs|
  {
    ConcatenarAcotado(Depurada, xs);
    Concatenar(Depurada, xs)
  }

  /** Exactly the kept entries, trimmed, come out of the filter. */
  lemma DepurarMiembros(xs: seq<Option<string>>, x: string)
    ensures x in Depurar(xs) <==> exists i :: 0 <= i < |xs| && Conservable(xs[i]) && x == Trim(xs[i].value)
  {
    ConcatenarMiembros(Depurada, xs, x);
  }

  /** Filtering a concatenation filters each part. */
  lemma DepurarConcat(a: seq<Option<string>>, b: seq<Option<string>>)
    ensures Depurar(a + b) == Depurar(a) + Depurar(b)
  {
    ConcatenarConcat(Depurada, a, b);
  }

  /** One more entry through the filter. */
  lemma DepurarPaso(xs: seq<Option<string>>, i: nat)
    requires i < |xs|
    ensures Depurar(xs[..i + 1]) == Depurar(xs[..i]) + Depurada(xs[i])
  {
    ConcatenarPaso(Depurada, xs, i);
  }

  /** Split pieces are never null. */
  function Envolver(xs: seq<string>): (r: seq<Option<string>>)
    ensures |r| == |xs|
    decreases |xs|
  {
    if xs == [] then [] else Envolver(xs[..|xs| - 1]) + [Some(xs[|xs| - 1])]
  }

  /** An entry that survives a save and a reload unchanged. */
  predicate EntradaLimpia(x: string) {
    !IsBlank(x) && SinBordes(x) && ';' !in x && '|' !in x && SinSaltos(x)
  }

  /** One more clean entry passes the filter unchanged. */
  lemma DepurarLimpiaPaso(p: seq<string>, x: string)
    requires Depurar(Envolver(p)) == p
    requires !IsBlank(x) && SinBordes(x)
    ensures Depurar(Envolver(p + [x])) == p + [x]
  {
    var e := Envolver(p);
    assert (p + [x])[..|p|] == p;
    assert Envolver(p + [x]) == e + [Some(x)];
    assert Depurar([Some(x)]) == [x] by {
      ConcatenarUno(Depurada, Some(x));
      TrimSinBordes(x);
    }
    DepurarConcat(e, [Some(x)]);
  }

  /** Entries that are already clean pass the filter unchanged. */
  lemma {:induction false} DepurarLimpias(xs: seq<string>)
    requires forall i :: 0 <= i < |xs| ==> !IsBlank(xs[i]) && SinBordes(xs[i])
    ensures Depurar(Envolver(xs)) == xs
    decreases |xs|
  {
    if xs != [] {
      var n := |xs| - 1;
      DepurarLimpias(xs[..n]);
      DepurarLimpiaPaso(xs[..n], xs[n]);
      assert xs[..n] + [xs[n]] == xs;
    }
  }

  /** A list field: empty text is the empty list, otherwise the cleaned
      `|`-separated pieces. */
  function ListaDeCampo(s: string): seq<string>
  {
    if s == "" then [] else Depurar(Envolver(Split(s, '|')))
  }

  // ---------------------------------------------------------------
  // Parsing a line
  // ---------------------------------------------------------------

  /** `parsearPedido`: `None` for a line with fewer than nine
      `;`-separated fields, an id that is not an `int`, or a total that is
      not a number. Text fields come back trimmed and never null; the
      state always comes back. */
  function ParsearRegistro(linea: string): (r: Option<RegistroPedido>)
    ensures r.Some? ==> EsInt32(r.value.id) && r.value.estado.Some?
    ensures r.Some? ==> |Split(linea, ';')| >= 9
  {
    var partes := Split(linea, ';');
    if |partes| < 9 then None else ParsearPartes(partes)
  }

  /** The conversions `parsearPedido` applies to the fields of a line. */
  function ParsearPartes(partes: seq<string>): (r: Option<RegistroPedido>)
    requires |partes| >= 9
    ensures r.Some? ==> EsInt32(r.value.id) && r.value.estado.Some?
  {
    match ParseInt(Trim(partes[0]))
    case None => None
    case Some(id) =>
      match ParseTotal(Trim(partes[7]))
      case None => None
      case Some(total) =>
        Some(RegistroPedido(id, Some(Trim(partes[1])), Some(Trim(partes[2])), Some(Trim(partes[3])),
          Some(Trim(partes[4])), ListaDeCampo(Trim(partes[5])), ListaDeCampo(Trim(partes[6])),
          total, Some(EstadoPorNombre(Some(Trim(partes[8]))))))
  }

  /** A text field that survives the line format: no `;`, no line
      break and no surrounding blanks. */
  predicate TextoLimpio(s: string) {
    SinBordes(s) && ';' !in s && SinSaltos(s)
  }

  /** Totals `Double.toString` writes without an exponent: below
      10 000 000.00 in magnitude. */
  predicate TotalSinExponente(c: int) {
    -1_000_000_000 < c < 1_000_000_000
  }

  /** The records the round trip is exact for. */
  predicate BienFormado(r: RegistroPedido) {
    EsInt32(r.id) && TotalSinExponente(r.total)
    && TextoLimpio(NullToEmpty(r.masa)) && TextoLimpio(NullToEmpty(r.salsa))
    && TextoLimpio(NullToEmpty(r.queso)) && TextoLimpio(NullToEmpty(r.tipoOrilla))
    && (forall i :: 0 <= i < |r.ingredientes| ==> EntradaLimpia(r.ingredientes[i]))
    && (forall i :: 0 <= i < |r.condimentos| ==> EntradaLimpia(r.condimentos[i]))
    && r.estado.Some?
  }

  /** What a reload gives for a record: null text fields read back as empty
      text. */
  function Normalizado(r: RegistroPedido): RegistroPedido
  {
    r.(masa := Some(NullToEmpty(r.masa)), salsa := Some(NullToEmpty(r.salsa)),
       queso := Some(NullToEmpty(r.queso)), tipoOrilla := Some(NullToEmpty(r.tipoOrilla)))
  }

  lemma IntATextoLimpio(n: int)
    ensures TextoLimpio(IntATexto(n)) && IntATexto(n) != ""
  {
    var s := IntATexto(n);
    assert forall i :: 0 <= i < |s| ==> EsDigito(s[i]) || s[i] == '-';
  }

  lemma TotalATextoLimpio(c: int)
    ensures TextoLimpio(TotalATexto(c))
  {
    var m: nat := if c < 0 then -c else c;
    var a := NatATexto(m / 100);
    var b := Fraccion(m % 100);
    var cuerpo := a + "." + b;
    assert CentavosATexto(m) == cuerpo;
    forall i | 0 <= i < |cuerpo|
      ensures cuerpo[i] != ';' && !Recortable(cuerpo[i])
    {
      if i < |a| {
        assert cuerpo[i] == a[i];
      } else if i > |a| {
        assert cuerpo[i] == b[i - |a| - 1];
      }
    }
    var s := TotalATexto(c);
    assert s == cuerpo || s == "-" + cuerpo;
    assert forall i :: 0 <= i < |s| ==> s[i] != ';' && !Recortable(s[i]);
  }

  /** A joined list of clean entries is a clean field. */
  lemma ListaLimpia(xs: seq<string>)
    requires forall i :: 0 <= i < |xs| ==> EntradaLimpia(xs[i])
    ensures TextoLimpio(Unir('|', xs))
  {
    UnirSinCaracter(xs, '|', ';');
    UnirSinCaracter(xs, '|', '\n');
    UnirSinCaracter(xs, '|', '\r');
    if xs != [] {
      assert xs[0] != "" && xs[|xs| - 1] != "";
      UnirSinBordes(xs, '|');
    }
  }

  /** A joined list of clean entries reads back as the same list. */
  lemma ListaIdaVuelta(xs: seq<string>)
    requires forall i :: 0 <= i < |xs| ==> EntradaLimpia(xs[i])
    ensures ListaDeCampo(Unir('|', xs)) == xs
  {
    if xs != [] {
      assert xs[0] != "";
      UnirBordes(xs, '|');
      SplitUnir(xs, '|');
      DepurarLimpias(xs);
    }
  }

  /** State names are clean fields. */
  lemma NombreLimpio(o: Option<Estado>)
    ensures TextoLimpio(NombreEstado(o))
  {
    match o
    case None =>
    case Some(e) =>
      var n := Nombre(e);
      assert ';' !in n && n[0] != ' ' && n[|n| - 1] != ' ' by {
        match e
        case Recibido =>
        case Preparando =>
        case Horneando =>
        case Terminado =>
        case Entregado =>
        case Cancelado =>
      }
  }

  /** Every field of a well-formed record is clean, and the last one is
      not empty. */
  lemma CamposLimpios(r: RegistroPedido)
    requires BienFormado(r.(estado := Some(Recibido)))
    ensures |Campos(r)| == 9
    ensures forall i :: 0 <= i < 9 ==> TextoLimpio(Campos(r)[i])
  {
    var r0 := r.(estado := Some(Recibido));
    var cs := Campos(r);
    assert TextoLimpio(cs[0]) by { IntATextoLimpio(r.id); }
    assert TextoLimpio(cs[1]) && TextoLimpio(cs[2]) && TextoLimpio(cs[3]) && TextoLimpio(cs[4]) by {
      assert r0.masa == r.masa && r0.salsa == r.salsa && r0.queso == r.queso && r0.tipoOrilla == r.tipoOrilla;
    }
    assert TextoLimpio(cs[5]) && TextoLimpio(cs[6]) by {
      assert r0.ingredientes == r.ingredientes && r0.condimentos == r.condimentos;
      ListaLimpia(r.ingredientes);
      ListaLimpia(r.condimentos);
    }
    assert TextoLimpio(cs[7]) by { TotalATextoLimpio(r.total); }
    assert TextoLimpio(cs[8]) by { NombreLimpio(r.estado); }
  }

  /** The field conversions undo the field encodings. */
  lemma LeerCampos(r: RegistroPedido)
    requires BienFormado(r)
    ensures ParsearPartes(Campos(r)) == Some(Normalizado(r))
  {
    var cs := Campos(r);
    CamposLimpios(r);
    TrimSinBordes(cs[0]);
    TrimSinBordes(cs[1]);
    TrimSinBordes(cs[2]);
    TrimSinBordes(cs[3]);
    TrimSinBordes(cs[4]);
    TrimSinBordes(cs[5]);
    TrimSinBordes(cs[6]);
    TrimSinBordes(cs[7]);
    TrimSinBordes(cs[8]);
    ParseIntATexto(r.id);
    ParseTotalATexto(r.total);
    ListaIdaVuelta(r.ingredientes);
    ListaIdaVuelta(r.condimentos);
    LeerNombre(r.estado.value);
  }

  /** Parsing what `serializarPedido` wrote gives the order back, null
      text fields as empty text. */
  lemma ParsearSerializar(r: RegistroPedido)
    requires BienFormado(r)
    ensures ParsearRegistro(Serializar(r)) == Some(Normalizado(r))
  {
    var cs := Campos(r);
    CamposLimpios(r);
    assert cs[8] == Nombre(r.estado.value) != "";
    SplitUnir(cs, ';');
    LeerCampos(r);
  }

  /** An order without a state writes an empty last field, which `split`
      drops: the line no longer has nine fields and the order is lost on
      reload. */
  lemma SinEstadoSePierde(r: RegistroPedido)
    requires BienFormado(r.(estado := Some(Recibido))) && r.estado.None?
    ensures ParsearRegistro(Serializar(r)) == None
  {
    var cs := Campos(r);
    CamposLimpios(r);
    PartirUnir(cs, ';');
    SeparadorEnUnir(cs, ';');
    assert cs[8] == "";
    assert |Split(Serializar(r), ';')| < 9;
  }

  // ---------------------------------------------------------------
  // Whole files
  // ---------------------------------------------------------------

  /** One line of `cargarPedidos`: trimmed; blank or unparsable lines give
      nothing. */
  function LeerLinea(linea: string): (r: seq<RegistroPedido>)
    ensures |r| <= 1
  {
    var t := Trim(linea);
    if t == "" then []
    else
      match ParsearRegistro(t)
      case None => []
      case Some(reg) => [reg]
  }

  /** `cargarPedidos` over the lines of the store, in file order. */
  function CargarRegistros(lineas: seq<string>): (r: seq<RegistroPedido>)
    ensures |r| <= |lineas|
  {
    ConcatenarAcotado(LeerLinea, lineas);
    Concatenar(LeerLinea, lineas)
  }

  /** Lines are read independently and in order: a bad line never affects
      the others. */
  lemma CargarConcat(a: seq<string>, b: seq<string>)
    ensures CargarRegistros(a + b) == CargarRegistros(a) + CargarRegistros(b)
  {
    ConcatenarConcat(LeerLinea, a, b);
  }

  /** A single line reads as `LeerLinea` of it. */
  lemma CargarUna(linea: string)
    ensures CargarRegistros([linea]) == LeerLinea(linea)
  {
    ConcatenarUno(LeerLinea, linea);
  }

  /** `guardarPedidos`: one line per order, in order. */
  function Lineas(rs: seq<RegistroPedido>): (r: seq<string>)
    ensures |r| == |rs|
    decreases |rs|
  {
    if rs == [] then [] else Lineas(rs[..|rs| - 1]) + [Serializar(rs[|rs| - 1])]
  }

  function Normalizados(rs: seq<RegistroPedido>): (r: seq<RegistroPedido>)
    ensures |r| == |rs|
    decreases |rs|
  {
    if rs == [] then [] else Normalizados(rs[..|rs| - 1]) + [Normalizado(rs[|rs| - 1])]
  }

  /** A serialized record is its own trimmed line. */
  lemma SerializarSinBordes(r: RegistroPedido)
    requires BienFormado(r)
    ensures SinBordes(Serializar(r)) && Serializar(r) != ""
  {
    CamposExtremos(r);
    UnirSinBordes(Campos(r), ';');
  }

  /** A saved line reads back as its record, normalised. */
  lemma LeerSerializado(r: RegistroPedido)
    requires BienFormado(r)
    ensures LeerLinea(Serializar(r)) == [Normalizado(r)]
  {
    SerializarSinBordes(r);
    TrimSinBordes(Serializar(r));
    ParsearSerializar(r);
  }

  /** Reading the saved lines one by one gives every saved order back, in
      order. */
  lemma {:induction false} CargarLineas(rs: seq<RegistroPedido>)
    requires forall i :: 0 <= i < |rs| ==> BienFormado(rs[i])
    ensures CargarRegistros(Lineas(rs)) == Normalizados(rs)
    decreases |rs|
  {
    if rs != [] {
      var n := |rs| - 1;
      CargarLineas(rs[..n]);
      CargarLineaMas(rs);
    }
  }

  /** One more saved line reads back as one more order. */
  lemma CargarLineaMas(rs: seq<RegistroPedido>)
    requires rs != [] && BienFormado(rs[|rs| - 1])
    requires CargarRegistros(Lineas(rs[..|rs| - 1])) == Normalizados(rs[..|rs| - 1])
    ensures CargarRegistros(Lineas(rs)) == Normalizados(rs)
  {
    var n := |rs| - 1;
    var s := Serializar(rs[n]);
    LeerSerializado(rs[n]);
    CargarConcat(Lineas(rs[..n]), [s]);
    CargarUna(s);
  }

  // ---------------------------------------------------------------
  // The file as `readLine` sees it
  // ---------------------------------------------------------------

  /** What `readLine` gives back from a file written text by text with
      `write` and `newLine`. Every text ends with its own terminator, so
      each is read back on its own. */
  function Escritas(textos: seq<string>): seq<string>
  {
    Concatenar(Escrita, textos)
  }

  /** Texts without line breaks are read back exactly as written. */
  lemma {:induction false} EscritasSinSaltos(textos: seq<string>)
    requires forall i :: 0 <= i < |textos| ==> SinSaltos(textos[i])
    ensures Escritas(textos) == textos
    decreases |textos|
  {
    if textos != [] {
      var n := |textos| - 1;
      EscritasSinSaltos(textos[..n]);
      ConcatenarPaso(Escrita, textos, n);
      EscritaSinSaltos(textos[n]);
      assert textos[..n + 1] == textos;
    }
  }

  /** A join of clean fields has no line break. */
  lemma UnirLimpiosSinSaltos(cs: seq<string>)
    requires forall i :: 0 <= i < |cs| ==> TextoLimpio(cs[i])
    ensures SinSaltos(Unir(';', cs))
  {
    UnirSinCaracter(cs, ';', '\n');
    UnirSinCaracter(cs, ';', '\r');
  }

  /** The line of a well-formed record has no line break. */
  lemma SerializarSinSaltos(r: RegistroPedido)
    requires BienFormado(r)
    ensures SinSaltos(Serializar(r))
  {
    CamposLimpios(r);
    UnirLimpiosSinSaltos(Campos(r));
  }

  /** The lines of well-formed records are read back as written. */
  lemma {:induction false} LineasSinSaltos(rs: seq<RegistroPedido>)
    requires forall i :: 0 <= i < |rs| ==> BienFormado(rs[i])
    ensures Escritas(Lineas(rs)) == Lineas(rs)
    decreases |rs|
  {
    if rs != [] {
      var n := |rs| - 1;
      var a := Lineas(rs[..n]);
      var s := Serializar(rs[n]);
      LineasSinSaltos(rs[..n]);
      SerializarSinSaltos(rs[n]);
      ConcatenarConcat(Escrita, a, [s]);
      ConcatenarUno(Escrita, s);
      EscritaSinSaltos(s);
    }
  }

  /** Reloading the file `guardarPedidos` wrote gives every well-formed
      order back, in order. */
  lemma CargarGuardar(rs: seq<RegistroPedido>)
    requires forall i :: 0 <= i < |rs| ==> BienFormado(rs[i])
    ensures CargarRegistros(Escritas(Lineas(rs))) == Normalizados(rs)
  {
    LineasSinSaltos(rs);
    CargarLineas(rs);
  }

  /** Joined pieces whose outer pieces are non-empty and without outer
      blanks have no outer blanks either. */
  lemma UnirSinBordes(xs: seq<string>, d: char)
    requires |xs| >= 1 && xs[0] != "" && xs[|xs| - 1] != ""
    requires SinBordes(xs[0]) && SinBordes(xs[|xs| - 1])
    ensures SinBordes(Unir(d, xs)) && Unir(d, xs) != ""
  {
    var u := Unir(d, xs);
    var ultimo := xs[|xs| - 1];
    UnirBordes(xs, d);
    assert u[0] == u[..|xs[0]|][0] == xs[0][0];
    assert u[|u| - 1] == u[|u| - |ultimo|..][|ultimo| - 1] == ultimo[|ultimo| - 1];
  }

  /** A line of fewer than nine clean fields is dropped on reload. */
  lemma PocosCamposSePierden(xs: seq<string>)
    requires 1 <= |xs| < 9
    requires forall i :: 0 <= i < |xs| ==> TextoLimpio(xs[i])
    requires xs[0] != "" && xs[|xs| - 1] != ""
    ensures LeerLinea(Unir(';', xs)) == []
  {
    var u := Unir(';', xs);
    UnirSinBordes(xs, ';');
    TrimSinBordes(u);
    SplitUnirAcotado(xs, ';');
    LeerLineaCorta(u);
  }

  /** A line that trims to fewer than nine `;`-fields is dropped. */
  lemma LeerLineaCorta(linea: string)
    requires |Split(Trim(linea), ';')| < 9
    ensures LeerLinea(linea) == []
  {
  }

  /** The line of a record whose dough text holds a line break, cut at
      that break; the fields are those of the record with the dough cut
      short before the break. */
  lemma SerializarConSalto(r: RegistroPedido, x: string, y: string)
    requires r.masa == Some(x + "\n" + y)
    ensures var cs := Campos(r.(masa := Some(x)));
      Serializar(r) == Unir(';', [cs[0], x]) + "\n" + Unir(';', [y] + cs[2..])
  {
    var cs := Campos(r.(masa := Some(x)));
    var todos := Campos(r);
    assert todos == [cs[0], x + "\n" + y] + cs[2..];
    var u := Unir(';', cs[2..]);
    assert todos[1..][1..] == cs[2..];
    assert Unir(';', todos[1..]) == todos[1] + [';'] + u;
    assert Serializar(r) == cs[0] + [';'] + (x + "\n" + y + [';'] + u);
    assert Unir(';', [cs[0], x]) == cs[0] + [';'] + x by {
      assert [cs[0], x][1..] == [x];
    }
    assert Unir(';', [y] + cs[2..]) == y + [';'] + u by {
      assert ([y] + cs[2..])[1..] == cs[2..];
    }
  }

  /** A clean text followed by the last seven of nine clean fields. */
  lemma ColaLimpia(y: string, cs: seq<string>)
    requires |cs| == 9 && TextoLimpio(y)
    requires forall i :: 0 <= i < 9 ==> TextoLimpio(cs[i])
    ensures forall i :: 0 <= i < |[y] + cs[2..]| ==> TextoLimpio(([y] + cs[2..])[i])
  {
    assert forall i :: 1 <= i < |[y] + cs[2..]| ==> ([y] + cs[2..])[i] == cs[i + 1];
  }

  /** Two short lines of clean fields written as one text with a line
      break between them: both are dropped on reload. */
  lemma DosLineasSePierden(p: seq<string>, q: seq<string>)
    requires 1 <= |p| < 9 && 1 <= |q| < 9
    requires forall i :: 0 <= i < |p| ==> TextoLimpio(p[i])
    requires forall i :: 0 <= i < |q| ==> TextoLimpio(q[i])
    requires p[0] != "" && p[|p| - 1] != "" && q[0] != "" && q[|q| - 1] != ""
    ensures CargarRegistros(Escrita(Unir(';', p) + "\n" + Unir(';', q))) == []
  {
    var l1, l2 := Unir(';', p), Unir(';', q);
    UnirLimpiosSinSaltos(p);
    UnirLimpiosSinSaltos(q);
    EscritaConSalto(l1, l2);
    PocosCamposSePierden(p);
    PocosCamposSePierden(q);
    CargarConcat([l1], [l2]);
    CargarUna(l1);
    CargarUna(l2);
    assert [l1] + [l2] == [l1, l2];
  }

  /** The fields of a well-formed record are clean, and the first and the
      last are not empty. */
  lemma CamposExtremos(r: RegistroPedido)
    requires BienFormado(r)
    ensures var cs := Campos(r);
      |cs| == 9 && cs[0] != "" && cs[8] != ""
      && forall i :: 0 <= i < 9 ==> TextoLimpio(cs[i])
  {
    CamposLimpios(r);
    IntATextoLimpio(r.id);
  }

  /** `write` and `newLine` turn a line break inside the dough into two
      lines of the file, neither with nine fields: the order is lost on
      reload. */
  lemma SaltoEnMasaSePierde(r: RegistroPedido, x: string, y: string)
    requires r.masa == Some(x + "\n" + y)
    requires BienFormado(r.(masa := Some(x)))
    requires x != "" && y != "" && TextoLimpio(y)
    ensures CargarRegistros(Escrita(Serializar(r))) == []
  {
    var cs := Campos(r.(masa := Some(x)));
    CamposExtremos(r.(masa := Some(x)));
    ColaLimpia(y, cs);
    SerializarConSalto(r, x, y);
    DosLineasSePierden([cs[0], x], [y] + cs[2..]);
  }
}
