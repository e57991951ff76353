/** The order detail window (`DetallePedidoController`): it reads the order
    number from its label, turns it into the order id, and shows the
    pizza's toppings split into ingredients and seasonings. */
module DetallePedido {
  import opened Tipos
  import opened Texto
  import opened Numeros
  import opened Pizzas
  import PanelControl

  // ---------------------------------------------------------------
  // From the label to the order id
  // ---------------------------------------------------------------

  /** `extraerNumeroPedido`: "PED0000" when there is no text; with a `#`,
      the second `#`-piece trimmed (indexing a second piece that `split`
      did not produce throws); otherwise the text with every "Pedido"
      removed, trimmed. */
  function ExtraerNumeroPedido(texto: Option<string>): (r: Resultado<string>)
    ensures r.Ok? ==> SinBordes(r.valor)
  {
    match texto
    case None => Ok("PED0000")
    case Some(t) =>
      if '#' in t then
        var partes := Split(t, '#');
        if |partes| < 2 then Excepcion("ArrayIndexOutOfBoundsException") else Ok(Trim(partes[1]))
      else Ok(Trim(ReemplazarTodo(t, "Pedido", "")))
  }

  /** `obtenerIdDesdeNumeroPedido`: -1 when there is no text; otherwise
      the trimmed, upper-cased text without a leading "PED", read by
      `Integer.parseInt`, and -1 when that throws. */
  function ObtenerIdDesdeNumeroPedido(numero: Option<string>): (r: int)
    ensures EsInt32(r)
  {
    match numero
    case None => -1
    case Some(n) =>
      match ParseInt(QuitarPed(Mayusculas(Trim(n))))
      case None => -1
      case Some(v) => v
  }

  /** The text without a leading "PED". */
  function QuitarPed(aux: string): string
  {
    if "PED" <= aux then aux[3..] else aux
  }

  lemma QuitarPedPrefijo(cifras: string)
    ensures QuitarPed("PED" + cifras) == cifras
  {
    assert "PED" <= "PED" + cifras;
  }

  /** A label "Pedido #PED" and an id as `%04d` gives that id back: the
      id survives the label, the `#`-split, the trim, the upper-casing and
      the "PED" strip. */
  lemma IdDesdeEtiqueta(id: int)
    requires EsInt32(id)
    ensures ExtraerNumeroPedido(Some("Pedido #" + ("PED" + Formato04(id)))) == Ok("PED" + Formato04(id))
    ensures ObtenerIdDesdeNumeroPedido(Some("PED" + Formato04(id))) == id
  {
    var numero := "PED" + Formato04(id);
    NumeroPedidoForma(id);
    NumeroDesdeEtiqueta(numero);
    IdDesdeNumero(id);
  }

  /** "PED" and an id as `%04d` has no `#`, no outer blanks and no
      lower-case letter. */
  lemma NumeroPedidoForma(id: int)
    ensures var numero := "PED" + Formato04(id);
      numero != "" && '#' !in numero && SinBordes(numero) && SinMinusculas(numero)
  {
    var f := Formato04(id);
    PanelControl.IdUnaPalabra(id);
    assert ("PED" + f)[|"PED" + f| - 1] == f[|f| - 1];
  }

  /** The detail window reads the id back from "PED" and the id as `%04d`. */
  lemma IdDesdeNumero(id: int)
    requires EsInt32(id)
    ensures ObtenerIdDesdeNumeroPedido(Some("PED" + Formato04(id))) == id
  {
    NumeroPedidoForma(id);
    CifrasTrasPed("PED" + Formato04(id), Formato04(id));
    ParseIntFormato04(id);
  }

  /** A number that is "PED" and the digits, already trimmed and upper-case,
      hands the parser exactly the digits. */
  lemma CifrasTrasPed(numero: string, cifras: string)
    requires numero == "PED" + cifras && SinBordes(numero) && SinMinusculas(numero)
    ensures QuitarPed(Mayusculas(Trim(numero))) == cifras
  {
    assert Mayusculas(Trim(numero)) == numero by {
      TrimSinBordes(numero);
      MayusculasIdentidad(numero);
    }
    QuitarPedPrefijo(cifras);
  }

  /** The label built from a number without `#` and without outer blanks
      gives that number back. */
  lemma NumeroDesdeEtiqueta(numero: string)
    requires numero != "" && '#' !in numero && SinBordes(numero)
    ensures ExtraerNumeroPedido(Some("Pedido #" + numero)) == Ok(numero)
  {
    assert "Pedido #" + numero == "Pedido " + ['#'] + numero;
    AntesDeConcat(numero, "", '#');
    assert numero + "" == numero;
    SplitSegundo("Pedido ", numero, '#');
    TrimSinBordes(numero);
  }

  /** The whole path of a click on the board: the board's item text gives
      the number the detail label is built from ("Pedido #" and that
      number), and the detail window reads the order's own id back from
      that label, cancelled or not. */
  lemma IdDesdeTablero(id: int, total: int, estado: string)
    requires EsInt32(id)
    ensures var numero := PanelControl.ExtraerNumeroPedido(Some(PanelControl.TextoPanel(id, total, estado)));
      numero.Ok?
      && ExtraerNumeroPedido(Some("Pedido #" + numero.valor)).Ok?
      && ObtenerIdDesdeNumeroPedido(Some(ExtraerNumeroPedido(Some("Pedido #" + numero.valor)).valor)) == id
  {
    PanelControl.ExtraerDeTexto(id, total, estado);
    IdDesdeEtiqueta(id);
  }

  /** A label whose only `#` ends it has no second piece: the read throws. */
  lemma EtiquetaSinNumero()
    ensures ExtraerNumeroPedido(Some("Pedido #")).Excepcion?
  {
    assert "Pedido #" == "Pedido " + ['#'];
    SplitSeparadorFinal("Pedido ", '#');
  }

  // ---------------------------------------------------------------
  // Ingredients and seasonings
  // ---------------------------------------------------------------

  /** The words that make a topping a seasoning. */
  const PALABRAS_CONDIMENTO: seq<string> := [
    "orégano", "oregano", "parmesano", "polvo", "chile", "quebrado",
    "pimienta", "ajo", "albahaca", "romero", "finas hierbas", "perejil",
    "salsa", "valentina", "botanera", "catsup", "ketchup", "mostaza",
    "aceite", "chimichurri"]

  /** `esCondimento`: no name is not a seasoning; a name is one when its
      lower-cased, trimmed form contains one of the words. */
  predicate EsCondimento(nombre: Option<string>)
  {
    match nombre
    case None => false
    case Some(s) => TienePalabraCondimento(Trim(Minusculas(s)))
  }

  /** Whether the text holds one of the seasoning words. */
  predicate TienePalabraCondimento(n: string)
  {
    exists i :: 0 <= i < |PALABRAS_CONDIMENTO| && Contiene(n, PALABRAS_CONDIMENTO[i])
  }

  /** Upper-casing a name does not change how it is classified. */
  lemma CondimentoSinCaso(s: string)
    ensures EsCondimento(Some(Mayusculas(s))) == EsCondimento(Some(s))
  {
    MinusculasDeMayusculas(s);
  }

  /** Blanks around a name do not change how it is classified. */
  lemma CondimentoSinBordes(s: string)
    ensures EsCondimento(Some(Trim(s))) == EsCondimento(Some(s))
  {
    assert Trim(Minusculas(Trim(s))) == Trim(Minusculas(s)) by {
      TrimMinusculas(Trim(s));
      TrimMinusculas(s);
      TrimIdempotente(s);
    }
  }

  /** A name holding one of the words anywhere is a seasoning, even when
      it names a sauce ("Salsa BBQ") or a cheese ("Queso parmesano"). */
  lemma CondimentoPorPalabra(s: string, i: nat)
    requires i < |PALABRAS_CONDIMENTO|
    requires Contiene(Trim(Minusculas(s)), PALABRAS_CONDIMENTO[i])
    ensures EsCondimento(Some(s))
  {
  }

  /** A topping name `esCondimento` accepts. */
  predicate EsCondimentoNombre(x: string)
  {
    EsCondimento(Some(x))
  }

  /** A topping name `esCondimento` rejects. */
  predicate EsIngredienteNombre(x: string)
  {
    !EsCondimento(Some(x))
  }

  /** The elements of `xs` that satisfy `p`, in list order. */
  function Filtrar<T>(p: T -> bool, xs: seq<T>): seq<T>
    decreases |xs|
  {
    if xs == [] then []
    else
      var x := xs[|xs| - 1];
      Filtrar(p, xs[..|xs| - 1]) + (if p(x) then [x] else [])
  }

  lemma FiltrarPaso<T>(p: T -> bool, xs: seq<T>, i: nat)
    requires i < |xs|
    ensures Filtrar(p, xs[..i + 1]) == Filtrar(p, xs[..i]) + (if p(xs[i]) then [xs[i]] else [])
  {
    assert xs[..i + 1][..i] == xs[..i];
  }

  /** The split in `generarDetallesDesdeObjeto`: each of the pizza's
      ingredients goes, in order, to the seasonings when `esCondimento`
      says so and to the ingredients otherwise. The pizza's own seasoning
      list is not read. */
  method SepararIngredientes(pizza: Pizza) returns (ingredientes: seq<string>, condimentos: seq<string>)
    ensures ingredientes == Filtrar(EsIngredienteNombre, pizza.ingredientes.elementos)
    ensures condimentos == Filtrar(EsCondimentoNombre, pizza.ingredientes.elementos)
  {
    var items := pizza.ingredientes.elementos;
    ingredientes, condimentos := [], [];
    for i := 0 to |items|
      invariant ingredientes == Filtrar(EsIngredienteNombre, items[..i])
      invariant condimentos == Filtrar(EsCondimentoNombre, items[..i])
    {
      FiltrarPaso(EsIngredienteNombre, items, i);
      FiltrarPaso(EsCondimentoNombre, items, i);
      if EsCondimento(Some(items[i])) {
        condimentos := condimentos + [items[i]];
      } else {
        ingredientes := ingredientes + [items[i]];
      }
    }
    assert items[..|items|] == items;
  }

  /** Each item is shown exactly once: when `q` rejects exactly what `p`
      accepts, the two lists together hold the items, duplicates
      included. */
  lemma {:induction false} FiltrarParticion<T>(p: T -> bool, q: T -> bool, xs: seq<T>)
    requires forall x :: q(x) == !p(x)
    ensures multiset(Filtrar(p, xs)) + multiset(Filtrar(q, xs)) == multiset(xs)
    decreases |xs|
  {
    if xs != [] {
      var n := |xs| - 1;
      FiltrarParticion(p, q, xs[..n]);
      assert xs == xs[..n] + [xs[n]];
    }
  }

  /** Each list holds only items of its own kind. */
  lemma {:induction false} FiltrarClase<T>(p: T -> bool, xs: seq<T>)
    ensures forall x :: x in Filtrar(p, xs) ==> p(x)
    decreases |xs|
  {
    if xs != [] {
      FiltrarClase(p, xs[..|xs| - 1]);
    }
  }

  /** `idx` picks, in increasing positions of `xs`, the elements of
      `sub`. */
  predicate Indices<T(==)>(idx: seq<int>, sub: seq<T>, xs: seq<T>)
  {
    |idx| == |sub|
    && (forall k :: 0 <= k < |idx| ==> 0 <= idx[k] < |xs| && sub[k] == xs[idx[k]])
    && (forall k, l :: 0 <= k < l < |idx| ==> idx[k] < idx[l])
  }

  /** `sub` keeps some of the elements of `xs`, in their order. */
  ghost predicate Subsecuencia<T>(sub: seq<T>, xs: seq<T>)
  {
    exists idx :: Indices(idx, sub, xs)
  }

  /** The list keeps the items in the order the pizza lists them. */
  lemma {:induction false} FiltrarOrden<T>(p: T -> bool, xs: seq<T>)
    ensures Subsecuencia(Filtrar(p, xs), xs)
    decreases |xs|
  {
    if xs == [] {
      assert Indices([], [], xs);
    } else {
      var n := |xs| - 1;
      var pre := xs[..n];
      var sub := Filtrar(p, pre);
      FiltrarOrden(p, pre);
      var idx :| Indices(idx, sub, pre);
      IndicesCrecen(idx, sub, xs, n);
      if p(xs[n]) {
        assert Indices(idx + [n], Filtrar(p, xs), xs);
      } else {
        assert Indices(idx, Filtrar(p, xs), xs);
      }
    }
  }

  /** Positions picked in a prefix are still good in the whole list, and
      the next position can follow them. */
  lemma IndicesCrecen<T>(idx: seq<int>, sub: seq<T>, xs: seq<T>, n: nat)
    requires n < |xs| && Indices(idx, sub, xs[..n])
    ensures Indices(idx, sub, xs)
    ensures Indices(idx + [n], sub + [xs[n]], xs)
  {
    forall k | 0 <= k < |idx|
      ensures 0 <= idx[k] < n && sub[k] == xs[idx[k]]
    {
      assert xs[..n][idx[k]] == xs[idx[k]];
    }
  }

  /** What the detail window shows of a pizza's ingredients: every
      ingredient exactly once, seasonings and the rest apart, each list in
      the pizza's order. */
  lemma SeparacionCompleta(items: seq<string>)
    ensures multiset(Filtrar(EsIngredienteNombre, items)) + multiset(Filtrar(EsCondimentoNombre, items)) == multiset(items)
    ensures forall x :: x in Filtrar(EsCondimentoNombre, items) ==> EsCondimento(Some(x))
    ensures forall x :: x in Filtrar(EsIngredienteNombre, items) ==> !EsCondimento(Some(x))
    ensures Subsecuencia(Filtrar(EsIngredienteNombre, items), items)
    ensures Subsecuencia(Filtrar(EsCondimentoNombre, items), items)
  {
    FiltrarParticion(EsIngredienteNombre, EsCondimentoNombre, items);
    FiltrarClase(EsCondimentoNombre, items);
    FiltrarClase(EsIngredienteNombre, items);
    FiltrarOrden(EsIngredienteNombre, items);
    FiltrarOrden(EsCondimentoNombre, items);
  }
}
