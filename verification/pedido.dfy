/** The order (`Pedido`): an id, a pizza, a total, the current state
    (State pattern) and a list of observers (Observer pattern) that hear of
    every state change. */
module Pedidos {
  import opened Tipos
  import opened Estados
  import opened Pizzas
  import opened Codec

  /** An `ObservadorPedido`. What its `actualizar` does is outside this
      model; all that matters here is whether the call throws. */
  class Observador {
    const falla: bool

    constructor (falla: bool)
      ensures this.falla == falla
    {
      this.falla := falla;
    }
  }

  /** One `actualizar` call: the observer, the state the order was in, and
      whether the call returned normally. */
  datatype Entrega = Entrega(destino: Observador, estado: Option<Estado>, exito: bool)

  /** The calls one `notificarObservadores` makes over the observers `obs`:
      one per observer, in list order, each seeing the same state; a
      failing observer is recorded as failed and the rest still hear. */
  function Ronda(obs: seq<Observador>, e: Option<Estado>): (r: seq<Entrega>)
    ensures |r| == |obs|
    ensures forall i :: 0 <= i < |obs| ==> r[i] == Entrega(obs[i], e, !obs[i].falla)
    decreases |obs|
  {
    if obs == [] then [] else Ronda(obs[..|obs| - 1], e) + [Entrega(obs[|obs| - 1], e, !obs[|obs| - 1].falla)]
  }

  /** How many of the calls `r` went to `o`. */
  function EntregasA(r: seq<Entrega>, o: Observador): nat
    decreases |r|
  {
    if r == [] then 0
    else EntregasA(r[..|r| - 1], o) + (if r[|r| - 1].destino == o then 1 else 0)
  }

  lemma {:induction false} EntregasAConcat(a: seq<Entrega>, b: seq<Entrega>, o: Observador)
    ensures EntregasA(a + b, o) == EntregasA(a, o) + EntregasA(b, o)
    decreases |b|
  {
    if b == [] {
      assert a + b == a;
    } else {
      assert (a + b)[..|a + b| - 1] == a + b[..|b| - 1];
      EntregasAConcat(a, b[..|b| - 1], o);
    }
  }

  predicate SinDuplicados(xs: seq<Observador>) {
    forall i, j :: 0 <= i < j < |xs| ==> xs[i] != xs[j]
  }

  /** With no duplicates in the list, one notification reaches each
      listed observer exactly once and nobody else. */
  lemma {:induction false} RondaUnaVez(obs: seq<Observador>, e: Option<Estado>, o: Observador)
    requires SinDuplicados(obs)
    ensures EntregasA(Ronda(obs, e), o) == if o in obs then 1 else 0
    decreases |obs|
  {
    if obs != [] {
      var n := |obs| - 1;
      var previos := obs[..n];
      assert Ronda(obs, e)[..n] == Ronda(previos, e);
      RondaUnaVez(previos, e, o);
      assert obs == previos + [obs[n]];
      assert obs[n] !in previos;
    }
  }

  /** A successful advance notifies twice; each subscribed observer is
      therefore called exactly twice. */
  lemma DosEntregas(obs: seq<Observador>, e: Option<Estado>, o: Observador)
    requires SinDuplicados(obs) && o in obs
    ensures EntregasA(Ronda(obs, e) + Ronda(obs, e), o) == 2
  {
    EntregasAConcat(Ronda(obs, e), Ronda(obs, e), o);
    RondaUnaVez(obs, e, o);
  }

  /** The position of the first occurrence of `o` in `xs`. */
  function PrimeraPosicion(xs: seq<Observador>, o: Observador): (k: nat)
    requires o in xs
    ensures k < |xs| && xs[k] == o && o !in xs[..k]
    decreases |xs|
  {
    if xs[0] == o then 0
    else
      var k := PrimeraPosicion(xs[1..], o);
      assert xs[..k + 1] == [xs[0]] + xs[1..][..k];
      k + 1
  }

  /** `List.remove(Object)`: removes the first occurrence, if any. */
  function QuitarPrimero(xs: seq<Observador>, o: Observador): seq<Observador>
  {
    if o in xs then
      var k := PrimeraPosicion(xs, o);
      xs[..k] + xs[k + 1..]
    else xs
  }

  /** Where each element of `xs` minus position `k` came from. */
  lemma QuitarPosicion(xs: seq<Observador>, k: nat, i: nat)
    requires k < |xs| && i < |xs| - 1
    ensures (xs[..k] + xs[k + 1..])[i] == xs[if i < k then i else i + 1]
  {
  }

  /** Removing from a list without duplicates takes out exactly that
      observer, keeping the others and their order free of duplicates. */
  lemma QuitarSinDuplicados(xs: seq<Observador>, o: Observador)
    requires SinDuplicados(xs)
    ensures o !in QuitarPrimero(xs, o)
    ensures SinDuplicados(QuitarPrimero(xs, o))
    ensures forall q :: q != o ==> (q in QuitarPrimero(xs, o) <==> q in xs)
    ensures |QuitarPrimero(xs, o)| == if o in xs then |xs| - 1 else |xs|
  {
    if o in xs {
      var k := PrimeraPosicion(xs, o);
      var r := xs[..k] + xs[k + 1..];
      assert r == QuitarPrimero(xs, o);
      forall i, j | 0 <= i < j < |r| ensures r[i] != r[j] {
        QuitarPosicion(xs, k, i);
        QuitarPosicion(xs, k, j);
      }
      forall q | q != o ensures q in r <==> q in xs {
        if q in xs {
          var m :| 0 <= m < |xs| && xs[m] == q;
          QuitarPosicion(xs, k, if m < k then m else m - 1);
        }
        if q in r {
          var m :| 0 <= m < |r| && r[m] == q;
          QuitarPosicion(xs, k, m);
        }
      }
      forall i | 0 <= i < |r| ensures r[i] != o {
        QuitarPosicion(xs, k, i);
      }
    }
  }

  class Pedido {
    var id: int
    const pizza: Pizza
    var total: int
    var estadoActual: Option<Estado>
    var observadores: seq<Observador>
    /** Every `actualizar` call made on this order's behalf so far. */
    var entregas: seq<Entrega>

    /** The objects whose fields make up the order's stored record. */
    function Huella(): set<object>
    {
      {this, pizza, pizza.ingredientes, pizza.condimentos}
    }

    /** The order as `serializarPedido` writes it. */
    function Registro(): RegistroPedido
      reads Huella()
    {
      var d := pizza.Datos();
      RegistroPedido(id, d.masa, d.salsa, d.queso, d.tipoOrilla, d.ingredientes, d.condimentos, total, estadoActual)
    }

    /** `new Pedido(pizza, total)`: id 0, state RECIBIDO, no observers. */
    constructor (pizza: Pizza, total: int)
      ensures this.pizza == pizza && this.total == total && id == 0
      ensures estadoActual == Some(Recibido) && observadores == [] && entregas == []
    {
      this.pizza := pizza;
      this.total := total;
      id := 0;
      estadoActual := Some(Recibido);
      observadores := [];
      entregas := [];
    }

    method SetId(id: int)
      modifies this
      ensures this.id == id
      ensures total == old(total) && estadoActual == old(estadoActual)
      ensures observadores == old(observadores) && entregas == old(entregas)
    {
      this.id := id;
    }

    method SetTotal(total: int)
      modifies this
      ensures this.total == total
      ensures id == old(id) && estadoActual == old(estadoActual)
      ensures observadores == old(observadores) && entregas == old(entregas)
    {
      this.total := total;
    }

    /** `getNombreEstado`: the state's name, or empty text without one. */
    function NombreEstadoActual(): (r: string)
      reads this
      ensures r == "" <==> estadoActual.None?
    {
      NombreEstado(estadoActual)
    }

    /** `esCancelado`: the state name is CANCELADO, ignoring case. */
    predicate EsCancelado()
      reads this
      ensures EsCancelado() <==> estadoActual == Some(Cancelado)
    {
      NombreIdentifica(Cancelado, estadoActual);
      Texto.EqualsIgnoreCase("CANCELADO", NombreEstadoActual())
    }

    /** `esEntregado`: the state name is ENTREGADO, ignoring case. */
    predicate EsEntregado()
      reads this
      ensures EsEntregado() <==> estadoActual == Some(Entregado)
    {
      NombreIdentifica(Entregado, estadoActual);
      Texto.EqualsIgnoreCase("ENTREGADO", NombreEstadoActual())
    }

    /** `esFinalizado`: CANCELADO or ENTREGADO. */
    predicate EsFinalizado()
      reads this
      ensures EsFinalizado() <==> estadoActual.Some? && EsFinal(estadoActual.value)
    {
      EsCancelado() || EsEntregado()
    }

    /** `notificarObservadores`: calls every observer present when it
        starts, in list order, over a copy of the list; a failing
        observer does not stop the others. */
    method NotificarObservadores()
      modifies this
      ensures entregas == old(entregas) + Ronda(observadores, estadoActual)
      ensures id == old(id) && total == old(total) && estadoActual == old(estadoActual)
      ensures observadores == old(observadores)
    {
      var copia := observadores;
      var i := 0;
      while i < |copia|
        invariant 0 <= i <= |copia|
        invariant entregas == old(entregas) + Ronda(copia[..i], estadoActual)
        invariant id == old(id) && total == old(total) && estadoActual == old(estadoActual)
        invariant observadores == old(observadores)
      {
        assert copia[..i + 1][..i] == copia[..i];
        Actualizar(copia[i]);
        i := i + 1;
      }
      assert copia[..i] == copia;
    }

    /** One `o.actualizar(this)` inside its `try`: the call is recorded
        with the current state and whether it threw. */
    method Actualizar(o: Observador)
      modifies this
      ensures entregas == old(entregas) + [Entrega(o, estadoActual, !o.falla)]
      ensures id == old(id) && total == old(total) && estadoActual == old(estadoActual)
      ensures observadores == old(observadores)
    {
      var exito := !o.falla;
      entregas := entregas + [Entrega(o, estadoActual, exito)];
    }

    /** `setEstadoActual`: replaces the state unconditionally and always
        notifies, even when the state does not change. */
    method SetEstadoActual(nuevo: Option<Estado>)
      modifies this
      ensures estadoActual == nuevo
      ensures entregas == old(entregas) + Ronda(observadores, nuevo)
      ensures id == old(id) && total == old(total) && observadores == old(observadores)
    {
      estadoActual := nuevo;
      NotificarObservadores();
    }

    /** `avanzarEstado`: nothing at all happens without a state or in a
        final one; otherwise the state's `avanzar` moves it on (notifying
        once) and the order notifies again. */
    method AvanzarEstado()
      modifies this
      ensures Avanzado(this)
    {
      if estadoActual.None? {
        return;
      }
      if EsCancelado() || EsEntregado() {
        return;
      }
      Avanzar(estadoActual.value, this);
      NotificarObservadores();
    }

    /** `agregarObservador`: null and observers already present are
        ignored, so the list never holds duplicates. */
    method AgregarObservador(o: Option<Observador>)
      modifies this
      ensures observadores == if o.Some? && o.value !in old(observadores) then old(observadores) + [o.value] else old(observadores)
      ensures SinDuplicados(old(observadores)) ==> SinDuplicados(observadores)
      ensures id == old(id) && total == old(total) && estadoActual == old(estadoActual) && entregas == old(entregas)
    {
      if o.Some? && o.value !in observadores {
        observadores := observadores + [o.value];
      }
    }

    /** `quitarObservador`: removes the first occurrence; null is ignored. */
    method QuitarObservador(o: Option<Observador>)
      modifies this
      ensures observadores == if o.Some? then QuitarPrimero(old(observadores), o.value) else old(observadores)
      ensures id == old(id) && total == old(total) && estadoActual == old(estadoActual) && entregas == old(entregas)
    {
      if o.Some? {
        observadores := QuitarPrimero(observadores, o.value);
      }
    }
  }

  /** What `avanzarEstado` does to an order: id, total and observers stay;
      the state moves to `TrasAvanzar` of the old one; when it moved, every
      observer was called twice with the new state. */
  twostate predicate Avanzado(p: Pedido)
    reads p
  {
    && p.id == old(p.id) && p.total == old(p.total) && p.observadores == old(p.observadores)
    && p.estadoActual == TrasAvanzar(old(p.estadoActual))
    && p.entregas == old(p.entregas)
      + (if PuedeAvanzar(old(p.estadoActual))
         then Ronda(p.observadores, p.estadoActual) + Ronda(p.observadores, p.estadoActual)
         else [])
  }

  /** The `avanzar` of each state class applied to `p`: the four
      non-final states install their successor through `setEstadoActual`
      (one notification); ENTREGADO and CANCELADO touch nothing. */
  method Avanzar(e: Estado, p: Pedido)
    modifies p
    ensures EsFinal(e) ==> unchanged(p)
    ensures !EsFinal(e) ==>
      && p.estadoActual == Siguiente(e)
      && p.entregas == old(p.entregas) + Ronda(p.observadores, Siguiente(e))
      && p.id == old(p.id) && p.total == old(p.total) && p.observadores == old(p.observadores)
  {
    match e
    case Recibido => p.SetEstadoActual(Some(Preparando));
    case Preparando => p.SetEstadoActual(Some(Horneando));
    case Horneando => p.SetEstadoActual(Some(Terminado));
    case Terminado => p.SetEstadoActual(Some(Entregado));
    case Entregado =>
    case Cancelado =>
  }

  /** The records of a list of orders, in list order. */
  function Registros(ps: seq<Pedido>): (r: seq<RegistroPedido>)
    reads Huellas(ps)
    ensures |r| == |ps|
    decreases |ps|
  {
    if ps == [] then []
    else
      var previos, ultimo := ps[..|ps| - 1], ps[|ps| - 1];
      assert forall p :: p in previos ==> p in ps;
      assert ultimo in ps;
      Registros(previos) + [ultimo.Registro()]
  }

  /** One more order of the same list adds its record at the end. */
  lemma RegistrosPaso(ps: seq<Pedido>, i: nat)
    requires i < |ps|
    ensures Registros(ps[..i + 1]) == Registros(ps[..i]) + [ps[i].Registro()]
  {
    assert ps[..i + 1][..i] == ps[..i];
  }

  /** Appending an order appends its record. */
  lemma RegistrosUno(ps: seq<Pedido>, p: Pedido)
    ensures Registros(ps + [p]) == Registros(ps) + [p.Registro()]
  {
    assert (ps + [p])[..|ps|] == ps;
  }

  /** The objects the records of `ps` are read from. */
  function Huellas(ps: seq<Pedido>): set<object>
  {
    (set p | p in ps :: p as object) + (set p | p in ps :: p.pizza as object)
    + (set p | p in ps :: p.pizza.ingredientes as object) + (set p | p in ps :: p.pizza.condimentos as object)
  }

  /** The records depend on nothing but the orders, their pizzas and the
      pizzas' lists: while none of those changed, no record changed. */
  twostate lemma RegistrosIntactos(ps: seq<Pedido>)
    requires forall p :: p in ps ==> unchanged(p, p.pizza, p.pizza.ingredientes, p.pizza.condimentos)
    ensures Registros(ps) == old(Registros(ps))
  {
    assert forall o :: o in Huellas(ps) ==> unchanged(o);
  }
}
