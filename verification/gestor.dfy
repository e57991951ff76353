/** The in-memory order manager (`GestorPedidos`, a singleton in the
    program; here an ordinary object): the registered orders, the next id
    to hand out and the current pricing strategy. */
module Gestor {
  import opened Tipos
  import opened Estados
  import opened Pizzas
  import opened Precios
  import opened Pedidos
  import opened Numeros

  /** An order in CANCELADO or ENTREGADO (`esFinalizado`). */
  predicate Finalizado(o: Option<Estado>) {
    o.Some? && EsFinal(o.value)
  }

  /** The position of the first order with id `id`, as the scan in
      `buscarPorId` finds it. */
  function PosicionPorId(ps: seq<Pedido>, id: int): (r: Option<nat>)
    reads ps
    ensures r.Some? ==> r.value < |ps| && ps[r.value].id == id
    ensures r.Some? ==> forall j :: 0 <= j < r.value ==> ps[j].id != id
    ensures r.None? ==> forall j :: 0 <= j < |ps| ==> ps[j].id != id
    decreases |ps|
  {
    if ps == [] then None
    else if ps[0].id == id then Some(0)
    else
      match PosicionPorId(ps[1..], id)
      case None => None
      case Some(k) => Some(k + 1)
  }

  /** What `cancelarPedido` does to a found order: an order already in
      CANCELADO or ENTREGADO is left alone; any other, including one
      without a state, moves to CANCELADO and its observers hear once. */
  twostate predicate Cancelacion(p: Pedido)
    reads p
  {
    && p.id == old(p.id) && p.total == old(p.total) && p.observadores == old(p.observadores)
    && if Finalizado(old(p.estadoActual)) then
         p.estadoActual == old(p.estadoActual) && p.entregas == old(p.entregas)
       else
         p.estadoActual == Some(Cancelado)
         && p.entregas == old(p.entregas) + Ronda(p.observadores, Some(Cancelado))
  }

  class GestorPedidos {
    var pedidos: seq<Pedido>
    var siguienteId: int
    var estrategia: Estrategia

    /** Every stored order has an id below the next one to hand out, so a
        newly registered order never shares an id with a stored one. */
    ghost predicate Valid()
      reads this, pedidos
    {
      siguienteId >= 1 && forall i :: 0 <= i < |pedidos| ==> pedidos[i].id < siguienteId
    }

    /** The first use of `getInstancia`: no orders, ids from 1, standard
        pricing. */
    constructor ()
      ensures Valid()
      ensures pedidos == [] && siguienteId == 1 && estrategia == Estandar
    {
      pedidos := [];
      siguienteId := 1;
      estrategia := Estandar;
    }

    /** `setEstrategia`: a null strategy is ignored. */
    method SetEstrategia(e: Option<Estrategia>)
      modifies this
      ensures estrategia == if e.Some? then e.value else old(estrategia)
      ensures pedidos == old(pedidos) && siguienteId == old(siguienteId)
    {
      if e.Some? {
        estrategia := e.value;
      }
    }

    /** `registrarPedido`: prices the pizza with the current strategy,
        gives the new order the next id and appends it. */
    method RegistrarPedido(pizza: Pizza) returns (p: Pedido)
      requires Valid()
      modifies this
      ensures Valid()
      ensures fresh(p) && p.pizza == pizza
      ensures p.id == old(siguienteId) && siguienteId == old(siguienteId) + 1
      ensures forall q :: q in old(pedidos) ==> q.id != p.id
      ensures p.total == CalcularTotal(estrategia, pizza.Datos())
      ensures p.estadoActual == Some(Recibido) && p.observadores == [] && p.entregas == []
      ensures pedidos == old(pedidos) + [p] && estrategia == old(estrategia)
    {
      var total := CalcularTotal(estrategia, pizza.Datos());
      p := new Pedido(pizza, total);
      p.SetId(siguienteId);
      siguienteId := siguienteId + 1;
      pedidos := pedidos + [p];
    }

    /** `registrarPedidoExistente`: stores an order built elsewhere (for
        instance read back from the file) without repricing it, and moves
        the counter past its id; null is ignored. */
    method RegistrarPedidoExistente(o: Option<Pedido>)
      requires Valid()
      modifies this
      ensures Valid()
      ensures pedidos == if o.Some? then old(pedidos) + [o.value] else old(pedidos)
      ensures siguienteId == if o.Some? && o.value.id >= old(siguienteId) then o.value.id + 1 else old(siguienteId)
      ensures estrategia == old(estrategia)
    {
      if o.None? {
        return;
      }
      var p := o.value;
      pedidos := pedidos + [p];
      if p.id >= siguienteId {
        siguienteId := p.id + 1;
      }
    }

    /** `buscarPorId`: the first stored order with that id, or null. */
    method BuscarPorId(id: int) returns (r: Option<Pedido>)
      ensures r == match PosicionPorId(pedidos, id)
        case None => None
        case Some(k) => Some(pedidos[k])
    {
      var i := 0;
      while i < |pedidos|
        invariant 0 <= i <= |pedidos|
        invariant forall j :: 0 <= j < i ==> pedidos[j].id != id
      {
        if pedidos[i].id == id {
          return Some(pedidos[i]);
        }
        i := i + 1;
      }
      return None;
    }

    /** `avanzarEstado`: advances the first order with that id unless it is
        finished; no other order changes, and nothing does when no order has
        that id. */
    method AvanzarEstado(idPedido: int)
      requires Valid()
      modifies pedidos
      ensures Valid()
      ensures match old(PosicionPorId(pedidos, idPedido))
        case None => forall q :: q in pedidos ==> unchanged(q)
        case Some(k) => Avanzado(pedidos[k]) && forall q :: q in pedidos && q != pedidos[k] ==> unchanged(q)
    {
      var r := BuscarPorId(idPedido);
      if r.None? {
        return;
      }
      var p := r.value;
      if p.EsFinalizado() {
        return;
      }
      p.AvanzarEstado();
    }

    /** `cancelarPedido`: cancels the first order with that id unless it is
        finished; no other order changes. */
    method CancelarPedido(idPedido: int)
      requires Valid()
      modifies pedidos
      ensures Valid()
      ensures match old(PosicionPorId(pedidos, idPedido))
        case None => forall q :: q in pedidos ==> unchanged(q)
        case Some(k) => Cancelacion(pedidos[k]) && forall q :: q in pedidos && q != pedidos[k] ==> unchanged(q)
    {
      var r := BuscarPorId(idPedido);
      if r.None? {
        return;
      }
      var p := r.value;
      if p.EsFinalizado() {
        return;
      }
      p.SetEstadoActual(Some(Cancelado));
    }

    /** `getPedidos`: a read-only view of the orders in registration
        order. */
    method GetPedidos() returns (r: seq<Pedido>)
      ensures r == pedidos
    {
      r := pedidos;
    }
  }

  /** Java `int` arithmetic: the result reduced into the 32-bit range. */
  function Int32(x: int): (r: int)
    ensures EsInt32(r)
    ensures EsInt32(x) ==> r == x
  {
    (x - MIN_INT) % 0x1_0000_0000 + MIN_INT
  }

  /** The counter update of `registrarPedidoExistente` as the program
      evaluates it, in 32-bit arithmetic. */
  function SiguienteIdInt32(siguienteId: int, id: int): (r: int)
    requires EsInt32(siguienteId) && EsInt32(id)
    ensures EsInt32(r)
    ensures id < MAX_INT ==> (id < r || id < siguienteId)
  {
    if id >= siguienteId then Int32(id + 1) else siguienteId
  }

  /** Storing an order whose id is the largest `int` wraps the counter to
      the smallest one: the stored id is then no longer below the next id,
      and the next order registered gets a negative id. */
  lemma DesbordeSiguienteId()
    ensures SiguienteIdInt32(1, MAX_INT) == MIN_INT
    ensures !(MAX_INT < SiguienteIdInt32(1, MAX_INT))
  {
  }
}
