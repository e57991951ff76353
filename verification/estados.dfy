/** The order life cycle (State pattern): RECIBIDO, PREPARANDO,
    HORNEANDO, TERMINADO, ENTREGADO, and CANCELADO, which an order can
    reach from any non-final state. Each state class is a constructor of
    `Estado`; its `getNombreEstado` is `Nombre` and the transition its
    `avanzar` performs is `Siguiente`. */
module Estados {
  import opened Tipos
  import opened Texto

  datatype Estado = Recibido | Preparando | Horneando | Terminado | Entregado | Cancelado

  /** Position in the life cycle; CANCELADO sits outside the chain. */
  function Etapa(e: Estado): nat
  {
    match e
    case Recibido => 0
    case Preparando => 1
    case Horneando => 2
    case Terminado => 3
    case Entregado => 4
    case Cancelado => 5
  }

  /** ENTREGADO and CANCELADO: the states whose `avanzar` does nothing. */
  predicate EsFinal(e: Estado) {
    e == Entregado || e == Cancelado
  }

  /** `getNombreEstado` of each state class. */
  function Nombre(e: Estado): (r: string)
    ensures |r| > 0 && SinMinusculas(r)
  {
    match e
    case Recibido => "RECIBIDO"
    case Preparando => "PREPARANDO"
    case Horneando => "HORNEANDO"
    case Terminado => "TERMINADO"
    case Entregado => "ENTREGADO"
    case Cancelado => "CANCELADO"
  }

  /** The state each `avanzar` installs; `None` when it installs none. */
  function Siguiente(e: Estado): (r: Option<Estado>)
    ensures r.None? <==> EsFinal(e)
    ensures r.Some? ==> Etapa(r.value) == Etapa(e) + 1 && r.value != Cancelado
  {
    match e
    case Recibido => Some(Preparando)
    case Preparando => Some(Horneando)
    case Horneando => Some(Terminado)
    case Terminado => Some(Entregado)
    case Entregado => None
    case Cancelado => None
  }

  /** `Pedido.getNombreEstado`: the empty text when there is no state. */
  function NombreEstado(o: Option<Estado>): (r: string)
    ensures r == "" <==> o.None?
  {
    match o
    case None => ""
    case Some(e) => Nombre(e)
  }

  /** The state names are told apart even ignoring case: comparing a name
      case-insensitively with an order's state name identifies the state. */
  lemma NombreIdentifica(e: Estado, o: Option<Estado>)
    ensures EqualsIgnoreCase(Nombre(e), NombreEstado(o)) <==> o == Some(e)
  {
    MayusculasIdentidad(Nombre(e));
    MayusculasIdentidad(NombreEstado(o));
  }

  /** Different states have different names: each name starts with its
      own letter. */
  lemma NombreInyectivo(e: Estado, f: Estado)
    requires e != f
    ensures Nombre(e) != Nombre(f)
  {
    assert Nombre(e)[0] != Nombre(f)[0];
  }

  /** Whether `Pedido.avanzarEstado` does anything: there is a state and
      it is not final. */
  predicate PuedeAvanzar(o: Option<Estado>) {
    o.Some? && !EsFinal(o.value)
  }

  /** The state after `Pedido.avanzarEstado`: unchanged when there is no
      state or it is final, the next one otherwise. */
  function TrasAvanzar(o: Option<Estado>): (r: Option<Estado>)
    ensures o.None? ==> r.None?
    ensures o.Some? && EsFinal(o.value) ==> r == o
  {
    match o
    case None => None
    case Some(e) => if EsFinal(e) then o else Siguiente(e)
  }

  /** The state after `n` successive advances. */
  function AvanzarVeces(o: Option<Estado>, n: nat): Option<Estado>
    decreases n
  {
    if n == 0 then o else AvanzarVeces(TrasAvanzar(o), n - 1)
  }

  /** A received order is delivered after exactly four advances and never
      leaves ENTREGADO afterwards; advancing alone never cancels it. */
  lemma {:induction false} CicloCompleto(n: nat)
    ensures var o := AvanzarVeces(Some(Recibido), n);
      o.Some? && o.value != Cancelado && Etapa(o.value) == if n < 4 then n else 4
  {
    AvanzarVecesEtapa(Some(Recibido), n);
  }

  lemma {:induction false} AvanzarVecesEtapa(o: Option<Estado>, n: nat)
    requires o.Some? && o.value != Cancelado
    ensures var r := AvanzarVeces(o, n);
      r.Some? && r.value != Cancelado
      && Etapa(r.value) == if Etapa(o.value) + n < 4 then Etapa(o.value) + n else 4
    decreases n
  {
    if n > 0 {
      AvanzarVecesEtapa(TrasAvanzar(o), n - 1);
    }
  }

  /** Advancing an order that is CANCELADO or ENTREGADO changes nothing,
      however often it is done. */
  lemma {:induction false} FinalEstable(e: Estado, n: nat)
    requires EsFinal(e)
    ensures AvanzarVeces(Some(e), n) == Some(e)
    decreases n
  {
    if n > 0 {
      FinalEstable(e, n - 1);
    }
  }
}
