/** Pricing strategies (Strategy pattern). Prices are in cents: the
    standard price is 100.00 plus 15.00 per topping plus 20.00 for a
    "rellena" dough; the promotion takes 10% off the standard price. */
module Precios {
  import opened Tipos
  import opened Texto
  import opened Pizzas

  const PRECIO_BASE := 10000
  const RECARGO_RELLENA := 2000
  const PRECIO_INGREDIENTE := 1500

  /** The strategy objects `PrecioEstandar` and `PrecioPromocion`. */
  datatype Estrategia = Estandar | Promocion

  /** A dough named "rellena", in any letter case; a null dough is not. */
  predicate EsRellena(masa: Option<string>) {
    masa.Some? && EqualsIgnoreCase(masa.value, "rellena")
  }

  /** `PrecioEstandar.calcularTotal`. */
  function PrecioEstandar(d: DatosPizza): (r: int)
    ensures r >= PRECIO_BASE
    ensures r % 500 == 0
  {
    var recargo := if EsRellena(d.masa) then RECARGO_RELLENA else 0;
    var n := |d.ingredientes|;
    assert PRECIO_BASE + recargo + PRECIO_INGREDIENTE * n == 500 * (20 + recargo / 500 + 3 * n);
    PRECIO_BASE + recargo + PRECIO_INGREDIENTE * n
  }

  /** `PrecioPromocion.calcularTotal`: the standard price times 0.90, which
      is exact in cents because every standard price is a multiple of 5.00. */
  function PrecioPromocion(d: DatosPizza): (r: int)
    ensures r * 10 == PrecioEstandar(d) * 9
    ensures 9000 <= r <= PrecioEstandar(d)
  {
    var p := PrecioEstandar(d);
    var q := p / 500;
    assert p == 500 * q;
    assert p * 9 / 10 == 450 * q by {
      assert p * 9 == 10 * (450 * q);
    }
    p * 9 / 10
  }

  /** `EstrategiaPrecio.calcularTotal` dispatched on the strategy. */
  function CalcularTotal(e: Estrategia, d: DatosPizza): (r: int)
    ensures r >= 9000
    ensures e == Estandar ==> r == PrecioEstandar(d)
    ensures e == Promocion ==> r * 10 == PrecioEstandar(d) * 9
  {
    match e
    case Estandar => PrecioEstandar(d)
    case Promocion => PrecioPromocion(d)
  }

  /** Each added topping costs exactly 15.00 more, whatever it is. */
  lemma IngredienteSuma(d: DatosPizza, x: string)
    ensures PrecioEstandar(d.(ingredientes := d.ingredientes + [x])) == PrecioEstandar(d) + PRECIO_INGREDIENTE
  {
  }

  /** Seasonings never change either price. */
  lemma CondimentosNoCuentan(d: DatosPizza, cs: seq<string>)
    ensures PrecioEstandar(d.(condimentos := cs)) == PrecioEstandar(d)
    ensures PrecioPromocion(d.(condimentos := cs)) == PrecioPromocion(d)
  {
  }

  /** The seven letters of "rellena", each in either case. */
  predicate RellenaEnCualquierCaso(m: string) {
    |m| == 7 && forall i :: 0 <= i < 7 ==> m[i] == "rellena"[i] || m[i] == "RELLENA"[i]
  }

  /** `equalsIgnoreCase("rellena")` accepts exactly the spellings of
      "rellena" in any mix of letter cases; those cost 120.00 plus the
      toppings, every other dough and a null one 100.00 plus the toppings. */
  lemma RecargoRellena(d: DatosPizza)
    ensures EsRellena(d.masa) <==> d.masa.Some? && RellenaEnCualquierCaso(d.masa.value)
    ensures PrecioEstandar(d) == (if EsRellena(d.masa) then 12000 else 10000) + PRECIO_INGREDIENTE * |d.ingredientes|
  {
    assert Mayusculas("rellena") == "RELLENA";
    if d.masa.Some? {
      var m := d.masa.value;
      if EsRellena(d.masa) {
        forall i | 0 <= i < 7
          ensures m[i] == "rellena"[i] || m[i] == "RELLENA"[i]
        {
          assert Mayusculas(m)[i] == MayusculaAscii(m[i]);
        }
      }
      if RellenaEnCualquierCaso(m) {
        assert Mayusculas(m) == "RELLENA";
      }
    }
  }

  /** Two toppings on a dough other than "rellena": 130.00 standard,
      117.00 on promotion. */
  lemma EjemploDosIngredientes(d: DatosPizza)
    requires d.masa == Some("Tradicional") && |d.ingredientes| == 2
    ensures PrecioEstandar(d) == 13000 && PrecioPromocion(d) == 11700
  {
    assert Mayusculas("Tradicional")[0] == 'T';
    assert Mayusculas("rellena")[0] == 'R';
  }
}
