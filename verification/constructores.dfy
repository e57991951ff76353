/** The Builder pattern over `Pizza`: `PizzaPersonalizadaBuilder` fills in
    one pizza step by step and hands out that same instance from `build`;
    `DirectorConstructorPizza` runs the fixed recipe of a basic pizza. */
module Constructores {
  import opened Tipos
  import opened Pizzas
  import opened Precios

  class PizzaPersonalizadaBuilder {
    /** The pizza under construction, created with the builder. */
    const pizza: Pizza

    ghost predicate Valid()
    {
      pizza.Valid()
    }

    constructor ()
      ensures Valid() && fresh(pizza) && fresh(pizza.ingredientes) && fresh(pizza.condimentos)
      ensures pizza.Datos() == PIZZA_VACIA
    {
      pizza := new Pizza();
    }

    /** `conMasa`: sets the dough (null included) and returns this builder. */
    method ConMasa(masa: Option<string>) returns (b: PizzaPersonalizadaBuilder)
      modifies pizza
      ensures b == this
      ensures pizza.Datos() == old(pizza.Datos()).(masa := masa)
    {
      pizza.SetMasa(masa);
      b := this;
    }

    method ConSalsa(salsa: Option<string>) returns (b: PizzaPersonalizadaBuilder)
      modifies pizza
      ensures b == this
      ensures pizza.Datos() == old(pizza.Datos()).(salsa := salsa)
    {
      pizza.SetSalsa(salsa);
      b := this;
    }

    method ConQueso(queso: Option<string>) returns (b: PizzaPersonalizadaBuilder)
      modifies pizza
      ensures b == this
      ensures pizza.Datos() == old(pizza.Datos()).(queso := queso)
    {
      pizza.SetQueso(queso);
      b := this;
    }

    method ConTipoOrilla(tipoOrilla: Option<string>) returns (b: PizzaPersonalizadaBuilder)
      modifies pizza
      ensures b == this
      ensures pizza.Datos() == old(pizza.Datos()).(tipoOrilla := tipoOrilla)
    {
      pizza.SetTipoOrilla(tipoOrilla);
      b := this;
    }

    /** `agregarIngrediente`: appends to the pizza's own topping list,
        duplicates kept. */
    method AgregarIngrediente(x: string) returns (b: PizzaPersonalizadaBuilder)
      requires Valid()
      modifies pizza.ingredientes
      ensures b == this
      ensures pizza.Datos() == old(pizza.Datos()).(ingredientes := old(pizza.Datos()).ingredientes + [x])
    {
      pizza.AgregarIngrediente(x);
      b := this;
    }

    method AgregarCondimento(x: string) returns (b: PizzaPersonalizadaBuilder)
      requires Valid()
      modifies pizza.condimentos
      ensures b == this
      ensures pizza.Datos() == old(pizza.Datos()).(condimentos := old(pizza.Datos()).condimentos + [x])
    {
      pizza.AgregarCondimento(x);
      b := this;
    }

    /** `build`: the very instance being built, not a copy, so later
        builder calls keep changing a pizza already handed out. */
    method Build() returns (p: Pizza)
      ensures p == pizza
    {
      p := pizza;
    }
  }

  class DirectorConstructorPizza {
    var builder: PizzaPersonalizadaBuilder

    constructor (builder: PizzaPersonalizadaBuilder)
      ensures this.builder == builder
    {
      this.builder := builder;
    }

    method SetBuilder(builder: PizzaPersonalizadaBuilder)
      modifies this
      ensures this.builder == builder
    {
      this.builder := builder;
    }

    /** `construirPizzaBasica`: traditional dough, tomato sauce, mozzarella
        and a normal crust on the builder's pizza, whose lists it leaves as
        they were; the result is that pizza itself. */
    method ConstruirPizzaBasica() returns (p: Pizza)
      modifies builder.pizza
      ensures p == builder.pizza
      ensures p.Datos() == old(p.Datos()).(masa := Some("Tradicional"), salsa := Some("Tomate"),
        queso := Some("Mozzarella"), tipoOrilla := Some("Normal"))
    {
      var b := builder.ConMasa(Some("Tradicional"));
      b := b.ConSalsa(Some("Tomate"));
      b := b.ConQueso(Some("Mozzarella"));
      b := b.ConTipoOrilla(Some("Normal"));
      p := b.Build();
    }
  }

  /** A basic pizza from a fresh builder costs 100.00 at the standard price
      and 90.00 on promotion. */
  method PizzaBasicaNueva() returns (p: Pizza)
    ensures fresh(p) && p.Valid()
    ensures p.Datos().ingredientes == [] && p.Datos().condimentos == []
    ensures PrecioEstandar(p.Datos()) == 10000 && PrecioPromocion(p.Datos()) == 9000
  {
    var b := new PizzaPersonalizadaBuilder();
    var director := new DirectorConstructorPizza(b);
    p := director.ConstruirPizzaBasica();
    EjemploDosIngredientes(p.Datos().(ingredientes := ["a", "b"]));
  }

  /** Because `build` hands out the live instance, a topping added through
      the builder after `build` shows up in the pizza already returned. */
  method BuildComparte() returns (p: Pizza)
    ensures fresh(p) && p.Datos().ingredientes == ["Jamón"]
  {
    var b := new PizzaPersonalizadaBuilder();
    p := b.Build();
    var _ := b.AgregarIngrediente("Jamón");
  }
}
