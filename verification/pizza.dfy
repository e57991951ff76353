/** The pizza record (`Pizza`): four nullable text fields, an id and a
    name, and two live lists that callers append to through
    `getIngredientes()` and `getCondimentos()`. */
module Pizzas {
  import opened Tipos

  /** A `java.util.ArrayList<String>` shared by reference: whoever holds it
      may append to it. */
  class Lista {
    var elementos: seq<string>

    constructor ()
      ensures elementos == []
    {
      elementos := [];
    }

    /** `List.add`: appends at the end, keeping duplicates. */
    method Agregar(x: string)
      modifies this
      ensures elementos == old(elementos) + [x]
    {
      elementos := elementos + [x];
    }
  }

  /** The value held by a pizza at one moment. */
  datatype DatosPizza = DatosPizza(
    id: int,
    nombre: Option<string>,
    masa: Option<string>,
    salsa: Option<string>,
    queso: Option<string>,
    tipoOrilla: Option<string>,
    ingredientes: seq<string>,
    condimentos: seq<string>)

  /** What a freshly constructed pizza holds. */
  const PIZZA_VACIA := DatosPizza(0, None, None, None, None, None, [], [])

  class Pizza {
    var id: int
    var nombre: Option<string>
    var masa: Option<string>
    var salsa: Option<string>
    var queso: Option<string>
    var tipoOrilla: Option<string>
    /** The lists `getIngredientes` and `getCondimentos` hand out. */
    const ingredientes: Lista
    const condimentos: Lista

    /** The two lists are distinct objects, so appending to one never
        changes the other. */
    ghost predicate Valid()
    {
      ingredientes != condimentos
    }

    function Datos(): DatosPizza
      reads this, ingredientes, condimentos
    {
      DatosPizza(id, nombre, masa, salsa, queso, tipoOrilla, ingredientes.elementos, condimentos.elementos)
    }

    constructor ()
      ensures Valid() && fresh(ingredientes) && fresh(condimentos)
      ensures Datos() == PIZZA_VACIA
    {
      id := 0;
      nombre, masa, salsa, queso, tipoOrilla := None, None, None, None, None;
      ingredientes := new Lista();
      condimentos := new Lista();
    }

    method SetId(id: int)
      modifies this
      ensures Datos() == old(Datos()).(id := id)
    {
      this.id := id;
    }

    method SetNombre(nombre: Option<string>)
      modifies this
      ensures Datos() == old(Datos()).(nombre := nombre)
    {
      this.nombre := nombre;
    }

    method SetMasa(masa: Option<string>)
      modifies this
      ensures Datos() == old(Datos()).(masa := masa)
    {
      this.masa := masa;
    }

    method SetSalsa(salsa: Option<string>)
      modifies this
      ensures Datos() == old(Datos()).(salsa := salsa)
    {
      this.salsa := salsa;
    }

    method SetQueso(queso: Option<string>)
      modifies this
      ensures Datos() == old(Datos()).(queso := queso)
    {
      this.queso := queso;
    }

    method SetTipoOrilla(tipoOrilla: Option<string>)
      modifies this
      ensures Datos() == old(Datos()).(tipoOrilla := tipoOrilla)
    {
      this.tipoOrilla := tipoOrilla;
    }

    /** `getIngredientes().add(x)`: the list handed out is the pizza's
        own, so the pizza's toppings grow and its seasonings stay. */
    method AgregarIngrediente(x: string)
      requires Valid()
      modifies ingredientes
      ensures Datos() == old(Datos()).(ingredientes := old(Datos()).ingredientes + [x])
    {
      ingredientes.Agregar(x);
    }

    /** `getCondimentos().add(x)`. */
    method AgregarCondimento(x: string)
      requires Valid()
      modifies condimentos
      ensures Datos() == old(Datos()).(condimentos := old(Datos()).condimentos + [x])
    {
      condimentos.Agregar(x);
    }
  }
}
