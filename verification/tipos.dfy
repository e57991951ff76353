/** Small wrapper types shared by the whole model: Java's nullable
    references and the exceptions that a few helpers let escape. */
module Tipos {

  /** A nullable Java value: `None` stands for `null`. */
  datatype Option<+T> = None | Some(value: T)

  /** The outcome of a Java call that may throw: `Excepcion` names the
      exception class that escapes to the caller. */
  datatype Resultado<+T> = Ok(valor: T) | Excepcion(nombre: string)

  /** `f` applied to every element of `xs`, the results joined in order. */
  function Concatenar<T, U>(f: T -> seq<U>, xs: seq<T>): seq<U>
    decreases |xs|
  {
    if xs == [] then [] else Concatenar(f, xs[..|xs| - 1]) + f(xs[|xs| - 1])
  }

  /** The elements are mapped independently: mapping a concatenation maps
      each part. */
  lemma {:induction false} ConcatenarConcat<T, U>(f: T -> seq<U>, a: seq<T>, b: seq<T>)
    ensures Concatenar(f, a + b) == Concatenar(f, a) + Concatenar(f, b)
    decreases |b|
  {
    if b == [] {
      assert a + b == a;
    } else {
      var b' := b[..|b| - 1];
      assert (a + b)[..|a + b| - 1] == a + b';
      ConcatenarConcat(f, a, b');
    }
  }

  /** When no element maps to more than one result, there are no more
      results than elements. */
  lemma {:induction false} ConcatenarAcotado<T, U>(f: T -> seq<U>, xs: seq<T>)
    requires forall x :: |f(x)| <= 1
    ensures |Concatenar(f, xs)| <= |xs|
    decreases |xs|
  {
    if xs != [] {
      ConcatenarAcotado(f, xs[..|xs| - 1]);
    }
  }

  lemma Asociar<T>(a: seq<T>, b: seq<T>, c: seq<T>)
    ensures (a + b) + c == a + (b + c)
  {
  }

  lemma ConcatenarUno<T, U>(f: T -> seq<U>, x: T)
    ensures Concatenar(f, [x]) == f(x)
  {
    assert [x][..0] == [];
  }

  /** One more element: its results go at the end. */
  lemma ConcatenarPaso<T, U>(f: T -> seq<U>, xs: seq<T>, i: nat)
    requires i < |xs|
    ensures Concatenar(f, xs[..i + 1]) == Concatenar(f, xs[..i]) + f(xs[i])
  {
    assert xs[..i + 1][..i] == xs[..i];
  }

  /** A value comes out exactly when some element maps to it. */
  lemma {:induction false} ConcatenarMiembros<T, U>(f: T -> seq<U>, xs: seq<T>, y: U)
    ensures y in Concatenar(f, xs) <==> exists i :: 0 <= i < |xs| && y in f(xs[i])
    decreases |xs|
  {
    if xs != [] {
      var n := |xs| - 1;
      ConcatenarMiembros(f, xs[..n], y);
      assert forall i :: 0 <= i < n ==> xs[..n][i] == xs[i];
    }
  }
}
