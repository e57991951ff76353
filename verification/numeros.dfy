/** Number text as the order code writes and reads it: `int` appended to a
    `StringBuilder`, `Integer.parseInt`, `String.format("%04d")`, and the
    order total written by `Double.toString` and read by
    `Double.parseDouble`. Totals are held in cents throughout the model. */
module Numeros {
  import opened Tipos

  const MIN_INT: int := -0x8000_0000
  const MAX_INT: int := 0x7FFF_FFFF

  /** The range of a Java `int`. */
  predicate EsInt32(n: int) {
    MIN_INT <= n <= MAX_INT
  }

  predicate EsDigito(c: char) {
    '0' <= c <= '9'
  }

  predicate SonDigitos(s: string) {
    forall i :: 0 <= i < |s| ==> EsDigito(s[i])
  }

  function Digito(d: nat): (c: char)
    requires d < 10
    ensures EsDigito(c)
  {
    ('0' as int + d) as char
  }

  function ValorDigito(c: char): nat
    requires EsDigito(c)
  {
    c as int - '0' as int
  }

  /** Decimal digits of a natural number, most significant first. */
  function NatATexto(n: nat): (r: string)
    ensures |r| >= 1 && SonDigitos(r)
    decreases n
  {
    if n < 10 then [Digito(n)] else NatATexto(n / 10) + [Digito(n % 10)]
  }

  /** The value of a run of decimal digits (leading zeros allowed). */
  function ValorDigitos(s: string): nat
    requires SonDigitos(s)
    decreases |s|
  {
    if |s| == 0 then 0 else ValorDigitos(s[..|s| - 1]) * 10 + ValorDigito(s[|s| - 1])
  }

  lemma {:induction false} ValorNatATexto(n: nat)
    ensures ValorDigitos(NatATexto(n)) == n
    decreases n
  {
    if n >= 10 {
      var s := NatATexto(n);
      assert s[..|s| - 1] == NatATexto(n / 10);
      ValorNatATexto(n / 10);
    }
  }

  /** `StringBuilder.append(int)`: a minus sign for negatives, then the
      digits of the magnitude. */
  function IntATexto(n: int): string
  {
    if n < 0 then "-" + NatATexto(-n) else NatATexto(n)
  }

  /** `Integer.parseInt`: an optional `+` or `-`, then at least one ASCII
      digit, and a value inside the `int` range; `None` stands for the
      `NumberFormatException` every other text raises. */
  function ParseInt(s: string): (r: Option<int>)
    ensures r.Some? ==> EsInt32(r.value)
  {
    if |s| == 0 then None
    else
      var cuerpo := if s[0] == '-' || s[0] == '+' then s[1..] else s;
      if |cuerpo| == 0 || !SonDigitos(cuerpo) then None
      else
        var v: int := if s[0] == '-' then -(ValorDigitos(cuerpo) as int) else ValorDigitos(cuerpo);
        if EsInt32(v) then Some(v) else None
  }

  /** Reading back what `append(int)` wrote gives the same `int`. */
  lemma ParseIntATexto(n: int)
    requires EsInt32(n)
    ensures ParseInt(IntATexto(n)) == Some(n)
  {
    if n < 0 {
      assert ("-" + NatATexto(-n))[1..] == NatATexto(-n);
      ValorNatATexto(-n);
    } else {
      ValorNatATexto(n);
    }
  }

  // ---------------------------------------------------------------
  // %04d
  // ---------------------------------------------------------------

  function Ceros(k: nat): (r: string)
    ensures |r| == k && SonDigitos(r)
    ensures forall i :: 0 <= i < k ==> r[i] == '0'
  {
    if k == 0 then "" else "0" + Ceros(k - 1)
  }

  lemma {:induction false} ValorCeros(k: nat)
    ensures ValorDigitos(Ceros(k)) == 0
    decreases k
  {
    if k > 0 {
      assert Ceros(k)[..k - 1] == Ceros(k - 1);
      ValorCeros(k - 1);
    }
  }

  /** Leading zeros do not change the value of a digit run. */
  lemma {:induction false} ValorConCeros(k: nat, s: string)
    requires SonDigitos(s)
    ensures SonDigitos(Ceros(k) + s) && ValorDigitos(Ceros(k) + s) == ValorDigitos(s)
    decreases |s|
  {
    if |s| == 0 {
      assert Ceros(k) + s == Ceros(k);
      ValorCeros(k);
    } else {
      var t := Ceros(k) + s;
      assert t[..|t| - 1] == Ceros(k) + s[..|s| - 1];
      ValorConCeros(k, s[..|s| - 1]);
    }
  }

  function Rellenar(s: string, ancho: nat): (r: string)
  {
    if |s| < ancho then Ceros(ancho - |s|) + s else s
  }

  /** `String.format("%04d", n)`: at least four characters, zero padded
      after the sign, so -1 gives "-001" and 12345 gives "12345". */
  function Formato04(n: int): (r: string)
    ensures |r| >= 4
    ensures forall i :: 0 <= i < |r| ==> EsDigito(r[i]) || (i == 0 && r[i] == '-')
  {
    if n < 0 then "-" + Rellenar(NatATexto(-n), 3) else Rellenar(NatATexto(n), 4)
  }

  /** `Integer.parseInt` reads a `%04d` text back, padding and all. */
  lemma ParseIntFormato04(n: int)
    requires EsInt32(n)
    ensures ParseInt(Formato04(n)) == Some(n)
  {
    var m: nat := if n < 0 then -n else n;
    var ancho := if n < 0 then 3 else 4;
    var digitos := Rellenar(NatATexto(m), ancho);
    ValorNatATexto(m);
    if |NatATexto(m)| < ancho {
      ValorConCeros(ancho - |NatATexto(m)|, NatATexto(m));
    }
    assert ValorDigitos(digitos) == m;
    if n < 0 {
      assert ("-" + digitos)[1..] == digitos;
    }
  }

  // ---------------------------------------------------------------
  // Totals: Double.toString, Double.parseDouble and %.2f, on cents
  // ---------------------------------------------------------------

  /** The decimals of a total: one digit when the second is zero. */
  function Fraccion(f: nat): (r: string)
    requires f < 100
    ensures 1 <= |r| <= 2 && SonDigitos(r)
  {
    if f % 10 == 0 then [Digito(f / 10)] else [Digito(f / 10), Digito(f % 10)]
  }

  function CentavosATexto(c: nat): string
  {
    NatATexto(c / 100) + "." + Fraccion(c % 100)
  }

  /** `Double.toString` of a total held in cents, for totals below ten
      million: "130.0", "103.5", "0.05", "-2.25". */
  function TotalATexto(c: int): string
  {
    if c < 0 then "-" + CentavosATexto(-c) else CentavosATexto(c)
  }

  /** Index of the first '.', or the length when there is none. */
  function PosicionPunto(s: string): (k: nat)
    ensures k <= |s| && '.' !in s[..k] && (k < |s| ==> s[k] == '.')
  {
    if |s| == 0 || s[0] == '.' then 0 else 1 + PosicionPunto(s[1..])
  }

  /** `Double.parseDouble` on a plain decimal: an optional sign, digits,
      and an optional point followed by at most two digits (at least one
      digit overall). The result is in cents; `None` stands for the
      `NumberFormatException`. */
  function ParseTotal(s: string): Option<int>
  {
    var cuerpo := if |s| > 0 && (s[0] == '-' || s[0] == '+') then s[1..] else s;
    match ParseMagnitud(cuerpo)
    case None => None
    case Some(m) => Some(if |s| > 0 && s[0] == '-' then -(m as int) else m)
  }

  /** The unsigned part of `ParseTotal`, in cents. */
  function ParseMagnitud(cuerpo: string): Option<nat>
  {
    var k := PosicionPunto(cuerpo);
    var entero := cuerpo[..k];
    var fraccion := if k < |cuerpo| then cuerpo[k + 1..] else "";
    if !SonDigitos(entero) || !SonDigitos(fraccion) || |entero| + |fraccion| == 0 || |fraccion| > 2 then None
    else
      Some(ValorDigitos(entero) * 100
        + (if |fraccion| == 2 then ValorDigitos(fraccion) else ValorDigitos(fraccion) * 10))
  }

  lemma PosicionPuntoConcat(a: string, b: string)
    requires SonDigitos(a)
    ensures PosicionPunto(a + "." + b) == |a|
  {
    var s := a + "." + b;
    assert s[|a|] == '.';
    assert forall i :: 0 <= i < |a| ==> s[i] == a[i] && s[i] != '.';
  }

  lemma ValorFraccion(f: nat)
    requires f < 100
    ensures var r := Fraccion(f);
      (if |r| == 2 then ValorDigitos(r) else ValorDigitos(r) * 10) == f
  {
    var r := Fraccion(f);
    if |r| == 2 {
      assert r[..1][..0] == [];
      assert ValorDigitos(r[..1]) == ValorDigito(r[0]);
    } else {
      assert r[..0] == [];
    }
  }

  lemma ParseCentavos(c: nat)
    ensures ParseMagnitud(CentavosATexto(c)) == Some(c)
    ensures CentavosATexto(c)[0] != '-' && CentavosATexto(c)[0] != '+'
  {
    var a := NatATexto(c / 100);
    var b := Fraccion(c % 100);
    var s := a + "." + b;
    PosicionPuntoConcat(a, b);
    assert s[..|a|] == a && s[|a| + 1..] == b;
    ValorNatATexto(c / 100);
    ValorFraccion(c % 100);
  }

  /** Reading back what `Double.toString` wrote gives the same total. */
  lemma ParseTotalATexto(c: int)
    ensures ParseTotal(TotalATexto(c)) == Some(c)
  {
    var m: nat := if c < 0 then -c else c;
    ParseCentavos(m);
    ParseTotalSigno(CentavosATexto(m), m);
  }

  /** A sign in front of an unsigned amount is read as its sign. */
  lemma ParseTotalSigno(x: string, m: nat)
    requires x != "" && x[0] != '-' && x[0] != '+'
    requires ParseMagnitud(x) == Some(m)
    ensures ParseTotal(x) == Some(m) && ParseTotal("-" + x) == Some(-(m as int))
  {
    assert ("-" + x)[0] == '-' && ("-" + x)[1..] == x;
  }

  /** `String.format("%.2f", total)` with the decimal point: exactly two
      decimals. */
  function TotalDosDecimales(c: int): string
  {
    var m: nat := if c < 0 then -c else c;
    (if c < 0 then "-" else "") + NatATexto(m / 100) + "." + [Digito(m % 100 / 10), Digito(m % 10)]
  }
}
