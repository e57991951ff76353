/** The few `java.lang.String` operations the order code relies on, with
    Java's own edge cases: `trim`, `isBlank`, ASCII case mapping,
    `equalsIgnoreCase`, `contains`, `startsWith`, `replace`, `String.join`
    and `split` with a one-character literal delimiter. */
module Texto {

  // ---------------------------------------------------------------
  // trim and isBlank
  // ---------------------------------------------------------------

  /** `String.trim` strips every character whose code is at most U+0020. */
  predicate Recortable(c: char) {
    c <= ' '
  }

  function QuitarIniciales(s: string): (r: string)
    ensures |r| <= |s| && r == s[|s| - |r|..]
    ensures r == "" || !Recortable(r[0])
  {
    if |s| > 0 && Recortable(s[0]) then QuitarIniciales(s[1..]) else s
  }

  function QuitarFinales(s: string): (r: string)
    ensures |r| <= |s| && r == s[..|r|]
    ensures r == "" || !Recortable(r[|r| - 1])
  {
    if |s| > 0 && Recortable(s[|s| - 1]) then QuitarFinales(s[..|s| - 1]) else s
  }

  /** `String.trim`: the text between the first and the last character
      above U+0020. */
  function Trim(s: string): (r: string)
    ensures |r| <= |s|
    ensures SinBordes(r)
  {
    var a := QuitarIniciales(s);
    var r := QuitarFinales(a);
    assert r != "" ==> r[0] == a[0];
    r
  }

  /** A text that `trim` leaves as it is: empty, or both ends above
      U+0020. */
  predicate SinBordes(s: string) {
    s == "" || (!Recortable(s[0]) && !Recortable(s[|s| - 1]))
  }

  /** A text whose ends are already above U+0020 is left as it is. */
  lemma TrimSinBordes(s: string)
    requires SinBordes(s)
    ensures Trim(s) == s
  {
  }

  /** Trimming twice trims no more than trimming once. */
  lemma TrimIdempotente(s: string)
    ensures Trim(Trim(s)) == Trim(s)
  {
    TrimSinBordes(Trim(s));
  }

  /** `Character.isWhitespace`, which `String.isBlank` uses: the ASCII
      controls TAB..CR and FS..US, the space, and the Unicode space,
      line and paragraph separators other than the no-break spaces. */
  predicate EsEspacioJava(c: char) {
    var n := c as int;
    (9 <= n <= 13) || (28 <= n <= 32) || n == 0x1680
    || (0x2000 <= n <= 0x2006) || (0x2008 <= n <= 0x200A)
    || n == 0x2028 || n == 0x2029 || n == 0x205F || n == 0x3000
  }

  /** `String.isBlank`: empty, or only whitespace. Note that it is not
      `trim().isEmpty()`: U+0001 is not blank but trims away. */
  predicate IsBlank(s: string) {
    forall i :: 0 <= i < |s| ==> EsEspacioJava(s[i])
  }

  // ---------------------------------------------------------------
  // Case mapping (ASCII only)
  // ---------------------------------------------------------------

  function MayusculaAscii(c: char): char {
    if 'a' <= c <= 'z' then (c as int - 32) as char else c
  }

  function MinusculaAscii(c: char): char {
    if 'A' <= c <= 'Z' then (c as int + 32) as char else c
  }

  /** `String.toUpperCase`, restricted to the ASCII letters. */
  function Mayusculas(s: string): (r: string)
    ensures |r| == |s|
  {
    seq(|s|, i requires 0 <= i < |s| => MayusculaAscii(s[i]))
  }

  /** `String.toLowerCase`, restricted to the ASCII letters. */
  function Minusculas(s: string): (r: string)
    ensures |r| == |s|
  {
    seq(|s|, i requires 0 <= i < |s| => MinusculaAscii(s[i]))
  }

  /** `String.equalsIgnoreCase` on ASCII text. */
  predicate EqualsIgnoreCase(a: string, b: string) {
    Mayusculas(a) == Mayusculas(b)
  }

  predicate SinMinusculas(s: string) {
    forall i :: 0 <= i < |s| ==> !('a' <= s[i] <= 'z')
  }

  /** Upper-casing text that has no lower-case letter changes nothing. */
  lemma MayusculasIdentidad(s: string)
    requires SinMinusculas(s)
    ensures Mayusculas(s) == s
  {
  }

  lemma MayusculasConcat(a: string, b: string)
    ensures Mayusculas(a + b) == Mayusculas(a) + Mayusculas(b)
  {
  }

  /** Lower-casing forgets any earlier upper-casing. */
  lemma MinusculasDeMayusculas(s: string)
    ensures Minusculas(Mayusculas(s)) == Minusculas(s)
  {
  }

  /** Neither case mapping touches the characters `trim` removes, so
      both commute with it. */
  lemma TrimMinusculas(s: string)
    ensures Trim(Minusculas(s)) == Minusculas(Trim(s))
  {
    TrimMinusculasInicio(s);
    TrimMinusculasFin(QuitarIniciales(s));
  }

  lemma {:induction false} TrimMinusculasInicio(s: string)
    ensures QuitarIniciales(Minusculas(s)) == Minusculas(QuitarIniciales(s))
    decreases |s|
  {
    if |s| > 0 {
      assert Minusculas(s)[0] == MinusculaAscii(s[0]);
      if Recortable(s[0]) {
        assert Minusculas(s)[1..] == Minusculas(s[1..]);
        TrimMinusculasInicio(s[1..]);
      }
    }
  }

  lemma {:induction false} TrimMinusculasFin(s: string)
    ensures QuitarFinales(Minusculas(s)) == Minusculas(QuitarFinales(s))
    decreases |s|
  {
    if |s| > 0 {
      assert Minusculas(s)[|s| - 1] == MinusculaAscii(s[|s| - 1]);
      if Recortable(s[|s| - 1]) {
        assert Minusculas(s)[..|s| - 1] == Minusculas(s[..|s| - 1]);
        TrimMinusculasFin(s[..|s| - 1]);
      }
    }
  }

  // ---------------------------------------------------------------
  // contains, replace
  // ---------------------------------------------------------------

  /** `String.contains`. */
  predicate Contiene(s: string, t: string) {
    exists i :: 0 <= i <= |s| && t <= s[i..]
  }

  /** `String.replace(target, replacement)`: every occurrence of `pat`,
      scanning from the left and without overlaps, is replaced by `rep`. */
  function ReemplazarTodo(s: string, pat: string, rep: string): string
    requires |pat| > 0
    decreases |s|
  {
    if |s| == 0 then ""
    else if pat <= s then rep + ReemplazarTodo(s[|pat|..], pat, rep)
    else [s[0]] + ReemplazarTodo(s[1..], pat, rep)
  }

  lemma ReemplazarPrefijo(pat: string, rep: string, t: string)
    requires |pat| > 0
    ensures ReemplazarTodo(pat + t, pat, rep) == rep + ReemplazarTodo(t, pat, rep)
  {
    assert (pat + t)[|pat|..] == t;
  }

  /** Text that cannot start an occurrence of `pat` passes through unchanged. */
  lemma {:induction false} ReemplazarSinInicio(a: string, t: string, pat: string, rep: string)
    requires |pat| > 0 && pat[0] !in a
    ensures ReemplazarTodo(a + t, pat, rep) == a + ReemplazarTodo(t, pat, rep)
    decreases |a|
  {
    if |a| > 0 {
      assert (a + t)[0] == a[0];
      assert !(pat <= a + t);
      assert (a + t)[1..] == a[1..] + t;
      ReemplazarSinInicio(a[1..], t, pat, rep);
      assert a == [a[0]] + a[1..];
    } else {
      assert a + t == t;
    }
  }

  // ---------------------------------------------------------------
  // String.join and String.split
  // ---------------------------------------------------------------

  /** `String.join` with a one-character separator. */
  function Unir(sep: char, xs: seq<string>): string
  {
    if |xs| == 0 then ""
    else if |xs| == 1 then xs[0]
    else xs[0] + [sep] + Unir(sep, xs[1..])
  }

  /** Joining one more item appends the separator and the item. */
  lemma {:induction false} UnirAgregar(sep: char, xs: seq<string>, x: string)
    requires xs != []
    ensures Unir(sep, xs + [x]) == Unir(sep, xs) + [sep] + x
    decreases |xs|
  {
    if |xs| > 1 {
      assert (xs + [x])[1..] == xs[1..] + [x];
      UnirAgregar(sep, xs[1..], x);
    } else {
      assert (xs + [x])[1..] == [x];
    }
  }

  /** All the pieces of `s` between occurrences of `d`, empty ones included. */
  function Partir(s: string, d: char): (r: seq<string>)
    ensures |r| >= 1
  {
    if |s| == 0 then [""]
    else
      var resto := Partir(s[1..], d);
      if s[0] == d then [""] + resto else [[s[0]] + resto[0]] + resto[1..]
  }

  /** What `split` does after cutting: trailing empty strings are dropped. */
  function QuitarVaciosFinales(xs: seq<string>): (r: seq<string>)
    ensures |r| <= |xs| && r == xs[..|r|]
    ensures r == [] || r[|r| - 1] != ""
  {
    if |xs| > 0 && xs[|xs| - 1] == "" then QuitarVaciosFinales(xs[..|xs| - 1]) else xs
  }

  /** `String.split` with a literal one-character delimiter and no limit:
      text without the delimiter comes back whole (so `""` gives `[""]`),
      otherwise the pieces without the trailing empty ones. */
  function Split(s: string, d: char): seq<string>
  {
    if d !in s then [s] else QuitarVaciosFinales(Partir(s, d))
  }

  /** The text before the first `d`, or all of it. */
  function AntesDe(s: string, d: char): (r: string)
    ensures d !in r
  {
    if |s| == 0 || s[0] == d then "" else [s[0]] + AntesDe(s[1..], d)
  }

  lemma {:induction false} PartirSinSeparador(x: string, d: char)
    requires d !in x
    ensures Partir(x, d) == [x]
    decreases |x|
  {
    if |x| > 0 {
      PartirSinSeparador(x[1..], d);
      assert [x[0]] + x[1..] == x;
    }
  }

  lemma {:induction false} PartirConcat(x: string, t: string, d: char)
    requires d !in x
    ensures Partir(x + [d] + t, d) == [x] + Partir(t, d)
    decreases |x|
  {
    var s := x + [d] + t;
    if |x| == 0 {
      assert s[0] == d && s[1..] == t;
    } else {
      assert s[0] == x[0] && s[1..] == x[1..] + [d] + t;
      PartirConcat(x[1..], t, d);
      assert [x[0]] + x[1..] == x;
    }
  }

  /** Cutting a join at its separator gives the joined pieces back. */
  lemma {:induction false} PartirUnir(xs: seq<string>, d: char)
    requires |xs| >= 1
    requires forall i :: 0 <= i < |xs| ==> d !in xs[i]
    ensures Partir(Unir(d, xs), d) == xs
    decreases |xs|
  {
    if |xs| == 1 {
      PartirSinSeparador(xs[0], d);
    } else {
      PartirUnir(xs[1..], d);
      PartirConcat(xs[0], Unir(d, xs[1..]), d);
    }
  }

  lemma SeparadorEnUnir(xs: seq<string>, d: char)
    requires |xs| >= 2
    ensures d in Unir(d, xs)
  {
    assert Unir(d, xs)[|xs[0]|] == d;
  }

  /** Joined pieces without the delimiter split into no more pieces than
      were joined. */
  lemma SplitUnirAcotado(xs: seq<string>, d: char)
    requires |xs| >= 1
    requires forall i :: 0 <= i < |xs| ==> d !in xs[i]
    ensures |Split(Unir(d, xs), d)| <= |xs|
  {
    PartirUnir(xs, d);
  }

  /** `split` undoes `String.join` when no piece holds the delimiter and
      the last piece is not empty. */
  lemma SplitUnir(xs: seq<string>, d: char)
    requires |xs| >= 1 && xs[|xs| - 1] != ""
    requires forall i :: 0 <= i < |xs| ==> d !in xs[i]
    ensures Split(Unir(d, xs), d) == xs
  {
    if |xs| == 1 {
      assert Unir(d, xs) == xs[0];
    } else {
      var u := Unir(d, xs);
      assert d in u by { SeparadorEnUnir(xs, d); }
      assert Partir(u, d) == xs by { PartirUnir(xs, d); }
      assert QuitarVaciosFinales(xs) == xs;
    }
  }

  /** Dropping trailing empties keeps every piece up to a non-empty one. */
  lemma {:induction false} QuitarVaciosConserva(xs: seq<string>, i: nat, j: nat)
    requires i <= j < |xs| && xs[j] != ""
    ensures i < |QuitarVaciosFinales(xs)| && QuitarVaciosFinales(xs)[i] == xs[i]
    decreases |xs|
  {
    if xs[|xs| - 1] == "" {
      QuitarVaciosConserva(xs[..|xs| - 1], i, j);
    }
  }

  lemma {:induction false} PartirPrimero(s: string, d: char)
    ensures Partir(s, d)[0] == AntesDe(s, d)
    decreases |s|
  {
    if |s| > 0 {
      PartirPrimero(s[1..], d);
    }
  }

  lemma {:induction false} AntesDeConcat(a: string, t: string, d: char)
    requires d !in a
    ensures AntesDe(a + t, d) == a + AntesDe(t, d)
    decreases |a|
  {
    if |a| > 0 {
      assert (a + t)[0] == a[0] && (a + t)[1..] == a[1..] + t;
      AntesDeConcat(a[1..], t, d);
      assert a == [a[0]] + a[1..];
    } else {
      assert a + t == t;
    }
  }

  /** The second piece of `split` is the text between the first and the
      second delimiter, as long as that text is not empty. */
  lemma SplitSegundo(a: string, t: string, d: char)
    requires d !in a && AntesDe(t, d) != ""
    ensures |Split(a + [d] + t, d)| >= 2
    ensures Split(a + [d] + t, d)[1] == AntesDe(t, d)
  {
    var s := a + [d] + t;
    assert s[|a|] == d;
    PartirConcat(a, t, d);
    PartirPrimero(t, d);
    QuitarVaciosConserva(Partir(s, d), 1, 1);
  }

  /** A text ending in its only delimiter splits into the text before it. */
  lemma SplitSeparadorFinal(a: string, d: char)
    requires d !in a && a != ""
    ensures Split(a + [d], d) == [a]
  {
    assert (a + [d])[|a|] == d;
    PartirConcat(a, "", d);
    assert a + [d] + "" == a + [d];
    assert QuitarVaciosFinales([a, ""]) == QuitarVaciosFinales([a]);
  }

  /** The first piece of `split` is the text before the first delimiter,
      as long as that text is not empty. */
  lemma SplitPrimero(s: string, d: char)
    requires AntesDe(s, d) != ""
    ensures |Split(s, d)| >= 1 && Split(s, d)[0] == AntesDe(s, d)
  {
    PartirPrimero(s, d);
    if d !in s {
      PartirSinSeparador(s, d);
    } else {
      QuitarVaciosConserva(Partir(s, d), 0, 0);
    }
  }

  /** A character other than the separator that no piece holds is not in
      the join either. */
  lemma {:induction false} UnirSinCaracter(xs: seq<string>, d: char, c: char)
    requires c != d
    requires forall i :: 0 <= i < |xs| ==> c !in xs[i]
    ensures c !in Unir(d, xs)
    decreases |xs|
  {
    if |xs| >= 2 {
      UnirSinCaracter(xs[1..], d, c);
    }
  }

  /** A join starts with the first piece and ends with the last one. */
  lemma {:induction false} UnirBordes(xs: seq<string>, d: char)
    requires |xs| >= 1
    ensures |Unir(d, xs)| >= |xs[0]| && Unir(d, xs)[..|xs[0]|] == xs[0]
    ensures |Unir(d, xs)| >= |xs[|xs| - 1]|
    ensures Unir(d, xs)[|Unir(d, xs)| - |xs[|xs| - 1]|..] == xs[|xs| - 1]
    decreases |xs|
  {
    if |xs| >= 2 {
      UnirBordes(xs[1..], d);
      var u := Unir(d, xs[1..]);
      assert Unir(d, xs) == xs[0] + [d] + u;
      assert (xs[0] + [d] + u)[|xs[0] + [d] + u| - |xs[|xs| - 1]|..] == u[|u| - |xs[|xs| - 1]|..];
    }
  }

  // ---------------------------------------------------------------
  // BufferedWriter.newLine and BufferedReader.readLine
  // ---------------------------------------------------------------

  /** A text made only of the delimiter cuts into empty pieces. */
  lemma {:induction false} PartirSoloDelimitador(s: string, d: char)
    requires forall i :: 0 <= i < |s| ==> s[i] == d
    ensures forall i :: 0 <= i < |Partir(s, d)| ==> Partir(s, d)[i] == ""
    decreases |s|
  {
    if |s| > 0 {
      PartirSoloDelimitador(s[1..], d);
    }
  }

  /** `split` of a non-empty text made only of the delimiter gives no
      pieces at all. */
  lemma SplitSoloDelimitador(s: string, d: char)
    requires s != "" && forall i :: 0 <= i < |s| ==> s[i] == d
    ensures Split(s, d) == []
  {
    assert s[0] == d;
    PartirSoloDelimitador(s, d);
  }

  /** A character other than the delimiter leaves a non-empty piece. */
  lemma {:induction false} PartirConLetra(s: string, d: char, i: nat) returns (j: nat)
    requires i < |s| && s[i] != d
    ensures j < |Partir(s, d)| && Partir(s, d)[j] != ""
    decreases |s|
  {
    if i == 0 {
      j := 0;
    } else {
      var k := PartirConLetra(s[1..], d, i - 1);
      j := if s[0] == d then k + 1 else k;
    }
  }

  /** `split` of a text that starts with the delimiter and holds some
      other character: the first piece is empty. */
  lemma SplitEmpiezaConDelimitador(s: string, d: char, i: nat)
    requires 0 < i < |s| && s[0] == d && s[i] != d
    ensures |Split(s, d)| >= 1 && Split(s, d)[0] == ""
  {
    var xs := Partir(s, d);
    var j := PartirConLetra(s, d, i);
    QuitarVaciosConserva(xs, 0, j);
  }

  /** A character that ends a line for `readLine`. */
  predicate EsSalto(c: char) {
    c == '\n' || c == '\r'
  }

  predicate SinSaltos(s: string) {
    '\n' !in s && '\r' !in s
  }

  /** Where the first line of `c` ends: at its first `\n` or `\r`, or at
      its end. */
  function FinDeRenglon(c: string): (k: nat)
    ensures k <= |c|
    ensures k < |c| ==> EsSalto(c[k])
    ensures SinSaltos(c[..k])
  {
    if c == "" || EsSalto(c[0]) then 0
    else
      var k := 1 + FinDeRenglon(c[1..]);
      assert c[..k] == [c[0]] + c[1..][..k - 1];
      k
  }

  /** `readLine` called until it returns null: the text between line
      terminators, where `\r\n` is one terminator and the last line needs
      none. */
  function Renglones(c: string): seq<string>
    decreases |c|
  {
    if c == "" then []
    else
      var k := FinDeRenglon(c);
      var siguiente :=
        if k == |c| then k
        else if c[k] == '\r' && k + 1 < |c| && c[k + 1] == '\n' then k + 2
        else k + 1;
      [c[..k]] + Renglones(c[siguiente..])
  }

  /** The lines `readLine` gives back for one text written with `write`
      and `newLine`. */
  function Escrita(s: string): seq<string>
  {
    Renglones(s + "\n")
  }

  lemma {:induction false} FinDeRenglonConcat(a: string, t: string)
    requires SinSaltos(a) && t != "" && EsSalto(t[0])
    ensures FinDeRenglon(a + t) == |a|
    decreases |a|
  {
    if a == "" {
      assert a + t == t;
    } else {
      assert (a + t)[0] == a[0];
      assert (a + t)[1..] == a[1..] + t;
      FinDeRenglonConcat(a[1..], t);
    }
  }

  /** A line without breaks ended by `\n` is read as that line, and
      reading goes on after the `\n`. */
  lemma RenglonesTrasSalto(a: string, t: string)
    requires SinSaltos(a) && t != "" && t[0] == '\n'
    ensures Renglones(a + t) == [a] + Renglones(t[1..])
  {
    var c := a + t;
    FinDeRenglonConcat(a, t);
    assert c[..|a|] == a;
    assert c[|a|] == '\n';
    assert c[|a| + 1..] == t[1..];
  }

  /** A text without line breaks is read back as the one line written. */
  lemma EscritaSinSaltos(s: string)
    requires SinSaltos(s)
    ensures Escrita(s) == [s]
  {
    RenglonesTrasSalto(s, "\n");
    assert "\n"[1..] == "";
  }

  /** A text with one line break inside is read back as two lines. */
  lemma EscritaConSalto(a: string, b: string)
    requires SinSaltos(a) && SinSaltos(b)
    ensures Escrita(a + "\n" + b) == [a, b]
  {
    var t := "\n" + (b + "\n");
    SaltoEnMedio(a, b);
    RenglonesTrasSalto(a, t);
    EscritaSinSaltos(b);
  }

  lemma SaltoEnMedio(a: string, b: string)
    ensures var t := "\n" + (b + "\n");
      a + "\n" + b + "\n" == a + t && t[1..] == b + "\n"
  {
  }
}
