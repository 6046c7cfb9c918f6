// Precedence of versions: the definition of section 11 of Semantic Versioning
// 2.0.0 on numbers, and the string comparison that stands in for it.
module SemVerOrder {
  import opened Wrappers
  import opened SemVerGrammar

  // --- Precedence, section 11 ----------------------------------------------

  function Sign(a: int, b: int): int {
    if a < b then -1 else if a > b then 1 else 0
  }

  function DigitValue(c: char): nat
    requires Digit(c)
  {
    c as int - '0' as int
  }

  function Value(s: string): nat
    requires AllDigits(s)
  {
    if s == "" then 0 else 10 * Value(s[..|s| - 1]) + DigitValue(s[|s| - 1])
  }

  // ASCII order.
  function Lex(a: string, b: string): int {
    if a == "" && b == "" then 0
    else if a == "" then -1
    else if b == "" then 1
    else if a[0] != b[0] then Sign(a[0] as int, b[0] as int)
    else Lex(a[1..], b[1..])
  }

  // Numbers compare as numbers, others in ASCII order, and numbers come first.
  function IdentPrecedence(a: string, b: string): int {
    if AllDigits(a) && AllDigits(b) then Sign(Value(a), Value(b))
    else if AllDigits(a) then -1
    else if AllDigits(b) then 1
    else Lex(a, b)
  }

  // The first difference decides; a longer list is higher.
  function ListPrecedence(a: seq<string>, b: seq<string>): int {
    if a == [] && b == [] then 0
    else if a == [] then -1
    else if b == [] then 1
    else if IdentPrecedence(a[0], b[0]) != 0 then IdentPrecedence(a[0], b[0])
    else ListPrecedence(a[1..], b[1..])
  }

  // Build metadata does not count; a version without prerelease is higher.
  function Precedence(a: Version, b: Version): int {
    if ListPrecedence(a.core, b.core) != 0 then ListPrecedence(a.core, b.core)
    else
      match (a.pre, b.pre)
      case (None, None) => 0
      case (None, Some(_)) => 1
      case (Some(_), None) => -1
      case (Some(p), Some(q)) => ListPrecedence(p, q)
  }

  // --- Length, then ASCII order, is numeric order --------------------------

  function Decimal(a: string, b: string): int {
    if |a| != |b| then Sign(|a|, |b|) else Lex(a, b)
  }

  function Pow10(n: nat): nat {
    if n == 0 then 1 else 10 * Pow10(n - 1)
  }

  lemma {:induction false} Pow10Grows(m: nat, n: nat)
    requires m <= n
    ensures 1 <= Pow10(m) <= Pow10(n)
  {
    if m < n {
      Pow10Grows(m, n - 1);
    } else if n > 0 {
      Pow10Grows(n - 1, n - 1);
    }
  }

  lemma {:induction false} ValueBounds(s: string)
    requires AllDigits(s)
    ensures Value(s) < Pow10(|s|)
    ensures s != "" && s[0] != '0' ==> Pow10(|s| - 1) <= Value(s)
    decreases |s|
  {
    if s != "" {
      ValueBounds(s[..|s| - 1]);
      assert Digit(s[|s| - 1]);
    }
  }

  lemma {:induction false} LexByLastDigit(a: string, b: string, x: char, y: char)
    requires |a| == |b|
    ensures Lex(a + [x], b + [y]) == if Lex(a, b) != 0 then Lex(a, b) else Sign(x as int, y as int)
  {
    if a == "" {
      assert a + [x] == [x] && b + [y] == [y] && [x][1..] == "" && [y][1..] == "";
    } else {
      assert (a + [x])[1..] == a[1..] + [x] && (b + [y])[1..] == b[1..] + [y];
      LexByLastDigit(a[1..], b[1..], x, y);
    }
  }

  lemma {:induction false} EqualLengthLexIsNumeric(a: string, b: string)
    requires AllDigits(a) && AllDigits(b) && |a| == |b|
    ensures Lex(a, b) == Sign(Value(a), Value(b))
    decreases |a|
  {
    if a != "" {
      var n := |a| - 1;
      EqualLengthLexIsNumeric(a[..n], b[..n]);
      assert Digit(a[n]) && Digit(b[n]);
      assert a == a[..n] + [a[n]] && b == b[..n] + [b[n]];
      LexByLastDigit(a[..n], b[..n], a[n], b[n]);
    }
  }

  lemma DecimalIsNumeric(a: string, b: string)
    requires NumericIdent(a) && NumericIdent(b)
    ensures Decimal(a, b) == Sign(Value(a), Value(b))
  {
    if |a| == |b| {
      EqualLengthLexIsNumeric(a, b);
    } else {
      ShorterIsSmaller(a, b);
      ShorterIsSmaller(b, a);
    }
  }

  lemma ShorterIsSmaller(a: string, b: string)
    requires NumericIdent(a) && NumericIdent(b)
    ensures |a| < |b| ==> Value(a) < Value(b)
  {
    if |a| < |b| {
      ValueBounds(a);
      ValueBounds(b);
      Pow10Grows(|a|, |b| - 1);
    }
  }

  // --- The comparison ------------------------------------------------------

  function FastIdent(a: string, b: string): int {
    if AllDigits(a) && AllDigits(b) then Decimal(a, b)
    else if AllDigits(a) != AllDigits(b) then (if AllDigits(a) then -1 else 1)
    else Lex(a, b)
  }

  lemma FastIdentIsPrecedence(a: string, b: string)
    requires PreIdent(a) && PreIdent(b)
    ensures FastIdent(a, b) == IdentPrecedence(a, b)
  {
    if AllDigits(a) && AllDigits(b) {
      DecimalIsNumeric(a, b);
    }
  }

  lemma {:induction false} EqualHeadsLeaveTails(a: seq<string>, b: seq<string>, i: nat)
    requires i <= |a| && i <= |b|
    requires forall j :: 0 <= j < i ==> IdentPrecedence(a[j], b[j]) == 0
    ensures ListPrecedence(a, b) == ListPrecedence(a[i..], b[i..])
    decreases i
  {
    if i == 0 {
      assert a[0..] == a && b[0..] == b;
    } else {
      EqualHeadsLeaveTails(a[1..], b[1..], i - 1);
      assert a[1..][i - 1..] == a[i..] && b[1..][i - 1..] == b[i..];
    }
  }

  datatype Comparison = Compared(order: int) | InvalidVersion

  // compare_versions: the result is the precedence of section 11, on every pair of
  // strings of the grammar, and an error on any other.
  method CompareVersions(a: string, b: string) returns (r: Comparison)
    ensures r.InvalidVersion? <==> Parse(a).None? || Parse(b).None?
    ensures r.Compared? ==> r.order == Precedence(Parse(a).value, Parse(b).value)
  {
    var left, right := Parse(a), Parse(b);
    if left.None? || right.None? {
      return InvalidVersion;
    }
    var ac, bc := left.value.core, right.value.core;
    for i := 0 to 3
      invariant forall j :: 0 <= j < i ==> IdentPrecedence(ac[j], bc[j]) == 0
    {
      DecimalIsNumeric(ac[i], bc[i]);
      var result := Decimal(ac[i], bc[i]);
      if result != 0 {
        EqualHeadsLeaveTails(ac, bc, i);
        return Compared(result);
      }
    }
    EqualHeadsLeaveTails(ac, bc, 3);
    if left.value.pre.None? || right.value.pre.None? {
      return Compared((if left.value.pre.None? then 1 else 0) - (if right.value.pre.None? then 1 else 0));
    }
    var order := CompareIdents(left.value.pre.value, right.value.pre.value);
    r := Compared(order);
  }

  method CompareIdents(ap: seq<string>, bp: seq<string>) returns (order: int)
    requires (forall s <- ap :: PreIdent(s)) && (forall s <- bp :: PreIdent(s))
    ensures order == ListPrecedence(ap, bp)
  {
    var i := 0;
    while i < |ap| && i < |bp|
      invariant i <= |ap| && i <= |bp|
      invariant forall j :: 0 <= j < i ==> IdentPrecedence(ap[j], bp[j]) == 0
    {
      FastIdentIsPrecedence(ap[i], bp[i]);
      var result := FastIdent(ap[i], bp[i]);
      if result != 0 {
        EqualHeadsLeaveTails(ap, bp, i);
        return result;
      }
      i := i + 1;
    }
    EqualHeadsLeaveTails(ap, bp, i);
    order := Sign(|ap|, |bp|);
  }

  // --- Precedence is a total preorder --------------------------------------

  lemma {:induction false} LexIsAntisymmetric(a: string, b: string)
    ensures Lex(a, b) == -Lex(b, a) && Lex(a, b) in {-1, 0, 1}
    ensures Lex(a, b) == 0 <==> a == b
    decreases |a|
  {
    if a != "" && b != "" && a[0] == b[0] {
      LexIsAntisymmetric(a[1..], b[1..]);
      assert a == [a[0]] + a[1..] && b == [b[0]] + b[1..];
    }
  }

  lemma {:induction false} LexIsTransitive(a: string, b: string, c: string)
    requires Lex(a, b) <= 0 && Lex(b, c) <= 0
    ensures Lex(a, c) <= 0
    ensures Lex(a, c) == 0 ==> Lex(a, b) == 0 && Lex(b, c) == 0
    decreases |a|
  {
    if a != "" && b != "" && c != "" && a[0] == b[0] == c[0] {
      LexIsTransitive(a[1..], b[1..], c[1..]);
    }
  }

  lemma IdentIsAntisymmetric(a: string, b: string)
    ensures IdentPrecedence(a, b) == -IdentPrecedence(b, a) && IdentPrecedence(a, b) in {-1, 0, 1}
  {
    LexIsAntisymmetric(a, b);
  }

  lemma IdentIsTransitive(a: string, b: string, c: string)
    requires IdentPrecedence(a, b) <= 0 && IdentPrecedence(b, c) <= 0
    ensures IdentPrecedence(a, c) <= 0
    ensures IdentPrecedence(a, c) == 0 ==> IdentPrecedence(a, b) == 0 && IdentPrecedence(b, c) == 0
  {
    if !AllDigits(a) && !AllDigits(b) && !AllDigits(c) {
      LexIsTransitive(a, b, c);
    }
  }

  // Identifiers of the grammar that compare equal are the same string.
  lemma EqualIdentsAreSame(a: string, b: string)
    requires PreIdent(a) && PreIdent(b)
    ensures IdentPrecedence(a, b) == 0 <==> a == b
  {
    LexIsAntisymmetric(a, b);
    if AllDigits(a) && AllDigits(b) {
      DecimalIsNumeric(a, b);
    }
  }

  lemma {:induction false} ListIsAntisymmetric(a: seq<string>, b: seq<string>)
    ensures ListPrecedence(a, b) == -ListPrecedence(b, a) && ListPrecedence(a, b) in {-1, 0, 1}
    decreases |a|
  {
    if a != [] && b != [] {
      IdentIsAntisymmetric(a[0], b[0]);
      ListIsAntisymmetric(a[1..], b[1..]);
    }
  }

  lemma {:induction false} ListIsTransitive(a: seq<string>, b: seq<string>, c: seq<string>)
    requires ListPrecedence(a, b) <= 0 && ListPrecedence(b, c) <= 0
    ensures ListPrecedence(a, c) <= 0
    ensures ListPrecedence(a, c) == 0 ==> ListPrecedence(a, b) == 0 && ListPrecedence(b, c) == 0
    decreases |a|
  {
    if a != [] && b != [] && c != [] {
      IdentIsAntisymmetric(a[0], b[0]);
      IdentIsAntisymmetric(b[0], c[0]);
      IdentIsTransitive(a[0], b[0], c[0]);
      if IdentPrecedence(a[0], b[0]) == 0 && IdentPrecedence(b[0], c[0]) == 0 {
        ListIsTransitive(a[1..], b[1..], c[1..]);
      }
    }
  }

  lemma {:induction false} EqualListsAreSame(a: seq<string>, b: seq<string>)
    requires (forall s <- a :: PreIdent(s)) && (forall s <- b :: PreIdent(s))
    ensures ListPrecedence(a, b) == 0 <==> a == b
    decreases |a|
  {
    if a != [] && b != [] {
      EqualIdentsAreSame(a[0], b[0]);
      EqualListsAreSame(a[1..], b[1..]);
      assert a == [a[0]] + a[1..] && b == [b[0]] + b[1..];
    }
  }

  lemma PrecedenceIsAntisymmetric(a: Version, b: Version)
    ensures Precedence(a, b) == -Precedence(b, a) && Precedence(a, b) in {-1, 0, 1}
  {
    ListIsAntisymmetric(a.core, b.core);
    if a.pre.Some? && b.pre.Some? {
      ListIsAntisymmetric(a.pre.value, b.pre.value);
    }
  }

  lemma PrecedenceIsTransitive(a: Version, b: Version, c: Version)
    requires Precedence(a, b) <= 0 && Precedence(b, c) <= 0
    ensures Precedence(a, c) <= 0
    ensures Precedence(a, c) == 0 ==> Precedence(a, b) == 0 && Precedence(b, c) == 0
  {
    ListIsAntisymmetric(a.core, b.core);
    ListIsAntisymmetric(b.core, c.core);
    ListIsTransitive(a.core, b.core, c.core);
    if a.pre.Some? && b.pre.Some? && c.pre.Some? {
      ListIsAntisymmetric(a.pre.value, b.pre.value);
      ListIsAntisymmetric(b.pre.value, c.pre.value);
      if ListPrecedence(a.pre.value, b.pre.value) <= 0 && ListPrecedence(b.pre.value, c.pre.value) <= 0 {
        ListIsTransitive(a.pre.value, b.pre.value, c.pre.value);
      }
    }
  }

  // Zero exactly when the texts differ in their build metadata at most.
  lemma EqualPrecedenceMeansSameButBuild(a: string, b: string)
    requires Parse(a).Some? && Parse(b).Some?
    ensures Precedence(Parse(a).value, Parse(b).value) == 0
            <==> Render(Parse(a).value.(build := None)) == Render(Parse(b).value.(build := None))
  {
    var v, w := Parse(a).value.(build := None), Parse(b).value.(build := None);
    EqualListsAreSame(v.core, w.core);
    if v.pre.Some? && w.pre.Some? {
      EqualListsAreSame(v.pre.value, w.pre.value);
    }
    RenderedTextParses(v);
    RenderedTextParses(w);
  }

  // --- The example of section 11 -------------------------------------------

  function Release(major: string, pre: seq<string>): Version {
    Version([major, "0", "0"], if pre == [] then None else Some(pre), None)
  }

  // 1.0.0-alpha < 1.0.0-alpha.1 < 1.0.0-alpha.beta < 1.0.0-beta < 1.0.0-beta.2
  //   < 1.0.0-beta.11 < 1.0.0-rc.1 < 1.0.0 < 2.0.0
  lemma SectionElevenExample()
    ensures Precedence(Release("1", ["alpha"]), Release("1", ["alpha", "1"])) == -1
    ensures Precedence(Release("1", ["alpha", "1"]), Release("1", ["alpha", "beta"])) == -1
    ensures Precedence(Release("1", ["alpha", "beta"]), Release("1", ["beta"])) == -1
    ensures Precedence(Release("1", ["beta"]), Release("1", ["beta", "2"])) == -1
    ensures Precedence(Release("1", ["beta", "2"]), Release("1", ["beta", "11"])) == -1
    ensures Precedence(Release("1", ["beta", "11"]), Release("1", ["rc", "1"])) == -1
    ensures Precedence(Release("1", ["rc", "1"]), Release("1", [])) == -1
    ensures Precedence(Release("1", []), Release("2", [])) == -1
  {
    IdentifiersOfTheExample();
    EqualHeads("alpha", [], ["1"]);
    EqualHeads("alpha", ["1"], ["beta"]);
    EqualHeads("beta", [], ["2"]);
    EqualHeads("beta", ["2"], ["11"]);
    SameCore(["alpha"], ["alpha", "1"]);
    SameCore(["alpha", "1"], ["alpha", "beta"]);
    SameCore(["alpha", "beta"], ["beta"]);
    SameCore(["beta"], ["beta", "2"]);
    SameCore(["beta", "2"], ["beta", "11"]);
    SameCore(["beta", "11"], ["rc", "1"]);
    SameCore(["rc", "1"], []);
  }

  lemma EqualHeads(head: string, a: seq<string>, b: seq<string>)
    ensures ListPrecedence([head] + a, [head] + b) == ListPrecedence(a, b)
  {
    IdentIsAntisymmetric(head, head);
    assert ([head] + a)[1..] == a && ([head] + b)[1..] == b;
  }

  lemma SameCore(pre: seq<string>, other: seq<string>)
    ensures Precedence(Release("1", pre), Release("1", other))
         == if pre == [] then (if other == [] then 0 else 1)
            else if other == [] then -1 else ListPrecedence(pre, other)
  {
    EqualHeads("1", ["0", "0"], ["0", "0"]);
    EqualHeads("0", ["0"], ["0"]);
    EqualHeads("0", [], []);
    assert ["1", "0", "0"] == ["1"] + ["0", "0"] && ["0", "0"] == ["0"] + ["0"] && ["0"] == ["0"] + [];
  }

  lemma IdentifiersOfTheExample()
    ensures AllDigits("1") && AllDigits("2") && AllDigits("11")
    ensures !AllDigits("alpha") && !AllDigits("beta") && !AllDigits("rc")
    ensures IdentPrecedence("1", "beta") == -1 && IdentPrecedence("2", "11") == -1
    ensures IdentPrecedence("1", "2") == -1
    ensures IdentPrecedence("alpha", "beta") == IdentPrecedence("beta", "rc") == -1
  {
    assert "alpha"[0] in "alpha" && "beta"[0] in "beta" && "rc"[0] in "rc";
    DecimalIsNumeric("2", "11");
    DecimalIsNumeric("1", "2");
  }
}
