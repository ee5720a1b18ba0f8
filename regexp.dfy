/** The fragment of JavaScript regular expressions (no flags) that the
    schemas and routes use, with the meaning of `RegExp.prototype.test`.

    `Matches(r, u, i, j)` says that `r` can match the code units
    `u[i..j]`. Sets of possible matches are what `test` asks about (it only
    wants to know whether some match exists), so backtracking order,
    greediness and the atomicity of lookaheads do not arise. */
module RegExp {
  import opened Js

  /** One member of a character class `[...]`. */
  datatype Item =
    | Units(cs: JsString)            // literal characters, e.g. `@$!%*?&`
    | Span(lo: CodeUnit, hi: CodeUnit)   // a range, e.g. `a-z`
    | DigitEscape                    // `\d`
    | SpaceEscape                    // `\s`

  datatype Regex =
    | Empty                          // matches the empty string
    | Class(items: seq<Item>, negated: bool)   // `[...]`, `[^...]`, `\s`, `\S`, a literal char
    | Dot                            // `.`
    | Cat(a: Regex, b: Regex)        // concatenation
    | Alt(a: Regex, b: Regex)        // `a|b`
    | Star(r: Regex)                 // `r*`
    | Ahead(r: Regex)                // `(?=r)`
    | Begin                          // `^`
    | End                            // `$`

  predicate ItemAdmits(it: Item, x: CodeUnit)
  {
    match it
    case Units(cs) => x in cs
    case Span(lo, hi) => lo <= x <= hi
    case DigitEscape => IsAsciiDigit(x)
    case SpaceEscape => IsWhitespace(x)
  }

  predicate ClassAdmits(items: seq<Item>, x: CodeUnit)
  {
    exists k :: 0 <= k < |items| && ItemAdmits(items[k], x)
  }

  /** Regexes that always consume exactly one code unit. */
  predicate IsUnit(r: Regex) { r.Class? || r.Dot? }

  predicate Admits(r: Regex, x: CodeUnit)
    requires IsUnit(r)
  {
    if r.Dot? then !IsLineTerminator(x) else ClassAdmits(r.items, x) != r.negated
  }

  ghost predicate Matches(r: Regex, u: JsString, i: int, j: int)
    requires 0 <= i <= j <= |u|
    decreases r, j - i
  {
    match r
    case Empty => i == j
    case Class(_, _) => j == i + 1 && Admits(r, u[i])
    case Dot => j == i + 1 && Admits(r, u[i])
    case Cat(a, b) => exists k :: i <= k <= j && Matches(a, u, i, k) && Matches(b, u, k, j)
    case Alt(a, b) => Matches(a, u, i, j) || Matches(b, u, i, j)
    case Star(a) => i == j || exists k :: i < k <= j && Matches(a, u, i, k) && Matches(r, u, k, j)
    case Ahead(a) => i == j && exists k :: i <= k <= |u| && Matches(a, u, i, k)
    case Begin => i == j == 0
    case End => i == j == |u|
  }

  /** `r.test(u)` for a regex without the `g` or `y` flag: a match starts
      somewhere and ends somewhere. */
  ghost predicate Test(r: Regex, u: JsString)
  {
    exists i, j :: 0 <= i <= j <= |u| && Matches(r, u, i, j)
  }

  // ----- building patterns as they are written -----

  /** A single literal character. */
  function Char(c: char): Regex { Class([Units(U([c]))], false) }

  /** `\S` */
  function NonSpace(): Regex { Class([SpaceEscape], true) }

  /** `\s` */
  function Space(): Regex { Class([SpaceEscape], false) }

  /** `r+` */
  function Plus(r: Regex): Regex { Cat(r, Star(r)) }

  /** `r{n,}` */
  function AtLeast(r: Regex, n: nat): Regex
  {
    if n == 0 then Star(r) else Cat(r, AtLeast(r, n - 1))
  }

  /** A literal string such as `jpeg`. */
  function Lit(w: JsString): Regex
  {
    if w == [] then Empty else Cat(Class([Units([w[0]])], false), Lit(w[1..]))
  }

  /** `^r$` */
  function Anchored(r: Regex): Regex { Cat(Begin, Cat(r, End)) }

  /** `^c+(?:\sc+)*$`: words of `c` separated by single whitespace. */
  function WordsPattern(c: Regex): Regex
  {
    Anchored(Cat(Plus(c), Star(Cat(Space(), Plus(c)))))
  }

  // ----- what the building blocks match -----

  lemma {:induction false} StarUnit(c: Regex, u: JsString, i: int, j: int)
    requires IsUnit(c) && 0 <= i <= j <= |u|
    ensures Matches(Star(c), u, i, j) <==> forall k :: i <= k < j ==> Admits(c, u[k])
    decreases j - i
  {
    if i < j {
      if Matches(Star(c), u, i, j) {
        assert Matches(Star(c), u, i, j);
        var k :| i < k <= j && Matches(c, u, i, k) && Matches(Star(c), u, k, j);
        StarUnit(c, u, k, j);
      }
      if forall k :: i <= k < j ==> Admits(c, u[k]) {
        StarUnit(c, u, i + 1, j);
        assert Matches(c, u, i, i + 1);
      }
    }
  }

  lemma PlusUnit(c: Regex, u: JsString, i: int, j: int)
    requires IsUnit(c) && 0 <= i <= j <= |u|
    ensures Matches(Plus(c), u, i, j) <==> i < j && forall k :: i <= k < j ==> Admits(c, u[k])
  {
    if Matches(Plus(c), u, i, j) {
      assert Matches(Plus(c), u, i, j);
      var k :| i <= k <= j && Matches(c, u, i, k) && Matches(Star(c), u, k, j);
      StarUnit(c, u, k, j);
    }
    if i < j && forall k :: i <= k < j ==> Admits(c, u[k]) {
      StarUnit(c, u, i + 1, j);
      assert Matches(c, u, i, i + 1);
    }
  }

  /** A match of a concatenation splits into matches of its two parts. */
  lemma CatSplit(a: Regex, b: Regex, u: JsString, i: int, j: int) returns (k: int)
    requires 0 <= i <= j <= |u| && Matches(Cat(a, b), u, i, j)
    ensures i <= k <= j && Matches(a, u, i, k) && Matches(b, u, k, j)
  {
    k :| i <= k <= j && Matches(a, u, i, k) && Matches(b, u, k, j);
  }

  /** `c+` consumes at least one unit. */
  lemma PlusNonEmpty(c: Regex, u: JsString, i: int, j: int)
    requires IsUnit(c) && 0 <= i <= j <= |u| && Matches(Plus(c), u, i, j)
    ensures i < j
  {
    var k :| i <= k <= j && Matches(c, u, i, k) && Matches(Star(c), u, k, j);
  }

  lemma {:induction false} AtLeastUnit(c: Regex, n: nat, u: JsString, i: int, j: int)
    requires IsUnit(c) && 0 <= i <= j <= |u|
    ensures Matches(AtLeast(c, n), u, i, j) <==> j - i >= n && forall k :: i <= k < j ==> Admits(c, u[k])
    decreases n
  {
    if n == 0 {
      StarUnit(c, u, i, j);
    } else {
      if Matches(AtLeast(c, n), u, i, j) {
        assert Matches(AtLeast(c, n), u, i, j);
        var k :| i <= k <= j && Matches(c, u, i, k) && Matches(AtLeast(c, n - 1), u, k, j);
        AtLeastUnit(c, n - 1, u, k, j);
      }
      if j - i >= n && forall k :: i <= k < j ==> Admits(c, u[k]) {
        AtLeastUnit(c, n - 1, u, i + 1, j);
        assert Matches(c, u, i, i + 1);
      }
    }
  }

  lemma {:induction false} LitMatches(w: JsString, u: JsString, i: int, j: int)
    requires 0 <= i <= j <= |u|
    ensures Matches(Lit(w), u, i, j) <==> j == i + |w| && u[i..j] == w
    decreases |w|
  {
    if w != [] {
      var c := Class([Units([w[0]])], false);
      assert forall x :: Admits(c, x) <==> x == w[0] by {
        forall x ensures Admits(c, x) <==> x == w[0] {
          assert ItemAdmits(c.items[0], x) <==> x == w[0];
        }
      }
      if Matches(Lit(w), u, i, j) {
        assert Matches(Lit(w), u, i, j);
        var k :| i <= k <= j && Matches(c, u, i, k) && Matches(Lit(w[1..]), u, k, j);
        LitMatches(w[1..], u, k, j);
        assert u[i..j] == [u[i]] + u[k..j];
      }
      if j == i + |w| && u[i..j] == w {
        LitMatches(w[1..], u, i + 1, j);
        assert u[i + 1..j] == w[1..];
        assert u[i] == w[0];
        assert Matches(c, u, i, i + 1);
      }
    }
  }

  lemma LitTest(w: JsString, u: JsString)
    ensures Test(Lit(w), u) <==> Contains(u, w)
  {
    if Test(Lit(w), u) {
      var i, j :| 0 <= i <= j <= |u| && Matches(Lit(w), u, i, j);
      LitMatches(w, u, i, j);
      assert OccursAt(u, w, i);
    }
    if Contains(u, w) {
      var i :| 0 <= i <= |u| - |w| && OccursAt(u, w, i);
      LitMatches(w, u, i, i + |w|);
    }
  }

  lemma AnchoredTest(r: Regex, u: JsString)
    ensures Test(Anchored(r), u) <==> Matches(r, u, 0, |u|)
  {
    var inner := Cat(r, End);
    if Test(Anchored(r), u) {
      var i, j :| 0 <= i <= j <= |u| && Matches(Anchored(r), u, i, j);
      assert Matches(Anchored(r), u, i, j);
      var k :| i <= k <= j && Matches(Begin, u, i, k) && Matches(inner, u, k, j);
      assert Matches(inner, u, k, j);
      var m :| k <= m <= j && Matches(r, u, k, m) && Matches(End, u, m, j);
    }
    if Matches(r, u, 0, |u|) {
      assert Matches(End, u, |u|, |u|);
      assert Matches(inner, u, 0, |u|);
      assert Matches(Begin, u, 0, 0);
      assert Matches(Anchored(r), u, 0, |u|);
    }
  }

  /** `a|b` finds a match exactly where one of its branches does. */
  lemma AltTest(a: Regex, b: Regex, u: JsString)
    ensures Test(Alt(a, b), u) <==> Test(a, u) || Test(b, u)
  {
    if Test(Alt(a, b), u) {
      var i, j :| 0 <= i <= j <= |u| && Matches(Alt(a, b), u, i, j);
      if Matches(a, u, i, j) {
        assert Test(a, u);
      } else {
        assert Matches(b, u, i, j);
        assert Test(b, u);
      }
    }
    if Test(a, u) {
      var i, j :| 0 <= i <= j <= |u| && Matches(a, u, i, j);
      assert Matches(Alt(a, b), u, i, j);
    }
    if Test(b, u) {
      var i, j :| 0 <= i <= j <= |u| && Matches(b, u, i, j);
      assert Matches(Alt(a, b), u, i, j);
    }
  }

  /** A lookahead in front of a regex only adds a condition at its start. */
  lemma AheadCat(a: Regex, b: Regex, u: JsString, i: int, j: int)
    requires 0 <= i <= j <= |u|
    ensures Matches(Cat(Ahead(a), b), u, i, j) <==> Matches(Ahead(a), u, i, i) && Matches(b, u, i, j)
  {
    if Matches(Cat(Ahead(a), b), u, i, j) {
      assert Matches(Cat(Ahead(a), b), u, i, j);
      var k :| i <= k <= j && Matches(Ahead(a), u, i, k) && Matches(b, u, k, j);
    }
  }

  /** `(?=.*c)` at position `i`: a unit admitted by `c` occurs at or after
      `i`, with no line terminator in between. */
  lemma AheadFind(c: Regex, u: JsString, i: int)
    requires IsUnit(c) && 0 <= i <= |u|
    ensures Matches(Ahead(Cat(Star(Dot), c)), u, i, i) <==>
              exists k :: i <= k < |u| && Admits(c, u[k]) && forall m :: i <= m < k ==> !IsLineTerminator(u[m])
  {
    var body := Cat(Star(Dot), c);
    if Matches(Ahead(body), u, i, i) {
      assert Matches(Ahead(body), u, i, i);
      var e :| i <= e <= |u| && Matches(body, u, i, e);
      assert Matches(body, u, i, e);
      var k :| i <= k <= e && Matches(Star(Dot), u, i, k) && Matches(c, u, k, e);
      StarUnit(Dot, u, i, k);
    }
    if exists k :: i <= k < |u| && Admits(c, u[k]) && forall m :: i <= m < k ==> !IsLineTerminator(u[m]) {
      var k :| i <= k < |u| && Admits(c, u[k]) && forall m :: i <= m < k ==> !IsLineTerminator(u[m]);
      StarUnit(Dot, u, i, k);
      assert Matches(c, u, k, k + 1);
      assert Matches(body, u, i, k + 1);
    }
  }

  /** A singleton class admits what its one item admits. */
  lemma SingleItem(it: Item, negated: bool, x: CodeUnit)
    ensures Admits(Class([it], negated), x) <==> ItemAdmits(it, x) != negated
  {
    if ItemAdmits(it, x) {
      assert ItemAdmits([it][0], x);
    }
  }

  // ----- the words pattern -----

  /** `Words(p, u[i..j])`, stated on the indices of `u`. */
  ghost predicate WordsAt(p: CodeUnit -> bool, u: JsString, i: int, j: int)
    requires 0 <= i <= j <= |u|
  {
    && i < j
    && forall m {:trigger u[m]} :: i <= m < j ==>
         || p(u[m])
         || (i < m < j - 1 && IsWhitespace(u[m]) && p(u[m - 1]) && p(u[m + 1]))
  }

  lemma WordsSlice(p: CodeUnit -> bool, u: JsString, i: int, j: int)
    requires 0 <= i <= j <= |u|
    ensures Words(p, u[i..j]) <==> WordsAt(p, u, i, j)
  {
    var w := u[i..j];
    assert forall m :: 0 <= m < |w| ==> w[m] == u[i + m];
    if Words(p, w) {
      forall m | i <= m < j
        ensures p(u[m]) || (i < m < j - 1 && IsWhitespace(u[m]) && p(u[m - 1]) && p(u[m + 1]))
      {
        var n := m - i;
        assert p(w[n]) || (0 < n < |w| - 1 && IsWhitespace(w[n]) && p(w[n - 1]) && p(w[n + 1]));
      }
    }
    if WordsAt(p, u, i, j) {
      forall n | 0 <= n < |w|
        ensures p(w[n]) || (0 < n < |w| - 1 && IsWhitespace(w[n]) && p(w[n - 1]) && p(w[n + 1]))
      {
        var m := n + i;
        assert p(u[m]) || (i < m < j - 1 && IsWhitespace(u[m]) && p(u[m - 1]) && p(u[m + 1]));
      }
    }
  }

  lemma {:induction false} WordsBody(c: Regex, p: CodeUnit -> bool, u: JsString, i: int, j: int)
    requires IsUnit(c) && (forall x :: Admits(c, x) == p(x))
    requires 0 <= i <= j <= |u|
    ensures Matches(Cat(Plus(c), Star(Cat(Space(), Plus(c)))), u, i, j) <==> WordsAt(p, u, i, j)
    decreases j - i, 1
  {
    var tail := Star(Cat(Space(), Plus(c)));
    if Matches(Cat(Plus(c), tail), u, i, j) {
      assert Matches(Cat(Plus(c), tail), u, i, j);
      var k :| i <= k <= j && Matches(Plus(c), u, i, k) && Matches(tail, u, k, j);
      PlusUnit(c, u, i, k);
      WordsTail(c, p, u, k, j);
      forall m | i <= m < j
        ensures p(u[m]) || (i < m < j - 1 && IsWhitespace(u[m]) && p(u[m - 1]) && p(u[m + 1]))
      {
        if m < k {
          assert Admits(c, u[m]);
        } else if m == k {
          assert Admits(c, u[m - 1]);
          assert p(u[k + 1]) || (k + 1 < k + 1);
        } else {
          assert p(u[m]) || (k + 1 < m < j - 1 && IsWhitespace(u[m]) && p(u[m - 1]) && p(u[m + 1]));
        }
      }
    }
    if WordsAt(p, u, i, j) {
      var k := FirstOutside(c, p, u, i, j);
      PlusUnit(c, u, i, k);
      if k < j {
        forall m | k + 1 <= m < j
          ensures p(u[m]) || (k + 1 < m < j - 1 && IsWhitespace(u[m]) && p(u[m - 1]) && p(u[m + 1]))
        {
          assert p(u[m]) || (i < m < j - 1 && IsWhitespace(u[m]) && p(u[m - 1]) && p(u[m + 1]));
        }
        assert WordsAt(p, u, k + 1, j);
      }
      WordsTail(c, p, u, k, j);
    }
  }

  lemma {:induction false} WordsTail(c: Regex, p: CodeUnit -> bool, u: JsString, i: int, j: int)
    requires IsUnit(c) && (forall x :: Admits(c, x) == p(x))
    requires 0 <= i <= j <= |u|
    ensures Matches(Star(Cat(Space(), Plus(c))), u, i, j) <==>
              i == j || (i < j && IsWhitespace(u[i]) && WordsAt(p, u, i + 1, j))
    decreases j - i, 0
  {
    var group := Cat(Space(), Plus(c));
    var body := Cat(Plus(c), Star(group));
    if i < j {
      SingleItem(SpaceEscape, false, u[i]);
      if Matches(Star(group), u, i, j) {
        assert Matches(Star(group), u, i, j);
        var k :| i < k <= j && Matches(group, u, i, k) && Matches(Star(group), u, k, j);
        assert Matches(group, u, i, k);
        var m :| i <= m <= k && Matches(Space(), u, i, m) && Matches(Plus(c), u, m, k);
        assert Matches(body, u, i + 1, j);
        WordsBody(c, p, u, i + 1, j);
      }
      if IsWhitespace(u[i]) && WordsAt(p, u, i + 1, j) {
        WordsBody(c, p, u, i + 1, j);
        assert Matches(body, u, i + 1, j);
        var k :| i + 1 <= k <= j && Matches(Plus(c), u, i + 1, k) && Matches(Star(group), u, k, j);
        assert Matches(Space(), u, i, i + 1);
        assert Matches(group, u, i, k);
      }
    }
  }

  /** The end of the first run of word units in `u[i..j]`. */
  lemma FirstOutside(c: Regex, p: CodeUnit -> bool, u: JsString, i: int, j: int) returns (k: int)
    requires IsUnit(c) && (forall x :: Admits(c, x) == p(x))
    requires 0 <= i <= j <= |u| && WordsAt(p, u, i, j)
    ensures i < k <= j
    ensures forall m :: i <= m < k ==> Admits(c, u[m])
    ensures k < j ==> !p(u[k]) && k + 1 < j && IsWhitespace(u[k]) && p(u[k + 1])
  {
    assert p(u[i]) || i < i;
    k := i + 1;
    while k < j && p(u[k])
      invariant i < k <= j
      invariant forall m :: i <= m < k ==> Admits(c, u[m])
    {
      k := k + 1;
    }
    if k < j {
      assert p(u[k]) || (i < k < j - 1 && IsWhitespace(u[k]) && p(u[k - 1]) && p(u[k + 1]));
    }
  }

  lemma WordsTest(c: Regex, p: CodeUnit -> bool, u: JsString)
    requires IsUnit(c) && (forall x :: Admits(c, x) == p(x))
    ensures Test(WordsPattern(c), u) <==> Words(p, u)
  {
    AnchoredTest(Cat(Plus(c), Star(Cat(Space(), Plus(c)))), u);
    WordsBody(c, p, u, 0, |u|);
    WordsSlice(p, u, 0, |u|);
    assert u[0..|u|] == u;
  }
}
