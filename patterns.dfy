/** The regular expressions of the schemas and routes, written as they are
    in the source, each beside a plain predicate that says what it accepts
    and a lemma proving the two agree on every string. */
module Patterns {
  import opened Js
  import opened RegExp

  // ----- character classes -----

  /** `[a-z]` */
  function LowerClass(): Regex { Class([Span('a' as int, 'z' as int)], false) }
  /** `[A-Z]` */
  function UpperClass(): Regex { Class([Span('A' as int, 'Z' as int)], false) }
  /** `\d` */
  function DigitClass(): Regex { Class([DigitEscape], false) }
  /** `[@$!%*?&]` */
  function SymbolClass(): Regex { Class([Units(U("@$!%*?&"))], false) }
  /** `[a-zA-Z]` */
  function LetterClass(): Regex
  {
    Class([Span('a' as int, 'z' as int), Span('A' as int, 'Z' as int)], false)
  }
  /** `[a-zA-Z0-9-]` */
  function CodeClass(): Regex
  {
    Class([Span('a' as int, 'z' as int), Span('A' as int, 'Z' as int), Span('0' as int, '9' as int), Units(U("-"))], false)
  }
  /** `[a-zA-Z0-9.\_\-\+\[\]]`: inside a class `\_`, `\-`, `\+`, `\[`, `\]`
      stand for the characters themselves. */
  function ProductNameClass(): Regex
  {
    Class([Span('a' as int, 'z' as int), Span('A' as int, 'Z' as int), Span('0' as int, '9' as int), Units(U("._-+[]"))], false)
  }

  predicate IsPasswordSymbol(x: CodeUnit) { x in U("@$!%*?&") }
  predicate IsCodeUnit(x: CodeUnit) { IsAsciiLetter(x) || IsAsciiDigit(x) || x == '-' as int }
  predicate IsProductNameUnit(x: CodeUnit) { IsAsciiLetter(x) || IsAsciiDigit(x) || x in U("._-+[]") }

  lemma CharAdmits(c: char, x: CodeUnit)
    requires c as int < 0x1_0000
    ensures Admits(Char(c), x) <==> x == c as int
  {
    assert U([c]) == [c as int];
    SingleItem(Units(U([c])), false, x);
  }

  lemma ClassFacts()
    ensures forall x :: Admits(LowerClass(), x) == IsAsciiLower(x)
    ensures forall x :: Admits(UpperClass(), x) == IsAsciiUpper(x)
    ensures forall x :: Admits(DigitClass(), x) == IsAsciiDigit(x)
    ensures forall x :: Admits(SymbolClass(), x) == IsPasswordSymbol(x)
    ensures forall x :: Admits(NonSpace(), x) == !IsWhitespace(x)
  {
    forall x: CodeUnit
      ensures Admits(LowerClass(), x) == IsAsciiLower(x)
      ensures Admits(UpperClass(), x) == IsAsciiUpper(x)
      ensures Admits(DigitClass(), x) == IsAsciiDigit(x)
      ensures Admits(SymbolClass(), x) == IsPasswordSymbol(x)
      ensures Admits(NonSpace(), x) == !IsWhitespace(x)
    {
      SingleItem(Span('a' as int, 'z' as int), false, x);
      SingleItem(Span('A' as int, 'Z' as int), false, x);
      SingleItem(DigitEscape, false, x);
      SingleItem(Units(U("@$!%*?&")), false, x);
      SingleItem(SpaceEscape, true, x);
    }
  }

  lemma WordClassFacts()
    ensures forall x :: Admits(LetterClass(), x) == IsAsciiLetter(x)
    ensures forall x :: Admits(CodeClass(), x) == IsCodeUnit(x)
    ensures forall x :: Admits(ProductNameClass(), x) == IsProductNameUnit(x)
  {
    forall x: CodeUnit
      ensures Admits(LetterClass(), x) == IsAsciiLetter(x)
      ensures Admits(CodeClass(), x) == IsCodeUnit(x)
      ensures Admits(ProductNameClass(), x) == IsProductNameUnit(x)
    {
      var letters := LetterClass().items;
      var code := CodeClass().items;
      var name := ProductNameClass().items;
      if IsAsciiLower(x) {
        assert ItemAdmits(letters[0], x) && ItemAdmits(code[0], x) && ItemAdmits(name[0], x);
      }
      if IsAsciiUpper(x) {
        assert ItemAdmits(letters[1], x) && ItemAdmits(code[1], x) && ItemAdmits(name[1], x);
      }
      if IsAsciiDigit(x) {
        assert ItemAdmits(code[2], x) && ItemAdmits(name[2], x);
      }
      if x == '-' as int {
        assert U("-") == ['-' as int];
        assert ItemAdmits(code[3], x);
      }
      if x in U("._-+[]") {
        assert ItemAdmits(name[3], x);
      }
    }
  }

  // ----- the password policy -----

  /** `(?=.*c)` */
  function Somewhere(c: Regex): Regex { Ahead(Cat(Star(Dot), c)) }

  /** `/^(?=.*[a-z])(?=.*[A-Z])(?=.*\d)(?=.*[@$!%*?&]).{8,}$/`, the policy of
      the registration route and of the user schema's `pass` validator. */
  function PasswordRegex(): Regex
  {
    Anchored(Cat(Somewhere(LowerClass()), Cat(Somewhere(UpperClass()),
      Cat(Somewhere(DigitClass()), Cat(Somewhere(SymbolClass()), AtLeast(Dot, 8))))))
  }

  predicate HasUnit(s: JsString, p: CodeUnit -> bool)
  {
    exists k :: 0 <= k < |s| && p(s[k])
  }

  /** At least eight code units, none a line terminator, among them a lower
      case letter, an upper case letter, a digit and one of `@$!%*?&`. */
  predicate StrongPassword(s: JsString)
  {
    && |s| >= 8
    && (forall k :: 0 <= k < |s| ==> !IsLineTerminator(s[k]))
    && HasUnit(s, IsAsciiLower)
    && HasUnit(s, IsAsciiUpper)
    && HasUnit(s, IsAsciiDigit)
    && HasUnit(s, IsPasswordSymbol)
  }

  /** On a string without line terminators, `(?=.*c)` at the start holds
      exactly when some unit is admitted by `c`. */
  lemma SomewhereAtStart(c: Regex, p: CodeUnit -> bool, s: JsString)
    requires IsUnit(c) && (forall x :: Admits(c, x) == p(x))
    requires forall k :: 0 <= k < |s| ==> !IsLineTerminator(s[k])
    ensures Matches(Somewhere(c), s, 0, 0) <==> HasUnit(s, p)
  {
    AheadFind(c, s, 0);
    if HasUnit(s, p) {
      var k :| 0 <= k < |s| && p(s[k]);
      assert Admits(c, s[k]) && forall m :: 0 <= m < k ==> !IsLineTerminator(s[m]);
    }
  }

  lemma PasswordTest(s: JsString)
    ensures Test(PasswordRegex(), s) <==> StrongPassword(s)
  {
    var tail := AtLeast(Dot, 8);
    var r4 := Cat(Somewhere(SymbolClass()), tail);
    var r3 := Cat(Somewhere(DigitClass()), r4);
    var r2 := Cat(Somewhere(UpperClass()), r3);
    var r1 := Cat(Somewhere(LowerClass()), r2);
    AnchoredTest(r1, s);
    AheadCat(Cat(Star(Dot), LowerClass()), r2, s, 0, |s|);
    AheadCat(Cat(Star(Dot), UpperClass()), r3, s, 0, |s|);
    AheadCat(Cat(Star(Dot), DigitClass()), r4, s, 0, |s|);
    AheadCat(Cat(Star(Dot), SymbolClass()), tail, s, 0, |s|);
    AtLeastUnit(Dot, 8, s, 0, |s|);
    assert Matches(tail, s, 0, |s|) <==> |s| >= 8 && forall k :: 0 <= k < |s| ==> !IsLineTerminator(s[k]);
    if forall k :: 0 <= k < |s| ==> !IsLineTerminator(s[k]) {
      ClassFacts();
      SomewhereAtStart(LowerClass(), IsAsciiLower, s);
      SomewhereAtStart(UpperClass(), IsAsciiUpper, s);
      SomewhereAtStart(DigitClass(), IsAsciiDigit, s);
      SomewhereAtStart(SymbolClass(), IsPasswordSymbol, s);
    }
  }

  // ----- the e-mail pattern -----

  /** `/\S+@\S+\.\S+/` (unanchored) */
  function EmailRegex(): Regex
  {
    Cat(Plus(NonSpace()), Cat(Char('@'), Cat(Plus(NonSpace()), Cat(Char('.'), Plus(NonSpace())))))
  }

  /** Somewhere in `s` an `@` with a non-space unit just before it, followed
      by non-space units up to a `.` that is not right after the `@`, and a
      non-space unit after that `.`. */
  predicate ValidEmail(s: JsString)
  {
    exists a, b :: 0 < a < b < |s| && EmailAt(s, a, b)
  }

  /** The `@` of a match at `a` and its `.` at `b`. */
  predicate EmailAt(s: JsString, a: int, b: int)
  {
    && 0 < a && a + 1 < b && b + 1 < |s|
    && s[a] == '@' as int && s[b] == '.' as int
    && !IsWhitespace(s[a - 1]) && !IsWhitespace(s[b + 1])
    && forall m :: a < m < b ==> !IsWhitespace(s[m])
  }

  lemma NonSpaceFact()
    ensures forall x :: Admits(NonSpace(), x) == !IsWhitespace(x)
  {
    forall x: CodeUnit ensures Admits(NonSpace(), x) == !IsWhitespace(x) {
      SingleItem(SpaceEscape, true, x);
    }
  }

  /** A match of the e-mail regex splits at its `@` and its `.`. */
  lemma EmailSplit(s: JsString, i: int, j: int) returns (a: int, b: int)
    requires 0 <= i <= j <= |s| && Matches(EmailRegex(), s, i, j)
    ensures i <= a < b < j
    ensures Matches(Plus(NonSpace()), s, i, a) && Matches(Char('@'), s, a, a + 1)
    ensures Matches(Plus(NonSpace()), s, a + 1, b) && Matches(Char('.'), s, b, b + 1)
    ensures Matches(Plus(NonSpace()), s, b + 1, j)
  {
    var ns := NonSpace();
    var r4 := Cat(Char('.'), Plus(ns));
    var r3 := Cat(Plus(ns), r4);
    var r2 := Cat(Char('@'), r3);
    a := CatSplit(Plus(ns), r2, s, i, j);
    var a1 := CatSplit(Char('@'), r3, s, a, j);
    b := CatSplit(Plus(ns), r4, s, a1, j);
    var b1 := CatSplit(Char('.'), Plus(ns), s, b, j);
    PlusNonEmpty(ns, s, a1, b);
    PlusNonEmpty(ns, s, b1, j);
  }

  /** A match found by the regex pins down an `@` and a `.` as `EmailAt` says. */
  lemma EmailMatchAt(s: JsString, i: int, j: int)
    requires 0 <= i <= j <= |s| && Matches(EmailRegex(), s, i, j)
    ensures ValidEmail(s)
  {
    var ns := NonSpace();
    var a, b := EmailSplit(s, i, j);
    NonSpaceFact();
    PlusUnit(ns, s, i, a);
    PlusUnit(ns, s, a + 1, b);
    PlusUnit(ns, s, b + 1, j);
    CharAdmits('@', s[a]);
    CharAdmits('.', s[b]);
    assert Admits(ns, s[a - 1]) && Admits(ns, s[b + 1]);
    forall m | a < m < b ensures !IsWhitespace(s[m]) {
      assert Admits(ns, s[m]);
    }
    assert EmailAt(s, a, b);
  }

  /** Where `EmailAt` holds, the regex matches from just before the `@` to
      just after the unit following the `.`. */
  lemma EmailAtMatch(s: JsString, a: int, b: int)
    requires EmailAt(s, a, b)
    ensures Matches(EmailRegex(), s, a - 1, b + 2)
  {
    var ns := NonSpace();
    var r4 := Cat(Char('.'), Plus(ns));
    var r3 := Cat(Plus(ns), r4);
    var r2 := Cat(Char('@'), r3);
    NonSpaceFact();
    PlusUnit(ns, s, a - 1, a);
    PlusUnit(ns, s, a + 1, b);
    PlusUnit(ns, s, b + 1, b + 2);
    CharAdmits('@', s[a]);
    CharAdmits('.', s[b]);
    assert Matches(Char('.'), s, b, b + 1);
    assert Matches(r4, s, b, b + 2);
    assert Matches(r3, s, a + 1, b + 2);
    assert Matches(Char('@'), s, a, a + 1);
    assert Matches(r2, s, a, b + 2);
  }

  lemma EmailTest(s: JsString)
    ensures Test(EmailRegex(), s) <==> ValidEmail(s)
  {
    if Test(EmailRegex(), s) {
      var i, j :| 0 <= i <= j <= |s| && Matches(EmailRegex(), s, i, j);
      EmailMatchAt(s, i, j);
    }
    if ValidEmail(s) {
      var a, b :| 0 < a < b < |s| && EmailAt(s, a, b);
      EmailAtMatch(s, a, b);
    }
  }

  // ----- words and codes -----

  /** `/^[a-zA-Z]+(?:\s[a-zA-Z]+)*$/`, the pattern of a user's `nombre` and a
      product's `categoria`. */
  function LetterWordsRegex(): Regex { WordsPattern(LetterClass()) }

  /** `/^[a-zA-Z0-9.\_\-\+\[\]]+(?:\s[a-zA-Z0-9.\_\-\+\[\]]+)*$/` */
  function ProductNameRegex(): Regex { WordsPattern(ProductNameClass()) }

  /** `/^[a-zA-Z0-9-]+$/` */
  function CodeRegex(): Regex { Anchored(Plus(CodeClass())) }

  /** One or more runs of ASCII letters, separated by single whitespace units. */
  predicate LetterWords(s: JsString) { Words(IsAsciiLetter, s) }

  predicate ProductName(s: JsString) { Words(IsProductNameUnit, s) }

  /** Non-empty, and only ASCII letters, digits and `-`. */
  predicate ProductCode(s: JsString)
  {
    |s| > 0 && forall k :: 0 <= k < |s| ==> IsCodeUnit(s[k])
  }

  lemma LetterWordsTest(s: JsString)
    ensures Test(LetterWordsRegex(), s) <==> LetterWords(s)
  {
    WordClassFacts();
    WordsTest(LetterClass(), IsAsciiLetter, s);
  }

  lemma ProductNameTest(s: JsString)
    ensures Test(ProductNameRegex(), s) <==> ProductName(s)
  {
    WordClassFacts();
    WordsTest(ProductNameClass(), IsProductNameUnit, s);
  }

  lemma CodeTest(s: JsString)
    ensures Test(CodeRegex(), s) <==> ProductCode(s)
  {
    WordClassFacts();
    AnchoredTest(Plus(CodeClass()), s);
    PlusUnit(CodeClass(), s, 0, |s|);
  }

  // ----- the upload filter -----

  /** `/jpeg|jpg|png/` (unanchored) */
  function ImageTypesRegex(): Regex { Alt(Lit(U("jpeg")), Alt(Lit(U("jpg")), Lit(U("png")))) }

  /** `jpeg`, `jpg` or `png` occurs anywhere in `s`. */
  predicate NamesImageType(s: JsString)
  {
    Contains(s, U("jpeg")) || Contains(s, U("jpg")) || Contains(s, U("png"))
  }

  lemma ImageTypesTest(s: JsString)
    ensures Test(ImageTypesRegex(), s) <==> NamesImageType(s)
  {
    AltTest(Lit(U("jpeg")), Alt(Lit(U("jpg")), Lit(U("png"))), s);
    AltTest(Lit(U("jpg")), Lit(U("png")), s);
    LitTest(U("jpeg"), s);
    LitTest(U("jpg"), s);
    LitTest(U("png"), s);
  }
}
