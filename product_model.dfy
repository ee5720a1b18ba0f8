/** The product schema: patterns for `codigo`, `nombre` and `categoria`,
    the required `precio` and `stock`, and the defaults of `fotos`, `date`
    and `activo`. It installs no uniqueness plugin, so the `unique` of
    `codigo` is only the store's index. */
module ProductModel {
  import opened Js
  import opened RegExp
  import opened Schema
  import opened Patterns

  const DefaultPhoto: JsString := U("uploads/default1.jpg")

  /** `default: ['uploads/default1.jpg', ... ]`, four times. */
  const DefaultFotos: Value := Arr([Str(DefaultPhoto), Str(DefaultPhoto), Str(DefaultPhoto), Str(DefaultPhoto)])

  const Plugin: Option<Template> := None

  function CodigoRule(): FieldRule
  {
    FieldRule("codigo", Text, Some(U("Código obligatorio")),
      Some(Check(ProductCode, U("El código solo puede contener números, letras y guiones (-)"))), None, None, NoDefault, true)
  }

  function NombreRule(): FieldRule
  {
    FieldRule("nombre", Text, Some(U("Nombre obligatorio")),
      Some(Check(ProductName, U("El nombre solo puede contener letras y números"))), None, None, NoDefault, false)
  }

  function PrecioRule(): FieldRule
  {
    FieldRule("precio", Number, Some(U("Precio obligatorio")), None, None, None, NoDefault, false)
  }

  function StockRule(): FieldRule
  {
    FieldRule("stock", Number, Some(U("Stock obligatorio")), None, None, None, NoDefault, false)
  }

  function CategoriaRule(): FieldRule
  {
    FieldRule("categoria", Text, Some(U("Categoria obligatorio")),
      Some(Check(LetterWords, U("La categoría solo puede contener letras"))), None, None, NoDefault, false)
  }

  function FotosRule(): FieldRule
  {
    FieldRule("fotos", TextList, None, None, None, None, Fixed(DefaultFotos), false)
  }

  function DateRule(): FieldRule
  {
    FieldRule("date", Timestamp, None, None, None, None, Clock, false)
  }

  function ActivoRule(): FieldRule
  {
    FieldRule("activo", Flag, None, None, None, None, Fixed(Bool(true)), false)
  }

  function Rules(): (rs: Schema.Rules)
    ensures WellFormed(rs)
  {
    [CodigoRule(), NombreRule(), PrecioRule(), StockRule(), CategoriaRule(), FotosRule(), DateRule(), ActivoRule()]
  }

  // ----- what each rule accepts -----

  lemma CodigoRuleMeaning(s: JsString)
    ensures PathError(CodigoRule(), Some(Str(s)), Plugin, false) ==
              if s == [] then Some(U("Código obligatorio"))
              else if Test(CodeRegex(), s) then None
              else Some(U("El código solo puede contener números, letras y guiones (-)"))
  {
    CodeTest(s);
  }

  lemma NombreRuleMeaning(s: JsString)
    ensures PathError(NombreRule(), Some(Str(s)), Plugin, false) ==
              if s == [] then Some(U("Nombre obligatorio"))
              else if Test(ProductNameRegex(), s) then None
              else Some(U("El nombre solo puede contener letras y números"))
  {
    ProductNameTest(s);
  }

  lemma CategoriaRuleMeaning(s: JsString)
    ensures PathError(CategoriaRule(), Some(Str(s)), Plugin, false) ==
              if s == [] then Some(U("Categoria obligatorio"))
              else if Test(LetterWordsRegex(), s) then None
              else Some(U("La categoría solo puede contener letras"))
  {
    LetterWordsTest(s);
  }

  /** A product without `precio` or `stock`, or with either null, fails on
      that path with its `required` message. */
  lemma RequiredNumbers(d: Body, docs: map<nat, Body>)
    ensures ("precio" !in d || d["precio"] == Null) ==>
              FieldErr("precio", U("Precio obligatorio")) in Errors(Rules(), d, docs, Plugin)
    ensures ("stock" !in d || d["stock"] == Null) ==>
              FieldErr("stock", U("Stock obligatorio")) in Errors(Rules(), d, docs, Plugin)
  {
    var rs := Rules();
    if "precio" !in d || d["precio"] == Null {
      assert RuleError(rs[2], d, docs, Plugin) == Some(U("Precio obligatorio"));
      FailingRuleReported(rs, d, docs, Plugin, 2);
    }
    if "stock" !in d || d["stock"] == Null {
      assert RuleError(rs[3], d, docs, Plugin) == Some(U("Stock obligatorio"));
      FailingRuleReported(rs, d, docs, Plugin, 3);
    }
  }

  /** Setting `precio` to null by an update is refused with its `required`
      message. */
  lemma NullPriceUpdateRefused()
    ensures CastUpdate(Rules(), map["precio" := Null]) == map["precio" := Null]
    ensures FieldErr("precio", U("Precio obligatorio")) in UpdateErrors(Rules(), map["precio" := Null])
  {
    var rs := Rules();
    assert rs[2] == PrecioRule();
    SinglePathUpdate(rs, 2, Null);
    RequiredOnSet(rs, 2, Null);
  }

  /** A new product without `fotos` gets four copies of the default photo. */
  lemma DefaultFotosApplied(body: Body, now: nat)
    requires "fotos" !in body
    ensures "fotos" in Build(Rules(), body, now)
    ensures var f := Build(Rules(), body, now)["fotos"];
            f.Arr? && |f.items| == 4 && forall i :: 0 <= i < 4 ==> f.items[i] == Str(DefaultPhoto)
  {
    DefaultAt(body, now, 5);
    var f := Build(Rules(), body, now)["fotos"];
    assert f == DefaultFotos;
    forall i | 0 <= i < 4 ensures f.items[i] == Str(DefaultPhoto) {
      assert i == 0 || i == 1 || i == 2 || i == 3;
    }
  }

  lemma DefaultAt(body: Body, now: nat, k: nat)
    requires 5 <= k < 8
    ensures var r := Rules()[k];
            r.path !in body ==> r.path in Build(Rules(), body, now) && Some(Build(Rules(), body, now)[r.path]) == Initial(r, body, now)
  {
    BuildAt(Rules(), body, now, k);
  }

  /** Without `activo` a new product is active. */
  lemma ActivoDefault(body: Body, now: nat)
    requires "activo" !in body
    ensures "activo" in Build(Rules(), body, now) && Build(Rules(), body, now)["activo"] == Bool(true)
  {
    BuildAt(Rules(), body, now, 7);
  }

  /** Without `date` a new product carries the time of its creation. */
  lemma DateDefault(body: Body, now: nat)
    requires "date" !in body
    ensures "date" in Build(Rules(), body, now) && Build(Rules(), body, now)["date"] == Num(now)
  {
    BuildAt(Rules(), body, now, 6);
  }

  /** What a product that passes validation holds. */
  lemma Accepted(d: Body, docs: map<nat, Body>)
    requires Errors(Rules(), d, docs, Plugin) == []
    ensures "codigo" in d && ProductCode(ToString(d["codigo"]))
    ensures "nombre" in d && ProductName(ToString(d["nombre"]))
    ensures "categoria" in d && LetterWords(ToString(d["categoria"]))
    ensures "precio" in d && d["precio"] != Null
    ensures "stock" in d && d["stock"] != Null
  {
    ErrorsEmpty(Rules(), d, docs, Plugin);
    var rs := Rules();
    assert RuleError(rs[0], d, docs, Plugin).None?;
    assert RuleError(rs[1], d, docs, Plugin).None?;
    assert RuleError(rs[2], d, docs, Plugin).None?;
    assert RuleError(rs[3], d, docs, Plugin).None?;
    assert RuleError(rs[4], d, docs, Plugin).None?;
  }
}
