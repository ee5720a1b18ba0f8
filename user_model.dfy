/** The user schema: the field rules of `nombre`, `email`, `pass`, `date`,
    `role` and `activo`, the uniqueness plugin's message, and the `toJSON`
    projection that leaves the password hash out. */
module UserModel {
  import opened Js
  import opened Schema
  import opened RegExp
  import opened Patterns

  const Admin: JsString := U("ADMIN")
  const Client: JsString := U("CLIENT")
  const RoleValues: seq<JsString> := [Admin, Client]

  const PassMessage: JsString := U("La contraseña debe tener al menos 8 caracteres, incluyendo una letra mayúscula, una letra minúscula, un número y un carácter especial.")

  /** `{ message: 'Error, esperaba {PATH} único.' }` given to the uniqueness plugin. */
  const Plugin: Option<Template> := Some(Template(U("Error, esperaba "), U(" único.")))

  function NombreRule(): FieldRule
  {
    FieldRule("nombre", Text, Some(U("El nombre es necesario")),
      Some(Check(LetterWords, U("El nombre solo puede contener letras"))), None, None, NoDefault, false)
  }

  function EmailRule(): FieldRule
  {
    FieldRule("email", Text, Some(U("EL email es necesario")),
      Some(Check(ValidEmail, U("El email no es válido"))), None, None, NoDefault, true)
  }

  function PassRule(): FieldRule
  {
    FieldRule("pass", Text, Some(U("La contraseña es necesaria")),
      None, None, Some(Check(StrongPassword, PassMessage)), NoDefault, false)
  }

  function DateRule(): FieldRule
  {
    FieldRule("date", Timestamp, None, None, None, None, Clock, false)
  }

  function RoleRule(): FieldRule
  {
    FieldRule("role", Text, None, None,
      Some(Choices(RoleValues, Template([], U(" no es un rol válido")))), None, Fixed(Str(Client)), false)
  }

  function ActivoRule(): FieldRule
  {
    FieldRule("activo", Flag, None, None, None, None, Fixed(Bool(true)), false)
  }

  function Rules(): (rs: Schema.Rules)
    ensures WellFormed(rs)
  {
    [NombreRule(), EmailRule(), PassRule(), DateRule(), RoleRule(), ActivoRule()]
  }

  /** `toJSON`: a copy of the stored object without `pass`. */
  function ToJson(d: Body): (j: Body)
    ensures "pass" !in j
    ensures j.Keys == d.Keys - {"pass"}
    ensures forall k :: k in j ==> j[k] == d[k]
  {
    d - {"pass"}
  }

  // ----- what each rule accepts -----

  /** `nombre`: required, then letter words. */
  lemma NombreRuleMeaning(s: JsString, taken: bool)
    ensures PathError(NombreRule(), Some(Str(s)), Plugin, taken) ==
              if s == [] then Some(U("El nombre es necesario"))
              else if Test(LetterWordsRegex(), s) then None
              else Some(U("El nombre solo puede contener letras"))
  {
    LetterWordsTest(s);
  }

  /** `email`: required, then the e-mail pattern, then uniqueness through
      the plugin. */
  lemma EmailRuleMeaning(s: JsString, taken: bool)
    ensures PathError(EmailRule(), Some(Str(s)), Plugin, taken) ==
              if s == [] then Some(U("EL email es necesario"))
              else if !Test(EmailRegex(), s) then Some(U("El email no es válido"))
              else if taken then Some(U("Error, esperaba email único."))
              else None
  {
    EmailTest(s);
    assert U("Error, esperaba ") + U("email") + U(" único.") == U("Error, esperaba email único.");
  }

  /** `pass`: required, then the same policy as the registration route. */
  lemma PassRuleMeaning(s: JsString, taken: bool)
    ensures PathError(PassRule(), Some(Str(s)), Plugin, taken) ==
              if s == [] then Some(U("La contraseña es necesaria"))
              else if Test(PasswordRegex(), s) then None
              else Some(PassMessage)
  {
    PasswordTest(s);
  }

  /** `role`: `ADMIN` or `CLIENT`; any other string is reported with the
      offending value in front of " no es un rol válido". */
  lemma RoleRuleMeaning(s: JsString, taken: bool)
    ensures PathError(RoleRule(), Some(Str(s)), Plugin, taken).None? <==> s == Admin || s == Client
    ensures PathError(RoleRule(), Some(Str(s)), Plugin, taken).Some? ==>
              PathError(RoleRule(), Some(Str(s)), Plugin, taken).value == s + U(" no es un rol válido")
  {
  }

  /** A document missing `nombre`, `email` or `pass` fails on that path
      with its `required` message. */
  lemma RequiredFields(d: Body, docs: map<nat, Body>)
    ensures "nombre" !in d ==> FieldErr("nombre", U("El nombre es necesario")) in Errors(Rules(), d, docs, Plugin)
    ensures "email" !in d ==> FieldErr("email", U("EL email es necesario")) in Errors(Rules(), d, docs, Plugin)
    ensures "pass" !in d ==> FieldErr("pass", U("La contraseña es necesaria")) in Errors(Rules(), d, docs, Plugin)
  {
    var rs := Rules();
    if "nombre" !in d {
      assert RuleError(rs[0], d, docs, Plugin) == Some(U("El nombre es necesario"));
      FailingRuleReported(rs, d, docs, Plugin, 0);
    }
    if "email" !in d {
      assert RuleError(rs[1], d, docs, Plugin) == Some(U("EL email es necesario"));
      FailingRuleReported(rs, d, docs, Plugin, 1);
    }
    if "pass" !in d {
      assert RuleError(rs[2], d, docs, Plugin) == Some(U("La contraseña es necesaria"));
      FailingRuleReported(rs, d, docs, Plugin, 2);
    }
  }

  /** A new user without `role` receives `CLIENT`. */
  lemma RoleDefault(body: Body, now: nat)
    requires "role" !in body
    ensures "role" in Build(Rules(), body, now) && Build(Rules(), body, now)["role"] == Str(Client)
  {
    BuildAt(Rules(), body, now, 4);
  }

  /** A new user without `activo` is active. */
  lemma ActivoDefault(body: Body, now: nat)
    requires "activo" !in body
    ensures "activo" in Build(Rules(), body, now) && Build(Rules(), body, now)["activo"] == Bool(true)
  {
    BuildAt(Rules(), body, now, 5);
  }

  /** A new user without `date` carries the time of its creation. */
  lemma DateDefault(body: Body, now: nat)
    requires "date" !in body
    ensures "date" in Build(Rules(), body, now) && Build(Rules(), body, now)["date"] == Num(now)
  {
    BuildAt(Rules(), body, now, 3);
  }

  /** Setting `nombre` to "" or null by an update is refused: the update
      validators run `required` on every path the `$set` carries. */
  lemma EmptyNameUpdateRefused(v: Value)
    requires v == Str([]) || v == Null
    ensures CastUpdate(Rules(), map["nombre" := v]) == map["nombre" := v]
    ensures FieldErr("nombre", U("El nombre es necesario")) in UpdateErrors(Rules(), map["nombre" := v])
  {
    var rs := Rules();
    assert rs[0] == NombreRule();
    SinglePathUpdate(rs, 0, v);
    RequiredOnSet(rs, 0, v);
  }

  /** `PUT /user/:id` with `{"nombre": ["x"]}` fails the update cast
      rather than validation. */
  lemma ArrayNameFailsCast()
    ensures CastFails(Rules(), CastUpdate(Rules(), map["nombre" := Arr([Str(U("x"))])]))
  {
    CastFailsOnText(Rules(), map["nombre" := Arr([Str(U("x"))])], 0);
  }

  /** What a document that passes validation holds. */
  lemma Accepted(d: Body, docs: map<nat, Body>)
    requires Errors(Rules(), d, docs, Plugin) == []
    ensures "nombre" in d && LetterWords(ToString(d["nombre"]))
    ensures "email" in d && ValidEmail(ToString(d["email"])) && !Taken(docs, "email", d["email"])
    ensures "pass" in d && StrongPassword(ToString(d["pass"]))
    ensures "role" in d && d["role"] != Null ==> ToString(d["role"]) in RoleValues
  {
    ErrorsEmpty(Rules(), d, docs, Plugin);
    var rs := Rules();
    assert RuleError(rs[0], d, docs, Plugin).None?;
    assert RuleError(rs[1], d, docs, Plugin).None?;
    assert RuleError(rs[2], d, docs, Plugin).None?;
    assert RuleError(rs[4], d, docs, Plugin).None?;
  }
}
