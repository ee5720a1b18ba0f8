/** Mongoose schema field rules, read declaratively: which keys a document
    keeps, which defaults it receives, and which paths fail validation
    with which message. One interpreter serves both the user and the
    product schema. */
module Schema {
  import opened Js

  /** The declared `type` of a path. */
  datatype Kind = Text | Number | Flag | TextList | Timestamp

  /** A `match` or `validate` entry: the test run on `String(value)` and the
      message reported when it fails. */
  datatype Check = Check(test: JsString -> bool, message: JsString)

  /** A `{VALUE}` or `{PATH}` message template: `before`, the value, `after`. */
  datatype Template = Template(before: JsString, after: JsString)

  /** An `enum` entry. */
  datatype Choices = Choices(values: seq<JsString>, message: Template)

  datatype Default = NoDefault | Fixed(value: Value) | Clock

  datatype FieldRule = FieldRule(
    path: string,
    kind: Kind,
    required: Option<JsString>,   // `required: [true, message]`
    pattern: Option<Check>,       // `match: [regex, message]`
    choices: Option<Choices>,     // `enum`
    custom: Option<Check>,        // `validate: { validator, message }`
    default: Default,
    unique: bool)

  type Rules = seq<FieldRule>

  /** A failing path and its message: one entry of `ValidationError.errors`. */
  datatype FieldErr = FieldErr(path: string, message: JsString)

  /** What Mongoose reports for a text path given an array or an object. */
  const CastMessage: JsString := U("Cast to string failed")

  predicate WellFormed(rules: Rules)
  {
    forall a, b :: 0 <= a < b < |rules| ==> rules[a].path != rules[b].path
  }

  function Paths(rules: Rules): set<string>
  {
    set k | 0 <= k < |rules| :: rules[k].path
  }

  /** Casting on assignment: a text path stores numbers and booleans as their
      string form; a list of text casts each element and wraps a single
      non-null value into a one-element list; everything else is kept as
      given. */
  function Cast(kind: Kind, v: Value): (r: Value)
    ensures kind == Text ==> !r.Bool? && !r.Num? && ToString(r) == ToString(v)
    ensures kind == TextList ==> r.Arr? || r.Null?
    ensures kind == TextList && v.Arr? ==> r.Arr? && |r.items| == |v.items|
    ensures kind != Text && kind != TextList ==> r == v
  {
    match kind
    case Text => CastText(v)
    case TextList =>
      if v.Arr? then Arr(seq(|v.items|, i requires 0 <= i < |v.items| => CastText(v.items[i])))
      else if v.Null? then v
      else Arr([CastText(v)])
    case _ => v
  }

  /** A number or a boolean becomes its string form; the value `String()`
      gives is unchanged, and nothing else is touched. */
  function CastText(v: Value): (r: Value)
    ensures !r.Bool? && !r.Num?
    ensures ToString(r) == ToString(v)
    ensures !v.Bool? && !v.Num? ==> r == v
  {
    if v.Bool? || v.Num? then Str(ToString(v)) else v
  }

  /** `new Model(body)`: keys outside the schema are dropped (strict mode),
      present keys are cast, absent keys with a default receive it. */
  function Build(rules: Rules, body: Body, now: nat): (d: Body)
    ensures d.Keys <= Paths(rules)
  {
    if rules == [] then map[]
    else
      var r := rules[0];
      var rest := Build(rules[1..], body, now);
      assert Paths(rules) == {r.path} + Paths(rules[1..]) by {
        forall x | x in Paths(rules[1..]) ensures x in Paths(rules) {
          var k :| 0 <= k < |rules[1..]| && rules[1..][k].path == x;
          assert rules[k + 1].path == x;
        }
        assert rules[0].path in Paths(rules);
      }
      var v := Initial(r, body, now);
      if v.Some? then rest[r.path := v.value] else rest
  }

  /** The value a built document holds at one rule's path. */
  function Initial(r: FieldRule, body: Body, now: nat): Option<Value>
  {
    if r.path in body then Some(Cast(r.kind, body[r.path]))
    else match r.default
      case NoDefault => None
      case Fixed(v) => Some(v)
      case Clock => Some(Num(now))
  }

  lemma {:induction false} BuildAt(rules: Rules, body: Body, now: nat, k: int)
    requires WellFormed(rules) && 0 <= k < |rules|
    ensures var d := Build(rules, body, now);
            (rules[k].path in d <==> Initial(rules[k], body, now).Some?)
            && (rules[k].path in d ==> Some(d[rules[k].path]) == Initial(rules[k], body, now))
  {
    if k > 0 {
      assert WellFormed(rules[1..]) by {
        forall a, b | 0 <= a < b < |rules[1..]| ensures rules[1..][a].path != rules[1..][b].path {
          assert rules[a + 1].path != rules[b + 1].path;
        }
      }
      BuildAt(rules[1..], body, now, k - 1);
      assert rules[0].path != rules[k].path;
    }
  }

  /** `SchemaType.checkRequired` for each kind. */
  predicate Present(kind: Kind, v: Option<Value>)
  {
    match v
    case None => false
    case Some(x) =>
      && !x.Null?
      && (kind == Text || kind == Number ==> x != Str([]))
  }

  function Fill(t: Template, middle: JsString): JsString
  {
    t.before + middle + t.after
  }

  /** The error Mongoose reports for one path, or None: a cast failure,
      then `required`, then `match`, `enum` and `validate`, then the
      uniqueness plugin; the first that fails is the path's error.
      `match` skips null and the empty string, `enum` skips null, and
      every validator but `required` skips an absent value. `taken` says
      another stored document already holds this value. */
  function PathError(r: FieldRule, v: Option<Value>, plugin: Option<Template>, taken: bool): (e: Option<JsString>)
    ensures v.None? ==> e == r.required
    ensures e.None? <==> Accepts(r, v, plugin, taken)
  {
    if r.kind == Text && v.Some? && (v.value.Arr? || v.value.Obj?) then Some(CastMessage)
    else if r.required.Some? && !Present(r.kind, v) then r.required
    else if r.pattern.Some? && v.Some? && v.value != Null && v.value != Str([])
            && !r.pattern.value.test(ToString(v.value)) then Some(r.pattern.value.message)
    else if r.choices.Some? && v.Some? && v.value != Null && ToString(v.value) !in r.choices.value.values
      then Some(Fill(r.choices.value.message, ToString(v.value)))
    else if r.custom.Some? && v.Some? && !r.custom.value.test(ToString(v.value)) then Some(r.custom.value.message)
    else if r.unique && plugin.Some? && v.Some? && taken then Some(Fill(plugin.value, U(r.path)))
    else None
  }

  /** Every check of the rule that applies to `v` passes. */
  predicate Accepts(r: FieldRule, v: Option<Value>, plugin: Option<Template>, taken: bool)
  {
    && !(r.kind == Text && v.Some? && (v.value.Arr? || v.value.Obj?))
    && (r.required.Some? ==> Present(r.kind, v))
    && (r.pattern.Some? && v.Some? && v.value != Null && v.value != Str([]) ==> r.pattern.value.test(ToString(v.value)))
    && (r.choices.Some? && v.Some? && v.value != Null ==> ToString(v.value) in r.choices.value.values)
    && (r.custom.Some? && v.Some? ==> r.custom.value.test(ToString(v.value)))
    && (r.unique && plugin.Some? && v.Some? ==> !taken)
  }

  predicate Taken(docs: map<nat, Body>, path: string, v: Value)
  {
    exists id :: id in docs && path in docs[id] && docs[id][path] == v
  }

  function At(d: Body, path: string): Option<Value>
  {
    if path in d then Some(d[path]) else None
  }

  /** The error of one rule for document `d` against the stored `docs`. */
  function RuleError(r: FieldRule, d: Body, docs: map<nat, Body>, plugin: Option<Template>): Option<JsString>
  {
    PathError(r, At(d, r.path), plugin, r.path in d && Taken(docs, r.path, d[r.path]))
  }

  /** The entries of `ValidationError.errors` for a new document, in schema order. */
  function Errors(rules: Rules, d: Body, docs: map<nat, Body>, plugin: Option<Template>): (errs: seq<FieldErr>)
    ensures |errs| <= |rules|
  {
    if rules == [] then []
    else
      var e := RuleError(rules[0], d, docs, plugin);
      (if e.Some? then [FieldErr(rules[0].path, e.value)] else []) + Errors(rules[1..], d, docs, plugin)
  }

  /** An entry names a failing rule with that rule's message, and every
      failing rule has an entry. */
  lemma {:induction false} ErrorsExact(rules: Rules, d: Body, docs: map<nat, Body>, plugin: Option<Template>)
    ensures forall e :: e in Errors(rules, d, docs, plugin) ==>
              exists k :: 0 <= k < |rules| && rules[k].path == e.path && RuleError(rules[k], d, docs, plugin) == Some(e.message)
    ensures forall k :: 0 <= k < |rules| && RuleError(rules[k], d, docs, plugin).Some? ==>
              FieldErr(rules[k].path, RuleError(rules[k], d, docs, plugin).value) in Errors(rules, d, docs, plugin)
  {
    if rules != [] {
      ErrorsExact(rules[1..], d, docs, plugin);
      var errs := Errors(rules, d, docs, plugin);
      var e0 := RuleError(rules[0], d, docs, plugin);
      var head := if e0.Some? then [FieldErr(rules[0].path, e0.value)] else [];
      assert errs == head + Errors(rules[1..], d, docs, plugin);
      forall e | e in errs
        ensures exists k :: 0 <= k < |rules| && rules[k].path == e.path && RuleError(rules[k], d, docs, plugin) == Some(e.message)
      {
        if e in head {
          assert rules[0].path == e.path;
        } else {
          var k :| 0 <= k < |rules[1..]| && rules[1..][k].path == e.path
                   && RuleError(rules[1..][k], d, docs, plugin) == Some(e.message);
          assert rules[k + 1] == rules[1..][k];
        }
      }
      forall k | 0 <= k < |rules| && RuleError(rules[k], d, docs, plugin).Some?
        ensures FieldErr(rules[k].path, RuleError(rules[k], d, docs, plugin).value) in errs
      {
        if k > 0 {
          assert rules[k] == rules[1..][k - 1];
        }
      }
    }
  }

  /** The entry of one failing rule. */
  lemma FailingRuleReported(rules: Rules, d: Body, docs: map<nat, Body>, plugin: Option<Template>, k: int)
    requires 0 <= k < |rules| && RuleError(rules[k], d, docs, plugin).Some?
    ensures FieldErr(rules[k].path, RuleError(rules[k], d, docs, plugin).value) in Errors(rules, d, docs, plugin)
  {
    ErrorsExact(rules, d, docs, plugin);
  }

  /** A document passes exactly when no rule fails. */
  lemma {:induction false} ErrorsEmpty(rules: Rules, d: Body, docs: map<nat, Body>, plugin: Option<Template>)
    ensures Errors(rules, d, docs, plugin) == [] <==>
              forall k :: 0 <= k < |rules| ==> RuleError(rules[k], d, docs, plugin).None?
  {
    if rules != [] {
      ErrorsEmpty(rules[1..], d, docs, plugin);
      if forall k :: 0 <= k < |rules| ==> RuleError(rules[k], d, docs, plugin).None? {
        assert RuleError(rules[0], d, docs, plugin).None?;
        forall k | 0 <= k < |rules[1..]| ensures RuleError(rules[1..][k], d, docs, plugin).None? {
          assert rules[1..][k] == rules[k + 1];
        }
      }
      if Errors(rules, d, docs, plugin) == [] {
        forall k | 0 <= k < |rules| ensures RuleError(rules[k], d, docs, plugin).None? {
          if k > 0 {
            assert rules[k] == rules[1..][k - 1];
          }
        }
      }
    }
  }

  predicate DistinctPaths(errs: seq<FieldErr>)
  {
    forall a, b :: 0 <= a < b < |errs| ==> errs[a].path != errs[b].path
  }

  lemma ConsDistinct(h: FieldErr, tail: seq<FieldErr>)
    requires DistinctPaths(tail)
    requires forall e :: e in tail ==> e.path != h.path
    ensures DistinctPaths([h] + tail)
  {
    var errs := [h] + tail;
    forall a, b | 0 <= a < b < |errs| ensures errs[a].path != errs[b].path {
      assert errs[b] == tail[b - 1];
      if a > 0 {
        assert errs[a] == tail[a - 1];
      } else {
        assert tail[b - 1] in tail;
      }
    }
  }

  /** The error paths appear in schema order, so with distinct paths no
      path is reported twice. */
  lemma {:induction false} ErrorsDistinct(rules: Rules, d: Body, docs: map<nat, Body>, plugin: Option<Template>)
    requires WellFormed(rules)
    ensures DistinctPaths(Errors(rules, d, docs, plugin))
  {
    if rules != [] {
      assert WellFormed(rules[1..]) by {
        forall a, b | 0 <= a < b < |rules[1..]| ensures rules[1..][a].path != rules[1..][b].path {
          assert rules[a + 1].path != rules[b + 1].path;
        }
      }
      ErrorsDistinct(rules[1..], d, docs, plugin);
      ErrorsExact(rules[1..], d, docs, plugin);
      var tail := Errors(rules[1..], d, docs, plugin);
      forall e | e in tail ensures e.path != rules[0].path {
        var k :| 0 <= k < |rules[1..]| && rules[1..][k].path == e.path
                 && RuleError(rules[1..][k], d, docs, plugin) == Some(e.message);
        assert rules[k + 1].path == e.path;
      }
      var e0 := RuleError(rules[0], d, docs, plugin);
      if e0.Some? {
        ConsDistinct(FieldErr(rules[0].path, e0.value), tail);
      }
    }
  }

  /** The paths whose rule fails. */
  function FailingPaths(rules: Rules, d: Body, docs: map<nat, Body>, plugin: Option<Template>): set<string>
  {
    set k | 0 <= k < |rules| && RuleError(rules[k], d, docs, plugin).Some? :: rules[k].path
  }

  /** `m` is an `{ errors }` object for `d`: one entry per failing path,
      holding that rule's message. */
  predicate Reports(m: map<string, JsString>, rules: Rules, d: Body, docs: map<nat, Body>, plugin: Option<Template>)
  {
    && m.Keys == FailingPaths(rules, d, docs, plugin)
    && forall k :: 0 <= k < |rules| && RuleError(rules[k], d, docs, plugin).Some? ==>
         rules[k].path in m && m[rules[k].path] == RuleError(rules[k], d, docs, plugin).value
  }

  /** A map keyed by the entries' paths, holding their messages, reports
      exactly the failing rules. */
  lemma ErrorMap(rules: Rules, d: Body, docs: map<nat, Body>, plugin: Option<Template>, m: map<string, JsString>)
    requires m.Keys == set e | e in Errors(rules, d, docs, plugin) :: e.path
    requires forall e :: e in Errors(rules, d, docs, plugin) ==> e.path in m && m[e.path] == e.message
    ensures Reports(m, rules, d, docs, plugin)
  {
    ErrorsExact(rules, d, docs, plugin);
    var errs := Errors(rules, d, docs, plugin);
    forall p | p in m ensures p in FailingPaths(rules, d, docs, plugin) {
      var e :| e in errs && e.path == p;
      var k :| 0 <= k < |rules| && rules[k].path == e.path && RuleError(rules[k], d, docs, plugin) == Some(e.message);
    }
    forall k | 0 <= k < |rules| && RuleError(rules[k], d, docs, plugin).Some?
      ensures rules[k].path in m && m[rules[k].path] == RuleError(rules[k], d, docs, plugin).value
    {
      var e := FieldErr(rules[k].path, RuleError(rules[k], d, docs, plugin).value);
      assert e in errs;
    }
  }

  // ----- updates with `runValidators: true` -----

  /** The `$set` an update body becomes: schema paths only, cast. */
  function CastUpdate(rules: Rules, body: Body): (upd: Body)
    ensures upd.Keys == body.Keys * Paths(rules)
    ensures WellFormed(rules) ==> forall k :: 0 <= k < |rules| && rules[k].path in body ==>
              upd[rules[k].path] == Cast(rules[k].kind, body[rules[k].path])
  {
    var upd := map p | p in body.Keys * Paths(rules) :: Cast(KindOf(rules, p), body[p]);
    assert WellFormed(rules) ==> forall k :: 0 <= k < |rules| && rules[k].path in body ==>
             upd[rules[k].path] == Cast(rules[k].kind, body[rules[k].path]) by {
      if WellFormed(rules) {
        forall k | 0 <= k < |rules| && rules[k].path in body
          ensures upd[rules[k].path] == Cast(rules[k].kind, body[rules[k].path])
        {
          assert rules[k].path in Paths(rules);
          KindOfAt(rules, k);
        }
      }
    }
    upd
  }

  function KindOf(rules: Rules, p: string): Kind
  {
    if rules == [] then Text
    else if rules[0].path == p then rules[0].kind
    else KindOf(rules[1..], p)
  }

  /** The rules an update is validated with. Update validators run only
      on the paths the `$set` carries, and there every validator runs,
      `required` included: setting a required path to null or "" fails.
      A path the update leaves out raises nothing: its `required` is
      dropped, and every other validator skips an absent value. */
  function Relaxed(rules: Rules, upd: Body): (rs: Rules)
    ensures |rs| == |rules|
    ensures forall i :: 0 <= i < |rules| ==> rs[i].path == rules[i].path
    ensures forall i :: 0 <= i < |rules| && rules[i].path in upd ==> rs[i] == rules[i]
    ensures forall i :: 0 <= i < |rules| && rules[i].path !in upd ==> PathError(rs[i], None, None, false).None?
  {
    seq(|rules|, i requires 0 <= i < |rules| => if rules[i].path in upd then rules[i] else rules[i].(required := None))
  }

  /** Update validators: the `$set` validated alone, without the stored
      documents and without the uniqueness plugin. */
  function UpdateErrors(rules: Rules, upd: Body): (errs: seq<FieldErr>)
    ensures forall e :: e in errs ==> e.path in upd
    ensures forall k :: 0 <= k < |rules| && rules[k].path in upd && PathError(rules[k], Some(upd[rules[k].path]), None, false).Some? ==>
              FieldErr(rules[k].path, PathError(rules[k], Some(upd[rules[k].path]), None, false).value) in errs
  {
    ErrorsExact(Relaxed(rules, upd), upd, map[], None);
    Errors(Relaxed(rules, upd), upd, map[], None)
  }

  /** A text path of the cast update given an array or an object. */
  predicate TextCastFails(r: FieldRule, upd: Body)
  {
    r.kind == Text && r.path in upd && (upd[r.path].Arr? || upd[r.path].Obj?)
  }

  /** The update cast fails: Mongoose throws a CastError for the `$set`,
      which is not a ValidationError, before any validator runs. */
  predicate CastFails(rules: Rules, upd: Body)
  {
    exists k :: 0 <= k < |rules| && TextCastFails(rules[k], upd)
  }

  /** An update body giving an array or an object to a text path fails
      the update cast. */
  lemma CastFailsOnText(rules: Rules, body: Body, k: int)
    requires WellFormed(rules) && 0 <= k < |rules| && rules[k].kind == Text && rules[k].path in body
    requires body[rules[k].path].Arr? || body[rules[k].path].Obj?
    ensures CastFails(rules, CastUpdate(rules, body))
  {
    assert TextCastFails(rules[k], CastUpdate(rules, body));
  }

  lemma RelaxedWellFormed(rules: Rules, upd: Body)
    requires WellFormed(rules)
    ensures WellFormed(Relaxed(rules, upd))
  {
  }

  /** With distinct paths, the kind `CastUpdate` uses for a rule's path is that rule's. */
  lemma {:induction false} KindOfAt(rules: Rules, k: int)
    requires WellFormed(rules) && 0 <= k < |rules|
    ensures KindOf(rules, rules[k].path) == rules[k].kind
  {
    if k > 0 {
      assert rules[0].path != rules[k].path;
      assert WellFormed(rules[1..]) by {
        forall a, b | 0 <= a < b < |rules[1..]| ensures rules[1..][a].path != rules[1..][b].path {
          assert rules[a + 1].path != rules[b + 1].path;
        }
      }
      KindOfAt(rules[1..], k - 1);
    }
  }

  /** An update of the single path of rule `k` is cast by that rule, and
      validates exactly when that rule, `required` included, accepts the
      value. */
  lemma SinglePathUpdate(rules: Rules, k: int, v: Value)
    requires WellFormed(rules) && 0 <= k < |rules|
    ensures CastUpdate(rules, map[rules[k].path := v]) == map[rules[k].path := Cast(rules[k].kind, v)]
    ensures UpdateErrors(rules, map[rules[k].path := v]) == [] <==>
              PathError(rules[k], Some(v), None, false).None?
  {
    var p := rules[k].path;
    assert p in Paths(rules);
    var upd := map[p := v];
    var rel := Relaxed(rules, upd);
    ErrorsEmpty(rel, upd, map[], None);
    if PathError(rules[k], Some(v), None, false).None? {
      forall i | 0 <= i < |rel| ensures RuleError(rel[i], upd, map[], None).None? {
        if i != k {
          assert rules[i].path != p;
        }
      }
    } else {
      assert RuleError(rel[k], upd, map[], None).Some?;
    }
  }

  /** An update that sets a required path to a value `required` refuses
      (null, or "" on a text or number path) is reported at that path with
      the `required` message. */
  lemma RequiredOnSet(rules: Rules, k: int, v: Value)
    requires WellFormed(rules) && 0 <= k < |rules|
    requires rules[k].required.Some? && !Present(rules[k].kind, Some(v))
    requires !(rules[k].kind == Text && (v.Arr? || v.Obj?))
    ensures FieldErr(rules[k].path, rules[k].required.value) in UpdateErrors(rules, map[rules[k].path := v])
  {
    var upd := map[rules[k].path := v];
    var rel := Relaxed(rules, upd);
    assert RuleError(rel[k], upd, map[], None) == rules[k].required;
    FailingRuleReported(rel, upd, map[], None, k);
  }

  // ----- uniqueness -----

  /** Two documents hold the same value at some `unique` path. */
  predicate Clash(rules: Rules, d1: Body, d2: Body)
  {
    exists k :: 0 <= k < |rules| && rules[k].unique
      && rules[k].path in d1 && rules[k].path in d2 && d1[rules[k].path] == d2[rules[k].path]
  }

  /** What a unique index guarantees for a whole collection. */
  ghost predicate UniqueHeld(rules: Rules, docs: map<nat, Body>)
  {
    forall a, b :: a in docs && b in docs && a != b ==> !Clash(rules, docs[a], docs[b])
  }
}
