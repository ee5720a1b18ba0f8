/** The `/new-user` and `/user` routes. Passwords are hashed by `hash`,
    which stands for `bcrypt.hashSync(_, 10)`. The four `/user` routes run
    behind `[verificarAuth, verificaRol]`; `/new-user` does not. */
module UserRoutes {
  import opened Js
  import opened Schema
  import opened Patterns
  import opened Store
  import opened Http
  import opened Auth
  import UserModel

  type Hasher = JsString -> JsString

  /** `_.pick(req.body, ['nombre', 'email', 'role', 'pass'])` */
  const Editable: set<string> := {"nombre", "email", "role", "pass"}

  ghost predicate UsersCollection(users: Collection)
    reads users
  {
    users.Valid() && users.rules == UserModel.Rules() && users.plugin == UserModel.Plugin
  }

  /** The `for (let field in error.errors)` loop building `validationErrors`. */
  method CollectErrors(errs: seq<FieldErr>) returns (m: map<string, JsString>)
    requires DistinctPaths(errs)
    ensures m.Keys == set e | e in errs :: e.path
    ensures forall e :: e in errs ==> e.path in m && m[e.path] == e.message
  {
    m := map[];
    var i := 0;
    while i < |errs|
      invariant 0 <= i <= |errs|
      invariant m.Keys == set e | e in errs[..i] :: e.path
      invariant forall j :: 0 <= j < i ==> errs[j].path in m && m[errs[j].path] == errs[j].message
    {
      m := m[errs[i].path := errs[i].message];
      i := i + 1;
    }
    assert errs[..i] == errs;
  }

  /** The `{ errors }` reply for a failed validation of `d`. */
  method ErrorReply(errs: seq<FieldErr>, ghost rules: Rules, ghost d: Body, ghost docs: map<nat, Body>,
                    ghost plugin: Option<Template>) returns (resp: Response)
    requires WellFormed(rules) && errs == Errors(rules, d, docs, plugin)
    ensures resp.Sent? && resp.status == 400 && resp.reply.FieldErrors?
    ensures Reports(resp.reply.errors, rules, d, docs, plugin)
  {
    ErrorsDistinct(rules, d, docs, plugin);
    var m := CollectErrors(errs);
    ErrorMap(rules, d, docs, plugin, m);
    resp := Sent(400, FieldErrors(m));
  }

  // ----- POST /new-user -----

  /** `bcrypt.hashSync` accepts only strings. */
  predicate PassIsString(body: Body)
  {
    "pass" in body && body["pass"].Str?
  }

  /** `req.body.pass = bcrypt.hashSync(req.body.pass, saltRounds)` */
  function Hashed(body: Body, hash: Hasher): (b: Body)
    requires PassIsString(body)
    ensures b.Keys == body.Keys
    ensures b["pass"] == Str(hash(body["pass"].s))
    ensures forall k :: k in body && k != "pass" ==> b[k] == body[k]
  {
    body["pass" := Str(hash(body["pass"].s))]
  }

  /** What is stored for a registration is the hash, never the plain text
      the policy was checked on. */
  lemma StoresHash(body: Body, hash: Hasher, now: nat)
    requires PassIsString(body)
    ensures "pass" in Build(UserModel.Rules(), Hashed(body, hash), now)
    ensures Build(UserModel.Rules(), Hashed(body, hash), now)["pass"] == Str(hash(body["pass"].s))
  {
    var rs := UserModel.Rules();
    assert rs[2] == UserModel.PassRule();
    BuildAt(rs, Hashed(body, hash), now, 2);
  }

  /** The uniqueness plugin reports a duplicate e-mail as a validation
      error, so a document that validates never trips the unique index. */
  lemma ValidatedIsUnique(d: Body, docs: map<nat, Body>)
    requires Errors(UserModel.Rules(), d, docs, UserModel.Plugin) == []
    ensures !ClashesWithStored(UserModel.Rules(), d, docs, None)
  {
    UserModel.Accepted(d, docs);
    var rs := UserModel.Rules();
    forall k | 0 <= k < |rs| && rs[k].unique ensures rs[k].path == "email" {
      assert k == 0 || k == 1 || k == 2 || k == 3 || k == 4 || k == 5;
    }
  }

  /** The unique index on `email`: no two stored users share an address. */
  lemma StoredEmailsDistinct(docs: map<nat, Body>)
    requires UniqueHeld(UserModel.Rules(), docs)
    ensures forall a, b :: a in docs && b in docs && a != b && "email" in docs[a] && "email" in docs[b] ==>
              docs[a]["email"] != docs[b]["email"]
  {
    var rs := UserModel.Rules();
    assert rs[1].unique && rs[1].path == "email";
    forall a, b | a in docs && b in docs && a != b && "email" in docs[a] && "email" in docs[b]
      ensures docs[a]["email"] != docs[b]["email"]
    {
      assert !Clash(rs, docs[a], docs[b]);
    }
  }

  /** `test(undefined)` tests the string "undefined", which has no digit:
      a registration without a password is refused by the policy. */
  lemma MissingPasswordRefused(body: Body)
    requires "pass" !in body
    ensures !StrongPassword(FieldString(body, "pass"))
  {
    var u := U("undefined");
    forall k | 0 <= k < |u| ensures !IsAsciiDigit(u[k]) {
      assert k == 0 || k == 1 || k == 2 || k == 3 || k == 4 || k == 5 || k == 6 || k == 7 || k == 8;
    }
  }

  /** `router.post('/new-user', ...)`: the policy is checked on the plain
      text first; then the hash replaces it in the body, which is created. */
  method NewUser(req: Request, users: Collection, hash: Hasher, now: nat, fault: bool) returns (resp: Response)
    requires UsersCollection(users)
    modifies req`body, users
    ensures UsersCollection(users)
    ensures !StrongPassword(FieldString(old(req.body), "pass")) ==>
              resp == Sent(400, PasswordPolicy) && req.body == old(req.body) && users.docs == old(users.docs)
    ensures StrongPassword(FieldString(old(req.body), "pass")) && !PassIsString(old(req.body)) ==>
              resp == Unanswered && req.body == old(req.body) && users.docs == old(users.docs)
    ensures StrongPassword(FieldString(old(req.body), "pass")) && PassIsString(old(req.body)) ==>
              var body := Hashed(old(req.body), hash);
              var d := Build(UserModel.Rules(), body, now);
              var errs := Errors(UserModel.Rules(), d, old(users.docs), UserModel.Plugin);
              && req.body == body
              && (errs != [] ==>
                    && resp.Sent? && resp.status == 400 && resp.reply.FieldErrors?
                    && Reports(resp.reply.errors, UserModel.Rules(), d, old(users.docs), UserModel.Plugin)
                    && users.docs == old(users.docs))
              && (errs == [] && fault ==> resp == Sent(500, Failure) && users.docs == old(users.docs))
              && (errs == [] && !fault ==>
                    && resp == Sent(200, Document(UserModel.ToJson(d)))
                    && users.docs == old(users.docs)[old(users.nextId) := d])
  {
    if !StrongPassword(FieldString(req.body, "pass")) {
      return Sent(400, PasswordPolicy);
    }
    if !PassIsString(req.body) {
      // `bcrypt.hashSync` throws before the `try`
      return Unanswered;
    }
    req.body := Hashed(req.body, hash);
    ghost var d := Build(users.rules, req.body, now);
    ghost var before := users.docs;
    var r := users.Create(req.body, now, fault);
    if r.Failed? && r.failure.Invalid? {
      resp := ErrorReply(r.failure.errors, users.rules, d, before, users.plugin);
    } else if r.Failed? {
      if !fault {
        ValidatedIsUnique(d, before);
      }
      resp := Sent(500, Failure);
    } else {
      resp := Sent(200, Document(UserModel.ToJson(r.value.1)));
    }
  }

  // ----- the routes behind [verificarAuth, verificaRol] -----

  /** The documents as `res.json` serializes them, through `toJSON`. */
  function Listing(docs: map<nat, Body>): (l: map<nat, Body>)
    ensures l.Keys == docs.Keys
    ensures forall id :: id in l ==> "pass" !in l[id] && l[id] == UserModel.ToJson(docs[id])
  {
    map id | id in docs :: UserModel.ToJson(docs[id])
  }

  /** `router.get('/user', ...)` */
  method ListUsers(req: Request, users: Collection, verify: Verifier, fault: bool) returns (resp: Response)
    requires UsersCollection(users)
    modifies req`usuario
    ensures Guard(verify, req.headers).Halt? ==> resp == Guard(verify, req.headers).response
    ensures Guard(verify, req.headers) == Next && fault ==> resp == Sent(400, Failure)
    ensures Guard(verify, req.headers) == Next && !fault ==> resp == Sent(200, Documents(Listing(users.docs)))
  {
    var g := Authorize(req, verify);
    if g.Halt? {
      return g.response;
    }
    if fault {
      return Sent(400, Failure);
    }
    resp := Sent(200, Documents(Listing(users.docs)));
  }

  /** `router.get('/user/:id', ...)` */
  method GetUser(req: Request, users: Collection, verify: Verifier, fault: bool) returns (resp: Response)
    requires UsersCollection(users)
    modifies req`usuario
    ensures Guard(verify, req.headers).Halt? ==> resp == Guard(verify, req.headers).response
    ensures Guard(verify, req.headers) == Next && fault ==> resp == Sent(400, Failure)
    ensures Guard(verify, req.headers) == Next && !fault && req.id !in users.docs ==> resp == Sent(404, NotFound)
    ensures Guard(verify, req.headers) == Next && !fault && req.id in users.docs ==>
              resp == Sent(200, Document(UserModel.ToJson(users.docs[req.id])))
  {
    var g := Authorize(req, verify);
    if g.Halt? {
      return g.response;
    }
    if fault {
      return Sent(400, Failure);
    }
    var found := users.Find(req.id);
    if found.None? {
      return Sent(404, NotFound);
    }
    resp := Sent(200, Document(UserModel.ToJson(found.value)));
  }

  /** Lines 78-80: a truthy `pass` is replaced by its hash, and
      `bcrypt.hashSync` throws (None) when it is not a string. */
  function Rehash(picked: Body, hash: Hasher): (r: Option<Body>)
    ensures r.None? <==> "pass" in picked && Truthy(picked["pass"]) && !picked["pass"].Str?
    ensures r.Some? ==> r.value.Keys == picked.Keys
    ensures r.Some? ==> forall k :: k in picked && k != "pass" ==> r.value[k] == picked[k]
    ensures r.Some? && "pass" in picked ==>
              r.value["pass"] == if Truthy(picked["pass"]) then Str(hash(picked["pass"].s)) else picked["pass"]
  {
    if "pass" in picked && Truthy(picked["pass"]) then
      if picked["pass"].Str? then Some(picked["pass" := Str(hash(picked["pass"].s))]) else None
    else Some(picked)
  }

  /** `_.pick`: the whitelisted keys the body has, with their values. */
  function Pick(body: Body, keys: set<string>): (r: Body)
    ensures r.Keys == body.Keys * keys
    ensures forall k :: k in r ==> r[k] == body[k]
  {
    map k | k in body.Keys * keys :: body[k]
  }

  /** `router.put('/user/:id', ...)` */
  method UpdateUser(req: Request, users: Collection, verify: Verifier, hash: Hasher, fault: bool) returns (resp: Response)
    requires UsersCollection(users)
    modifies req`usuario, users
    ensures UsersCollection(users)
    ensures Guard(verify, req.headers).Halt? ==>
              resp == Guard(verify, req.headers).response && users.docs == old(users.docs)
    ensures Guard(verify, req.headers) == Next && Rehash(Pick(req.body, Editable), hash).None? ==>
              resp == Unanswered && users.docs == old(users.docs)
    ensures Guard(verify, req.headers) == Next && Rehash(Pick(req.body, Editable), hash).Some? ==>
              var upd := CastUpdate(UserModel.Rules(), Rehash(Pick(req.body, Editable), hash).value);
              var errs := UpdateErrors(UserModel.Rules(), upd);
              && (CastFails(UserModel.Rules(), upd) ==> resp == Sent(500, Failure) && users.docs == old(users.docs))
              && (!CastFails(UserModel.Rules(), upd) && errs != [] ==>
                    && resp.Sent? && resp.status == 400 && resp.reply.FieldErrors?
                    && Reports(resp.reply.errors, Relaxed(UserModel.Rules(), upd), upd, map[], None)
                    && users.docs == old(users.docs))
              && (!CastFails(UserModel.Rules(), upd) && errs == [] && fault ==> resp == Sent(500, Failure) && users.docs == old(users.docs))
              && (!CastFails(UserModel.Rules(), upd) && errs == [] && !fault && req.id !in old(users.docs) ==>
                    resp == Sent(404, NotFound) && users.docs == old(users.docs))
              && (!CastFails(UserModel.Rules(), upd) && errs == [] && !fault && req.id in old(users.docs) ==>
                    var nd := old(users.docs)[req.id] + upd;
                    && (ClashesWithStored(UserModel.Rules(), nd, old(users.docs), Some(req.id)) ==>
                          resp == Sent(500, Failure) && users.docs == old(users.docs))
                    && (!ClashesWithStored(UserModel.Rules(), nd, old(users.docs), Some(req.id)) ==>
                          resp == Sent(200, Document(UserModel.ToJson(nd))) && users.docs == old(users.docs)[req.id := nd]))
  {
    var g := Authorize(req, verify);
    if g.Halt? {
      return g.response;
    }
    var body := Rehash(Pick(req.body, Editable), hash);
    if body.None? {
      // `bcrypt.hashSync` throws before the `try`
      return Unanswered;
    }
    ghost var upd := CastUpdate(users.rules, body.value);
    var r := users.Update(req.id, body.value, fault);
    match r
    case Failed(Invalid(errs)) =>
      RelaxedWellFormed(users.rules, upd);
      resp := ErrorReply(errs, Relaxed(users.rules, upd), upd, map[], None);
    case Failed(_) =>
      resp := Sent(500, Failure);
    case Done(None) =>
      resp := Sent(404, NotFound);
    case Done(Some(nd)) =>
      resp := Sent(200, Document(UserModel.ToJson(nd)));
  }

  /** The update route checks no password policy on the plain text: the
      schema's validator sees only the hash, so a one-letter password is
      accepted whenever its hash passes the policy. */
  lemma UpdateSkipsPolicy(hash: Hasher)
    requires StrongPassword(hash(U("a")))
    ensures !StrongPassword(U("a"))
    ensures var upd := CastUpdate(UserModel.Rules(), Rehash(Pick(map["pass" := Str(U("a"))], Editable), hash).value);
            "pass" in upd && upd["pass"] == Str(hash(U("a"))) && UpdateErrors(UserModel.Rules(), upd) == []
  {
    var picked := Pick(map["pass" := Str(U("a"))], Editable);
    assert picked == map["pass" := Str(U("a"))];
    assert Rehash(picked, hash).value == map["pass" := Str(hash(U("a")))];
    PasswordOnlyUpdate(hash(U("a")));
  }

  /** An update that sets only a password meeting the policy casts to
      itself and validates. */
  lemma PasswordOnlyUpdate(h: JsString)
    requires StrongPassword(h)
    ensures CastUpdate(UserModel.Rules(), map["pass" := Str(h)]) == map["pass" := Str(h)]
    ensures UpdateErrors(UserModel.Rules(), map["pass" := Str(h)]) == []
  {
    var rs := UserModel.Rules();
    var r := rs[2];
    assert r.path == "pass" && r.kind == Text;
    assert PathError(r, Some(Str(h)), None, false).None? by {
      assert r.pattern.None? && r.choices.None? && !r.unique;
      assert r.custom.Some? && r.custom.value.test == StrongPassword;
    }
    SinglePathUpdate(rs, 2, Str(h));
  }

  /** `router.delete('/user/:id', ...)`: `findById`, then
      `findByIdAndDelete`; either may fail. */
  method DeleteUser(req: Request, users: Collection, verify: Verifier, findFault: bool, deleteFault: bool)
    returns (resp: Response)
    requires UsersCollection(users)
    modifies req`usuario, users
    ensures UsersCollection(users)
    ensures Guard(verify, req.headers).Halt? ==>
              resp == Guard(verify, req.headers).response && users.docs == old(users.docs)
    ensures Guard(verify, req.headers) == Next && findFault ==> resp == Sent(400, Failure) && users.docs == old(users.docs)
    ensures Guard(verify, req.headers) == Next && !findFault && req.id !in old(users.docs) ==>
              resp == Sent(404, NotFound) && users.docs == old(users.docs)
    ensures Guard(verify, req.headers) == Next && !findFault && req.id in old(users.docs) && deleteFault ==>
              resp == Sent(400, Failure) && users.docs == old(users.docs)
    ensures Guard(verify, req.headers) == Next && !findFault && req.id in old(users.docs) && !deleteFault ==>
              resp == Sent(200, Deleted) && users.docs == old(users.docs) - {req.id}
  {
    var g := Authorize(req, verify);
    if g.Halt? {
      return g.response;
    }
    if findFault {
      return Sent(400, Failure);
    }
    var found := users.Find(req.id);
    if found.None? {
      return Sent(404, NotFound);
    }
    var r := users.Delete(req.id, deleteFault);
    if r.Failed? {
      return Sent(400, Failure);
    }
    resp := Sent(200, Deleted);
  }
}
