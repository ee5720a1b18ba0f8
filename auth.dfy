/** The two middlewares that guard the `/user` routes: `verificarAuth`
    checks the token and records its `data` payload in `req.usuario`;
    `verificaRol` lets only the `ADMIN` role through. `jwt.verify(token,
    'secret')` is the parameter `verify`. */
module Auth {
  import opened Js
  import opened Http
  import UserModel

  /** The callback outcome of `jwt.verify`: an error, or the decoded payload. */
  datatype Verified = Rejected | Decoded(payload: Body)

  /** `jwt.verify` applied to the header's value. jsonwebtoken rejects an
      undefined or empty token ("jwt must be provided") before it looks at
      the signature; every other token is left to the parameter. */
  type Verifier = f: Option<JsString> -> Verified | f(None).Rejected? && f(Some([])).Rejected?
    witness (t: Option<JsString>) => Rejected

  /** `decoded.data` */
  function Data(payload: Body): Option<Value>
  {
    if "data" in payload then Some(payload["data"]) else None
  }

  predicate IsAdmin(usuario: Option<Value>)
  {
    usuario.Some? && usuario.value.Obj? && "role" in usuario.value.fields
    && usuario.value.fields["role"] == Str(UserModel.Admin)
  }

  /** `verificaRol`: `req.usuario.role !== 'ADMIN'` answers 401; reading
      `role` of undefined or null throws. */
  function VerificaRol(usuario: Option<Value>): (g: Gate)
    ensures g == Next <==> IsAdmin(usuario)
    ensures (usuario.None? || usuario == Some(Null)) ==> g == Halt(Forwarded(TypeError))
    ensures usuario.Some? && usuario.value != Null && !IsAdmin(usuario) ==> g == Halt(Sent(401, RoleRejected))
  {
    match usuario
    case None => Halt(Forwarded(TypeError))
    case Some(Null) => Halt(Forwarded(TypeError))
    case Some(Obj(fields)) =>
      if "role" in fields && fields["role"] == Str(UserModel.Admin) then Next else Halt(Sent(401, RoleRejected))
    case Some(_) => Halt(Sent(401, RoleRejected))
  }

  /** The comparison is exact: only the string `ADMIN` itself is admitted. */
  lemma RoleExactMatch(role: Value)
    ensures VerificaRol(Some(Obj(map["role" := role]))) == Next <==> role == Str(U("ADMIN"))
    ensures VerificaRol(Some(Obj(map["role" := Str(U("admin"))]))) == Halt(Sent(401, RoleRejected))
  {
    assert U("admin") != U("ADMIN") by {
      assert U("admin")[0] != U("ADMIN")[0];
    }
  }

  /** `verificarAuth`. */
  method VerificarAuth(req: Request, verify: Verifier) returns (g: Gate)
    modifies req`usuario
    ensures verify(Token(req.headers)).Rejected? ==>
              g == Halt(Sent(401, TokenRejected)) && req.usuario == old(req.usuario)
    ensures verify(Token(req.headers)).Decoded? ==>
              g == Next && req.usuario == Data(verify(Token(req.headers)).payload)
  {
    var token := Token(req.headers);
    match verify(token)
    case Rejected =>
      g := Halt(Sent(401, TokenRejected));
    case Decoded(payload) =>
      req.usuario := Data(payload);
      g := Next;
  }

  /** What `[verificarAuth, verificaRol]` decide for a request. */
  function Guard(verify: Verifier, headers: map<string, JsString>): (g: Gate)
    ensures g.Halt? && g.response.Sent? ==> g.response.status == 401
    ensures g.Halt? && !g.response.Sent? ==> g.response == Forwarded(TypeError)
    ensures g == Next ==> verify(Token(headers)).Decoded?
  {
    match verify(Token(headers))
    case Rejected => Halt(Sent(401, TokenRejected))
    case Decoded(payload) => VerificaRol(Data(payload))
  }

  /** A request passes both middlewares exactly when its token verifies and
      the payload's `data` carries the role `ADMIN`. */
  lemma GuardAdmits(verify: Verifier, headers: map<string, JsString>)
    ensures Guard(verify, headers) == Next <==>
              verify(Token(headers)).Decoded? && IsAdmin(Data(verify(Token(headers)).payload))
  {
  }

  /** A request without a token, or with an empty one, is answered 401
      by `verificarAuth`. */
  lemma MissingTokenRejected(verify: Verifier, headers: map<string, JsString>)
    requires "token" !in headers || headers["token"] == []
    ensures Guard(verify, headers) == Halt(Sent(401, TokenRejected))
  {
  }

  /** Runs `verificarAuth` and, when it calls `next`, `verificaRol`. */
  method Authorize(req: Request, verify: Verifier) returns (g: Gate)
    modifies req`usuario
    ensures g == Guard(verify, req.headers)
    ensures verify(Token(req.headers)).Rejected? ==> req.usuario == old(req.usuario)
    ensures verify(Token(req.headers)).Decoded? ==> req.usuario == Data(verify(Token(req.headers)).payload)
  {
    g := VerificarAuth(req, verify);
    if g == Next {
      g := VerificaRol(req.usuario);
    }
  }
}
