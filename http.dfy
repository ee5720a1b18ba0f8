/** What the handlers read from a request and what they answer. */
module Http {
  import opened Js
  import opened Upload

  /** The JSON bodies the handlers send, by the branch that sends them;
      the exact wording of their `mensaje` fields is not kept. */
  datatype Reply =
    | PasswordPolicy                          // 400, the password policy message
    | FieldErrors(errors: map<string, JsString>)   // 400, `{ errors }`
    | Failure                                 // `{ mensaje, error }` or `{ message }`
    | NotFound                                // 404, 'No se encontró ...'
    | Document(doc: Body)                     // the stored document
    | Documents(docs: map<nat, Body>)         // every stored document, by id
    | Deleted                                 // '... eliminado con éxito'
    | TokenRejected                           // 401, 'Error de token'
    | RoleRejected                            // 401, 'Rol no autorizado!'

  /** What reaches Express's default error handler, which answers 500. */
  datatype Cause =
    | UploadAborted(error: UploadError)       // multer calls `next(err)`
    | TypeError                               // reading `role` of undefined or null

  datatype Response =
    | Sent(status: nat, reply: Reply)
    | Forwarded(cause: Cause)
    | Unanswered    // the handler's promise rejects outside its `try`: nothing is sent

  /** What a middleware decides: continue with `next()`, or stop with a response. */
  datatype Gate = Next | Halt(response: Response)

  /** The request as the middleware and handlers see it. Header names are
      lower case, as Node stores them, so `req.get('token')` is a lookup of
      "token". */
  class Request {
    const headers: map<string, JsString>
    /** `req.params.id`, already an id of the store */
    const id: nat
    /** the file parts of a multipart body, before multer sees them */
    const parts: seq<Part>
    var body: Body
    /** `req.files`, set by multer */
    var files: seq<StoredFile>
    /** `req.usuario`; None is `undefined` */
    var usuario: Option<Value>

    constructor (headers: map<string, JsString>, id: nat, parts: seq<Part>, body: Body)
      ensures this.headers == headers && this.id == id && this.parts == parts && this.body == body
      ensures files == [] && usuario == None
    {
      this.headers := headers;
      this.id := id;
      this.parts := parts;
      this.body := body;
      files := [];
      usuario := None;
    }
  }

  /** `req.get('token')` */
  function Token(headers: map<string, JsString>): (t: Option<JsString>)
    ensures t.Some? <==> "token" in headers
    ensures t.Some? ==> t.value == headers["token"]
  {
    if "token" in headers then Some(headers["token"]) else None
  }
}
