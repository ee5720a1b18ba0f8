# e-commerce backend: validation, upload and authorization rules

This project models the request-handling core of a small Express/Mongoose
shop backend:

- user registration (`POST /new-user`) and the four user routes behind the
  token and role middlewares;
- the five product routes and their multer upload configuration;
- the two Mongoose schemas (users and products);
- the `verificarAuth` / `verificaRol` middlewares.

What is modelled, in the system's own terms:

- **Strings** are JavaScript strings: sequences of UTF-16 code units
  (`Js.JsString`). Literals are converted with `Js.U`.
- **Regular expressions.** Every regular expression of the core is written
  as a term of a small regex language, `RegExp.Regex`. Its meaning is a
  match relation (`RegExp.Matches`) and `RegExp.Test` (`regex.test(s)`).
  Each pattern is also stated as a plain predicate, such as
  `Patterns.StrongPassword` or `Patterns.ValidEmail`, and a lemma proves
  the two agree on every string. `\s` is the exact ECMAScript set of white
  space and line terminators, not an ASCII subset. `.` excludes the four
  line terminators.
- **Schemas.** A schema is a sequence of field rules (`Schema.FieldRule`)
  run by one interpreter. `Schema.Build` is `new Model(body)` in strict
  mode: unknown keys are dropped, present keys are cast, absent keys get
  their defaults. `Schema.Errors` is the `ValidationError.errors` list, in
  schema order, one entry per failing path. The first failing check of a
  path wins, in this order:
  1. the cast;
  2. `required`;
  3. `match`;
  4. `enum`;
  5. `validate`;
  6. the uniqueness plugin.
- **Updates.** `findByIdAndUpdate` with `runValidators` casts the update
  to schema paths (`Schema.CastUpdate`). Its validators run on the paths
  the update sets and on no others, `required` included, so setting a
  required path to null or "" fails (`Schema.UpdateErrors`). An array or
  an object given to a text path makes the cast itself throw a CastError
  (`Schema.CastFails`) before any validator runs. Both happen before the
  document is looked up.
- **The store.** A collection is a class holding a map from ids to
  documents (`Store.Collection`). Its invariant is the unique index. A
  `fault` flag stands for every other database error: an id that is not
  an ObjectId, a lost connection.
- **Requests** are a class (`Http.Request`). Its `body`, `files` and
  `usuario` fields are updated in place by the handlers and middlewares,
  as in the source.
- **Outcomes.** A handler answers in one of three ways:
  - `Sent(status, reply)`;
  - `Forwarded(cause)`: the error reaches Express's default handler
    through `next(err)` or a throw in synchronous middleware;
  - `Unanswered`: the async handler's promise rejects outside its `try`.
- **Opaque calls** are parameters: `bcrypt.hashSync` is `hash`,
  `jwt.verify(token, 'secret')` is `verify`, and `Date.now()` is `now` or
  `clock`.

The two routers are modelled as if mounted on an application with a JSON
body parser. `index.js` as shipped mounts neither.

The update route checks no password policy on the new plain-text password.
The schema's `pass` validator sees only the bcrypt hash.
`UserRoutes.UpdateSkipsPolicy` states the consequence: the one-letter
password "a" is accepted whenever its hash passes the policy.

## Model

| member | source | states |
|---|---|---|
| Patterns.PasswordTest | routes/user.js:15 | the policy regex matches exactly the strings of at least 8 code units, none a line terminator, holding a lower case letter, an upper case letter, a digit and one of `@$!%*?&` |
| Js.ToString | routes/user.js:16 | `String()`: a string is itself; a non-negative number is exactly its `Decimal` digits (whose value is the number), a negative one is `-` followed by the digits of its magnitude |
| Js.FieldString | routes/user.js:16 | `String(req.body.pass)`: a string value is itself, and an absent key gives "undefined" |
| UserRoutes.MissingPasswordRefused | routes/user.js:16 | a body without `pass` tests the string "undefined", which fails the policy |
| UserRoutes.Hashed | routes/user.js:23 | the body keeps its keys, `pass` becomes the hash of the submitted string, and every other key keeps its value |
| UserRoutes.StoresHash | routes/user.js:23-26 | the document built for a registration stores the hash at `pass`, not the plain text |
| UserRoutes.CollectErrors | routes/user.js:30-33 | the loop's map has exactly the entries' paths as keys, each mapped to that entry's message |
| UserRoutes.ErrorReply | routes/user.js:29-34 | a 400 `{ errors }` reply whose map reports exactly the failing rules, each with its own message |
| Schema.ErrorMap | routes/user.js:30-34 | a map built from the error entries has exactly the failing paths as keys, each holding that rule's message |
| Schema.ErrorsExact | routes/user.js:31-32 | every error entry names a failing rule with its message, and every failing rule has an entry |
| Schema.ErrorsDistinct | routes/user.js:31-32 | with distinct schema paths, no path is reported twice |
| Schema.ErrorsEmpty | routes/user.js:25-29 | validation passes exactly when no rule fails |
| UserRoutes.NewUser | routes/user.js:11-39 | a weak password (or a missing one) gives 400 with body and store unchanged; a strong password that is not a string rejects unanswered; otherwise the hash replaces it, a validation failure gives 400 with the exact error map, another failure gives 500, and success stores the document under a fresh id and answers it without `pass` |
| UserRoutes.ValidatedIsUnique | models/user.js:50 | a user document that passes validation, plugin included, never clashes with a stored one on the unique index |
| UserRoutes.StoredEmailsDistinct | models/user.js:20 | no two stored users share an e-mail address |
| UserRoutes.Listing | routes/user.js:44-45 | every listed user is the stored one without `pass`, under the same ids |
| UserRoutes.ListUsers | routes/user.js:42-52 | behind the two middlewares: a store error gives 400, otherwise 200 with every user without `pass` |
| UserRoutes.GetUser | routes/user.js:55-71 | behind the two middlewares: a store error gives 400, an unknown id 404, a known id 200 with that user without `pass` |
| UserRoutes.Pick | routes/user.js:76 | the result keeps exactly the whitelisted keys the body has, with their values |
| UserRoutes.Rehash | routes/user.js:78-80 | a truthy `pass` is replaced by its hash and every other key is kept; a falsy one is left alone; a truthy non-string makes `hashSync` throw |
| UserRoutes.UpdateUser | routes/user.js:74-106 | behind the two middlewares: a throwing hash rejects unanswered; an array or object for a text path is a CastError answered 500; invalid fields give 400 with the exact error map, and other failures 500; an unknown id gives 404; otherwise the stored user takes the updated paths and is answered without `pass`; the store changes only on success |
| UserRoutes.UpdateSkipsPolicy | routes/user.js:78-87 | a plain-text password that fails the policy is accepted on update when its hash passes it |
| UserRoutes.DeleteUser | routes/user.js:109-130 | behind the two middlewares: a lookup or delete error gives 400 and an unknown id 404, both leaving the store unchanged; otherwise exactly that user is removed |
| Js.ToLowerAscii | routes/product.js:27 | the same length, every upper-case ASCII letter lowered and nothing else changed, so no upper-case letter is left |
| Upload.FileFilterTest | routes/product.js:24-29 | a file passes exactly when the image-type regex finds a match in its MIME type and in its lower-cased original name |
| Patterns.ImageTypesTest | routes/product.js:25 | the regex finds a match exactly when `jpeg`, `jpg` or `png` occurs somewhere in the string |
| Upload.SubstringNotSuffix | routes/product.js:25-27 | `photo.png.exe` passes the filter: the test is a substring match, not a suffix match |
| Upload.CaseSensitivity | routes/product.js:26-27 | the name is lower-cased before the test (`PHOTO.JPG` passes) but the MIME type is not (`IMAGE/JPEG` fails) |
| Upload.RejectedFileAborts | routes/product.js:29-33 | a named file the filter refuses makes the whole upload fail |
| Upload.FilterError | routes/product.js:30-33 | when a named file of the `fotos` field that the filter refuses comes first among the parts that fail, the upload fails with the image type error |
| Upload.PartError | routes/product.js:18-34 | a part fails exactly when it is past the 4-file count, or has a name and is outside the `fotos` field, refused by the filter or larger than 5·1024·1024 bytes; the count is checked first, and a nameless part within the count raises nothing |
| Upload.Named | routes/product.js:38 | the positions of the named parts, in increasing order, each of them and no other |
| Upload.AdmitFrom | routes/product.js:18-34 | the upload succeeds exactly when every part is within the 4-file count and is nameless or admissible; it then yields one stored file per named part, in arrival order, with its name and path; a failure carries the error of the first part that fails |
| Upload.Admit | routes/product.js:18-38 | a request's files are admitted exactly when there are at most 4 and each is nameless or admissible |
| Upload.EmptyNameSkipped | routes/product.js:38 | a file input left empty does not abort the upload: the request goes on with no file |
| Upload.StoredName | routes/product.js:13-15 | the stored name is the decimal timestamp, then `-`, then the original name, which it ends with |
| Js.DecimalDigits | routes/product.js:14 | the decimal form of a timestamp is a non-empty digit string without a leading zero that denotes the timestamp itself |
| Upload.StoredPath | routes/product.js:10-15 | the reported path is `uploads/` followed by the stored file name, so it ends with the original name |
| ProductRoutes.Receive | routes/product.js:38 | a refused upload is forwarded with its error and `req.files` unchanged; an admitted one sets `req.files` to the stored files and continues |
| ProductRoutes.WithFotos | routes/product.js:42-45 | with at least one file, `fotos` becomes the list of their paths whatever it held; without files the body is unchanged; other keys keep their values |
| ProductRoutes.ReplaceFotos | routes/product.js:115-118 | the request body becomes the body with `fotos` replaced by the uploaded paths |
| ProductRoutes.FilePaths | routes/product.js:43 | one entry per file, in order, each the file's path as a string |
| ProductRoutes.UploadedFotos | routes/product.js:42-48 | a created product's `fotos` are the stored paths of the named parts, one per named part and in arrival order |
| ProductRoutes.NewProduct | routes/product.js:38-56 | a refused upload is forwarded with the body and store unchanged; otherwise the photos replace `fotos`, any failure of `create` (validation included) gives 500 with the store unchanged, and success stores the product under a fresh id and answers it |
| ProductRoutes.GetProduct | routes/product.js:59-75 | a store error gives 400, an unknown id 404, a known id 200 with the product |
| ProductRoutes.ListProducts | routes/product.js:78-88 | a store error gives 400, otherwise 200 with every product |
| ProductRoutes.DeleteProduct | routes/product.js:91-107 | a store error gives 400 and an unknown id 404, both leaving the store unchanged; otherwise exactly that product is removed |
| ProductRoutes.UpdateProduct | routes/product.js:110-139 | a refused upload is forwarded; a failed cast, invalid fields, store errors and duplicate codes give 400; an unknown id gives 404; otherwise the product takes the updated paths; the store changes only on success |
| UserModel.Rules | models/user.js:12-47 | the user schema's rules have distinct paths |
| Patterns.LetterWordsTest | models/user.js:16 | the name regex matches exactly the strings made of ASCII-letter words separated by single white space characters |
| UserModel.NombreRuleMeaning | models/user.js:13-17 | `nombre`: the empty string is reported as missing; otherwise it fails exactly when the letters-words regex does not match |
| Patterns.EmailTest | models/user.js:22 | the unanchored e-mail regex matches exactly the strings holding somewhere non-space⁺ `@` non-space⁺ `.` non-space⁺ |
| UserModel.EmailRuleMeaning | models/user.js:18-23 | `email`: missing, malformed, already taken (the plugin's 'Error, esperaba email único.') or accepted, in that order |
| UserModel.PassRuleMeaning | models/user.js:24-33 | `pass`: the empty string is reported as missing; otherwise it fails with the policy message exactly when the route's policy regex does not match |
| UserModel.RoleRuleMeaning | models/user.js:38-42 | a role string passes exactly when it is `ADMIN` or `CLIENT`; any other is reported as the value followed by " no es un rol válido" |
| UserModel.RequiredFields | models/user.js:15-26 | a user without `nombre`, `email` or `pass` is reported on that path with its required message |
| UserModel.RoleDefault | models/user.js:38-41 | a new user without `role` gets `CLIENT` |
| UserModel.ActivoDefault | models/user.js:43-46 | a new user without `activo` gets `true` |
| UserModel.DateDefault | models/user.js:34-37 | a new user without `date` gets the current time |
| UserModel.Accepted | models/user.js:12-50 | a user that validates has a letters-words name, a well-formed e-mail no stored user holds, a password meeting the policy, and a listed role |
| UserModel.ToJson | models/user.js:53-57 | the JSON form has no `pass` key, and every other key and value equals the stored document's |
| ProductModel.Rules | models/product.js:5-46 | the product schema's rules have distinct paths |
| Patterns.CodeTest | models/product.js:10 | the code regex matches exactly the non-empty strings of ASCII letters, digits and `-` |
| ProductModel.CodigoRuleMeaning | models/product.js:6-11 | `codigo`: the empty string is reported as missing; otherwise it fails exactly when the code regex does not match |
| Patterns.ProductNameTest | models/product.js:15 | the product name regex matches exactly the words over `a-zA-Z0-9._-+[]` separated by single white space characters |
| ProductModel.NombreRuleMeaning | models/product.js:12-16 | `nombre`: the empty string is reported as missing; otherwise it fails exactly when the product name regex does not match |
| ProductModel.CategoriaRuleMeaning | models/product.js:25-29 | `categoria`: the empty string is reported as missing; otherwise it fails exactly when the letters-words regex does not match |
| ProductModel.RequiredNumbers | models/product.js:17-24 | a product without `precio` or `stock`, or with either null, is reported on that path |
| ProductModel.DefaultFotosApplied | models/product.js:30-37 | a new product without `fotos` gets a list of four entries, each `uploads/default1.jpg` |
| ProductModel.ActivoDefault | models/product.js:42-45 | a new product without `activo` gets `true` |
| ProductModel.DateDefault | models/product.js:38-41 | a new product without `date` gets the current time |
| ProductModel.Accepted | models/product.js:5-46 | a product that validates has a valid code, name and category and non-null price and stock |
| Schema.Cast | models/product.js:5-46 | a text path never holds a number or a boolean and keeps the value's `String()` form; a list path holds a list or null, as long as a given list; other paths keep the value as given |
| Schema.CastText | models/user.js:13-17 | a number or boolean given to a text path becomes a string with the same `String()` form; nothing else is changed |
| Schema.PathError | models/user.js:12-50 | an absent value fails only `required`, with its message; a path has no error exactly when every check that applies to its value passes |
| Schema.Errors | routes/user.js:29-33 | at most one error entry per rule; Schema.ErrorsExact states which |
| Schema.BuildAt | models/product.js:30-45 | a built document holds a schema path exactly when the body had it (cast) or the rule has a default, and then holds that value |
| Schema.Build | models/user.js:12-47 | a built document holds only schema paths |
| Schema.CastUpdate | routes/user.js:83-87 | the update keeps exactly the body's schema paths, and each value is cast by its own path's rule |
| Schema.Relaxed | routes/user.js:86 | update validation keeps each rule's path, runs the rule whole on a path the update sets, and raises nothing for a path the update leaves out |
| Schema.UpdateErrors | routes/user.js:86 | `runValidators`: every reported entry is for a path the update sets, and every set path whose rule fails on the value is reported with that rule's message |
| Schema.CastFailsOnText | routes/user.js:83-87 | an array or an object given to a text path makes the update's cast fail |
| UserModel.ArrayNameFailsCast | routes/user.js:83-87 | setting `nombre` to an array fails the cast rather than validation |
| Schema.SinglePathUpdate | routes/user.js:83-87 | an update of one schema path is cast by that path's rule and validates exactly when that rule, `required` included, accepts the value |
| Schema.RequiredOnSet | routes/product.js:121-125 | an update that sets a required path to null, or to "" on a text or number path, is reported at that path with the `required` message |
| UserModel.EmptyNameUpdateRefused | routes/user.js:83-87 | an update setting `nombre` to "" or null is refused with 'El nombre es necesario' |
| ProductModel.NullPriceUpdateRefused | routes/product.js:121-125 | an update setting `precio` to null is refused with 'Precio obligatorio' |
| Store.Collection.Create | routes/user.js:26 | validation errors, then a database fault, then a duplicate key, each leaving the store unchanged; otherwise the document is inserted under a fresh id and the unique index still holds |
| Store.Collection.Find | routes/user.js:58 | the document stored under the id, or none exactly when there is none |
| Store.Collection.Update | routes/user.js:83-87 | a failed cast, then invalid updates, fail before the lookup; then a fault; a missing id gives none; a duplicate fails; otherwise the stored document takes the updated paths, the rest of the store is unchanged and the index holds |
| Store.Collection.Delete | routes/user.js:121 | a fault changes nothing; a missing id gives none; otherwise exactly that document is removed and returned |
| Store.StoreKeepsUnique | models/user.js:20 | storing a document that clashes with no other stored one keeps the unique index intact |
| Http.Token | middlewares/autenticacion.js:6 | the `token` header's value, or undefined exactly when the request has none |
| Auth.MissingTokenRejected | middlewares/autenticacion.js:6-15 | a request without a token, or with an empty one, is answered 401 |
| Auth.VerificarAuth | middlewares/autenticacion.js:3-23 | the token comes from the `token` header; a failed verification answers 401 and leaves `req.usuario` alone; a good one sets `req.usuario` to the payload's `data` and continues |
| Auth.VerificaRol | middlewares/autenticacion.js:25-35 | continues exactly when `req.usuario.role` is the string `ADMIN`; other roles answer 401; an undefined or null `req.usuario` throws |
| Auth.RoleExactMatch | middlewares/autenticacion.js:27-29 | the role comparison is exact, so `admin` is rejected with 401 |
| Auth.Guard | routes/user.js:42 | `[verificarAuth, verificaRol]`: a request it stops is answered 401 or throws the TypeError of a missing `req.usuario`; one it lets through carried a token that verified |
| Auth.GuardAdmits | routes/user.js:42 | a request passes `[verificarAuth, verificaRol]` exactly when its token verifies and the payload's `data` has the role `ADMIN` |
| Auth.Authorize | routes/user.js:55 | running both middlewares gives the combined decision, with `req.usuario` set as `verificarAuth` sets it |

## Left out

- bcrypt and JWT are opaque parameters (`hash`, `verify`). Their cryptography, salts and token signing are not modelled.
- `routes/login.js` is not part of this model.
- `index.js` (server start-up, database connection, listening) is not part of this model; it mounts neither router.
- Schema.Build: values of the `Number`, `Date` and `Boolean` paths are kept as given. Mongoose's casts for those types, and their cast errors, are not modelled.
- Schema.PathError: of the cast errors, only arrays and objects given to a text path are modelled.
- Schema.PathError: the enum validator lets null through, which follows Mongoose's string enum check.
- Numbers are integers. Floating point prices and `NaN` are not modelled.
- Js.ToLowerAscii: only ASCII letters are lower-cased. No non-ASCII character lower-cases into the letters of `jpeg`, `jpg` or `png`, so the filter's outcome is the same.
- Store.Collection.Create: MongoDB ObjectIds are a counter, and the store does not add `_id`, `__v` or other bookkeeping keys.
- Store.Collection.Update: uniqueness on update is only the store's unique index; the plugin is not consulted. MongoDB's rules for null and missing values in unique indexes are not modelled.
- Store.Collection.Update: the order between the id cast error and the update's own cast and validation is fixed as the update first.
- UserRoutes.Listing and ProductRoutes.ListProducts: `find()` returns documents in an order that a map does not keep.
- Schema.CastMessage: a text path given an array or an object reports "Cast to string failed", only the start of Mongoose's CastError message; the value and path it goes on to name are not modelled.
- Http.Reply: only the status and which branch answered are kept. The response texts, the `error` fields and the exact JSON bodies are not.
- Express routing, the default error handler's page, the unhandled-rejection behaviour of Node, `console.log` and the asynchronous ordering of callbacks are not modelled.
- Multer's streaming, disk writes and the clean-up of partially written files are not modelled. Only the admission decision, the order of its checks, the skip of nameless parts, the limits and the naming are.
- Between the lookup and the delete of `DELETE /user/:id`, the model sees no concurrent request.
