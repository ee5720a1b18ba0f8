/** The product routes. None of them is guarded; the create and update
    routes first run `upload.array('fotos', 4)`. */
module ProductRoutes {
  import opened Js
  import opened Schema
  import opened Upload
  import opened Store
  import opened Http
  import ProductModel

  ghost predicate ProductsCollection(products: Collection)
    reads products
  {
    products.Valid() && products.rules == ProductModel.Rules() && products.plugin == ProductModel.Plugin
  }

  /** `upload.array('fotos', 4)`: stores the admitted files in `req.files`,
      or passes the first error to `next(err)`. */
  method Receive(req: Request, clock: nat -> nat) returns (g: Gate)
    modifies req`files
    ensures Admit(req.parts, clock).Err? ==>
              g == Halt(Forwarded(UploadAborted(Admit(req.parts, clock).error))) && req.files == old(req.files)
    ensures Admit(req.parts, clock).Ok? ==> g == Next && req.files == Admit(req.parts, clock).value
  {
    var r := Admit(req.parts, clock);
    if r.Err? {
      return Halt(Forwarded(UploadAborted(r.error)));
    }
    req.files := r.value;
    g := Next;
  }

  /** `files.map(file => file.path)` */
  function FilePaths(files: seq<StoredFile>): (r: seq<Value>)
    ensures |r| == |files|
    ensures forall i :: 0 <= i < |files| ==> r[i] == Str(files[i].path)
  {
    seq(|files|, i requires 0 <= i < |files| => Str(files[i].path))
  }

  /** The body after lines 42-45: uploaded files replace `fotos`, whatever
      the body held there; without files the body is kept. */
  function WithFotos(body: Body, files: seq<StoredFile>): (b: Body)
    ensures |files| == 0 ==> b == body
    ensures |files| > 0 ==> b.Keys == body.Keys + {"fotos"} && b["fotos"] == Arr(FilePaths(files))
    ensures forall k :: k in body && k != "fotos" ==> k in b && b[k] == body[k]
  {
    if |files| > 0 then body["fotos" := Arr(FilePaths(files))] else body
  }

  method ReplaceFotos(req: Request)
    modifies req`body
    ensures req.body == WithFotos(old(req.body), req.files)
  {
    if |req.files| > 0 {
      req.body := req.body["fotos" := Arr(FilePaths(req.files))];
    }
  }

  /** A created product's `fotos` are the stored files' paths, in arrival
      order, nameless parts left out: each is under `uploads/` and ends
      with the file's own name. */
  lemma {:induction false} UploadedFotos(parts: seq<Part>, clock: nat -> nat, body: Body, now: nat)
    requires Admit(parts, clock).Ok? && |Admit(parts, clock).value| > 0
    ensures var d := Build(ProductModel.Rules(), WithFotos(body, Admit(parts, clock).value), now);
            var n := Named(parts, 0);
            && "fotos" in d && d["fotos"].Arr? && |d["fotos"].items| == |n|
            && forall i :: 0 <= i < |n| ==>
                 d["fotos"].items[i] == Str(StoredPath(clock(n[i]), parts[n[i]].originalname))
  {
    var files := Admit(parts, clock).value;
    var n := Named(parts, 0);
    var rs := ProductModel.Rules();
    assert rs[5] == ProductModel.FotosRule();
    BuildAt(rs, WithFotos(body, files), now, 5);
    var d := Build(rs, WithFotos(body, files), now);
    forall i | 0 <= i < |n| ensures d["fotos"].items[i] == Str(StoredPath(clock(n[i]), parts[n[i]].originalname)) {
      assert StoredAs(files[i], parts, n[i], clock);
    }
  }

  /** `router.post('/new-product', ...)`: every failure of `create`,
      validation included, is answered 500. */
  method NewProduct(req: Request, products: Collection, clock: nat -> nat, now: nat, fault: bool)
    returns (resp: Response)
    requires ProductsCollection(products)
    modifies req`files, req`body, products
    ensures ProductsCollection(products)
    ensures Admit(req.parts, clock).Err? ==>
              && resp == Forwarded(UploadAborted(Admit(req.parts, clock).error))
              && req.body == old(req.body) && products.docs == old(products.docs)
    ensures Admit(req.parts, clock).Ok? ==>
              var body := WithFotos(old(req.body), Admit(req.parts, clock).value);
              var d := Build(ProductModel.Rules(), body, now);
              var failed := Errors(ProductModel.Rules(), d, old(products.docs), ProductModel.Plugin) != [] || fault
                            || ClashesWithStored(ProductModel.Rules(), d, old(products.docs), None);
              && req.body == body
              && (failed ==> resp == Sent(500, Failure) && products.docs == old(products.docs))
              && (!failed ==> resp == Sent(200, Document(d))
                              && products.docs == old(products.docs)[old(products.nextId) := d])
  {
    var g := Receive(req, clock);
    if g.Halt? {
      return g.response;
    }
    ReplaceFotos(req);
    var r := products.Create(req.body, now, fault);
    if r.Failed? {
      return Sent(500, Failure);
    }
    resp := Sent(200, Document(r.value.1));
  }

  /** `router.get('/product/:id', ...)` */
  method GetProduct(req: Request, products: Collection, fault: bool) returns (resp: Response)
    requires ProductsCollection(products)
    ensures fault ==> resp == Sent(400, Failure)
    ensures !fault && req.id !in products.docs ==> resp == Sent(404, NotFound)
    ensures !fault && req.id in products.docs ==> resp == Sent(200, Document(products.docs[req.id]))
  {
    if fault {
      return Sent(400, Failure);
    }
    var found := products.Find(req.id);
    if found.None? {
      return Sent(404, NotFound);
    }
    resp := Sent(200, Document(found.value));
  }

  /** `router.get('/product', ...)` */
  method ListProducts(products: Collection, fault: bool) returns (resp: Response)
    requires ProductsCollection(products)
    ensures resp == if fault then Sent(400, Failure) else Sent(200, Documents(products.docs))
  {
    if fault {
      return Sent(400, Failure);
    }
    resp := Sent(200, Documents(products.docs));
  }

  /** `router.delete('/product/:id', ...)`: a single `findByIdAndDelete`. */
  method DeleteProduct(req: Request, products: Collection, fault: bool) returns (resp: Response)
    requires ProductsCollection(products)
    modifies products
    ensures ProductsCollection(products)
    ensures fault ==> resp == Sent(400, Failure) && products.docs == old(products.docs)
    ensures !fault && req.id !in old(products.docs) ==> resp == Sent(404, NotFound) && products.docs == old(products.docs)
    ensures !fault && req.id in old(products.docs) ==>
              resp == Sent(200, Deleted) && products.docs == old(products.docs) - {req.id}
  {
    var r := products.Delete(req.id, fault);
    match r
    case Failed(_) => resp := Sent(400, Failure);
    case Done(None) => resp := Sent(404, NotFound);
    case Done(Some(_)) => resp := Sent(200, Deleted);
  }

  /** `router.put('/product/:id', ...)`: the upload, the `fotos`
      replacement, then `findByIdAndUpdate` with validators; every failure
      is answered 400. */
  method UpdateProduct(req: Request, products: Collection, clock: nat -> nat, fault: bool) returns (resp: Response)
    requires ProductsCollection(products)
    modifies req`files, req`body, products
    ensures ProductsCollection(products)
    ensures Admit(req.parts, clock).Err? ==>
              && resp == Forwarded(UploadAborted(Admit(req.parts, clock).error))
              && req.body == old(req.body) && products.docs == old(products.docs)
    ensures Admit(req.parts, clock).Ok? ==>
              var body := WithFotos(old(req.body), Admit(req.parts, clock).value);
              var upd := CastUpdate(ProductModel.Rules(), body);
              var invalid := CastFails(ProductModel.Rules(), upd) || UpdateErrors(ProductModel.Rules(), upd) != [] || fault;
              && req.body == body
              && (invalid ==> resp == Sent(400, Failure) && products.docs == old(products.docs))
              && (!invalid && req.id !in old(products.docs) ==>
                    resp == Sent(404, NotFound) && products.docs == old(products.docs))
              && (!invalid && req.id in old(products.docs) ==>
                    var nd := old(products.docs)[req.id] + upd;
                    && (ClashesWithStored(ProductModel.Rules(), nd, old(products.docs), Some(req.id)) ==>
                          resp == Sent(400, Failure) && products.docs == old(products.docs))
                    && (!ClashesWithStored(ProductModel.Rules(), nd, old(products.docs), Some(req.id)) ==>
                          resp == Sent(200, Document(nd)) && products.docs == old(products.docs)[req.id := nd]))
  {
    var g := Receive(req, clock);
    if g.Halt? {
      return g.response;
    }
    ReplaceFotos(req);
    var r := products.Update(req.id, req.body, fault);
    match r
    case Failed(_) => resp := Sent(400, Failure);
    case Done(None) => resp := Sent(404, NotFound);
    case Done(Some(nd)) => resp := Sent(200, Document(nd));
  }
}
