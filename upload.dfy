/** The upload configuration of the product routes: which incoming files
    are admitted (field name, count, size, type filter) and the name and
    path each admitted file is stored under. */
module Upload {
  import opened Js
  import opened RegExp
  import opened Patterns

  /** `limits.fileSize`: 5 * 1024 * 1024 bytes. */
  const MaxFileSize: nat := 5 * 1024 * 1024
  /** `limits.files`, and the `maxCount` of `upload.array('fotos', 4)`. */
  const MaxFiles: nat := 4
  /** The only field `upload.array` accepts files from. */
  const FieldName: JsString := U("fotos")
  /** `destination` of the disk storage. */
  const Directory: JsString := U("uploads/")

  /** A file part of a multipart request, as the filter sees it. */
  datatype Part = Part(fieldname: JsString, originalname: JsString, mimetype: JsString, size: nat)

  /** A stored file as it appears in `req.files`. */
  datatype StoredFile = StoredFile(part: Part, filename: JsString, path: JsString)

  /** Why an upload is aborted; each is passed to `next(err)`. */
  datatype UploadError =
    | UnexpectedField   // a file under another field name
    | FileCount         // a fifth file
    | NotAnImage        // 'Solo se permiten archivos de imagen (jpeg, jpg, png)'
    | FileTooLarge      // more than MaxFileSize bytes

  datatype Result<T> = Ok(value: T) | Err(error: UploadError)

  /** `fileFilter`: `/jpeg|jpg|png/` must find a match in the MIME type as
      sent and in the lower-cased original name. */
  predicate FileFilter(p: Part)
  {
    NamesImageType(p.mimetype) && NamesImageType(ToLowerAscii(p.originalname))
  }

  lemma FileFilterTest(p: Part)
    ensures FileFilter(p) <==> Test(ImageTypesRegex(), p.mimetype) && Test(ImageTypesRegex(), ToLowerAscii(p.originalname))
  {
    ImageTypesTest(p.mimetype);
    ImageTypesTest(ToLowerAscii(p.originalname));
  }

  /** `filename`: `Date.now() + '-' + originalname`. */
  function StoredName(now: nat, originalname: JsString): (r: JsString)
    ensures EndsWith(r, originalname)
    ensures r[..|r| - |originalname|] == Decimal(now) + U("-")
  {
    var r := Decimal(now) + U("-") + originalname;
    assert r[|r| - |originalname|..] == originalname;
    r
  }

  /** The path multer reports: the destination followed by the file name. */
  function StoredPath(now: nat, originalname: JsString): (r: JsString)
    ensures EndsWith(r, originalname)
    ensures |Directory| <= |r| && r[..|Directory|] == Directory
    ensures r[|Directory|..] == StoredName(now, originalname)
  {
    var name := StoredName(now, originalname);
    var r := Directory + name;
    assert r[|r| - |originalname|..] == name[|name| - |originalname|..];
    r
  }

  /** A file part with an empty name, as a browser sends for a file input
      left empty. Busboy counts it against `limits.files`, but multer drops
      it before the filter: it is neither checked nor stored. */
  predicate Skipped(p: Part)
  {
    p.originalname == []
  }

  /** The error one part raises at position `k`, in the order busboy and
      multer check: the file count first, then the skip of a nameless part,
      then the field name, the filter, and the size while the file is
      written. */
  function PartError(p: Part, k: nat): (e: Option<UploadError>)
    ensures k >= MaxFiles ==> e == Some(FileCount)
    ensures k < MaxFiles && Skipped(p) ==> e.None?
    ensures e.None? <==> k < MaxFiles && (Skipped(p) || Admissible(p))
  {
    if k >= MaxFiles then Some(FileCount)
    else if Skipped(p) then None
    else if p.fieldname != FieldName then Some(UnexpectedField)
    else if !FileFilter(p) then Some(NotAnImage)
    else if p.size > MaxFileSize then Some(FileTooLarge)
    else None
  }

  predicate Admissible(p: Part)
  {
    p.fieldname == FieldName && FileFilter(p) && p.size <= MaxFileSize
  }

  /** The part at position `i` is within the count and is skipped or admissible. */
  predicate AdmissibleAt(parts: seq<Part>, i: int)
    requires 0 <= i < |parts|
  {
    i < MaxFiles && (Skipped(parts[i]) || Admissible(parts[i]))
  }

  /** The positions, from `k` on, of the parts that are stored: those with a name. */
  function Named(parts: seq<Part>, k: nat): (r: seq<nat>)
    requires k <= |parts|
    decreases |parts| - k
    ensures forall i :: 0 <= i < |r| ==> k <= r[i] < |parts| && !Skipped(parts[r[i]])
    ensures forall i, j :: 0 <= i < j < |r| ==> r[i] < r[j]
    ensures forall j :: k <= j < |parts| && !Skipped(parts[j]) ==> j in r
  {
    if k == |parts| then []
    else if Skipped(parts[k]) then Named(parts, k + 1)
    else [k] + Named(parts, k + 1)
  }

  /** `f` is what multer records for the part at position `j`. */
  predicate StoredAs(f: StoredFile, parts: seq<Part>, j: int, clock: nat -> nat)
    requires 0 <= j < |parts|
  {
    && f.part == parts[j]
    && f.filename == StoredName(clock(j), parts[j].originalname)
    && f.path == StoredPath(clock(j), parts[j].originalname)
  }

  /** The part at position `i` fails with `e`, and no part from `k` up to it fails. */
  predicate FirstFailure(parts: seq<Part>, k: int, i: int, e: UploadError)
    requires 0 <= k <= i < |parts|
  {
    PartError(parts[i], i) == Some(e) && forall j :: k <= j < i ==> PartError(parts[j], j).None?
  }

  /** The files of one request, in arrival order, from position `k` on;
      `clock(k)` is `Date.now()` when the k-th file is named. The first
      part that fails aborts the whole upload. */
  function AdmitFrom(parts: seq<Part>, clock: nat -> nat, k: nat): (r: Result<seq<StoredFile>>)
    requires k <= |parts|
    decreases |parts| - k
    ensures r.Ok? <==> forall i :: k <= i < |parts| ==> AdmissibleAt(parts, i)
    ensures r.Ok? ==> |r.value| == |Named(parts, k)|
    ensures r.Ok? ==> forall i :: 0 <= i < |r.value| ==> StoredAs(r.value[i], parts, Named(parts, k)[i], clock)
    ensures r.Err? ==> exists i :: k <= i < |parts| && FirstFailure(parts, k, i, r.error)
  {
    if k == |parts| then Ok([])
    else
      var p := parts[k];
      var e := PartError(p, k);
      if e.Some? then
        assert !AdmissibleAt(parts, k);
        assert FirstFailure(parts, k, k, e.value);
        Err(e.value)
      else
        match AdmitFrom(parts, clock, k + 1)
        case Err(err) =>
          assert exists i :: k <= i < |parts| && FirstFailure(parts, k, i, err) by {
            var i :| k + 1 <= i < |parts| && FirstFailure(parts, k + 1, i, err);
            FailureLater(parts, k, i, err);
          }
          Err(err)
        case Ok(rest) =>
          if Skipped(p) then Ok(rest)
          else
            var f := StoredFile(p, StoredName(clock(k), p.originalname), StoredPath(clock(k), p.originalname));
            StoredCons(parts, clock, k, f, rest);
            Ok([f] + rest)
  }

  /** A failure after position `k` is still the first one from `k` on when
      the part at `k` passes. */
  lemma FailureLater(parts: seq<Part>, k: nat, i: nat, err: UploadError)
    requires k < i < |parts| && PartError(parts[k], k).None? && FirstFailure(parts, k + 1, i, err)
    ensures FirstFailure(parts, k, i, err)
  {
  }

  /** The stored file of a named part at `k`, followed by the files stored
      from `k + 1` on, are the files stored from `k` on. */
  lemma StoredCons(parts: seq<Part>, clock: nat -> nat, k: nat, f: StoredFile, rest: seq<StoredFile>)
    requires k < |parts| && !Skipped(parts[k]) && StoredAs(f, parts, k, clock)
    requires |rest| == |Named(parts, k + 1)|
    requires forall i :: 0 <= i < |rest| ==> StoredAs(rest[i], parts, Named(parts, k + 1)[i], clock)
    ensures |[f] + rest| == |Named(parts, k)|
    ensures forall i :: 0 <= i < |[f] + rest| ==> StoredAs(([f] + rest)[i], parts, Named(parts, k)[i], clock)
  {
    var files := [f] + rest;
    var n := Named(parts, k);
    assert n == [k] + Named(parts, k + 1);
    forall i | 0 <= i < |files| ensures StoredAs(files[i], parts, n[i], clock) {
      if i > 0 {
        assert files[i] == rest[i - 1] && n[i] == Named(parts, k + 1)[i - 1];
      }
    }
  }

  function Admit(parts: seq<Part>, clock: nat -> nat): (r: Result<seq<StoredFile>>)
    ensures r.Ok? <==> |parts| <= MaxFiles && forall i :: 0 <= i < |parts| ==> Skipped(parts[i]) || Admissible(parts[i])
  {
    var r := AdmitFrom(parts, clock, 0);
    assert |parts| > MaxFiles ==> !AdmissibleAt(parts, |parts| - 1);
    assert |parts| <= MaxFiles ==> forall i :: 0 <= i < |parts| ==>
             (AdmissibleAt(parts, i) <==> Skipped(parts[i]) || Admissible(parts[i]));
    r
  }

  /** A file input left empty does not fail the upload: the request goes on
      with no file. */
  lemma EmptyNameSkipped(p: Part, clock: nat -> nat)
    requires Skipped(p)
    ensures Admit([p], clock) == Ok([])
  {
    assert AdmitFrom([p], clock, 1) == Ok([]);
  }

  /** A file the filter refuses makes the upload fail, whatever else the
      request carries. */
  lemma RejectedFileAborts(parts: seq<Part>, clock: nat -> nat, i: int)
    requires 0 <= i < |parts| && !Skipped(parts[i]) && !FileFilter(parts[i])
    ensures Admit(parts, clock).Err?
  {
  }

  /** When the first inadmissible part is a named file of the right field,
      within the count, that the filter refuses, the upload fails with the image
      type error. */
  lemma FilterError(parts: seq<Part>, clock: nat -> nat, i: int)
    requires 0 <= i < |parts| && i < MaxFiles
    requires forall j :: 0 <= j < i ==> Skipped(parts[j]) || Admissible(parts[j])
    requires !Skipped(parts[i]) && parts[i].fieldname == FieldName && !FileFilter(parts[i])
    ensures Admit(parts, clock) == Err(NotAnImage)
  {
    FilterErrorFrom(parts, clock, i, 0);
  }

  lemma {:induction false} FilterErrorFrom(parts: seq<Part>, clock: nat -> nat, i: int, k: nat)
    requires k <= i < |parts| && i < MaxFiles
    requires forall j :: k <= j < i ==> Skipped(parts[j]) || Admissible(parts[j])
    requires !Skipped(parts[i]) && parts[i].fieldname == FieldName && !FileFilter(parts[i])
    decreases i - k
    ensures AdmitFrom(parts, clock, k) == Err(NotAnImage)
  {
    if k < i {
      FilterErrorFrom(parts, clock, i, k + 1);
      assert PartError(parts[k], k).None? by {
        assert Skipped(parts[k]) || Admissible(parts[k]);
      }
    } else {
      assert PartError(parts[i], i) == Some(NotAnImage);
    }
  }

  /** The three extensions are found anywhere in the name, not only at its end. */
  lemma SubstringNotSuffix()
    ensures FileFilter(Part(FieldName, U("photo.png.exe"), U("image/png"), 1))
  {
    var name := U("photo.png.exe");
    assert ToLowerAscii(name) == name;
    assert OccursAt(name, U("png"), 6);
    assert OccursAt(U("image/png"), U("png"), 6);
  }

  /** The name is lower-cased before the test; the MIME type is not. */
  lemma CaseSensitivity()
    ensures FileFilter(Part(FieldName, U("PHOTO.JPG"), U("image/jpeg"), 1))
    ensures !FileFilter(Part(FieldName, U("photo.jpg"), U("IMAGE/JPEG"), 1))
  {
    var lower := ToLowerAscii(U("PHOTO.JPG"));
    assert lower == U("photo.jpg");
    assert OccursAt(lower, U("jpg"), 6);
    assert OccursAt(U("image/jpeg"), U("jpeg"), 6);
    var m := U("IMAGE/JPEG");
    forall w | w in {U("jpeg"), U("jpg"), U("png")} ensures !Contains(m, w) {
      forall i | 0 <= i <= |m| - |w| ensures !OccursAt(m, w, i) {
        assert m[i] != w[0];
      }
    }
  }
}
