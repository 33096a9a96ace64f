/**
 * `POST /api/upload`: reads the `file` entry of a multipart form, picks the
 * uploader's resource type from the file's MIME type, and answers with the
 * uploaded media's URL, kind and public id, or with an error.
 */
module UploadRoute {
  import opened Opt
  import opened Text
  import opened Projects
  import opened Media

  /** A form entry: a file, or a plain text field. */
  datatype FormValue = FileValue(file: File) | TextValue(text: string)

  /** The request body: a form whose `file` entry may be missing, or a body `formData()` rejects. */
  datatype UploadRequest = Unparsable | Form(entry: Option<FormValue>)

  /** What the route asks the uploader for: the file's bytes under a resource type. */
  datatype UploadCall = UploadCall(content: seq<bv8>, kind: MediaKind)

  /** The route's answer: `{ url, mediaType, publicId }` with status 200, or `{ error }` with a status. */
  datatype UploadResponse =
    | UploadOk(url: string, mediaType: MediaKind, publicId: string)
    | UploadFailed(status: int, error: string)

  const NoFile := "No file provided"
  const UploadError := "Failed to upload file"

  /**
   * The `!file` test: a missing entry (`null`) and an empty text field are
   * falsy; any file, even an empty one, and any other text are truthy.
   */
  predicate MissingFile(entry: Option<FormValue>) {
    entry.None? || entry == Some(TextValue(""))
  }

  /** The uploader call the route makes, if it gets that far. */
  function UploaderCall(req: UploadRequest): (r: Option<UploadCall>)
    ensures r.Some? <==> req.Form? && req.entry.Some? && req.entry.value.FileValue?
    ensures r.Some? ==> r.value.content == req.entry.value.file.content
    ensures r.Some? ==> (r.value.kind == Video <==> StartsWith(req.entry.value.file.mimeType, "video/"))
  {
    match req
    case Form(Some(FileValue(f))) => Some(UploadCall(f.content, KindOf(f.mimeType)))
    case _ => None
  }

  /**
   * The handler. `outcome` is what the uploader produced; it is only
   * consulted when `UploaderCall(req)` is a call. A text entry that is not
   * empty passes the `!file` test and then fails as a non-file, like every
   * other failure after that test, with status 500.
   */
  function Post(req: UploadRequest, outcome: UploaderOutcome): (r: UploadResponse)
    ensures r.UploadOk? <==> UploaderCall(req).Some? && outcome.Uploaded?
    ensures r.UploadFailed? ==> r.status == 400 || r.status == 500
  {
    match req
    case Unparsable => UploadFailed(500, UploadError)
    case Form(entry) =>
      if MissingFile(entry) then UploadFailed(400, NoFile)
      else match UploaderCall(req)
        case None => UploadFailed(500, UploadError)
        case Some(call) =>
          match outcome
          case Uploaded(url, id) => UploadOk(url, call.kind, id)
          case _ => UploadFailed(500, UploadError)
  }

  /**
   * The route answers 400 exactly when the form has no usable `file`
   * entry, succeeds exactly when a file went to the uploader and the
   * uploader returned a result, and answers 500 in every other case.
   */
  lemma PostOutcomes(req: UploadRequest, outcome: UploaderOutcome)
    ensures var r := Post(req, outcome);
      && (r == UploadFailed(400, NoFile) <==> req.Form? && MissingFile(req.entry))
      && (r.UploadOk? <==> UploaderCall(req).Some? && outcome.Uploaded?)
      && (r.UploadFailed? ==> r.status == 400 || r == UploadFailed(500, UploadError))
  {
  }

  /**
   * A success reports what the uploader returned, under the resource type
   * the uploader was asked for: video for a `video/` type, image otherwise.
   */
  lemma SuccessReportsUpload(req: UploadRequest, outcome: UploaderOutcome)
    requires Post(req, outcome).UploadOk?
    ensures var r := Post(req, outcome);
      && outcome == Uploaded(r.url, r.publicId)
      && UploaderCall(req) == Some(UploadCall(req.entry.value.file.content, r.mediaType))
      && (r.mediaType == Video <==> StartsWith(req.entry.value.file.mimeType, "video/"))
  {
  }

  /**
   * For a file the admin page lets through, a successful upload is
   * reported as an image exactly when the file's type is `image/`.
   */
  lemma GatedUploadKind(f: File, outcome: UploaderOutcome)
    requires PassesFileGate(f) && outcome.Uploaded?
    ensures Post(Form(Some(FileValue(f))), outcome).UploadOk?
    ensures Post(Form(Some(FileValue(f))), outcome).mediaType == Image <==> StartsWith(f.mimeType, "image/")
  {
    GateAgreesWithClassifier(f);
  }
}
