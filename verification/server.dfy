/**
 The HTTP handlers. The request is reduced to what the handler inspects: the method,
 the outcome of parsing the Content-Type header (the media type, or None when it is
 missing or unparsable) and the outcome of reading the multipart body. The queue send
 is returned as an effect for the caller to perform.
 */
module Server {
  import opened Wrappers
  import opened Files
  import Storage

  const StatusOK := 200
  const StatusBadRequest := 400
  const StatusInternalServerError := 500

  const MinidumpField := "upload_file_minidump"
  const FormDataType := "multipart/form-data"

  const StatusBody := "HTTP 200\n\nUp and running"
  const MethodNotAllowedBody := "Bad request: This endpoint only allows POST requests"
  const UnparsableContentTypeBody := "Bad request: Content-Type cannot be parsed"
  const WrongContentTypeBody := "Bad request: Content-Type must be multipart/form-data"
  const UnparsableBodyBody := "Bad request: Multi-part message cannot be parsed"
  const MissingMinidumpBody := "Bad request: Body must contain upload_file_minidump"
  const ServerErrorBody := "Internal Server Error. We're sorry."

  datatype Response = Response(status: int, body: string)

  /** A parsed multipart form: text fields and file parts by field name. */
  datatype Form = Form(values: Storage.Attributes, files: map<string, seq<Storage.FileHeader>>)

  datatype Request = Request(verb: string, mediaType: Option<string>, form: Option<Form>)

  /** The response, the identifier to put on the queue (if any), and the disk afterwards. */
  datatype Handled = Handled(response: Response, enqueue: Option<string>, disk: Disk)

  /** A form as the multipart reader builds it: a file field, when present, holds at least one part. */
  predicate FormFromReader(form: Form) {
    forall name :: name in form.files ==> |form.files[name]| > 0
  }

  /** Requests the handler passes on to storage: every check before the store holds. */
  predicate Admissible(req: Request) {
    && req.verb == "POST"
    && req.mediaType == Some(FormDataType)
    && req.form.Some?
    && MinidumpField in req.form.value.files
  }

  function StatusHandler(): (r: Response)
    ensures r.status == StatusOK
  {
    Response(StatusOK, StatusBody)
  }

  /** The error's detail goes to the log only; the client always sees the same body. */
  function WriteServerError(err: Storage.StoreError): (r: Response)
    ensures r.status == StatusInternalServerError
  {
    Response(StatusInternalServerError, ServerErrorBody)
  }

  /** Different store errors are indistinguishable to the client. */
  lemma ServerErrorHidesDetail(err: Storage.StoreError, other: Storage.StoreError)
    ensures WriteServerError(err) == WriteServerError(other)
    ensures WriteServerError(err).body == ServerErrorBody
  {
  }

  function BadRequest(body: string): Response {
    Response(StatusBadRequest, body)
  }

  /**
   The ordered checks of the upload endpoint: method, Content-Type parse, media type,
   multipart parse, dump field, store. The identifier is sent on the queue only after a
   successful store, and then it is also the body of the 200 response.
   */
  function UploadHandler(req: Request, dir: string, env: Storage.StoreEnv, disk: Disk): (h: Handled)
    requires req.form.Some? ==> FormFromReader(req.form.value)
    requires |env.random| == Storage.RandomBytes
    ensures h.response.status in {StatusOK, StatusBadRequest, StatusInternalServerError}
    ensures h.response.status == StatusBadRequest <==> !Admissible(req)
    ensures h.enqueue.Some? <==> h.response.status == StatusOK
    ensures h.enqueue.Some? ==>
      && h.response.body == h.enqueue.value
      && Storage.IsReportId(h.enqueue.value)
      && Storage.JsonPath(dir, h.enqueue.value) in h.disk
      && Storage.DumpPath(dir, h.enqueue.value) in h.disk
    ensures h.response.status == StatusInternalServerError ==> h.response.body == ServerErrorBody
    ensures !Admissible(req) ==> h.disk == disk
    ensures disk.Keys <= h.disk.Keys
    ensures var id := Storage.GetRandomFilename(env.random);
      h.disk.Keys <= disk.Keys + {Storage.JsonPath(dir, id), Storage.DumpPath(dir, id)}
  {
    if req.verb != "POST" then Handled(BadRequest(MethodNotAllowedBody), None, disk)
    else match req.mediaType
      case None => Handled(BadRequest(UnparsableContentTypeBody), None, disk)
      case Some(contentType) =>
        if contentType != FormDataType then Handled(BadRequest(WrongContentTypeBody), None, disk)
        else match req.form
          case None => Handled(BadRequest(UnparsableBodyBody), None, disk)
          case Some(form) =>
            if MinidumpField !in form.files then Handled(BadRequest(MissingMinidumpBody), None, disk)
            else
              var stored := Storage.WriteToDisk(dir, form.files[MinidumpField], form.values, env, disk);
              if stored.err.Some? then Handled(WriteServerError(stored.err.value), None, stored.disk)
              else Handled(Response(StatusOK, stored.id), Some(stored.id), stored.disk)
  }

  /** A request that is not a POST is refused before anything else is looked at. */
  lemma RejectsNonPost(req: Request, dir: string, env: Storage.StoreEnv, disk: Disk)
    requires req.form.Some? ==> FormFromReader(req.form.value)
    requires |env.random| == Storage.RandomBytes
    requires req.verb != "POST"
    ensures UploadHandler(req, dir, env, disk) == Handled(BadRequest(MethodNotAllowedBody), None, disk)
  {
  }

  /** A missing or unparsable Content-Type is refused, whatever the body. */
  lemma RejectsUnparsableContentType(req: Request, dir: string, env: Storage.StoreEnv, disk: Disk)
    requires req.form.Some? ==> FormFromReader(req.form.value)
    requires |env.random| == Storage.RandomBytes
    requires req.verb == "POST" && req.mediaType.None?
    ensures UploadHandler(req, dir, env, disk) == Handled(BadRequest(UnparsableContentTypeBody), None, disk)
  {
  }

  /** Any media type other than multipart/form-data is refused, whatever the body. */
  lemma RejectsOtherMediaType(req: Request, dir: string, env: Storage.StoreEnv, disk: Disk)
    requires req.form.Some? ==> FormFromReader(req.form.value)
    requires |env.random| == Storage.RandomBytes
    requires req.verb == "POST" && req.mediaType.Some? && req.mediaType.value != FormDataType
    ensures UploadHandler(req, dir, env, disk) == Handled(BadRequest(WrongContentTypeBody), None, disk)
  {
  }

  /** A multipart body that cannot be read, or that has no minidump part, is refused. */
  lemma RejectsBadMultipart(req: Request, dir: string, env: Storage.StoreEnv, disk: Disk)
    requires req.form.Some? ==> FormFromReader(req.form.value)
    requires |env.random| == Storage.RandomBytes
    requires req.verb == "POST" && req.mediaType == Some(FormDataType)
    requires req.form.None? || MinidumpField !in req.form.value.files
    ensures UploadHandler(req, dir, env, disk).response ==
      BadRequest(if req.form.None? then UnparsableBodyBody else MissingMinidumpBody)
    ensures UploadHandler(req, dir, env, disk).enqueue.None?
  {
  }

  /** For an admissible request, the store alone decides between 500 and 200. */
  lemma StoreDecides(req: Request, dir: string, env: Storage.StoreEnv, disk: Disk)
    requires req.form.Some? ==> FormFromReader(req.form.value)
    requires |env.random| == Storage.RandomBytes
    requires Admissible(req)
    ensures var form := req.form.value;
      var stored := Storage.WriteToDisk(dir, form.files[MinidumpField], form.values, env, disk);
      var h := UploadHandler(req, dir, env, disk);
      && h.disk == stored.disk
      && (stored.err.Some? ==> h.response == Response(StatusInternalServerError, ServerErrorBody) && h.enqueue.None?)
      && (stored.err.None? ==> h.response == Response(StatusOK, stored.id) && h.enqueue == Some(stored.id))
  {
  }

  /**
   The successful-upload test: a POST of a multipart form holding only a minidump part
   answers 200 with a non-empty (32-character) identifier; the `.json` document holds
   the seven metadata fields, all empty, and the `.dmp` file holds the uploaded bytes.
   */
  lemma UploadExample(dump: Bytes, dir: string, env: Storage.StoreEnv, disk: Disk)
    requires |env.random| == Storage.RandomBytes
    requires env.jsonWriteOk && env.dumpWriteOk
    requires env.encode(Storage.EmptyMetadata).Some?
    ensures var form := Form(map[], map[MinidumpField := [Storage.FileHeader(true, Some(dump))]]);
      var h := UploadHandler(Request("POST", Some(FormDataType), Some(form)), dir, env, disk);
      && h.response.status == StatusOK
      && |h.response.body| == Storage.IdLength
      && h.enqueue == Some(h.response.body)
      && h.disk[Storage.JsonPath(dir, h.response.body)] == Storage.Document(env.encode(Storage.EmptyMetadata).value)
      && h.disk[Storage.DumpPath(dir, h.response.body)] == dump
  {
    var id := Storage.GetRandomFilename(env.random);
    Storage.ArtifactPathsDisjoint(dir, id, id);
  }

  /**
   An upload with `prod` and `ver` fields: the `.json` document holds the seven
   metadata fields, all empty except `prod` and `ver`.
   */
  lemma UploadWithFieldsExample(dump: Bytes, dir: string, env: Storage.StoreEnv, disk: Disk)
    requires |env.random| == Storage.RandomBytes
    requires env.jsonWriteOk && env.dumpWriteOk
    requires env.encode(Storage.Metadata("MyApp", "1.0", "", "", "", "", "")).Some?
    ensures var form := Form(map["prod" := ["MyApp"], "ver" := ["1.0"]],
                             map[MinidumpField := [Storage.FileHeader(true, Some(dump))]]);
      var h := UploadHandler(Request("POST", Some(FormDataType), Some(form)), dir, env, disk);
      && h.response.status == StatusOK
      && h.disk[Storage.JsonPath(dir, h.response.body)] ==
           Storage.Document(env.encode(Storage.Metadata("MyApp", "1.0", "", "", "", "", "")).value)
      && h.disk[Storage.DumpPath(dir, h.response.body)] == dump
  {
    var attribs: Storage.Attributes := map["prod" := ["MyApp"], "ver" := ["1.0"]];
    assert Storage.SelectMetadata(attribs) == Storage.Metadata("MyApp", "1.0", "", "", "", "", "");
    var id := Storage.GetRandomFilename(env.random);
    Storage.ArtifactPathsDisjoint(dir, id, id);
  }
}
