/**
 * The upload service: the multer stage (MIME allow-list and 5 MiB limit),
 * the `/upload` route that stores the file under a generated key and returns
 * a signed URL, and the error middleware that answers multer's rejections.
 */
module Ingestion {
  import opened Wrappers
  import FileKeys

  /** multer's `limits.fileSize`: 5 MiB. */
  const MaxFileSize: nat := 5 * 1024 * 1024

  /** The allow-list inside `fileFilter`. */
  const AllowedMimeTypes: seq<string> := ["text/plain", "image/jpeg", "image/jpg", "image/png"]

  /** The message of the error `fileFilter` rejects with (its wording names PDF,
      which the list does not admit). */
  const FilterMessage: string := "Only JPEG, PNG, or PDF files are allowed!"

  /** multer's own error for a file over `limits.fileSize`. */
  const SizeLimitCode: string := "LIMIT_FILE_SIZE"
  const SizeLimitMessage: string := "File too large"

  const NoFileMessage: string := "No file uploaded"
  const SuccessMessage: string := "File uploaded successfully"

  /** `expiresIn` of the signed URL, in seconds. */
  const UrlExpiry: nat := 3600

  newtype byte = b: int | 0 <= b < 256

  /** `req.file` as multer fills it in. */
  datatype UploadedFile = UploadedFile(originalName: string, mimeType: string, buffer: seq<byte>)

  /** A JavaScript error: an instance of `multer.MulterError`, or any other `Error`. */
  datatype Error = MulterError(code: string, message: string) | PlainError(message: string)

  datatype Body = ErrorBody(error: string) | UploadedBody(message: string, fileUrl: string)

  datatype Response = Response(status: nat, body: Body)

  /** `String.prototype.includes`. */
  function Contains(s: string, sub: string): (b: bool)
    ensures sub == [] ==> b
    ensures b ==> |sub| <= |s|
    decreases |s|
  {
    (|sub| <= |s| && s[..|sub|] == sub) || (|s| > 0 && Contains(s[1..], sub))
  }

  predicate OccursAt(s: string, sub: string, i: int)
  {
    0 <= i && i + |sub| <= |s| && s[i..i + |sub|] == sub
  }

  /** `includes` holds exactly when `sub` occurs at some position of `s`. */
  lemma {:induction false} ContainsAt(s: string, sub: string)
    ensures Contains(s, sub) <==> exists i :: OccursAt(s, sub, i)
    decreases |s|
  {
    if |s| > 0 {
      ContainsAt(s[1..], sub);
      if Contains(s, sub) {
        if |sub| <= |s| && s[..|sub|] == sub {
          assert OccursAt(s, sub, 0);
        } else {
          var i :| OccursAt(s[1..], sub, i);
          forall j | 0 <= j < |sub|
            ensures s[i + 1..i + 1 + |sub|][j] == sub[j]
          {
            assert s[1..][i..i + |sub|][j] == sub[j];
          }
          assert OccursAt(s, sub, i + 1);
        }
      }
      if exists i :: OccursAt(s, sub, i) {
        var i :| OccursAt(s, sub, i);
        if i > 0 {
          assert s[1..][i - 1..i - 1 + |sub|] == s[i..i + |sub|];
          assert OccursAt(s[1..], sub, i - 1);
        }
      }
    } else {
      if exists i :: OccursAt(s, sub, i) {
        var i :| OccursAt(s, sub, i);
        assert sub == [] && s[..|sub|] == sub;
      }
      if Contains(s, sub) {
        assert OccursAt(s, sub, 0);
      }
    }
  }

  lemma FilterMessageMentionsOnly()
    ensures Contains(FilterMessage, "Only")
  {
    assert FilterMessage[0] == 'O' && FilterMessage[1] == 'n' && FilterMessage[2] == 'l' && FilterMessage[3] == 'y';
    assert FilterMessage[..4] == "Only";
  }

  /** `fileFilter`: `cb(null, true)` (here `None`) exactly for an allow-listed
      type; otherwise an error whose message contains "Only". */
  function FileFilter(mimeType: string): (r: Option<Error>)
    ensures r.None? <==> mimeType in AllowedMimeTypes
    ensures r.Some? ==> r.value.PlainError? && Contains(r.value.message, "Only")
  {
    FilterMessageMentionsOnly();
    if mimeType !in AllowedMimeTypes then Some(PlainError(FilterMessage)) else None
  }

  predicate WithinSizeLimit(size: nat)
  {
    size <= MaxFileSize
  }

  /** `upload.single("file")`: no file passes through as no file; a file is
      first put to `fileFilter` and then held to the size limit. */
  function Multer(incoming: Option<UploadedFile>): (r: Result<Option<UploadedFile>, Error>)
    ensures r.Ok? <==> (incoming.None? ||
      (incoming.value.mimeType in AllowedMimeTypes && WithinSizeLimit(|incoming.value.buffer|)))
    ensures r.Ok? ==> r.value == incoming
    ensures r.Err? ==> r.error == if incoming.value.mimeType !in AllowedMimeTypes
                                 then PlainError(FilterMessage)
                                 else MulterError(SizeLimitCode, SizeLimitMessage)
  {
    match incoming
    case None => Ok(None)
    case Some(f) =>
      match FileFilter(f.mimeType)
      case Some(err) => Err(err)
      case None =>
        if WithinSizeLimit(|f.buffer|) then Ok(Some(f))
        else Err(MulterError(SizeLimitCode, SizeLimitMessage))
  }

  /** What the error middleware does with an error. */
  datatype Handling = Respond(response: Response) | Next(error: Error)

  /** The error middleware: 400 with the message for a `MulterError` or a message
      containing "Only"; any other error goes on to `next(err)` unchanged. */
  function ErrorMiddleware(err: Error): (h: Handling)
    ensures h.Respond? <==> err.MulterError? || Contains(err.message, "Only")
    ensures h.Respond? ==> h.response == Response(400, ErrorBody(err.message))
    ensures h.Next? ==> h.error == err
  {
    if err.MulterError? || Contains(err.message, "Only") then Respond(Response(400, ErrorBody(err.message)))
    else Next(err)
  }

  /** Every rejection of the multer stage is answered with 400: none reaches the
      default handler. */
  lemma MulterRejectionsAre400(incoming: Option<UploadedFile>)
    requires Multer(incoming).Err?
    ensures ErrorMiddleware(Multer(incoming).error).Respond?
    ensures ErrorMiddleware(Multer(incoming).error).response.status == 400
  {
    FilterMessageMentionsOnly();
  }

  /** A file of a type outside the list is refused with 400 and the filter's
      message, whatever its size; a listed type is refused only above 5 MiB. */
  lemma RejectionReasons(f: UploadedFile)
    ensures f.mimeType !in AllowedMimeTypes ==>
      ErrorMiddleware(Multer(Some(f)).error) == Respond(Response(400, ErrorBody(FilterMessage)))
    ensures f.mimeType in AllowedMimeTypes && |f.buffer| > MaxFileSize ==>
      ErrorMiddleware(Multer(Some(f)).error) == Respond(Response(400, ErrorBody(SizeLimitMessage)))
    ensures f.mimeType in AllowedMimeTypes && |f.buffer| == MaxFileSize ==> Multer(Some(f)) == Ok(Some(f))
  {
    FilterMessageMentionsOnly();
  }

  datatype Metadata = Metadata(originalName: string, uploadedAt: string)

  /** The parameters of the `PutObjectCommand` (the bucket is fixed). */
  datatype PutObject = PutObject(key: string, body: seq<byte>, contentType: string, metadata: Metadata)

  datatype StoredObject = StoredObject(body: seq<byte>, contentType: string, metadata: Metadata)

  /** One call the route makes on the storage client, with what it answered:
      the fault `send` threw, or the signed URL or the fault of `getSignedUrl`. */
  datatype Call =
    | Put(command: PutObject, fault: Option<string>)
    | Sign(key: string, expiresIn: nat, answer: Result<string, string>)

  /** The command the route builds for `file`, given the UUID and the timestamp. */
  function PutCommand(file: UploadedFile, uuid: string, uploadedAt: string): (cmd: PutObject)
    ensures cmd.key == FileKeys.GenerateFileKey(file.originalName, uuid)
    ensures cmd.body == file.buffer && cmd.contentType == file.mimeType
    ensures cmd.metadata.originalName == file.originalName
  {
    PutObject(FileKeys.GenerateFileKey(file.originalName, uuid), file.buffer, file.mimeType,
              Metadata(file.originalName, uploadedAt))
  }

  function Stored(cmd: PutObject): StoredObject
  {
    StoredObject(cmd.body, cmd.contentType, cmd.metadata)
  }

  /** What the `/upload` route does for `file`: the calls it adds to `before`,
      how the store changes, and the response it sends. A put that threw may
      still have been committed by the bucket, so either store is allowed then. */
  predicate Handled(file: Option<UploadedFile>, uuid: string, uploadedAt: string,
                    before: seq<Call>, after: seq<Call>,
                    stored: map<string, StoredObject>, storedAfter: map<string, StoredObject>,
                    res: Response)
    ensures Handled(file, uuid, uploadedAt, before, after, stored, storedAfter, res) ==>
      |before| <= |after| <= |before| + 2 && after[..|before|] == before &&
      storedAfter.Keys <= stored.Keys + {FileKeys.GenerateFileKey(if file.Some? then file.value.originalName else "", uuid)}
  {
    match file
    case None =>
      after == before && storedAfter == stored && res == Response(400, ErrorBody(NoFileMessage))
    case Some(f) =>
      var cmd := PutCommand(f, uuid, uploadedAt);
      var n := |before|;
      n < |after| && after[..n] == before && after[n].Put? && after[n].command == cmd &&
      match after[n].fault
      case Some(message) =>
        |after| == n + 1 && (storedAfter == stored || storedAfter == stored[cmd.key := Stored(cmd)]) &&
        res == Response(500, ErrorBody(message))
      case None =>
        |after| == n + 2 && after[n + 1].Sign? &&
        after[n + 1].key == cmd.key && after[n + 1].expiresIn == UrlExpiry &&
        storedAfter == stored[cmd.key := Stored(cmd)] &&
        match after[n + 1].answer
        case Ok(url) => res == Response(200, UploadedBody(SuccessMessage, url))
        case Err(message) => res == Response(500, ErrorBody(message))
  }

  /** The route answers 200, 400 or 500, and carries a file URL exactly on 200. */
  lemma HandledStatuses(file: Option<UploadedFile>, uuid: string, uploadedAt: string,
                        before: seq<Call>, after: seq<Call>,
                        stored: map<string, StoredObject>, storedAfter: map<string, StoredObject>,
                        res: Response)
    requires Handled(file, uuid, uploadedAt, before, after, stored, storedAfter, res)
    ensures res.status == 200 || res.status == 400 || res.status == 500
    ensures res.status == 200 <==> res.body.UploadedBody?
    ensures res.status == 400 <==> file.None?
  {
  }

  /** A 200 means the file was stored under its generated key with its type and
      name, and the URL returned was signed for that key for 3600 s, after the put. */
  lemma SuccessMeansStoredAndSigned(file: Option<UploadedFile>, uuid: string, uploadedAt: string,
                                    before: seq<Call>, after: seq<Call>,
                                    stored: map<string, StoredObject>, storedAfter: map<string, StoredObject>,
                                    res: Response)
    requires Handled(file, uuid, uploadedAt, before, after, stored, storedAfter, res)
    requires res.status == 200
    ensures file.Some?
    ensures var key := FileKeys.GenerateFileKey(file.value.originalName, uuid);
      key in storedAfter &&
      storedAfter[key] == StoredObject(file.value.buffer, file.value.mimeType,
                                       Metadata(file.value.originalName, uploadedAt)) &&
      after == before + [Put(PutCommand(file.value, uuid, uploadedAt), None),
                         Sign(key, UrlExpiry, Ok(res.body.fileUrl))] &&
      res.body.message == SuccessMessage
  {
    var n := |before|;
    assert after == after[..n] + [after[n], after[n + 1]];
  }

  /** After a put that threw nothing is signed and the fault's message is sent
      with 500; the store holds at most the one object of that put, which the
      route does not remove. */
  lemma PutFaultSignsNothing(file: Option<UploadedFile>, uuid: string, uploadedAt: string,
                              before: seq<Call>, after: seq<Call>,
                              stored: map<string, StoredObject>, storedAfter: map<string, StoredObject>,
                              res: Response, message: string)
    requires Handled(file, uuid, uploadedAt, before, after, stored, storedAfter, res)
    requires file.Some? && after[|before|].fault == Some(message)
    ensures var cmd := PutCommand(file.value, uuid, uploadedAt);
      storedAfter == stored || storedAfter == stored[cmd.key := Stored(cmd)]
    ensures after == before + [Put(PutCommand(file.value, uuid, uploadedAt), Some(message))]
    ensures res == Response(500, ErrorBody(message))
  {
    var n := |before|;
    assert after == after[..n] + [after[n]];
  }

  /** A signing fault after a successful put answers 500 but the object stays
      stored. */
  lemma SignFaultKeepsObject(file: Option<UploadedFile>, uuid: string, uploadedAt: string,
                             before: seq<Call>, after: seq<Call>,
                             stored: map<string, StoredObject>, storedAfter: map<string, StoredObject>,
                             res: Response)
    requires Handled(file, uuid, uploadedAt, before, after, stored, storedAfter, res)
    requires file.Some? && res.status == 500 && |after| == |before| + 2
    ensures FileKeys.GenerateFileKey(file.value.originalName, uuid) in storedAfter
    ensures after[|before| + 1].Sign? && after[|before| + 1].answer.Err?
  {
  }

  /** The S3 client: the objects of the bucket and every call made on it. */
  class ObjectStore {
    var objects: map<string, StoredObject>
    var calls: seq<Call>

    constructor (objects: map<string, StoredObject>)
      ensures this.objects == objects && calls == []
    {
      this.objects := objects;
      calls := [];
    }

    /** `s3.send(new PutObjectCommand(...))`: it may throw. The object is written
        when it does not; when it does, the bucket may or may not have committed
        the write (a response lost after the commit also throws). */
    method Send(command: PutObject) returns (fault: Option<string>)
      modifies this
      ensures calls == old(calls) + [Put(command, fault)]
      ensures fault.None? ==> objects == old(objects)[command.key := Stored(command)]
      ensures fault.Some? ==> objects == old(objects) || objects == old(objects)[command.key := Stored(command)]
    {
      fault := *;
      var committed: bool := *;
      if fault.None? || committed {
        objects := objects[command.key := Stored(command)];
      }
      calls := calls + [Put(command, fault)];
    }

    /** `getSignedUrl(s3, new GetObjectCommand({Key: key}), { expiresIn })`:
        a URL, or the fault it threw; the bucket is not touched. */
    method SignedUrl(key: string, expiresIn: nat) returns (answer: Result<string, string>)
      modifies this
      ensures calls == old(calls) + [Sign(key, expiresIn, answer)]
      ensures objects == old(objects)
    {
      answer := *;
      calls := calls + [Sign(key, expiresIn, answer)];
    }
  }

  /** The `/upload` route handler, run on what multer let through; `uuid` is what
      `crypto.randomUUID()` returns and `uploadedAt` the ISO timestamp. */
  method HandleUpload(store: ObjectStore, file: Option<UploadedFile>, uuid: string, uploadedAt: string)
    returns (res: Response)
    modifies store
    ensures Handled(file, uuid, uploadedAt, old(store.calls), store.calls, old(store.objects), store.objects, res)
  {
    if file.None? {
      return Response(400, ErrorBody(NoFileMessage));
    }
    var command := PutCommand(file.value, uuid, uploadedAt);
    var fault := store.Send(command);
    if fault.Some? {
      return Response(500, ErrorBody(fault.value));
    }
    var signed := store.SignedUrl(command.key, UrlExpiry);
    match signed
    case Err(message) =>
      res := Response(500, ErrorBody(message));
    case Ok(url) =>
      res := Response(200, UploadedBody(SuccessMessage, url));
  }

  /** How a request ends: a response, or an error handed on by the middleware. */
  datatype Served = Responded(response: Response) | Unhandled(error: Error)

  function AfterMiddleware(h: Handling): Served
  {
    match h
    case Respond(r) => Responded(r)
    case Next(e) => Unhandled(e)
  }

  /** A `POST /upload` request: multer, then the route, or the error middleware
      when multer rejects. */
  method ServeUpload(store: ObjectStore, incoming: Option<UploadedFile>, uuid: string, uploadedAt: string)
    returns (outcome: Served)
    modifies store
    ensures Multer(incoming).Err? ==>
      store.calls == old(store.calls) && store.objects == old(store.objects) &&
      outcome == AfterMiddleware(ErrorMiddleware(Multer(incoming).error)) &&
      outcome.Responded? && outcome.response.status == 400
    ensures Multer(incoming).Ok? ==>
      outcome.Responded? &&
      Handled(incoming, uuid, uploadedAt, old(store.calls), store.calls, old(store.objects), store.objects, outcome.response)
  {
    var accepted := Multer(incoming);
    match accepted
    case Err(err) =>
      MulterRejectionsAre400(incoming);
      outcome := AfterMiddleware(ErrorMiddleware(err));
    case Ok(file) =>
      var res := HandleUpload(store, file, uuid, uploadedAt);
      outcome := Responded(res);
  }
}
