/**
  `uploadFile` and its helpers: a tagged union of file sources is resolved
  into one buffer and one file name, a MIME type is worked out, a guard
  refuses `text/` types, and the transport's answer is mapped to a
  `FileUploadResponse`.  The operation returns a value on every path and
  never throws.

  As written, `uploadFile` asks `getMimeType` about a fresh Blob whose type
  is "application/octet-stream", so the declared-type branch always answers
  and the `text/` guard can never fire; the model keeps the code as it is
  and proves both facts.
 */
module Upload {
  import opened Common
  import opened JsText
  import opened NodeRuntime
  import opened Types
  import opened Foreign

  const DefaultFilename := "upload.dat"
  const OctetStream := "application/octet-stream"
  const DefaultTimeout: int := 30000

  const FileRequired := "File is required"
  const ProcessFailed := "Failed to process file input"
  const TextFileMessage := "Text files should be uploaded using the createPaste method instead of uploadFile"
  const TextFileError := "Invalid file type for uploadFile (text file)"
  const ApiFailureMessage := "Upload failed due to an API error"
  const ApiFailureError := "API indicated failure"
  const UploadFallback := "Failed to upload file"

  /** One 'data' event of a stream: a Buffer, or a string. */
  datatype Chunk = BufferChunk(bytes: seq<byte>) | StringChunk(text: string)

  datatype StreamEnd = Ended | Errored(error: Exception)

  /** What a readable stream emits: its 'data' chunks in order, then 'end'
      or 'error'. */
  datatype StreamRun = StreamRun(chunks: seq<Chunk>, end: StreamEnd)

  /** `ReadStream.path`: a string, a Buffer (given here by its decoded
      text), or neither (a stream opened from a file descriptor). */
  datatype StreamPath = StringPath(path: string) | BufferPath(decoded: string) | NoPath

  /** The `file` argument of `uploadFile`. */
  datatype FileSource =
    | Missing                                                    // a falsy value
    | BufferSource(bytes: seq<byte>)                             // a Buffer
    | BlobSource(bytes: seq<byte>, mimeType: string)             // a Blob that is not a File
    | FileObject(bytes: seq<byte>, mimeType: string, name: string)
    | StreamSource(run: StreamRun)                               // a Readable that is not an fs.ReadStream
    | ReadStreamSource(run: StreamRun, path: StreamPath)         // an fs.ReadStream
    | Unsupported                                                // any other truthy value
  {
    predicate IsStream() {
      StreamSource? || ReadStreamSource?
    }

    predicate Supported() {
      !Missing? && !Unsupported?
    }
  }

  /** The first argument of `getMimeType`: a Blob or File with its `type`,
      or a Buffer. */
  datatype MimeSubject = BlobLike(mimeType: string) | BufferLike

  function Failure(message: string, error: string): FileUploadResponse {
    FileUploadResponse(false, Some(message), None, None, None, Some(error))
  }

  const InvalidFileTypeResponse: FileUploadResponse :=
    Failure("Invalid file type provided", "Invalid file type")

  // ---------------------------------------------------------------- MIME type

  /** `filename.split('.').pop()?.toLowerCase()`. */
  function Extension(filename: string): string {
    ToLowerAscii(AfterLast(filename, '.'))
  }

  /** `getMimeType`: a non-empty declared type wins; otherwise the table
      entry for the file name's extension; otherwise the generic type. */
  function GetMimeType(env: Env, file: MimeSubject, filename: Option<string>): (r: string)
    ensures file.BlobLike? && file.mimeType != "" ==> r == file.mimeType
    ensures !(file.BlobLike? && file.mimeType != "") && !Truthy(filename) ==> r == OctetStream
    ensures r == OctetStream || r in env.mimeTypes.Values || (file.BlobLike? && r == file.mimeType)
  {
    if file.BlobLike? && file.mimeType != "" then file.mimeType
    else if Truthy(filename) && Extension(filename.value) in env.mimeTypes then
      env.mimeTypes[Extension(filename.value)]
    else OctetStream
  }

  /** Without a declared type, a name `base.ext` is looked up by its
      lower-cased last extension, whatever dots `base` holds. */
  lemma MimeTypeByExtension(env: Env, file: MimeSubject, base: string, ext: string)
    requires !(file.BlobLike? && file.mimeType != "")
    requires '.' !in ext
    ensures var key := ToLowerAscii(ext);
            GetMimeType(env, file, Some(base + "." + ext))
            == if key in env.mimeTypes then env.mimeTypes[key] else OctetStream
  {
    assert base + "." + ext == base + ['.'] + ext;
    AfterLastOfJoin(base, '.', ext);
  }

  /** Without a declared type, a name with no dot is looked up whole. */
  lemma MimeTypeOfDotlessName(env: Env, file: MimeSubject, name: string)
    requires !(file.BlobLike? && file.mimeType != "")
    requires name != "" && '.' !in name
    ensures var key := ToLowerAscii(name);
            GetMimeType(env, file, Some(name))
            == if key in env.mimeTypes then env.mimeTypes[key] else OctetStream
  {
    AfterLastWhole(name, '.');
    assert Extension(name) == ToLowerAscii(name);
    assert Truthy(Some(name));
  }

  lemma OctetStreamIsNotText()
    ensures !StartsWith(OctetStream, "text/")
  {
    assert OctetStream[0] == 'a';
  }

  /** What `uploadFile` computes: the MIME type of its fresh Blob is always
      the generic one, so the `text/` guard never refuses anything. */
  lemma UploadMimeTypeIsGeneric(env: Env, filename: string)
    ensures GetMimeType(env, BlobLike(OctetStream), Some(filename)) == OctetStream
    ensures !StartsWith(GetMimeType(env, BlobLike(OctetStream), Some(filename)), "text/")
  {
    OctetStreamIsNotText();
  }

  // ---------------------------------------------------------------- streams

  /** `Buffer.isBuffer(chunk) ? chunk : Buffer.from(chunk)`. */
  function ChunkBytes(chunk: Chunk): seq<byte> {
    match chunk
    case BufferChunk(bytes) => bytes
    case StringChunk(text) => Utf8Encode(text)
  }

  /** `Buffer.concat(parts)`. */
  function Flatten(parts: seq<seq<byte>>): seq<byte> {
    if parts == [] then [] else Flatten(parts[..|parts| - 1]) + parts[|parts| - 1]
  }

  /** The buffers `streamToBuffer` collects, one per chunk. */
  function ChunkBuffers(chunks: seq<Chunk>): seq<seq<byte>> {
    seq(|chunks|, i requires 0 <= i < |chunks| => ChunkBytes(chunks[i]))
  }

  /** The buffer a stream's chunks drain into. */
  function StreamBytes(chunks: seq<Chunk>): seq<byte> {
    Flatten(ChunkBuffers(chunks))
  }

  /** `streamToBuffer`: collect every chunk as bytes, then concatenate them
      on 'end'; reject with the stream's error on 'error'. */
  method StreamToBuffer(run: StreamRun) returns (r: Outcome<seq<byte>>)
    ensures run.end.Ended? ==> r == Ok(StreamBytes(run.chunks))
    ensures run.end.Errored? ==> r == Fail(run.end.error)
  {
    var collected: seq<seq<byte>> := [];
    var i := 0;
    while i < |run.chunks|
      invariant 0 <= i <= |run.chunks|
      invariant |collected| == i
      invariant forall k :: 0 <= k < i ==> collected[k] == ChunkBytes(run.chunks[k])
    {
      collected := collected + [ChunkBytes(run.chunks[i])];
      i := i + 1;
    }
    if run.end.Errored? {
      return Fail(run.end.error);
    }
    assert collected == ChunkBuffers(run.chunks);
    var buffer: seq<byte> := [];
    var j := 0;
    while j < |collected|
      invariant 0 <= j <= |collected|
      invariant buffer == Flatten(collected[..j])
    {
      assert collected[..j + 1][..j] == collected[..j];
      buffer := buffer + collected[j];
      j := j + 1;
    }
    assert collected[..j] == collected;
    r := Ok(buffer);
  }

  /** Concatenation distributes over splitting the list of parts. */
  lemma {:induction false} FlattenAppend(a: seq<seq<byte>>, b: seq<seq<byte>>)
    ensures Flatten(a + b) == Flatten(a) + Flatten(b)
  {
    if b == [] {
      assert a + b == a;
    } else {
      assert (a + b)[..|a + b| - 1] == a + b[..|b| - 1];
      FlattenAppend(a, b[..|b| - 1]);
    }
  }

  /** The drained buffer is the chunks in arrival order: chunk `i` sits
      right after the bytes of the chunks before it, with the bytes of the
      chunks after it following. */
  lemma {:induction false} StreamBytesInOrder(chunks: seq<Chunk>, i: nat)
    requires i < |chunks|
    ensures StreamBytes(chunks)
            == StreamBytes(chunks[..i]) + ChunkBytes(chunks[i]) + StreamBytes(chunks[i + 1..])
    ensures var off := |StreamBytes(chunks[..i])|;
            StreamBytes(chunks)[off..off + |ChunkBytes(chunks[i])|] == ChunkBytes(chunks[i])
  {
    var before, after := ChunkBuffers(chunks[..i]), ChunkBuffers(chunks[i + 1..]);
    assert ChunkBuffers(chunks) == before + [ChunkBytes(chunks[i])] + after;
    FlattenAppend(before + [ChunkBytes(chunks[i])], after);
    FlattenAppend(before, [ChunkBytes(chunks[i])]);
    assert Flatten([ChunkBytes(chunks[i])]) == ChunkBytes(chunks[i]) by {
      assert [ChunkBytes(chunks[i])][..0] == [];
    }
  }

  /** The drained buffer is exactly as long as its chunks together. */
  lemma {:induction false} StreamBytesLength(chunks: seq<Chunk>)
    ensures |StreamBytes(chunks)| == TotalLength(chunks)
  {
    if chunks != [] {
      var n := |chunks| - 1;
      StreamBytesLength(chunks[..n]);
      assert ChunkBuffers(chunks)[..n] == ChunkBuffers(chunks[..n]);
      assert chunks[..n] == chunks[..|chunks| - 1];
    }
  }

  function TotalLength(chunks: seq<Chunk>): nat {
    if chunks == [] then 0 else TotalLength(chunks[..|chunks| - 1]) + |ChunkBytes(chunks[|chunks| - 1])|
  }

  // ---------------------------------------------------------------- file names

  /** `getFilenameFromStream`: the base name of the stream's path, or the
      default name when the stream has no path. */
  function GetFilenameFromStream(path: StreamPath): (r: string)
    ensures '/' !in r
    ensures path.NoPath? ==> r == DefaultFilename
  {
    match path
    case StringPath(p) => Basename(p)
    case BufferPath(p) => Basename(p)
    case NoPath => DefaultFilename
  }

  /** The file name `processFileInput` settles on. */
  function ResolvedFilename(file: FileSource, filename: Option<string>): (r: string)
    // never empty
    ensures r != ""
    // a truthy explicit name always wins
    ensures Truthy(filename) ==> r == filename.value
    // otherwise a ReadStream names itself by its path's base name, a File by its name
    ensures !Truthy(filename) && file.ReadStreamSource? ==>
            r == OrElse(Some(GetFilenameFromStream(file.path)), DefaultFilename)
    ensures !Truthy(filename) && file.FileObject? ==> r == OrElse(Some(file.name), DefaultFilename)
    // and a Blob, a Buffer or any other stream gets the default name
    ensures !Truthy(filename) && !file.ReadStreamSource? && !file.FileObject? ==> r == DefaultFilename
  {
    var named :=
      if Truthy(filename) then filename.value
      else match file
        case ReadStreamSource(_, path) => GetFilenameFromStream(path)
        case FileObject(_, _, name) => name
        case _ => DefaultFilename;
    OrElse(Some(named), DefaultFilename)
  }

  /** The byte content a supported source resolves to. */
  function Content(file: FileSource): seq<byte> {
    match file
    case BufferSource(bytes) => bytes
    case BlobSource(bytes, _) => bytes
    case FileObject(bytes, _, _) => bytes
    case StreamSource(run) => StreamBytes(run.chunks)
    case ReadStreamSource(run, _) => StreamBytes(run.chunks)
    case _ => []
  }

  /** The error draining a stream source raises, if any. */
  function ReadFailure(file: FileSource): Option<Exception> {
    if file.IsStream() && file.run.end.Errored? then Some(file.run.end.error) else None
  }

  /** What `processFileInput` ends with: a buffer and a file name, a failure
      record, or a raised exception. */
  datatype Processed =
    | Resolved(buffer: seq<byte>, filename: string)
    | Refused(response: FileUploadResponse)
    | Raised(error: Exception)

  /** `processFileInput`. */
  method ProcessFileInput(file: FileSource, filename: Option<string>) returns (r: Processed)
    ensures !file.Supported() ==> r == Refused(InvalidFileTypeResponse)
    ensures file.Supported() && ReadFailure(file).Some? ==> r == Raised(ReadFailure(file).value)
    ensures file.Supported() && ReadFailure(file).None? ==>
            r == Resolved(Content(file), ResolvedFilename(file, filename))
  {
    var fileBuffer: seq<byte>;
    var resolvedFilename := filename;
    if file.IsStream() {
      var drained := StreamToBuffer(file.run);
      if drained.Fail? {
        return Raised(drained.error);
      }
      fileBuffer := drained.data;
      if !Truthy(resolvedFilename) {
        resolvedFilename :=
          Some(if file.ReadStreamSource? then GetFilenameFromStream(file.path) else DefaultFilename);
      }
    } else if file.FileObject? {
      fileBuffer := file.bytes;
      resolvedFilename := if Truthy(resolvedFilename) then resolvedFilename else Some(file.name);
    } else if file.BlobSource? {
      fileBuffer := file.bytes;
      resolvedFilename := if Truthy(resolvedFilename) then resolvedFilename else Some(DefaultFilename);
    } else if file.BufferSource? {
      fileBuffer := file.bytes;
      resolvedFilename := if Truthy(resolvedFilename) then resolvedFilename else Some(DefaultFilename);
    } else {
      return Refused(InvalidFileTypeResponse);
    }
    r := Resolved(fileBuffer, OrElse(resolvedFilename, DefaultFilename));
  }

  /** A stream opened on `/dir/name` with no explicit name uploads as `name`. */
  lemma ReadStreamNamedByBasename(run: StreamRun, dir: string, name: string)
    requires name != "" && '/' !in name
    ensures ResolvedFilename(ReadStreamSource(run, StringPath(dir + "/" + name)), None) == name
  {
    BasenameOfJoin(dir, name);
  }

  // ---------------------------------------------------------------- upload

  /** The multipart form: one `file` field with content, file name and type. */
  datatype UploadForm = UploadForm(content: seq<byte>, filename: string, mimeType: string)

  /** `response.data?.message`. */
  function ServerMessage(data: Option<FileUploadResponse>): Option<string> {
    if data.Some? then data.value.message else None
  }

  /** `uploadFile`. */
  method UploadFile(env: Env, file: FileSource, filename: Option<string>, options: UploadFileOptions,
                    outcome: Outcome<Option<FileUploadResponse>>)
    returns (r: Call<FileUploadResponse, UploadForm>)
    // the three refusals before any request
    ensures file.Missing? ==> r == Call(Failure("File is required", "File is required"), None)
    ensures file.Unsupported? ==> r == Call(InvalidFileTypeResponse, None)
    ensures file.Supported() && ReadFailure(file).Some? ==>
            r == Call(Failure("Failed to process file input", ReadFailure(file).value.message), None)
    // every readable source is sent, as generic binary: the text guard never refuses
    ensures r.sent.Some? <==> file.Supported() && ReadFailure(file).None?
    ensures r.sent.Some? ==>
            r.sent.value == HttpRequest(Post, "/files",
                                        UploadForm(Content(file), ResolvedFilename(file, filename),
                                                   "application/octet-stream"),
                                        options.timeout.GetOr(30000))
    // the server's answer
    ensures r.sent.Some? && outcome.Ok? && outcome.data.Some? && outcome.data.value.success ==>
            r.result == outcome.data.value
    ensures r.sent.Some? && outcome.Ok? && !(outcome.data.Some? && outcome.data.value.success) ==>
            r.result == Failure(OrElse(ServerMessage(outcome.data), "Upload failed due to an API error"),
                                OrElse(ServerMessage(outcome.data), "API indicated failure"))
    ensures r.sent.Some? && outcome.Fail? ==>
            r.result == Failure(env.getErrorMessage(outcome.error, "Failed to upload file"),
                                env.getErrorMessage(outcome.error, "Failed to upload file"))
    // a result that is not a success always carries a message and an error
    ensures !r.result.success ==> r.result.message.Some? && r.result.error.Some?
  {
    if file.Missing? {
      return Call(Failure(FileRequired, FileRequired), None);
    }

    var result := ProcessFileInput(file, filename);
    if result.Raised? {
      return Call(Failure(ProcessFailed, result.error.message), None);
    }
    if result.Refused? {
      return Call(result.response, None);
    }

    var fileBuffer, resolvedFilename := result.buffer, result.filename;
    var mimeType := GetMimeType(env, BlobLike(OctetStream), Some(resolvedFilename));
    UploadMimeTypeIsGeneric(env, resolvedFilename);
    if StartsWith(mimeType, "text/") {
      return Call(Failure(TextFileMessage, TextFileError), None);
    }

    var request := HttpRequest(Post, "/files", UploadForm(fileBuffer, resolvedFilename, mimeType),
                               options.timeout.GetOr(DefaultTimeout));
    match outcome {
      case Ok(data) =>
        if data.Some? && data.value.success {
          r := Call(data.value, Some(request));
        } else {
          r := Call(Failure(OrElse(ServerMessage(data), ApiFailureMessage),
                            OrElse(ServerMessage(data), ApiFailureError)), Some(request));
        }
      case Fail(error) =>
        r := Call(Failure(env.getErrorMessage(error, UploadFallback),
                          env.getErrorMessage(error, UploadFallback)), Some(request));
    }
  }
}
