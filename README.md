# e-zhost-js SDK: a Dafny model of its request logic

The e-zhost-js SDK is a client for the E-Z host REST API, a thin layer over
four kinds of call: upload a file, create a paste, shorten a URL, and delete
any of the three. Each call checks its arguments, builds a request body,
makes one HTTP request and maps the answer to a result record or an
exception. This project models that logic and proves what each operation
promises.

The transport is not modelled. Each operation takes the outcome of its one
request as a parameter: `Ok(body)` or `Fail(error)`. It returns a `Call`
that holds what it hands back to its caller and the request it issued;
`None` there means it returned before issuing any request. Operations that may throw
(`createPaste`, `shortenUrl`) return `Returned(value)` or `Threw(error)`.
Operations that never throw (`uploadFile` and the deletions) return a
record on every path.

Modules:

- `Common`: option values, bytes, exceptions, outcomes and `Call`, JavaScript truthiness and `||`.
- `JsText`: `String.prototype.trim` over the ECMAScript white-space and line-terminator characters, plus:
  - ASCII lower-casing;
  - `split(sep).pop()`;
  - `startsWith`;
  - the UTF-16 length behind `string.length`;
  - the decimal rendering of an integer in a template string.
- `NodeRuntime`: the POSIX `path.basename` and `Buffer.from(string)` as UTF-8.
- `Types`: the records of `src/types.ts`.
- `Foreign`: the collaborators taken as given values in an `Env`:
  - the WHATWG URL parser (`new URL` plus `searchParams.get('key')`);
  - `getErrorMessage`;
  - the `MIME_TYPES` table;
  - `JSON.stringify` of a paste body.
- `Delete`: `src/api/delete.ts`. The three deletions are one routine over a `Resource` kind, which fixes the endpoint and the fallback phrase.
- `Paste`: `src/api/paste.ts`.
- `Shortener`: `src/api/shortener.ts`.
- `Upload`: `src/api/upload.ts`.
  - `getMimeType` and `getFilenameFromStream` are functions.
  - `streamToBuffer`, `processFileInput` and `uploadFile` are methods, each proved against specification functions (`StreamBytes`, `Content`, `ResolvedFilename`, `ReadFailure`).

`uploadFile` works out its MIME type by handing `getMimeType` a fresh Blob
whose type is `application/octet-stream`. The declared-type branch therefore
always answers: every upload is sent as `application/octet-stream`. The
`text/` guard that is meant to steer text files to `createPaste` can never
refuse anything. The model keeps this code as written. `Upload.UploadFile`
states the consequence in its contract, and `Upload.UploadMimeTypeIsGeneric`
proves it separately.

## Model

| member | source | states |
|---|---|---|
| Upload.GetMimeType | src/api/upload.ts:10-23 | A non-empty declared Blob/File type is returned unchanged whatever the filename. With no declared type and no truthy filename the result is `application/octet-stream`. The result is always the generic type, a table value, or the declared type. |
| Upload.MimeTypeByExtension | src/api/upload.ts:15-22 | With no declared type, a name `base.ext` (where `ext` has no dot) maps to the table entry for the lower-cased `ext` if there is one, else to `application/octet-stream`, whatever dots `base` holds. |
| Upload.MimeTypeOfDotlessName | src/api/upload.ts:15-22 | With no declared type, a non-empty name with no dot is looked up whole, lower-cased. |
| Upload.OctetStreamIsNotText | src/api/upload.ts:110 | `application/octet-stream` does not start with `text/`. |
| Upload.UploadMimeTypeIsGeneric | src/api/upload.ts:105-116 | The MIME type `uploadFile` computes is `application/octet-stream` for every filename, so the `text/` rejection is never taken. |
| Upload.StreamToBuffer | src/api/upload.ts:25-34 | A stream that ends resolves to `StreamBytes` of its chunks. A stream that errors rejects with the stream's own error. |
| Upload.FlattenAppend | src/api/upload.ts:32 | Concatenating a list of buffers split in two equals concatenating each part and joining the results. |
| Upload.StreamBytesInOrder | src/api/upload.ts:27-32 | The drained buffer is the chunks in arrival order: chunk `i` is preceded exactly by the bytes of chunks `0..i-1` and followed exactly by the bytes of the later chunks. |
| Upload.StreamBytesLength | src/api/upload.ts:27-32 | The drained buffer is exactly as long as all chunk buffers together. |
| Upload.GetFilenameFromStream | src/api/upload.ts:36-45 | The result never contains `/`. A stream without a path gets `upload.dat`. |
| Upload.ResolvedFilename | src/api/upload.ts:52-73 | The name is never empty and a truthy explicit name always wins. Otherwise a ReadStream is named by its path's base name and a File by its `name`, with an empty one replaced by `upload.dat`. A Blob, a Buffer or another stream gets `upload.dat`. |
| Upload.ProcessFileInput | src/api/upload.ts:47-74 | An unsupported source gives the record `{false, 'Invalid file type provided', 'Invalid file type'}`. A stream that errors raises its error. Any other source resolves to its content (`Content`) and `ResolvedFilename`. File is told apart from Blob. |
| Upload.ReadStreamNamedByBasename | src/api/upload.ts:56-58 | A ReadStream opened on `dir/name` with no explicit filename uploads as `name`. |
| Upload.UploadFile | src/api/upload.ts:80-147 | Three results need no request: a falsy file, an unsupported source, and a processing failure (which carries `err.message`) return their fixed records. A request is sent exactly when the source is readable. It is `POST /files` with the content, the resolved name, type `application/octet-stream`, and timeout default 30000. A `success` body is returned verbatim. A falsy one gives message and error from the server message, else `'Upload failed due to an API error'` / `'API indicated failure'`. A transport failure gives `getErrorMessage(err, 'Failed to upload file')` in both fields. A result without `success` always carries a message and an error. |
| Common.OrElse | src/api/upload.ts:73 | `s \|\| fallback` with a non-empty fallback is never empty. |
| Delete.DeleteResource | src/api/delete.ts:24-60 | A blank argument gives `{false, 'Deletion URL or key is required', 'Missing deletion key'}`. A null or empty extracted key gives `{false, 'Invalid deletion URL or key', 'Invalid deletion key format'}`. A GET to the resource's endpoint is made exactly when both checks pass, carrying the non-empty extracted key and timeout default 10000. The body is returned verbatim. A transport failure has equal message and error, both `getErrorMessage(err, fallback)`. |
| Delete.DeleteFile | src/api/delete.ts:24-60 | Sends `GET /files/delete` and uses the fallback phrase `'Failed to delete file'`. |
| Delete.DeletePaste | src/api/delete.ts:69-107 | Sends `GET /paste/delete` and uses the fallback phrase `'Failed to delete paste'`. |
| Delete.DeleteShortener | src/api/delete.ts:116-154 | Sends `GET /shortener/delete` and uses the fallback phrase `'Failed to delete shortened URL'`. |
| Delete.BareKeySentVerbatim | src/api/delete.ts:8-15 | A non-blank argument that does not parse as a URL is sent as the key exactly as given, untrimmed. |
| Delete.UrlKeyExtracted | src/api/delete.ts:8-15 | A URL argument is reduced to its `key` parameter, which is sent. A URL without a usable key gets the invalid-key record and is never sent. |
| Delete.ExtractDeletionKey | src/api/delete.ts:8-15 | No contract of its own. A string that parses as a URL yields its key parameter (None when absent), and any other string is the key unchanged. BareKeySentVerbatim and UrlKeyExtracted state both branches as DeleteResource sends them. |
| Delete.ResourcesDifferOnlyInEndpoint | src/api/delete.ts:24-154 | Any two deletions behave the same: they refuse the same inputs with the same records, send the same request up to its path, return the same body, and differ on a transport failure only through the fallback phrase. |
| Paste.PastePayload | src/api/paste.ts:14-21 | The body has exactly the four fields and no timeout. `text` is the trimmed input. Each of title, description and language is the trimmed option when non-blank (then non-empty), else `'Untitled Paste'`, `'Created with E-Z SDK'` or `'text'`. |
| Paste.CreatePaste | src/api/paste.ts:5-36 | Blank text throws `'Paste text is required and cannot be empty'` before any request. Otherwise there is one `POST /paste` with `PastePayload` and timeout default 10000. An accepted body is returned verbatim. A refused body throws `'Invalid response: ' + JSON.stringify(body)`. A transport error that is an Error starting with `'Invalid response'` passes through. Any other error becomes `Error(getErrorMessage(err, 'Failed to create paste'))`. |
| Paste.Settle | src/api/paste.ts:23-35 | After the request: an accepted body is returned. A refused or absent body throws `'Invalid response: '` plus its JSON text, unchanged by the handler. A transport error that is an Error starting with `'Invalid response'` is rethrown as is. Every other error becomes a new Error carrying `getErrorMessage(err, 'Failed to create paste')`. |
| Paste.PayloadFieldsClean | src/api/paste.ts:16-21 | When the text is not blank, every field of the body is non-empty and neither starts nor ends with white space. |
| Paste.CleanTrimmedOr | src/api/paste.ts:18-20 | `option?.trim() \|\| fallback` is clean when the fallback is. |
| Paste.DefaultsClean | src/api/paste.ts:18-20 | The three default values are non-empty and carry no surrounding white space. |
| Paste.InvalidResponseNotRewrapped | src/api/paste.ts:26-33 | A refused body always raises an Error whose message starts with `'Invalid response'`, and the handler passes that error on unchanged. |
| Paste.PayloadStripsPadding | src/api/paste.ts:17-20 | Text, title, description or language given as a clean core padded with white space is submitted as exactly that core. |
| Shortener.ShortenUrl | src/api/shortener.ts:5-39 | The checks run in order. A blank URL throws `'URL is required and cannot be empty'`. A URL whose untrimmed UTF-16 length exceeds `maxUrlLength` (default 2048) throws `'URL exceeds maximum length of N characters'`. An unparsable URL throws `'Invalid URL format'`. A request is made exactly when all three pass: `POST /shortener` with `{url: trim(url)}` and timeout default 5000. The body is returned verbatim. A transport failure throws `Error(getErrorMessage(err, 'Failed to shorten URL'))`. |
| Shortener.ShortenPayloadTrimmed | src/api/shortener.ts:26 | The submitted URL is non-empty, has no surrounding white space, and is a fixed point of trimming. |
| Shortener.PaddedUrlSentBare | src/api/shortener.ts:26 | A parsable URL within the limit that is a clean core padded with white space is sent as exactly that core. |
| Shortener.LengthLimitInclusive | src/api/shortener.ts:14-18 | A URL exactly as long as the limit is sent. One code unit more is refused. |
| Shortener.LengthCountsUntrimmed | src/api/shortener.ts:16-18 | Trailing white space counts against the limit although it is trimmed from the payload. |
| JsText.Trim | src/api/paste.ts:10 | Trimming yields the empty string exactly when the input is all white space. Otherwise the result starts and ends with a non-white-space character, and it is never longer than the input. |
| JsText.TrimOfPadded | src/api/paste.ts:17 | Trimming removes the surrounding white space and nothing else: a core with no white space at its ends, padded with white space on both sides, trims to exactly that core. |
| JsText.TrimIdempotent | src/api/shortener.ts:26 | Trimming a trimmed string changes nothing. |
| JsText.TrimUnchanged | src/api/paste.ts:17-20 | A string with no white space at either end is its own trim. |
| JsText.AfterLastOfJoin | src/api/upload.ts:16 | `(front + sep + last).split(sep).pop()` is `last` when `last` holds no `sep`. |
| JsText.AfterLastWhole | src/api/upload.ts:16 | `s.split(sep).pop()` is `s` itself when `s` holds no `sep`. |
| JsText.ToLowerAscii | src/api/upload.ts:16 | Lower-casing keeps the length and leaves no upper-case ASCII letter. |
| JsText.ToLowerAsciiIdempotent | src/api/upload.ts:16 | Lower-casing an already lower-cased extension changes nothing. |
| JsText.Utf16Length | src/api/shortener.ts:16 | `url.length` counts UTF-16 code units: at least one and at most two per character. |
| JsText.Utf16LengthBmp | src/api/shortener.ts:16 | For characters below U+10000, `url.length` is the character count. |
| JsText.NatToStringRoundTrip | src/api/shortener.ts:17 | The decimal text of the limit in the error message reads back as the same number. |
| JsText.NumberToStringRoundTrip | src/api/shortener.ts:17 | The rendering of an integer limit (as JavaScript writes a safe integer) is non-empty and reads back as that integer: digits for a non-negative one, a minus sign and the digits of its magnitude for a negative one. |
| NodeRuntime.Basename | src/api/upload.ts:39 | A base name never contains `/`. |
| NodeRuntime.BasenameOfJoin | src/api/upload.ts:39 | The base name of `dir/name` is `name` for a non-empty name without `/`. |
| NodeRuntime.Utf8Encode | src/api/upload.ts:29 | `Buffer.from(string)` gives between one and four bytes per character. |
| NodeRuntime.Utf8Ascii | src/api/upload.ts:29 | An ASCII string encodes to one byte per character, equal to its code point. |

## Left out

- Transport: the axios instance, headers, the multipart `FormData` encoding and the `Blob` wrapping are I/O. Each request is an outcome parameter, and the model records the request's verb, path, body or query, and timeout.
- Stream events: how `on('data' | 'error' | 'end')` is wired up. A stream is a finite list of chunks ending in 'end' or 'error'. A stream that never ends, and chunks arriving after an error, are not modelled.
- Upload.ProcessFileInput: a failing `arrayBuffer()` read of a Blob or File is not modelled. Blob and File contents are given as bytes, so only a stream can make the processing step raise.
- Upload.UploadFile: a thrown non-`Error` value whose `message` is undefined is not modelled. The error field always carries the exception's message text.
- Upload.GetMimeType: the `in` test can also match keys `MIME_TYPES` inherits from `Object.prototype`. Those are not modelled. The table is a plain map from lower-case extensions.
- JsText.ToLowerAscii: `toLowerCase` is modelled for ASCII letters only. Other characters are left unchanged, whereas JavaScript applies full Unicode case mapping.
- NodeRuntime.Basename: only the POSIX form of `path.basename` is modelled, not the Windows one. A Buffer `path` is given by its decoded text, so `Buffer.toString()` decoding is not modelled.
- Strings: every string in the model is a sequence of Unicode scalar values. A JavaScript string holding a lone UTF-16 surrogate therefore cannot be given to any operation. This applies to trimming, `url.length` and every argument alike.
- NodeRuntime.Utf8Encode: because of that, the replacement of lone surrogates by U+FFFD in `Buffer.from` is not modelled.
- `getErrorMessage`, the `MIME_TYPES` table, the WHATWG URL parser and `JSON.stringify` come from code that is not part of this model. They are given values in `Env`: only the facts the guards need are used, and nothing is assumed about their results.
- Shortener.ShortenUrl: `maxUrlLength` and the timeouts are integers, and the limit in the too-long message is taken to be a safe integer (magnitude at most 2^53 - 1), which JavaScript writes in plain decimal. Beyond that JavaScript rounds the digits, and from 10^21 on uses exponent form (`1e+21`), while the model writes the exact digits. Fractional, NaN or infinite numbers and their template rendering are not modelled either.
- Response bodies are taken to have the declared result types. A body of another shape, which TypeScript would not check at run time, is not modelled.
- `src/main.ts` only delegates to these operations, apart from a constructor check that the API key is non-empty. `src/index.ts` only re-exports. Neither is modelled.
