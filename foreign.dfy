/**
  Collaborators whose code is not part of this model, taken as given values:
  the WHATWG URL parser behind `new URL(s)`, the shared error-message
  extractor `getErrorMessage`, the extension table `MIME_TYPES`, and
  `JSON.stringify` of a paste response body.
 */
module Foreign {
  import opened Common
  import opened Types

  /** What the SDK reads from a parsed URL: `url.searchParams.get('key')`. */
  datatype ParsedUrl = ParsedUrl(keyParam: Option<string>)

  datatype Env = Env(
    /** `new URL(s)`: None when the constructor throws. */
    parseUrl: string -> Option<ParsedUrl>,
    /** `getErrorMessage(error, fallback)`. */
    getErrorMessage: (Exception, string) -> string,
    /** `MIME_TYPES`: lower-case extension to MIME type. */
    mimeTypes: map<string, string>,
    /** `JSON.stringify(response.data)` (None: the body is absent). */
    stringify: Option<PasteResponse> -> string)
}
