/**
  Deletion of an uploaded file, a paste or a shortened URL.  The three
  operations are one routine parameterised by the resource kind, which
  fixes the endpoint and the fallback phrase of transport failures.  They
  always return a `DeleteResponse` and never throw.
 */
module Delete {
  import opened Common
  import opened JsText
  import opened Types
  import opened Foreign

  datatype Resource = FileResource | PasteResource | ShortenerResource {
    /** The endpoint that deletes this kind of resource. */
    function Path(): string {
      match this
      case FileResource => "/files/delete"
      case PasteResource => "/paste/delete"
      case ShortenerResource => "/shortener/delete"
    }

    /** The message used when the transport failure gives none. */
    function FallbackPhrase(): string {
      match this
      case FileResource => "Failed to delete file"
      case PasteResource => "Failed to delete paste"
      case ShortenerResource => "Failed to delete shortened URL"
    }
  }

  /** The query of a deletion request: `?key=...`. */
  datatype DeleteQuery = DeleteQuery(key: string)

  const DefaultTimeout: int := 10000

  const MissingKeyResponse: DeleteResponse :=
    DeleteResponse(false, "Deletion URL or key is required", Some("Missing deletion key"))

  const InvalidKeyResponse: DeleteResponse :=
    DeleteResponse(false, "Invalid deletion URL or key", Some("Invalid deletion key format"))

  /** `extractDeletionKey`: a string that parses as a URL yields its `key`
      query parameter (None when absent); any other string is the key itself. */
  function ExtractDeletionKey(env: Env, deletionUrl: string): Option<string> {
    match env.parseUrl(deletionUrl)
    case Some(url) => url.keyParam
    case None => Some(deletionUrl)
  }

  /** The shared body of `deleteFile`, `deletePaste` and `deleteShortener`. */
  function DeleteResource(env: Env, resource: Resource, deletionUrlOrKey: Option<string>,
                          options: DeleteOptions, outcome: Outcome<DeleteResponse>)
    : (r: Call<DeleteResponse, DeleteQuery>)
    // a blank argument is refused before anything else
    ensures IsBlank(deletionUrlOrKey) ==> r == Call(MissingKeyResponse, None)
    // a null or empty key is refused next
    ensures !IsBlank(deletionUrlOrKey) && !Truthy(ExtractDeletionKey(env, deletionUrlOrKey.value))
            ==> r == Call(InvalidKeyResponse, None)
    // a request is made exactly when both checks pass, and it carries the extracted key
    ensures r.sent.Some? <==>
            !IsBlank(deletionUrlOrKey) && Truthy(ExtractDeletionKey(env, deletionUrlOrKey.value))
    ensures r.sent.Some? ==>
            r.sent.value == HttpRequest(Get, resource.Path(),
                                        DeleteQuery(ExtractDeletionKey(env, deletionUrlOrKey.value).value),
                                        options.timeout.GetOr(DefaultTimeout))
            && r.sent.value.payload.key != ""
    // the server's answer is returned verbatim
    ensures r.sent.Some? && outcome.Ok? ==> r.result == outcome.data
    // a transport failure becomes a failure value with equal message and error
    ensures r.sent.Some? && outcome.Fail? ==>
            && !r.result.success
            && r.result.message == env.getErrorMessage(outcome.error, resource.FallbackPhrase())
            && r.result.error == Some(r.result.message)
  {
    if IsBlank(deletionUrlOrKey) then
      Call(MissingKeyResponse, None)
    else
      var key := ExtractDeletionKey(env, deletionUrlOrKey.value);
      if !Truthy(key) then
        Call(InvalidKeyResponse, None)
      else
        var request := HttpRequest(Get, resource.Path(), DeleteQuery(key.value),
                                   options.timeout.GetOr(DefaultTimeout));
        match outcome
        case Ok(data) => Call(data, Some(request))
        case Fail(error) =>
          var message := env.getErrorMessage(error, resource.FallbackPhrase());
          Call(DeleteResponse(false, message, Some(message)), Some(request))
  }

  /** `deleteFile`. */
  function DeleteFile(env: Env, deletionUrlOrKey: Option<string>, options: DeleteOptions,
                      outcome: Outcome<DeleteResponse>): (r: Call<DeleteResponse, DeleteQuery>)
    ensures r.sent.Some? ==> r.sent.value.verb == Get && r.sent.value.path == "/files/delete"
    ensures r.sent.Some? && outcome.Fail? ==>
            r.result.message == env.getErrorMessage(outcome.error, "Failed to delete file")
  {
    DeleteResource(env, FileResource, deletionUrlOrKey, options, outcome)
  }

  /** `deletePaste`. */
  function DeletePaste(env: Env, deletionUrlOrKey: Option<string>, options: DeleteOptions,
                       outcome: Outcome<DeleteResponse>): (r: Call<DeleteResponse, DeleteQuery>)
    ensures r.sent.Some? ==> r.sent.value.verb == Get && r.sent.value.path == "/paste/delete"
    ensures r.sent.Some? && outcome.Fail? ==>
            r.result.message == env.getErrorMessage(outcome.error, "Failed to delete paste")
  {
    DeleteResource(env, PasteResource, deletionUrlOrKey, options, outcome)
  }

  /** `deleteShortener`. */
  function DeleteShortener(env: Env, deletionUrlOrKey: Option<string>, options: DeleteOptions,
                           outcome: Outcome<DeleteResponse>): (r: Call<DeleteResponse, DeleteQuery>)
    ensures r.sent.Some? ==> r.sent.value.verb == Get && r.sent.value.path == "/shortener/delete"
    ensures r.sent.Some? && outcome.Fail? ==>
            r.result.message == env.getErrorMessage(outcome.error, "Failed to delete shortened URL")
  {
    DeleteResource(env, ShortenerResource, deletionUrlOrKey, options, outcome)
  }

  /** A non-blank argument that is not a URL is sent as the key exactly as
      given, surrounding white space included. */
  lemma BareKeySentVerbatim(env: Env, resource: Resource, key: string,
                            options: DeleteOptions, outcome: Outcome<DeleteResponse>)
    requires Trim(key) != [] && env.parseUrl(key).None?
    ensures DeleteResource(env, resource, Some(key), options, outcome).sent.Some?
    ensures DeleteResource(env, resource, Some(key), options, outcome).sent.value.payload == DeleteQuery(key)
  {
  }

  /** A deletion URL is reduced to its `key` parameter; one without a usable
      key is refused as malformed, never sent. */
  lemma UrlKeyExtracted(env: Env, resource: Resource, deletionUrl: string,
                        options: DeleteOptions, outcome: Outcome<DeleteResponse>)
    requires Trim(deletionUrl) != [] && env.parseUrl(deletionUrl).Some?
    ensures var r := DeleteResource(env, resource, Some(deletionUrl), options, outcome);
            var key := env.parseUrl(deletionUrl).value.keyParam;
            && (Truthy(key) ==> r.sent.Some? && r.sent.value.payload == DeleteQuery(key.value))
            && (!Truthy(key) ==> r == Call(InvalidKeyResponse, None))
  {
  }

  /** The three deletions differ only in the endpoint and in the fallback
      phrase: they refuse the same arguments with the same records, send the
      same key with the same timeout, and return the same response body. */
  lemma ResourcesDifferOnlyInEndpoint(env: Env, a: Resource, b: Resource, input: Option<string>,
                                      options: DeleteOptions, outcome: Outcome<DeleteResponse>)
    ensures var ra := DeleteResource(env, a, input, options, outcome);
            var rb := DeleteResource(env, b, input, options, outcome);
            && (ra.sent.None? <==> rb.sent.None?)
            && (ra.sent.None? ==> ra.result == rb.result)
            && (ra.sent.Some? ==> ra.sent.value.(path := b.Path()) == rb.sent.value)
            && (ra.sent.Some? && outcome.Ok? ==> ra.result == rb.result)
            && (ra.sent.Some? && outcome.Fail? ==>
                  var m := env.getErrorMessage(outcome.error, b.FallbackPhrase());
                  ra.result.(message := m, error := Some(m)) == rb.result)
  {
  }
}
