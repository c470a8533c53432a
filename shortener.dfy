/**
  `shortenUrl`: three pre-flight checks in a fixed order (blank, too long,
  not a URL), each throwing before any request; then one POST of the
  trimmed URL.  The server's body is returned as is; a transport failure is
  rethrown as a fresh `Error` with the extracted message.
 */
module Shortener {
  import opened Common
  import opened JsText
  import opened Types
  import opened Foreign

  const DefaultMaxUrlLength: int := 2048
  const DefaultTimeout: int := 5000

  const UrlRequired := "URL is required and cannot be empty"
  const InvalidUrlFormat := "Invalid URL format"
  const ShortenFallback := "Failed to shorten URL"

  function TooLongMessage(maxUrlLength: int): string {
    "URL exceeds maximum length of " + NumberToString(maxUrlLength) + " characters"
  }

  /** The three checks, in the order they run; None when all pass. */
  function PreflightError(env: Env, url: Option<string>, options: ShortenUrlOptions): Option<string> {
    if IsBlank(url) then Some(UrlRequired)
    else if Utf16Length(url.value) > options.maxUrlLength.GetOr(DefaultMaxUrlLength)
    then Some(TooLongMessage(options.maxUrlLength.GetOr(DefaultMaxUrlLength)))
    else if env.parseUrl(url.value).None? then Some(InvalidUrlFormat)
    else None
  }

  function ShortenUrl(env: Env, url: Option<string>, options: ShortenUrlOptions,
                      outcome: Outcome<ShortenerResponse>)
    : (r: Call<Thrown<ShortenerResponse>, ShortenerRequest>)
    // blank, then too long (untrimmed length in code units), then unparsable
    ensures IsBlank(url) ==> r == Call(Threw(NewError(UrlRequired)), None)
    ensures !IsBlank(url) && Utf16Length(url.value) > options.maxUrlLength.GetOr(2048) ==>
            r == Call(Threw(NewError(TooLongMessage(options.maxUrlLength.GetOr(2048)))), None)
    ensures !IsBlank(url) && Utf16Length(url.value) <= options.maxUrlLength.GetOr(2048)
            && env.parseUrl(url.value).None? ==>
            r == Call(Threw(NewError(InvalidUrlFormat)), None)
    // a request is made exactly when every check passes, with the trimmed URL as the only field
    ensures r.sent.Some? <==>
            !IsBlank(url) && Utf16Length(url.value) <= options.maxUrlLength.GetOr(2048)
            && env.parseUrl(url.value).Some?
    ensures r.sent.Some? ==>
            r.sent.value == HttpRequest(Post, "/shortener", ShortenerRequest(Trim(url.value)),
                                        options.timeout.GetOr(5000))
    // success passes the body through; failure throws a normalised Error
    ensures r.sent.Some? && outcome.Ok? ==> r.result == Returned(outcome.data)
    ensures r.sent.Some? && outcome.Fail? ==>
            r.result == Threw(NewError(env.getErrorMessage(outcome.error, "Failed to shorten URL")))
  {
    match PreflightError(env, url, options)
    case Some(message) => Call(Threw(NewError(message)), None)
    case None =>
      var request := HttpRequest(Post, "/shortener", ShortenerRequest(Trim(url.value)),
                                 options.timeout.GetOr(DefaultTimeout));
      match outcome
      case Ok(data) => Call(Returned(data), Some(request))
      case Fail(error) => Call(Threw(NewError(env.getErrorMessage(error, ShortenFallback))), Some(request))
  }

  /** The submitted URL is never empty and carries no surrounding white
      space, whatever white space surrounded the argument. */
  lemma {:induction false} ShortenPayloadTrimmed(env: Env, url: Option<string>, options: ShortenUrlOptions,
                                                 outcome: Outcome<ShortenerResponse>)
    requires ShortenUrl(env, url, options, outcome).sent.Some?
    ensures var sent := ShortenUrl(env, url, options, outcome).sent.value.payload.url;
            && sent != []
            && !IsWhiteSpace(sent[0]) && !IsWhiteSpace(sent[|sent| - 1])
            && Trim(sent) == sent
  {
    TrimIdempotent(url.value);
  }

  /** Surrounding white space is removed from the submitted URL and nothing
      else is: a clean core padded with white space is sent as the core. */
  lemma PaddedUrlSentBare(env: Env, a: string, core: string, b: string, options: ShortenUrlOptions,
                          outcome: Outcome<ShortenerResponse>)
    requires AllWhiteSpace(a) && AllWhiteSpace(b)
    requires core != [] && !IsWhiteSpace(core[0]) && !IsWhiteSpace(core[|core| - 1])
    requires Utf16Length(a + core + b) <= options.maxUrlLength.GetOr(2048)
    requires env.parseUrl(a + core + b).Some?
    ensures ShortenUrl(env, Some(a + core + b), options, outcome).sent.Some?
    ensures ShortenUrl(env, Some(a + core + b), options, outcome).sent.value.payload == ShortenerRequest(core)
  {
    TrimOfPadded(a, core, b);
  }

  /** A URL exactly as long as the limit is accepted; one code unit more is
      refused, so the limit is inclusive. */
  lemma LengthLimitInclusive(env: Env, url: string, options: ShortenUrlOptions,
                             outcome: Outcome<ShortenerResponse>)
    requires Trim(url) != [] && env.parseUrl(url).Some?
    ensures Utf16Length(url) == options.maxUrlLength.GetOr(2048) ==>
            ShortenUrl(env, Some(url), options, outcome).sent.Some?
    ensures Utf16Length(url) == options.maxUrlLength.GetOr(2048) + 1 ==>
            ShortenUrl(env, Some(url), options, outcome).sent.None?
  {
  }

  /** The length limit applies to the untrimmed argument: surrounding white
      space that trimming would remove still counts against it. */
  lemma LengthCountsUntrimmed(env: Env, core: string, options: ShortenUrlOptions,
                              outcome: Outcome<ShortenerResponse>)
    requires Trim(core) != []
    requires Utf16Length(core) == options.maxUrlLength.GetOr(2048)
    ensures ShortenUrl(env, Some(core + " "), options, outcome)
            == Call(Threw(NewError(TooLongMessage(options.maxUrlLength.GetOr(2048)))), None)
  {
    Utf16Append(core, " ");
    assert Utf16Length(" ") == 1;
    assert Trim(core + " ") != [] by {
      assert !AllWhiteSpace(core);
      NotAllWhiteSpacePrefix(core, " ");
    }
  }
}
