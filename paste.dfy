/**
  `createPaste`: refuse blank text, build the four-field JSON body with
  trimmed values and defaults, POST it, and keep the two error paths apart:
  a body whose `success` is falsy throws an "Invalid response" error that the
  handler lets through unchanged, while any other failure is rethrown as a
  fresh `Error` with the extracted message.
 */
module Paste {
  import opened Common
  import opened JsText
  import opened Types
  import opened Foreign

  const DefaultTimeout: int := 10000
  const DefaultTitle := "Untitled Paste"
  const DefaultDescription := "Created with E-Z SDK"
  const DefaultLanguage := "text"

  const TextRequired := "Paste text is required and cannot be empty"
  const InvalidResponse := "Invalid response"
  const PasteFallback := "Failed to create paste"

  /** `option?.trim() || fallback`. */
  function TrimmedOr(option: Option<string>, fallback: string): string {
    if IsBlank(option) then fallback else Trim(option.value)
  }

  /** The JSON body of the request.  A field whose option is absent or blank
      gets its default; the timeout is not part of it. */
  function PastePayload(text: string, options: CreatePasteOptions): (p: CreatePasteRequest)
    ensures p.text == Trim(text)
    ensures IsBlank(options.title) ==> p.title == "Untitled Paste"
    ensures !IsBlank(options.title) ==> p.title == Trim(options.title.value) && p.title != ""
    ensures IsBlank(options.description) ==> p.description == "Created with E-Z SDK"
    ensures !IsBlank(options.description) ==>
            p.description == Trim(options.description.value) && p.description != ""
    ensures IsBlank(options.language) ==> p.language == "text"
    ensures !IsBlank(options.language) ==> p.language == Trim(options.language.value) && p.language != ""
  {
    CreatePasteRequest(
      Trim(text),
      TrimmedOr(options.title, DefaultTitle),
      TrimmedOr(options.description, DefaultDescription),
      TrimmedOr(options.language, DefaultLanguage))
  }

  /** The server accepted the paste: the body is present and its `success`
      is truthy. */
  predicate Accepted(outcome: Outcome<Option<PasteResponse>>) {
    outcome.Ok? && outcome.data.Some? && outcome.data.value.success
  }

  /** The `try` block after the request: the accepted body is returned; a
      refused or absent body raises "Invalid response: <body as JSON>"; a
      transport failure raises its own error. */
  function TryBlock(env: Env, outcome: Outcome<Option<PasteResponse>>): Thrown<PasteResponse> {
    match outcome
    case Ok(data) =>
      if data.Some? && data.value.success then Returned(data.value)
      else Threw(NewError(InvalidResponse + ": " + env.stringify(data)))
    case Fail(error) => Threw(error)
  }

  /** The `catch` block: an `Error` whose message starts with "Invalid
      response" is rethrown as is; anything else becomes a new `Error`. */
  function CatchBlock(env: Env, error: Exception): Exception {
    if error.isError && StartsWith(error.message, InvalidResponse) then error
    else NewError(env.getErrorMessage(error, PasteFallback))
  }

  function CreatePaste(env: Env, text: Option<string>, options: CreatePasteOptions,
                       outcome: Outcome<Option<PasteResponse>>)
    : (r: Call<Thrown<PasteResponse>, CreatePasteRequest>)
    // blank text throws before any request
    ensures IsBlank(text) ==> r == Call(Threw(NewError("Paste text is required and cannot be empty")), None)
    // otherwise exactly one POST with the normalised body
    ensures !IsBlank(text) ==>
            r.sent == Some(HttpRequest(Post, "/paste", PastePayload(text.value, options),
                                       options.timeout.GetOr(10000)))
    // an accepted body is returned verbatim
    ensures r.sent.Some? && Accepted(outcome) ==> r.result == Returned(outcome.data.value)
    // a refused body throws "Invalid response: ..." and is not re-wrapped by the handler
    ensures r.sent.Some? && outcome.Ok? && !Accepted(outcome) ==>
            r.result == Threw(NewError("Invalid response: " + env.stringify(outcome.data)))
    // a transport error that already reads "Invalid response..." passes through unchanged
    ensures r.sent.Some? && outcome.Fail? && outcome.error.isError
            && StartsWith(outcome.error.message, "Invalid response") ==>
            r.result == Threw(outcome.error)
    // every other transport error is normalised
    ensures r.sent.Some? && outcome.Fail?
            && !(outcome.error.isError && StartsWith(outcome.error.message, "Invalid response")) ==>
            r.result == Threw(NewError(env.getErrorMessage(outcome.error, "Failed to create paste")))
  {
    if IsBlank(text) then
      Call(Threw(NewError(TextRequired)), None)
    else
      var request := HttpRequest(Post, "/paste", PastePayload(text.value, options),
                                 options.timeout.GetOr(DefaultTimeout));
      Call(Settle(env, outcome), Some(request))
  }

  /** The `try` block followed by its `catch` handler. */
  function Settle(env: Env, outcome: Outcome<Option<PasteResponse>>): (t: Thrown<PasteResponse>)
    ensures Accepted(outcome) ==> t == Returned(outcome.data.value)
    ensures outcome.Ok? && !Accepted(outcome) ==>
            t == Threw(NewError("Invalid response: " + env.stringify(outcome.data)))
    ensures outcome.Fail? && outcome.error.isError && StartsWith(outcome.error.message, "Invalid response") ==>
            t == Threw(outcome.error)
    ensures outcome.Fail? && !(outcome.error.isError && StartsWith(outcome.error.message, "Invalid response")) ==>
            t == Threw(NewError(env.getErrorMessage(outcome.error, "Failed to create paste")))
  {
    InvalidResponseNotRewrapped(env, outcome);
    match TryBlock(env, outcome)
    case Returned(body) => Returned(body)
    case Threw(error) => Threw(CatchBlock(env, error))
  }

  /** Every field of a submitted body is non-empty and free of surrounding
      white space: trimmed input where it was given, a default otherwise. */
  lemma {:induction false} PayloadFieldsClean(text: string, options: CreatePasteOptions)
    requires Trim(text) != []
    ensures var p := PastePayload(text, options);
            && Clean(p.text) && Clean(p.title) && Clean(p.description) && Clean(p.language)
  {
    DefaultsClean();
    CleanTrimmedOr(options.title, DefaultTitle);
    CleanTrimmedOr(options.description, DefaultDescription);
    CleanTrimmedOr(options.language, DefaultLanguage);
  }

  /** The three defaults are themselves clean. */
  lemma DefaultsClean()
    ensures Clean(DefaultTitle) && Clean(DefaultDescription) && Clean(DefaultLanguage)
  {
    assert Clean(DefaultTitle) by { assert DefaultTitle[0] == 'U' && DefaultTitle[13] == 'e'; }
    assert Clean(DefaultDescription) by {
      assert DefaultDescription[0] == 'C' && DefaultDescription[19] == 'K';
    }
    assert Clean(DefaultLanguage) by { assert DefaultLanguage[0] == 't' && DefaultLanguage[3] == 't'; }
  }

  /** Non-empty, and neither starting nor ending with white space (so
      trimming leaves it unchanged, by TrimUnchanged). */
  predicate Clean(s: string) {
    s != [] && !IsWhiteSpace(s[0]) && !IsWhiteSpace(s[|s| - 1])
  }

  lemma CleanTrimmedOr(option: Option<string>, fallback: string)
    requires Clean(fallback)
    ensures Clean(TrimmedOr(option, fallback))
  {
    if !IsBlank(option) {
      var t := Trim(option.value);
      assert t != [];
      assert TrimmedOr(option, fallback) == t;
    }
  }

  /** The two error paths stay apart: a refused or absent body yields an
      `Error` reading "Invalid response: <body as JSON>", whose message starts
      with "Invalid response", and the handler passes it on unchanged. */
  lemma {:induction false} InvalidResponseNotRewrapped(env: Env, outcome: Outcome<Option<PasteResponse>>)
    ensures outcome.Ok? && !Accepted(outcome) ==>
            && TryBlock(env, outcome) == Threw(NewError("Invalid response: " + env.stringify(outcome.data)))
            && StartsWith(TryBlock(env, outcome).error.message, "Invalid response")
            && CatchBlock(env, TryBlock(env, outcome).error) == TryBlock(env, outcome).error
  {
    if outcome.Ok? && !Accepted(outcome) {
      var rest := ": " + env.stringify(outcome.data);
      StartsWithConcat(InvalidResponse, rest);
      assert InvalidResponse + ": " + env.stringify(outcome.data) == InvalidResponse + rest
          == "Invalid response: " + env.stringify(outcome.data);
    }
  }

  /** Only the white space around each value is removed: text, title,
      description or language written as a clean core padded with white
      space is submitted as that core. */
  lemma PayloadStripsPadding(a: string, core: string, b: string, options: CreatePasteOptions)
    requires AllWhiteSpace(a) && AllWhiteSpace(b) && Clean(core)
    ensures PastePayload(a + core + b, options).text == core
    ensures PastePayload(a + core + b, options.(title := Some(a + core + b))).title == core
    ensures PastePayload(a + core + b, options.(description := Some(a + core + b))).description == core
    ensures PastePayload(a + core + b, options.(language := Some(a + core + b))).language == core
  {
    TrimOfPadded(a, core, b);
  }
}
