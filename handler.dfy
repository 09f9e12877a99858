/**
 * The page handler (`index`): what a GET or a submitted form renders.
 * A submission is trimmed, checked for being empty, turned into a video
 * identifier, run through the caption lookup and the formatter, and each
 * `error:` tag on the way is turned into a user-facing message by its
 * second colon-separated field. Templates are modelled by the data they
 * are given.
 */
module Handler {
  import opened Optional
  import opened PyStr
  import opened VideoId
  import opened Transcript

  /** The HTTP method and, for a POST, the submitted form fields. */
  datatype Request = Get | Post(form: map<string, string>)

  /** The error messages the form can show. */
  datatype Notice =
    | EnterUrl | InvalidUrl
    | SubtitlesDisabled | NoTranscript | RetrieveFailed | TranscriptError
    | NoApiKey | ProcessFailed | FormattingFailed | ProcessingError

  /** The text the template is given for each message. */
  function NoticeText(n: Notice): string {
    match n
    case EnterUrl => "Please enter a YouTube URL"
    case InvalidUrl => "Invalid YouTube URL format"
    case SubtitlesDisabled => "Subtitles are disabled for this video"
    case NoTranscript => "No transcript available for this video"
    case RetrieveFailed => "Failed to retrieve transcript"
    case TranscriptError => "Transcript error"
    case NoApiKey => "OpenAI API key not configured"
    case ProcessFailed => "Failed to process transcript"
    case FormattingFailed => "Formatting failed"
    case ProcessingError => "Processing error"
  }

  /** The rendered template and its variables. */
  datatype Page =
    | IndexPage(error: Option<Notice>)                // index.html, with or without an error message
    | ResultPage(transcript: string, videoId: string) // result.html

  /** Messages for the error types of the caption step. */
  const FetchNotices: map<string, Notice> :=
    map["transcripts-disabled" := SubtitlesDisabled,
        "no-transcript-found" := NoTranscript,
        "unknown" := RetrieveFailed]

  /** Messages for the error types of the formatting step. */
  const FormatNotices: map<string, Notice> :=
    map["no-api-key" := NoApiKey,
        "openai" := ProcessFailed,
        "unknown" := FormattingFailed]

  /** `d.get(key, default)`. */
  function Lookup<K, V>(d: map<K, V>, key: K, default: V): V {
    if key in d then d[key] else default
  }

  /**
   * `tag.split(":")[1]` for a tag starting with `error:`: the longest
   * colon-free stretch after the prefix, which is followed by a colon or
   * by the end of the tag.
   */
  function ErrorType(tag: string): (r: string)
    requires StartsWith(tag, ErrorPrefix)
    ensures ':' !in r
    ensures exists rest :: tag == ErrorPrefix + r + rest && (rest == [] || rest[0] == ':')
  {
    var body := tag[|ErrorPrefix|..];
    assert tag == "error" + [':'] + body;
    SplitAfterSeparator("error", body, ':');
    SplitFirstPiece(body, ':');
    var piece := Split(body, ':')[0];
    assert tag == ErrorPrefix + piece + body[|piece|..];
    Split(tag, ':')[1]
  }

  /** A GET shows the empty form; a POST handles the submitted `url` field. */
  function Index(req: Request, captions: CaptionRequest -> CaptionReply, apiKey: Option<string>,
                 complete: CompletionRequest -> CompletionReply): Page
  {
    match req
    case Get => IndexPage(None)
    case Post(form) => HandleSubmission(Lookup(form, "url", ""), captions, apiKey, complete)
  }

  /**
   * One submitted URL. An empty identifier cannot come back from the
   * extraction (every identifier it returns has eleven characters), so the
   * only invalid case is no identifier at all.
   */
  function HandleSubmission(rawUrl: string, captions: CaptionRequest -> CaptionReply, apiKey: Option<string>,
                            complete: CompletionRequest -> CompletionReply): Page
  {
    var url := Strip(rawUrl);
    if url == "" then IndexPage(Some(EnterUrl))
    else match ExtractVideoId(url)
      case None => IndexPage(Some(InvalidUrl))
      case Some(videoId) => ForVideo(videoId, captions, apiKey, complete)
  }

  /** The caption lookup for an identifier. */
  function CaptionsFor(videoId: string, captions: CaptionRequest -> CaptionReply): CaptionReply {
    captions(CaptionRequest(videoId, PreferredLanguages, true))
  }

  /** The steps after an identifier was found: fetch, check, format, check, render. */
  function ForVideo(videoId: string, captions: CaptionRequest -> CaptionReply, apiKey: Option<string>,
                    complete: CompletionRequest -> CompletionReply): Page
  {
    AfterFetch(GetYoutubeTranscript(videoId, captions), videoId, apiKey, complete)
  }

  /** The steps after the caption text or tag is in hand. */
  function AfterFetch(raw: string, videoId: string, apiKey: Option<string>,
                      complete: CompletionRequest -> CompletionReply): Page
  {
    if StartsWith(raw, ErrorPrefix) then
      IndexPage(Some(Lookup(FetchNotices, ErrorType(raw), TranscriptError)))
    else AfterFormat(FormatTranscript(raw, apiKey, complete), videoId)
  }

  /** The steps after the formatted text or tag is in hand. */
  function AfterFormat(formatted: string, videoId: string): Page {
    if StartsWith(formatted, ErrorPrefix) then
      IndexPage(Some(Lookup(FormatNotices, ErrorType(formatted), ProcessingError)))
    else ResultPage(formatted, videoId)
  }

  // ---------------------------------------------------------------------
  // The error type of a tag
  // ---------------------------------------------------------------------

  /** The error type is the only colon-free stretch after `error:` that ends at a colon or at the end. */
  lemma ErrorTypeUnique(tag: string, kind: string, rest: string)
    requires tag == ErrorPrefix + kind + rest
    requires ':' !in kind
    requires rest == [] || rest[0] == ':'
    ensures ErrorType(tag) == kind
  {
    var r := ErrorType(tag);
    var rest' :| tag == ErrorPrefix + r + rest' && (rest' == [] || rest'[0] == ':');
    var body := tag[|ErrorPrefix|..];
    assert body == kind + rest && body == r + rest';
    assert r == body[..|r|] && kind == body[..|kind|];
  }

  /** A tag `error:<kind><detail>` with a colon-free kind has an error type that starts with that kind. */
  lemma ErrorTypeOfTag(kind: string, detail: string)
    requires ':' !in kind
    ensures ErrorType(ErrorPrefix + kind + detail) == kind + Split(detail, ':')[0]
  {
    var tag := ErrorPrefix + kind + detail;
    assert tag == "error" + [':'] + (kind + detail);
    SplitAfterSeparator("error", kind + detail, ':');
    SplitFirst(kind, detail, ':');
  }

  /** The ten messages are told apart by their text. */
  lemma NoticeTextsDistinct(a: Notice, b: Notice)
    ensures NoticeText(a) == NoticeText(b) <==> a == b
  {
  }

  /** The caption step's lookup yields one of its own four messages. */
  lemma FetchNoticeRange(key: string)
    ensures Lookup(FetchNotices, key, TranscriptError) in {SubtitlesDisabled, NoTranscript, RetrieveFailed, TranscriptError}
  {
  }

  /** The formatting step's lookup yields one of its own four messages. */
  lemma FormatNoticeRange(key: string)
    ensures Lookup(FormatNotices, key, ProcessingError) in {NoApiKey, ProcessFailed, FormattingFailed, ProcessingError}
  {
  }

  // ---------------------------------------------------------------------
  // The input checks
  // ---------------------------------------------------------------------

  /** The form without a message is rendered exactly for a GET; every POST renders a message or a result. */
  lemma IndexFormOnlyOnGet(req: Request, captions: CaptionRequest -> CaptionReply, apiKey: Option<string>,
                           complete: CompletionRequest -> CompletionReply)
    ensures Index(req, captions, apiKey, complete) == IndexPage(None) <==> req.Get?
  {
    if req.Post? {
      SubmissionAlwaysExplains(Lookup(req.form, "url", ""), captions, apiKey, complete);
    }
  }

  /** A POST without a `url` field is handled as an empty submission. */
  lemma MissingFieldIsEmpty(form: map<string, string>, captions: CaptionRequest -> CaptionReply,
                            apiKey: Option<string>, complete: CompletionRequest -> CompletionReply)
    requires "url" !in form
    ensures Index(Post(form), captions, apiKey, complete) == IndexPage(Some(EnterUrl))
  {
  }

  /** The steps after the identifier never show the messages of the input checks. */
  lemma ForVideoNotices(videoId: string, captions: CaptionRequest -> CaptionReply, apiKey: Option<string>,
                        complete: CompletionRequest -> CompletionReply)
    ensures ForVideo(videoId, captions, apiKey, complete) != IndexPage(Some(EnterUrl))
    ensures ForVideo(videoId, captions, apiKey, complete) != IndexPage(Some(InvalidUrl))
    ensures ForVideo(videoId, captions, apiKey, complete) != IndexPage(None)
  {
    var raw := GetYoutubeTranscript(videoId, captions);
    if StartsWith(raw, ErrorPrefix) {
      FetchNoticeRange(ErrorType(raw));
    } else {
      var formatted := FormatTranscript(raw, apiKey, complete);
      if StartsWith(formatted, ErrorPrefix) {
        FormatNoticeRange(ErrorType(formatted));
      }
    }
  }

  /** "Please enter a YouTube URL" is shown exactly for a submission made only of whitespace. */
  lemma EnterUrlIffBlank(rawUrl: string, captions: CaptionRequest -> CaptionReply, apiKey: Option<string>,
                         complete: CompletionRequest -> CompletionReply)
    ensures HandleSubmission(rawUrl, captions, apiKey, complete) == IndexPage(Some(EnterUrl))
            <==> AllSpace(rawUrl)
  {
    StripEmptyIff(rawUrl);
    var url := Strip(rawUrl);
    if url != "" && ExtractVideoId(url).Some? {
      ForVideoNotices(ExtractVideoId(url).value, captions, apiKey, complete);
    }
  }

  /** A blank submission consults neither service nor the key. */
  lemma BlankConsultsNothing(rawUrl: string,
                             captions1: CaptionRequest -> CaptionReply, captions2: CaptionRequest -> CaptionReply,
                             apiKey1: Option<string>, apiKey2: Option<string>,
                             complete1: CompletionRequest -> CompletionReply,
                             complete2: CompletionRequest -> CompletionReply)
    requires AllSpace(rawUrl)
    ensures HandleSubmission(rawUrl, captions1, apiKey1, complete1)
            == HandleSubmission(rawUrl, captions2, apiKey2, complete2)
  {
    StripEmptyIff(rawUrl);
  }

  /** "Invalid YouTube URL format" is shown exactly when a non-blank submission holds no identifier. */
  lemma InvalidIffNoIdentifier(rawUrl: string, captions: CaptionRequest -> CaptionReply, apiKey: Option<string>,
                               complete: CompletionRequest -> CompletionReply)
    ensures HandleSubmission(rawUrl, captions, apiKey, complete) == IndexPage(Some(InvalidUrl))
            <==> !AllSpace(rawUrl) && ExtractVideoId(Strip(rawUrl)).None?
  {
    StripEmptyIff(rawUrl);
    var url := Strip(rawUrl);
    if url != "" && ExtractVideoId(url).Some? {
      ForVideoNotices(ExtractVideoId(url).value, captions, apiKey, complete);
    }
  }

  /** A submission without an identifier consults neither service nor the key. */
  lemma InvalidConsultsNothing(rawUrl: string,
                               captions1: CaptionRequest -> CaptionReply, captions2: CaptionRequest -> CaptionReply,
                               apiKey1: Option<string>, apiKey2: Option<string>,
                               complete1: CompletionRequest -> CompletionReply,
                               complete2: CompletionRequest -> CompletionReply)
    requires ExtractVideoId(Strip(rawUrl)).None?
    ensures HandleSubmission(rawUrl, captions1, apiKey1, complete1)
            == HandleSubmission(rawUrl, captions2, apiKey2, complete2)
  {
  }

  /** Past the input checks, the caption lookup is asked about the identifier the extraction found. */
  lemma AcceptedGoesToVideo(rawUrl: string, captions: CaptionRequest -> CaptionReply, apiKey: Option<string>,
                            complete: CompletionRequest -> CompletionReply)
    requires !AllSpace(rawUrl) && ExtractVideoId(Strip(rawUrl)).Some?
    ensures IsVideoId(ExtractVideoId(Strip(rawUrl)).value)
    ensures HandleSubmission(rawUrl, captions, apiKey, complete)
            == ForVideo(ExtractVideoId(Strip(rawUrl)).value, captions, apiKey, complete)
  {
    StripEmptyIff(rawUrl);
  }

  // ---------------------------------------------------------------------
  // The caption step
  // ---------------------------------------------------------------------

  /** Captions switched off for the video render "Subtitles are disabled for this video". */
  lemma DisabledPage(videoId: string, captions: CaptionRequest -> CaptionReply, apiKey: Option<string>,
                     complete: CompletionRequest -> CompletionReply)
    requires CaptionsFor(videoId, captions).TranscriptsDisabled?
    ensures ForVideo(videoId, captions, apiKey, complete) == IndexPage(Some(SubtitlesDisabled))
  {
    DisabledTagParts();
    FetchTagPage(GetYoutubeTranscript(videoId, captions), "transcripts-disabled", "", videoId, apiKey, complete);
  }

  /** No transcript in the preferred languages renders "No transcript available for this video". */
  lemma NotFoundPage(videoId: string, captions: CaptionRequest -> CaptionReply, apiKey: Option<string>,
                     complete: CompletionRequest -> CompletionReply)
    requires CaptionsFor(videoId, captions).NoTranscriptFound?
    ensures ForVideo(videoId, captions, apiKey, complete) == IndexPage(Some(NoTranscript))
  {
    NotFoundTagParts();
    FetchTagPage(GetYoutubeTranscript(videoId, captions), "no-transcript-found", "", videoId, apiKey, complete);
  }

  /**
   * Any other failure of the lookup renders the fallback "Transcript
   * error", never "Failed to retrieve transcript": its error type is
   * `unknown-…`, which is not the `unknown` key.
   */
  lemma UnnamedFailurePage(videoId: string, captions: CaptionRequest -> CaptionReply, apiKey: Option<string>,
                           complete: CompletionRequest -> CompletionReply)
    requires CaptionsFor(videoId, captions).CaptionFailure?
    ensures ForVideo(videoId, captions, apiKey, complete) == IndexPage(Some(TranscriptError))
  {
    UnknownTagPage(GetYoutubeTranscript(videoId, captions), CaptionsFor(videoId, captions).message,
                   videoId, apiKey, complete);
  }

  /** A tag `error:unknown-<detail>` renders the fallback message of the caption step. */
  lemma UnknownTagPage(raw: string, detail: string, videoId: string, apiKey: Option<string>,
                       complete: CompletionRequest -> CompletionReply)
    requires raw == UnknownTagPrefix + detail
    ensures AfterFetch(raw, videoId, apiKey, complete) == IndexPage(Some(TranscriptError))
  {
    var first := Split(detail, ':')[0];
    SplitFirstPiece(detail, ':');
    var rest := detail[|first|..];
    UnknownTagParts();
    Regroup(ErrorPrefix, "unknown-", first, rest);
    UnknownKindIsNoKey(first);
    FetchTagPage(raw, "unknown-" + first, rest, videoId, apiKey, complete);
  }

  // Solver aids about sequence literals, with no counterpart in the program.

  /** A tag that ends right after its kind has an empty remainder. */
  lemma TagWithoutDetail(tag: string, kind: string)
    requires tag == ErrorPrefix + kind
    ensures tag == ErrorPrefix + kind + ""
  {
  }

  /** Moving the start of the detail into the kind leaves the tag unchanged. */
  lemma Regroup(prefix: string, kind: string, first: string, rest: string)
    ensures prefix + kind + (first + rest) == prefix + (kind + first) + rest
  {
  }

  /** Caption text or tag that reads `error:<kind>…` renders the caption step's message for `kind`. */
  lemma FetchTagPage(raw: string, kind: string, rest: string, videoId: string, apiKey: Option<string>,
                     complete: CompletionRequest -> CompletionReply)
    requires raw == ErrorPrefix + kind + rest
    requires ':' !in kind
    requires rest == [] || rest[0] == ':'
    ensures AfterFetch(raw, videoId, apiKey, complete) == IndexPage(Some(Lookup(FetchNotices, kind, TranscriptError)))
  {
    ErrorTypeUnique(raw, kind, rest);
  }

  /** A formatter result that reads `error:<kind>…` renders the formatting step's message for `kind`. */
  lemma FormatTagPage(formatted: string, kind: string, rest: string, videoId: string)
    requires formatted == ErrorPrefix + kind + rest
    requires ':' !in kind
    requires rest == [] || rest[0] == ':'
    ensures AfterFormat(formatted, videoId) == IndexPage(Some(Lookup(FormatNotices, kind, ProcessingError)))
  {
    ErrorTypeUnique(formatted, kind, rest);
  }

  /** The messages the caption step's table can give. */
  predicate IsFetchNotice(n: Notice) {
    n in {SubtitlesDisabled, NoTranscript, RetrieveFailed, TranscriptError}
  }

  /** The messages the formatting step's table can give. */
  predicate IsFormatNotice(n: Notice) {
    n in {NoApiKey, ProcessFailed, FormattingFailed, ProcessingError}
  }

  /**
   * The caption result is taken for a failure exactly when it starts with
   * `error:`: the page then shows a caption-step message, and otherwise
   * the formatter's outcome decides it.
   */
  lemma AfterFetchRouting(raw: string, videoId: string, apiKey: Option<string>,
                          complete: CompletionRequest -> CompletionReply)
    ensures var page := AfterFetch(raw, videoId, apiKey, complete);
            StartsWith(raw, ErrorPrefix) <==> page.IndexPage? && page.error.Some? && IsFetchNotice(page.error.value)
  {
    if StartsWith(raw, ErrorPrefix) {
      FetchNoticeRange(ErrorType(raw));
    } else {
      AfterFormatRouting(FormatTranscript(raw, apiKey, complete), videoId);
    }
  }

  /**
   * The formatter result is taken for a failure exactly when it starts
   * with `error:`: the page then shows a formatting-step message, and
   * otherwise it is the result page with that text and the identifier.
   */
  lemma AfterFormatRouting(formatted: string, videoId: string)
    ensures StartsWith(formatted, ErrorPrefix) ==>
              var page := AfterFormat(formatted, videoId);
              page.IndexPage? && page.error.Some? && IsFormatNotice(page.error.value)
    ensures !StartsWith(formatted, ErrorPrefix) <==> AfterFormat(formatted, videoId) == ResultPage(formatted, videoId)
  {
    if StartsWith(formatted, ErrorPrefix) {
      FormatNoticeRange(ErrorType(formatted));
    }
  }

  /** No error type starting with `unknown-` is a key of the caption step. */
  lemma UnknownKindIsNoKey(detail: string)
    ensures "unknown-" + detail !in FetchNotices
  {
    var kind := "unknown-" + detail;
    assert kind[0] == 'u' && |kind| >= 8 && kind[7] == '-';
  }

  /** A failed lookup renders the same page whatever the key and the model. */
  lemma FetchFailureSkipsFormatter(videoId: string, captions: CaptionRequest -> CaptionReply,
                                   apiKey1: Option<string>, apiKey2: Option<string>,
                                   complete1: CompletionRequest -> CompletionReply,
                                   complete2: CompletionRequest -> CompletionReply)
    requires !CaptionsFor(videoId, captions).Fragments?
    ensures ForVideo(videoId, captions, apiKey1, complete1) == ForVideo(videoId, captions, apiKey2, complete2)
  {
    match CaptionsFor(videoId, captions)
    case TranscriptsDisabled =>
      DisabledPage(videoId, captions, apiKey1, complete1);
      DisabledPage(videoId, captions, apiKey2, complete2);
    case NoTranscriptFound =>
      NotFoundPage(videoId, captions, apiKey1, complete1);
      NotFoundPage(videoId, captions, apiKey2, complete2);
    case CaptionFailure(_) =>
      UnnamedFailurePage(videoId, captions, apiKey1, complete1);
      UnnamedFailurePage(videoId, captions, apiKey2, complete2);
  }

  /**
   * Caption text that happens to start with `error:` is taken for a
   * failure of the lookup: it renders the message of its error type and
   * the formatter is never asked.
   */
  lemma TaggedCaptionsMisrouted(videoId: string, captions: CaptionRequest -> CaptionReply,
                                apiKey1: Option<string>, apiKey2: Option<string>,
                                complete1: CompletionRequest -> CompletionReply,
                                complete2: CompletionRequest -> CompletionReply)
    requires CaptionsFor(videoId, captions).Fragments?
    requires StartsWith(CaptionText(CaptionsFor(videoId, captions).texts), ErrorPrefix)
    ensures var text := CaptionText(CaptionsFor(videoId, captions).texts);
            ForVideo(videoId, captions, apiKey1, complete1)
            == IndexPage(Some(Lookup(FetchNotices, ErrorType(text), TranscriptError)))
            == ForVideo(videoId, captions, apiKey2, complete2)
  {
  }

  /**
   * "Failed to retrieve transcript" is shown exactly for genuine captions
   * whose text reads as an `error:unknown` tag; no failure of the lookup
   * itself leads to it.
   */
  lemma RetrieveFailedOnlyFromCaptions(videoId: string, captions: CaptionRequest -> CaptionReply,
                                       apiKey: Option<string>, complete: CompletionRequest -> CompletionReply)
    ensures ForVideo(videoId, captions, apiKey, complete) == IndexPage(Some(RetrieveFailed))
            <==> var reply := CaptionsFor(videoId, captions);
                 reply.Fragments? && StartsWith(CaptionText(reply.texts), ErrorPrefix)
                 && ErrorType(CaptionText(reply.texts)) == "unknown"
  {
    var raw := GetYoutubeTranscript(videoId, captions);
    match CaptionsFor(videoId, captions)
    case TranscriptsDisabled => DisabledPage(videoId, captions, apiKey, complete);
    case NoTranscriptFound => NotFoundPage(videoId, captions, apiKey, complete);
    case CaptionFailure(_) => UnnamedFailurePage(videoId, captions, apiKey, complete);
    case Fragments(_) =>
      if !StartsWith(raw, ErrorPrefix) {
        var formatted := FormatTranscript(raw, apiKey, complete);
        if StartsWith(formatted, ErrorPrefix) {
          FormatNoticeRange(ErrorType(formatted));
        }
      }
  }

  /** A single caption reading `error:unknown` renders "Failed to retrieve transcript". */
  lemma CaptionReadingUnknownTag(videoId: string, captions: CaptionRequest -> CaptionReply,
                                 apiKey: Option<string>, complete: CompletionRequest -> CompletionReply)
    requires CaptionsFor(videoId, captions) == Fragments(["error:unknown"])
    ensures ForVideo(videoId, captions, apiKey, complete) == IndexPage(Some(RetrieveFailed))
  {
    FetchTagPage(GetYoutubeTranscript(videoId, captions), "unknown", "", videoId, apiKey, complete);
  }

  // ---------------------------------------------------------------------
  // The formatting step
  // ---------------------------------------------------------------------

  /** The caption lookup succeeded with text that passes the tag check. */
  predicate CaptionsPass(videoId: string, captions: CaptionRequest -> CaptionReply) {
    CaptionsFor(videoId, captions).Fragments?
    && !StartsWith(CaptionText(CaptionsFor(videoId, captions).texts), ErrorPrefix)
  }

  /** The request the formatter sends for an identifier whose captions passed. */
  function ModelRequest(videoId: string, captions: CaptionRequest -> CaptionReply, key: string): (q: CompletionRequest)
    requires CaptionsPass(videoId, captions)
    ensures q.apiKey == key
    ensures var text := CaptionText(CaptionsFor(videoId, captions).texts);
            exists sent :: q.userMessage == UserMessageHeader + sent && StartsWith(text, sent)
                           && |sent| == (if |text| < MaxTranscriptChars then |text| else MaxTranscriptChars)
  {
    CompletionRequest(key, UserMessage(CaptionText(CaptionsFor(videoId, captions).texts)))
  }

  /** Captions that pass the tag check are handed to the formatter as their joined text. */
  lemma PassedCaptionsAreFormatted(videoId: string, captions: CaptionRequest -> CaptionReply, apiKey: Option<string>,
                                   complete: CompletionRequest -> CompletionReply)
    requires CaptionsPass(videoId, captions)
    ensures ForVideo(videoId, captions, apiKey, complete)
            == AfterFormat(FormatTranscript(CaptionText(CaptionsFor(videoId, captions).texts), apiKey, complete), videoId)
  {
  }

  /** With a key and an answer with content, the page is decided by the stripped answer. */
  lemma AnsweredPage(videoId: string, captions: CaptionRequest -> CaptionReply, apiKey: Option<string>,
                     complete: CompletionRequest -> CompletionReply)
    requires CaptionsPass(videoId, captions) && HasApiKey(apiKey)
    requires complete(ModelRequest(videoId, captions, apiKey.value)).Content?
    ensures ForVideo(videoId, captions, apiKey, complete)
            == AfterFormat(Strip(complete(ModelRequest(videoId, captions, apiKey.value)).text), videoId)
  {
    PassedCaptionsAreFormatted(videoId, captions, apiKey, complete);
    FormatStripsAnswer(CaptionText(CaptionsFor(videoId, captions).texts), apiKey, complete);
  }

  /** The formatting step shows one of its two keyed-by-name messages exactly for those two keys. */
  lemma FormatLookupNamed(key: string)
    ensures Lookup(FormatNotices, key, ProcessingError) in {ProcessFailed, FormattingFailed}
            <==> key in {"openai", "unknown"}
  {
  }

  /** Without a key the page says so, whatever the model would have answered. */
  lemma NoKeyPage(videoId: string, captions: CaptionRequest -> CaptionReply, apiKey: Option<string>,
                  complete1: CompletionRequest -> CompletionReply,
                  complete2: CompletionRequest -> CompletionReply)
    requires CaptionsPass(videoId, captions)
    requires !HasApiKey(apiKey)
    ensures ForVideo(videoId, captions, apiKey, complete1) == IndexPage(Some(NoApiKey))
    ensures ForVideo(videoId, captions, apiKey, complete1) == ForVideo(videoId, captions, apiKey, complete2)
  {
    var raw := GetYoutubeTranscript(videoId, captions);
    NoApiKeyTagParts();
    FormatTagPage(FormatTranscript(raw, apiKey, complete1), "no-api-key", "", videoId);
  }

  /**
   * A failing model call renders the fallback "Processing error": its tag's
   * error type is `openai-…`, which is not the `openai` key.
   */
  lemma ModelFailurePage(videoId: string, captions: CaptionRequest -> CaptionReply, apiKey: Option<string>,
                         complete: CompletionRequest -> CompletionReply)
    requires CaptionsPass(videoId, captions)
    requires HasApiKey(apiKey)
    requires !complete(ModelRequest(videoId, captions, apiKey.value)).Content?
    ensures ForVideo(videoId, captions, apiKey, complete) == IndexPage(Some(ProcessingError))
  {
    var text := CaptionText(CaptionsFor(videoId, captions).texts);
    PassedCaptionsAreFormatted(videoId, captions, apiKey, complete);
    FormatTagsFailure(text, apiKey, complete);
    OpenAiTagPage(FormatTranscript(text, apiKey, complete),
                  FailureText(complete(CompletionRequest(apiKey.value, UserMessage(text)))), videoId);
  }

  /** No error type starting with `openai-` is a key of the formatting step. */
  lemma OpenAiKindIsNoKey(detail: string)
    ensures "openai-" + detail !in FormatNotices
  {
    var kind := "openai-" + detail;
    assert kind[0] == 'o' && |kind| >= 7 && kind[6] == '-';
  }

  /** A formatter tag `error:openai-<detail>` renders the fallback message of the formatting step. */
  lemma OpenAiTagPage(formatted: string, detail: string, videoId: string)
    requires formatted == OpenAiTagPrefix + detail
    ensures AfterFormat(formatted, videoId) == IndexPage(Some(ProcessingError))
  {
    var first := Split(detail, ':')[0];
    SplitFirstPiece(detail, ':');
    var rest := detail[|first|..];
    OpenAiTagParts();
    Regroup(ErrorPrefix, "openai-", first, rest);
    OpenAiKindIsNoKey(first);
    FormatTagPage(formatted, "openai-" + first, rest, videoId);
  }

  /**
   * "Failed to process transcript" and "Formatting failed" are shown
   * exactly for a model answer whose stripped text reads as an
   * `error:openai` or `error:unknown` tag; no failure of the formatter
   * itself leads to them.
   */
  lemma FormatterNoticesOnlyFromModelText(videoId: string, captions: CaptionRequest -> CaptionReply,
                                          apiKey: Option<string>, complete: CompletionRequest -> CompletionReply)
    ensures var page := ForVideo(videoId, captions, apiKey, complete);
            page == IndexPage(Some(ProcessFailed)) || page == IndexPage(Some(FormattingFailed))
            <==> CaptionsPass(videoId, captions) && HasApiKey(apiKey)
                 && var answer := complete(ModelRequest(videoId, captions, apiKey.value));
                    answer.Content? && StartsWith(Strip(answer.text), ErrorPrefix)
                    && ErrorType(Strip(answer.text)) in {"openai", "unknown"}
  {
    var reply := CaptionsFor(videoId, captions);
    if reply.TranscriptsDisabled? {
      DisabledPage(videoId, captions, apiKey, complete);
    } else if reply.NoTranscriptFound? {
      NotFoundPage(videoId, captions, apiKey, complete);
    } else if reply.CaptionFailure? {
      UnnamedFailurePage(videoId, captions, apiKey, complete);
    } else if !CaptionsPass(videoId, captions) {
      FetchNoticeRange(ErrorType(CaptionText(reply.texts)));
    } else if !HasApiKey(apiKey) {
      NoKeyPage(videoId, captions, apiKey, complete, complete);
    } else if !complete(ModelRequest(videoId, captions, apiKey.value)).Content? {
      ModelFailurePage(videoId, captions, apiKey, complete);
    } else {
      AnsweredPage(videoId, captions, apiKey, complete);
      var text := Strip(complete(ModelRequest(videoId, captions, apiKey.value)).text);
      if StartsWith(text, ErrorPrefix) {
        FormatLookupNamed(ErrorType(text));
      }
    }
  }

  /**
   * A model answer that reads as a tag `error:<kind>` is taken for a
   * failure of the formatter and renders the message for `kind`.
   */
  lemma TaggedAnswerMisrouted(videoId: string, captions: CaptionRequest -> CaptionReply, apiKey: Option<string>,
                              complete: CompletionRequest -> CompletionReply, kind: string)
    requires CaptionsPass(videoId, captions) && HasApiKey(apiKey)
    requires ':' !in kind && kind != [] && !IsSpace(kind[|kind| - 1])
    requires complete(ModelRequest(videoId, captions, apiKey.value)) == Content(ErrorPrefix + kind)
    ensures ForVideo(videoId, captions, apiKey, complete) == IndexPage(Some(Lookup(FormatNotices, kind, ProcessingError)))
  {
    AnsweredPage(videoId, captions, apiKey, complete);
    TagAnswerUntrimmed(kind);
    TagWithoutDetail(ErrorPrefix + kind, kind);
    FormatTagPage(ErrorPrefix + kind, kind, "", videoId);
  }

  /** A tag whose kind does not end in whitespace is its own strip. */
  lemma TagAnswerUntrimmed(kind: string)
    requires kind != [] && !IsSpace(kind[|kind| - 1])
    ensures Strip(ErrorPrefix + kind) == ErrorPrefix + kind
  {
    var text := ErrorPrefix + kind;
    assert text[0] == 'e' && text[|text| - 1] == kind[|kind| - 1];
    StripUntrimmed(text);
  }

  /** A model answer reading `error:openai` renders "Failed to process transcript". */
  lemma ModelTextReadingOpenAiTag(videoId: string, captions: CaptionRequest -> CaptionReply, apiKey: Option<string>,
                                  complete: CompletionRequest -> CompletionReply)
    requires CaptionsPass(videoId, captions) && HasApiKey(apiKey)
    requires complete(ModelRequest(videoId, captions, apiKey.value)) == Content("error:openai")
    ensures ForVideo(videoId, captions, apiKey, complete) == IndexPage(Some(ProcessFailed))
  {
    OpenAiKindShape();
    TaggedAnswerMisrouted(videoId, captions, apiKey, complete, "openai");
  }

  /** Solver aid: the facts about the literal answer `error:openai` the example above needs. */
  lemma OpenAiKindShape()
    ensures ':' !in "openai" && !IsSpace("openai"[5])
    ensures "error:openai" == ErrorPrefix + "openai"
    ensures Lookup(FormatNotices, "openai", ProcessingError) == ProcessFailed
  {
  }

  // ---------------------------------------------------------------------
  // The result page
  // ---------------------------------------------------------------------

  /**
   * The result page is shown exactly when every step succeeds, and then
   * it carries the identifier and the stripped model answer, which was
   * asked for with the configured key and the truncated caption text and
   * has no whitespace at either end.
   */
  lemma ResultPageIffSuccess(videoId: string, captions: CaptionRequest -> CaptionReply, apiKey: Option<string>,
                             complete: CompletionRequest -> CompletionReply)
    ensures ForVideo(videoId, captions, apiKey, complete).ResultPage?
            <==> CaptionsPass(videoId, captions) && HasApiKey(apiKey)
                 && var answer := complete(ModelRequest(videoId, captions, apiKey.value));
                    answer.Content? && !StartsWith(Strip(answer.text), ErrorPrefix)
    ensures ForVideo(videoId, captions, apiKey, complete).ResultPage? ==>
            var answer := complete(ModelRequest(videoId, captions, apiKey.value));
            var page := ForVideo(videoId, captions, apiKey, complete);
            page == ResultPage(Strip(answer.text), videoId) && Strip(page.transcript) == page.transcript
  {
    var reply := CaptionsFor(videoId, captions);
    if reply.TranscriptsDisabled? {
      DisabledPage(videoId, captions, apiKey, complete);
    } else if reply.NoTranscriptFound? {
      NotFoundPage(videoId, captions, apiKey, complete);
    } else if reply.CaptionFailure? {
      UnnamedFailurePage(videoId, captions, apiKey, complete);
    } else if !CaptionsPass(videoId, captions) {
    } else if !HasApiKey(apiKey) {
      NoKeyPage(videoId, captions, apiKey, complete, complete);
    } else if !complete(ModelRequest(videoId, captions, apiKey.value)).Content? {
      ModelFailurePage(videoId, captions, apiKey, complete);
    } else {
      AnsweredPage(videoId, captions, apiKey, complete);
      StripIdempotent(complete(ModelRequest(videoId, captions, apiKey.value)).text);
    }
  }

  /** Every submission renders an error message or the result page. */
  lemma SubmissionAlwaysExplains(rawUrl: string, captions: CaptionRequest -> CaptionReply, apiKey: Option<string>,
                                 complete: CompletionRequest -> CompletionReply)
    ensures HandleSubmission(rawUrl, captions, apiKey, complete) != IndexPage(None)
  {
    var url := Strip(rawUrl);
    if url != "" && ExtractVideoId(url).Some? {
      ForVideoNotices(ExtractVideoId(url).value, captions, apiKey, complete);
    }
  }

  /**
   * A submission that renders the result page got past both input checks,
   * and the page carries the eleven-character identifier extracted from
   * the trimmed submission.
   */
  lemma ResultCarriesExtractedId(rawUrl: string, captions: CaptionRequest -> CaptionReply, apiKey: Option<string>,
                                 complete: CompletionRequest -> CompletionReply)
    requires HandleSubmission(rawUrl, captions, apiKey, complete).ResultPage?
    ensures !AllSpace(rawUrl) && ExtractVideoId(Strip(rawUrl)).Some?
    ensures HandleSubmission(rawUrl, captions, apiKey, complete).videoId == ExtractVideoId(Strip(rawUrl)).value
    ensures IsVideoId(HandleSubmission(rawUrl, captions, apiKey, complete).videoId)
  {
    StripEmptyIff(rawUrl);
    var url := Strip(rawUrl);
    if url != "" && ExtractVideoId(url).Some? {
      ResultPageIffSuccess(ExtractVideoId(url).value, captions, apiKey, complete);
    }
  }
}
