/**
 * The two upstream steps of a request and the strings they hand back
 * (`get_youtube_transcript`, `format_transcript`). Both calls into
 * third-party services are parameters: `captions` stands for the caption
 * library's `get_transcript` and `complete` for the language-model chat
 * completion. Each step folds its outcome into one string; failures are
 * strings that start with `error:`.
 */
module Transcript {
  import opened Optional
  import opened PyStr

  /** The language codes asked for, in order of preference. */
  const PreferredLanguages: seq<string> := ["en", "es", "fr"]

  /** At most this many characters of the raw transcript are sent for formatting. */
  const MaxTranscriptChars: nat := 15000

  const ErrorPrefix := "error:"
  const DisabledTag := "error:transcripts-disabled"
  const NotFoundTag := "error:no-transcript-found"
  const UnknownTagPrefix := "error:unknown-"
  const NoApiKeyTag := "error:no-api-key"
  const OpenAiTagPrefix := "error:openai-"

  /** The text the model is given in front of the transcript. */
  const UserMessageHeader := "Format this transcript:\n\n"

  /** What `str(e)` reads for the exception `.strip()` raises on a missing message content. */
  const NoContentMessage := "'NoneType' object has no attribute 'strip'"

  /** The arguments of the caption lookup. */
  datatype CaptionRequest = CaptionRequest(videoId: string, languages: seq<string>, preserveFormatting: bool)

  /** How the caption lookup ends. */
  datatype CaptionReply =
    | Fragments(texts: seq<string>)  // the `text` field of each returned entry, in delivery order
    | TranscriptsDisabled            // `TranscriptsDisabled` raised
    | NoTranscriptFound              // `NoTranscriptFound` raised
    | CaptionFailure(message: string) // any other exception, with `str(e)`

  /** The credential and the user message of one chat completion. */
  datatype CompletionRequest = CompletionRequest(apiKey: string, userMessage: string)

  /** How the chat completion ends. */
  datatype CompletionReply =
    | Content(text: string)          // the first choice's message content
    | NoContent                      // the first choice has no message content
    | ClientFailure(message: string) // the client raised, with `str(e)`

  /** The caption fragments joined by single spaces. */
  function CaptionText(texts: seq<string>): (r: string)
    ensures |texts| == 0 ==> r == ""
    ensures |texts| > 0 ==> |r| == SumLengths(texts) + |texts| - 1
  {
    JoinLength(" ", texts);
    Join(" ", texts)
  }

  /** `get_youtube_transcript`: the caption text, or a failure tag. */
  function GetYoutubeTranscript(videoId: string, captions: CaptionRequest -> CaptionReply): string {
    match captions(CaptionRequest(videoId, PreferredLanguages, true))
    case Fragments(texts) => CaptionText(texts)
    case TranscriptsDisabled => DisabledTag
    case NoTranscriptFound => NotFoundTag
    case CaptionFailure(message) => UnknownTagPrefix + message
  }

  /** The message sent to the model: the fixed header, then the truncated transcript. */
  function UserMessage(transcript: string): (r: string)
    ensures exists sent :: r == UserMessageHeader + sent && StartsWith(transcript, sent)
                           && |sent| == (if |transcript| < MaxTranscriptChars then |transcript| else MaxTranscriptChars)
  {
    var sent := Take(transcript, MaxTranscriptChars);
    UserMessageHeader + sent
  }

  /** Python's truth value of the configured key: absent and empty both count as missing. */
  predicate HasApiKey(apiKey: Option<string>) {
    apiKey.Some? && apiKey.value != ""
  }

  /** What `str(e)` reads for the exception the model call ended in. */
  function FailureText(answer: CompletionReply): string
    requires !answer.Content?
  {
    if answer.NoContent? then NoContentMessage else answer.message
  }

  /** `format_transcript`: the stripped formatted text, or a failure tag. */
  function FormatTranscript(transcript: string, apiKey: Option<string>, complete: CompletionRequest -> CompletionReply): string {
    if !HasApiKey(apiKey) then NoApiKeyTag
    else
      var answer := complete(CompletionRequest(apiKey.value, UserMessage(transcript)));
      if answer.Content? then Strip(answer.text) else OpenAiTagPrefix + FailureText(answer)
  }

  /** With a key, an answer with content is formatted to that content, stripped. */
  lemma FormatStripsAnswer(transcript: string, apiKey: Option<string>, complete: CompletionRequest -> CompletionReply)
    requires HasApiKey(apiKey)
    requires complete(CompletionRequest(apiKey.value, UserMessage(transcript))).Content?
    ensures FormatTranscript(transcript, apiKey, complete)
            == Strip(complete(CompletionRequest(apiKey.value, UserMessage(transcript))).text)
  {
  }

  /** With a key, a model call without content gives the `error:openai-` tag with the exception text. */
  lemma FormatTagsFailure(transcript: string, apiKey: Option<string>, complete: CompletionRequest -> CompletionReply)
    requires HasApiKey(apiKey)
    requires !complete(CompletionRequest(apiKey.value, UserMessage(transcript))).Content?
    ensures var answer := complete(CompletionRequest(apiKey.value, UserMessage(transcript)));
            FormatTranscript(transcript, apiKey, complete) == OpenAiTagPrefix + FailureText(answer)
            && (answer.NoContent? ==> FailureText(answer) == "'NoneType' object has no attribute 'strip'")
            && (answer.ClientFailure? ==> FailureText(answer) == answer.message)
  {
  }

  /**
   * The caption step's result reads as a failure exactly when the lookup
   * failed or the joined caption text itself starts with `error:`.
   */
  lemma FetchTagIff(videoId: string, captions: CaptionRequest -> CaptionReply)
    ensures var reply := captions(CaptionRequest(videoId, PreferredLanguages, true));
            StartsWith(GetYoutubeTranscript(videoId, captions), ErrorPrefix)
            <==> !reply.Fragments? || StartsWith(CaptionText(reply.texts), ErrorPrefix)
  {
    match captions(CaptionRequest(videoId, PreferredLanguages, true))
    case Fragments(_) =>
    case TranscriptsDisabled => FixedTagsStart();
    case NoTranscriptFound => FixedTagsStart();
    case CaptionFailure(message) => UnknownTagStarts(message);
  }

  /**
   * The formatting step's result reads as a failure exactly when the key
   * is missing, the model call ends without content, or the stripped
   * answer itself starts with `error:`.
   */
  lemma FormatTagIff(transcript: string, apiKey: Option<string>, complete: CompletionRequest -> CompletionReply)
    ensures StartsWith(FormatTranscript(transcript, apiKey, complete), ErrorPrefix)
            <==> !HasApiKey(apiKey)
                 || var answer := complete(CompletionRequest(apiKey.value, UserMessage(transcript)));
                    !answer.Content? || StartsWith(Strip(answer.text), ErrorPrefix)
  {
    if !HasApiKey(apiKey) {
      FixedTagsStart();
    } else {
      var answer := complete(CompletionRequest(apiKey.value, UserMessage(transcript)));
      if answer.Content? {
        FormatStripsAnswer(transcript, apiKey, complete);
      } else {
        FormatTagsFailure(transcript, apiKey, complete);
        OpenAiTagStarts(FailureText(answer));
      }
    }
  }

  /**
   * Without a key the model is never asked: the tag is the same whatever
   * the completion would have done.
   */
  lemma NoKeyNeverCallsModel(transcript: string, apiKey: Option<string>,
                             complete1: CompletionRequest -> CompletionReply,
                             complete2: CompletionRequest -> CompletionReply)
    requires !HasApiKey(apiKey)
    ensures FormatTranscript(transcript, apiKey, complete1) == "error:no-api-key"
    ensures FormatTranscript(transcript, apiKey, complete1) == FormatTranscript(transcript, apiKey, complete2)
  {
  }

  // ---------------------------------------------------------------------
  // Solver aids: each fixed tag read as the error prefix and its error
  // type, stated once so that proofs need not compare string literals.
  // They have no counterpart of their own in the program.
  // ---------------------------------------------------------------------

  lemma DisabledTagParts()
    ensures DisabledTag == ErrorPrefix + "transcripts-disabled" + "" && ':' !in "transcripts-disabled"
  {
  }

  lemma NotFoundTagParts()
    ensures NotFoundTag == ErrorPrefix + "no-transcript-found" + "" && ':' !in "no-transcript-found"
  {
  }

  lemma UnknownTagParts()
    ensures UnknownTagPrefix == ErrorPrefix + "unknown-"
  {
  }

  lemma NoApiKeyTagParts()
    ensures NoApiKeyTag == ErrorPrefix + "no-api-key" + "" && ':' !in "no-api-key"
  {
  }

  lemma OpenAiTagParts()
    ensures OpenAiTagPrefix == ErrorPrefix + "openai-"
  {
  }

  lemma FixedTagsStart()
    ensures StartsWith(DisabledTag, ErrorPrefix) && StartsWith(NotFoundTag, ErrorPrefix)
    ensures StartsWith(NoApiKeyTag, ErrorPrefix)
  {
    DisabledTagParts();
    StartsWithAppend(ErrorPrefix, "transcripts-disabled");
    NotFoundTagParts();
    StartsWithAppend(ErrorPrefix, "no-transcript-found");
    NoApiKeyTagParts();
    StartsWithAppend(ErrorPrefix, "no-api-key");
  }

  lemma UnknownTagStarts(message: string)
    ensures StartsWith(UnknownTagPrefix + message, ErrorPrefix)
  {
    UnknownTagParts();
    assert UnknownTagPrefix + message == ErrorPrefix + ("unknown-" + message);
    StartsWithAppend(ErrorPrefix, "unknown-" + message);
  }

  lemma OpenAiTagStarts(detail: string)
    ensures StartsWith(OpenAiTagPrefix + detail, ErrorPrefix)
  {
    OpenAiTagParts();
    assert OpenAiTagPrefix + detail == ErrorPrefix + ("openai-" + detail);
    StartsWithAppend(ErrorPrefix, "openai-" + detail);
  }
}
