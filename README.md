# YouTube transcript formatter — a Dafny model of its request logic

The application is a one-page web app. A user submits a YouTube URL. The
server trims it and pulls the eleven-character video identifier out of it.
It fetches the captions in English, Spanish or French and joins them into
one string. It sends at most the first 15000 characters to a language model
to be given paragraphs and punctuation. It then renders either the
formatted text with the identifier or an error message on the form.

The two upstream steps never raise. Each one folds its outcome into a
string, and every failure is a tag beginning `error:`. The handler tells
failures apart by that prefix. It picks a message by the text between the
first and second colon, with a fallback.

The model is pure, as the source is:

- `optional.dfy` (`Optional`): the `Option` datatype for Python's value-or-`None`.
- `pystr.dfy` (`PyStr`): the Python `str` operations the handler uses. These are
  `isspace`, `strip`, `startswith`, `join`, `split` on one character and `s[:n]`.
- `video_id.dfy` (`VideoId`): `extract_video_id`.
  - The four regular expressions are data: `(?:A1|A2|…)`, then the capture `[0-9A-Za-z_-]{11}`.
  - `re.search` is the leftmost start position at which the pattern matches.
  - The `.` in `youtu.be` matches any character except a newline.
- `video_id_examples.dfy` (`VideoIdExamples`): the four URL shapes, the sample
  URLs and a foreign URL, worked through the extractor.
- `transcript.dfy` (`Transcript`): `get_youtube_transcript` and `format_transcript`.
  - The caption library and the chat-completion client are function parameters: `captions` and `complete`.
  - Their outcomes are datatypes: fragments, disabled, not found or another failure; content, no content or a client failure.
- `handler.dfy` (`Handler`): `index`. A page is the template and its variables.
  - The form's message is a `Notice`.
  - `NoticeText` gives the exact sentence the template receives.
  - `NoticeTextsDistinct` shows the ten sentences are distinct.

What is proved, in brief:

- An extracted identifier is always eleven identifier characters, so the
  length check in the extraction loop never rejects a match.
- Extraction returns the group at the leftmost `v=` or `/` followed by eleven
  identifier characters, and `None` exactly when no such position exists.
- Patterns 2–4 never change the result.
- Text after a found identifier never changes it.
- Each input check fires exactly under its condition and consults nothing downstream.
- Every failure of the caption lookup and of the model call reaches its message.
- The `unknown` entry of the caption table and the `openai` and `unknown`
  entries of the formatting table are reached only when a genuine caption or
  model answer happens to read like a tag. No failure of the steps
  themselves reaches them.
- The result page appears exactly when every step succeeds. It carries the
  extracted identifier and the stripped model answer.

## Model

| member | source | states |
|---|---|---|
| PyStr.AsciiSpaces | main.py:76 | `isspace` (`IsSpace`), on ASCII, holds for exactly space, tab, newline, carriage return, vertical tab, form feed and the four separators `\x1c`–`\x1f` |
| PyStr.FirstNonSpace | main.py:76 | the leading scan stops at the end or at the first non-whitespace character, having passed only whitespace |
| PyStr.EndOfNonSpace | main.py:76 | the trailing scan stops at its lower bound or just after a non-whitespace character, having passed only whitespace |
| PyStr.Strip | main.py:76 | `strip()` returns a contiguous piece of the input with only whitespace cut from either end, and with no whitespace left at either end |
| PyStr.StripEmptyIff | main.py:76-77 | the stripped URL is empty exactly when the submitted one is all whitespace |
| PyStr.StripIdempotent | main.py:68 | stripping an already stripped answer changes nothing |
| PyStr.StripUntrimmed | main.py:68 | a string with no whitespace at either end is its own strip |
| PyStr.StartsWithIff | main.py:86 | `startswith` (`StartsWith`) holds exactly when the string is the prefix followed by something |
| PyStr.Take | main.py:62 | `s[:n]` is a prefix of `s` of length `min(len(s), n)` |
| PyStr.JoinLength | main.py:38 | `sep.join` (`Join`): a join of no parts is empty; otherwise its length is the sum of the parts plus one separator per gap |
| PyStr.Split | main.py:87 | `split(":")` yields at least one piece, at least two when a colon occurs, no piece holds a colon, and joining the pieces with colons gives the input back |
| PyStr.SplitFirst | main.py:87 | a colon-free prefix is glued to the first piece and leaves the later pieces unchanged |
| PyStr.SplitAfterSeparator | main.py:87 | after a colon-free prefix and a colon, the pieces are those of what follows |
| PyStr.SplitFirstPiece | main.py:87 | the first piece is followed by a colon or by the end of the string |
| PyStr.SplitJoin | main.py:87 | splitting a colon-join of colon-free parts gives the parts back |
| VideoId.GroupStart | main.py:20-23 | eleven identifier characters follow a returned group start |
| VideoId.GroupStartFound | main.py:20-23 | a group start is returned exactly when some alternative matches at the position |
| VideoId.MatchAt | main.py:20-23 | a match at a position captures eleven identifier characters |
| VideoId.SearchFrom | main.py:26 | a search result is a well-formed identifier |
| VideoId.Search | main.py:26-27 | `match.group(1)` always has length 11 and only identifier characters, so the `== 11` check never rejects |
| VideoId.FirstMatch | main.py:25-29 | a result is a well-formed identifier, and when the first pattern finds one, that is the result |
| VideoId.FirstMatchIsFirst | main.py:25-28 | the result is what the first pattern that finds anything finds, whatever the later patterns would find |
| VideoId.FirstMatchNone | main.py:25-29 | there is no result exactly when no pattern finds anything |
| VideoId.ExtractVideoId | main.py:18-29 | every returned identifier has length 11 and consists of `[0-9A-Za-z_-]` |
| VideoId.SearchFromLeftmost | main.py:26 | when no earlier position matches, the search returns the match at the first matching position |
| VideoId.SearchFromNone | main.py:26 | the search finds nothing exactly when no position from the start on matches |
| VideoId.SearchFromSome | main.py:26 | a search result is the match at some position in range |
| VideoId.SearchIsLeftmost | main.py:26 | `re.search` gives `None` exactly when no position matches, and otherwise the match at the leftmost matching position |
| VideoId.WatchOrSlashGroup | main.py:20 | the eleven characters after `v=` or `/` form a well-formed identifier |
| VideoId.WatchOrSlashMatchAt | main.py:20 | pattern 1 matches at a position exactly when `v=` or `/` there is followed by eleven identifier characters, and then captures them |
| VideoId.SlashFormImpliesWatchOrSlash | main.py:21-23 | wherever pattern 2, 3 or 4 matches, pattern 1 matches at its final `/` with the same capture |
| VideoId.SlashFormSearchImpliesWatchOrSlash | main.py:20-24 | if pattern 2, 3 or 4 finds anything, so does pattern 1 |
| VideoId.ExtractIsWatchOrSlashSearch | main.py:19-29 | the extraction equals the search for pattern 1 alone: patterns 2–4 never change the result |
| VideoId.ExtractVideoIdLeftmost | main.py:20-29 | `None` exactly when no position holds `v=` or `/` followed by eleven identifier characters; otherwise the identifier after the leftmost such position |
| VideoId.ExtractIgnoresSuffix | main.py:20-24 | no end anchor: text appended after a URL that yields an identifier does not change it |
| VideoId.WindowPrefix | main.py:20 | whether pattern 1 matches within the URL, and what it captures, is unchanged by appended text |
| VideoIdExamples.FoundAt | main.py:25-28 | a match at a position with no candidate before it is the result |
| VideoIdExamples.WatchShape | main.py:18-29 | `https://www.youtube.com/watch?v=<id>…` yields `<id>` for every well-formed `<id>` |
| VideoIdExamples.ShortLinkShape | main.py:18-29 | `https://youtu.be/<id>…` yields `<id>` |
| VideoIdExamples.EmbedShape | main.py:18-29 | `https://www.youtube.com/embed/<id>…` yields `<id>` |
| VideoIdExamples.ShortsShape | main.py:18-29 | `https://www.youtube.com/shorts/<id>…` yields `<id>` |
| VideoIdExamples.SampleWatchUrl | main.py:18-29 | `https://www.youtube.com/watch?v=dQw4w9WgXcQ` yields `dQw4w9WgXcQ` |
| VideoIdExamples.SampleShortLinkUrl | main.py:18-29 | `https://youtu.be/dQw4w9WgXcQ` yields `dQw4w9WgXcQ` |
| VideoIdExamples.SampleEmbedUrl | main.py:18-29 | `https://www.youtube.com/embed/dQw4w9WgXcQ` yields `dQw4w9WgXcQ` |
| VideoIdExamples.SampleShortsUrl | main.py:18-29 | `https://www.youtube.com/shorts/dQw4w9WgXcQ` yields `dQw4w9WgXcQ` |
| VideoIdExamples.SampleLongerToken | main.py:20-24 | `https://youtu.be/dQw4w9WgXcQxyz` yields the first eleven characters only |
| VideoIdExamples.ForeignUrl | main.py:18-29 | `https://example.com/video` yields `None` |
| Transcript.CaptionText | main.py:38 | the joined caption text is empty for no fragments, otherwise as long as the fragments plus one space per gap |
| Transcript.FetchTagIff | main.py:31-45 | `get_youtube_transcript` (`GetYoutubeTranscript`) returns something starting with `error:` exactly when the lookup failed or the joined caption text itself starts with `error:` |
| Transcript.UserMessage | main.py:62 | the model is sent the fixed header followed by a prefix of the transcript of length `min(len, 15000)` |
| Transcript.FormatTagIff | main.py:47-71 | `format_transcript` (`FormatTranscript`) returns something starting with `error:` exactly when the key is missing, the model call ends without content, or the stripped answer itself starts with `error:` |
| Transcript.NoKeyNeverCallsModel | main.py:49-50 | with the key absent or empty the result is `error:no-api-key`, whatever the model would answer |
| Handler.ErrorType | main.py:87 | `split(":")[1]` of a tag is colon-free and is followed in the tag by a colon or by the end |
| Handler.ErrorTypeUnique | main.py:87 | that description determines the error type: any colon-free stretch after `error:` ending at a colon or the end is it |
| Handler.ErrorTypeOfTag | main.py:87 | the error type of `error:<kind><detail>` with a colon-free kind is the kind followed by the first colon-free piece of the detail |
| Handler.NoticeTextsDistinct | main.py:78-104 | the ten messages have ten distinct texts |
| Handler.FetchNoticeRange | main.py:88-93 | the caption step's `messages.get` (`Lookup`) yields one of its three messages or its fallback |
| Handler.FormatNoticeRange | main.py:99-104 | the formatting step's `messages.get` (`Lookup`) yields one of its three messages or its fallback |
| Handler.FormatLookupNamed | main.py:99-104 | "Failed to process transcript" or "Formatting failed" comes out exactly for the keys `openai` and `unknown` |
| Handler.IndexFormOnlyOnGet | main.py:73-110 | `index` (`Index`) renders the form without a message exactly for a GET; every POST renders a message or the result page |
| Handler.MissingFieldIsEmpty | main.py:76-78 | `form.get('url', '')` (`Lookup`): a POST without a `url` field is treated as an empty URL |
| Handler.ForVideoNotices | main.py:84-108 | after an identifier is found, neither input-check message nor a bare form is rendered |
| Handler.EnterUrlIffBlank | main.py:76-78 | in `HandleSubmission`, "Please enter a YouTube URL" is rendered exactly when the submission is all whitespace |
| Handler.BlankConsultsNothing | main.py:76-78 | a blank submission renders the same page whatever the caption service, the key and the model |
| Handler.InvalidIffNoIdentifier | main.py:80-82 | in `HandleSubmission`, "Invalid YouTube URL format" is rendered exactly when the submission is not blank and yields no identifier |
| Handler.InvalidConsultsNothing | main.py:80-82 | with no identifier the page does not depend on the caption service, the key or the model |
| Handler.AcceptedGoesToVideo | main.py:80-84 | past both checks of `HandleSubmission`, the captions are fetched for the extracted, well-formed identifier |
| Handler.AfterFetchRouting | main.py:86-95 | in `AfterFetch`, a caption result is taken for a failure exactly when it starts with `error:`; then, and only then, a caption-step message is shown |
| Handler.DisabledPage | main.py:86-93 | captions disabled renders "Subtitles are disabled for this video" |
| Handler.NotFoundPage | main.py:86-93 | no caption track renders "No transcript available for this video" |
| Handler.UnnamedFailurePage | main.py:86-93 | any other lookup failure renders "Transcript error", never "Failed to retrieve transcript" |
| Handler.UnknownTagPage | main.py:86-93 | a tag `error:unknown-<detail>` renders the caption step's fallback for every detail |
| Handler.UnknownKindIsNoKey | main.py:88-93 | no error type beginning `unknown-` is a key of the caption table |
| Handler.FetchTagPage | main.py:86-93 | a raw result reading `error:<kind>` up to a colon or the end renders the caption table's entry for `kind` |
| Handler.FetchFailureSkipsFormatter | main.py:84-95 | a failed lookup renders the same page whatever the key and the model |
| Handler.TaggedCaptionsMisrouted | main.py:86-93 | genuine caption text beginning `error:` is rendered as a lookup failure and never reaches the formatter |
| Handler.RetrieveFailedOnlyFromCaptions | main.py:86-93 | "Failed to retrieve transcript" is rendered exactly when genuine caption text reads as an `error:unknown` tag |
| Handler.CaptionReadingUnknownTag | main.py:86-93 | a single caption `error:unknown` renders "Failed to retrieve transcript" |
| Handler.ModelRequest | main.py:52-62 | the model is called with the configured key and the header followed by the prefix of the caption text of length `min(len, 15000)` |
| Handler.AfterFormatRouting | main.py:97-108 | in `AfterFormat`, a formatter result starting with `error:` shows a formatting-step message; any other result is rendered as the result page with that text and the identifier, and only then |
| Handler.FormatTagPage | main.py:97-104 | a formatter result reading `error:<kind>` up to a colon or the end renders the formatting table's entry for `kind` |
| Handler.NoKeyPage | main.py:97-104 | with no key, "OpenAI API key not configured" is rendered whatever the model would answer |
| Handler.ModelFailurePage | main.py:97-104 | a model call that raises or returns no content renders "Processing error" |
| Handler.OpenAiKindIsNoKey | main.py:99-104 | no error type beginning `openai-` is a key of the formatting table |
| Handler.OpenAiTagPage | main.py:97-104 | a tag `error:openai-<detail>` renders the formatting step's fallback for every detail |
| Handler.FormatterNoticesOnlyFromModelText | main.py:97-104 | "Failed to process transcript" or "Formatting failed" is rendered exactly when the stripped model answer reads as an `error:openai` or `error:unknown` tag |
| Handler.TaggedAnswerMisrouted | main.py:97-104 | a model answer reading `error:<kind>` is rendered as a formatter failure |
| Handler.ModelTextReadingOpenAiTag | main.py:97-104 | a model answer `error:openai` renders "Failed to process transcript" |
| Handler.ResultPageIffSuccess | main.py:95-108 | the result page is rendered exactly when every step succeeds, and then it carries the stripped model answer, which has no surrounding whitespace, and the identifier |
| Handler.SubmissionAlwaysExplains | main.py:75-108 | every submission renders an error message or the result page |
| Handler.ResultCarriesExtractedId | main.py:76-108 | a result page carries the well-formed identifier extracted from the trimmed submission |

## Left out

- The Flask application, its routing and secret key, template rendering, static files and the serverless wrapper (main.py:1-16, 73-75, 106-112). These are framework I/O. A rendered page is the template's name and its variables.
- The caption library's network call (main.py:33-37) is the parameter `captions`.
  - An entry without a `text` field makes the comprehension at line 38 raise. The catch-all then tags it.
  - The model covers this only as the reply `CaptionFailure`. It does not derive it from a malformed entry list.
- The chat-completion client (main.py:52-68) is the parameter `complete`. None of these are modelled:
  - the 30-second timeout;
  - the model name;
  - the system prompt;
  - the temperature and the output-token limit.
  The user message is modelled exactly.
- Any exception from the client after the key check becomes the reply `ClientFailure`. This covers a missing first choice too. A missing message content is the reply `NoContent`. Its `.strip()` raises `AttributeError`, and the model writes that exception's text out as a constant.
- Logging (main.py:15-16, 44, 70) is a side effect with no bearing on the result.
- Reading the environment (main.py:11-12) is left out. The API key is the parameter `apiKey`. Both an absent and an empty key count as missing, as Python's truth test treats them.
- Python strings are sequences of code points, modelled as `seq<char>`. Lone surrogate code points, which Dafny's `char` cannot hold, are not modelled.
- The `"unknown"` key of the caption step's table (main.py:91) is never hit by the caption step's own catch-all. The catch-all tag is `error:unknown-<message>` (main.py:45), and its error type starts with `unknown-`. So an unexpected lookup failure shows "Transcript error" (`UnnamedFailurePage`). In the same way, the formatter's `error:openai-<message>` (main.py:71) never hits the `"openai"` key and shows "Processing error" (`ModelFailurePage`).
