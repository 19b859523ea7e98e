# Geppetto client SDK: construction, `speak`, and the see/hear schemas

This project models the core of the Geppetto Node client in Dafny. Geppetto is a
remote API for text-to-speech ("speak"), image understanding ("see") and audio
transcription ("hear"). The model covers two parts:

- **The `Geppetto` client** (`client.dfy`).
  - Construction resolves the API key and the base URL. A missing or empty key fails
    with "API Key is required".
  - `speak` builds one authenticated POST to `<baseURL>/speak`. It then shapes the
    server's answer into one of three things: a thrown error, the unread body stream,
    or a buffer holding the body's bytes.
  - The status in the "Error <status>: <statusText>" message is written in decimal
    (`decimal.dfy`). A parser reads that message back, which proves the message carries
    the exact status code and status text.
- **The zod request and response declarations for see and hear** (`see.dfy`, `hear.dfy`).
  - They are written in a small first-order schema language (`zod.dfy`) over JavaScript
    values (`js_value.dfy`).
  - Each declaration comes with a reference predicate written field by field, and a lemma
    that the schema accepts exactly the values that predicate describes.
  - The hear upload field also has a lemma giving the first issue reported for every
    possible upload.
  - Each verbose response schema is proved to accept only values that its minimal
    schema also accepts.

The schema language has two readings:

- `Zod.Accepts` says whether a value passes.
- `Zod.Check` gives the first issue zod reports (its path and its kind).

Both follow zod version 3. In that version a failed `z.instanceof` is fatal, so refinements
stacked on it do not run. A union whose alternative failed only a refinement reports that
refinement's issue. zod reads a `Buffer` or a `File` as an object. The model gives such a
value no properties, which is exact for these declarations: none of their keys is a property
of either class, except `text` and `stream`, which on a File are methods. A method fails
`z.string()` (`text`) just as a missing property does. `stream` is declared only by the see
options, which first require `image`, which neither class has. So a Buffer or a File passed
as see options is refused at `image` in zod and in the model alike
(`SeeProperties.SeeOptionsRefuseUpload`).

`Zod.CheckAgreesWithAccepts` proves that the two readings agree. The URL test of
`z.string().url()` is an uninterpreted parameter `isUrl`. Whether the host defines a
global `File` class is the parameter `fileDefined`. The `GEPPETTO_API_KEY` environment
value is the parameter `env`.

`Geppetto` is a class whose two fields are `const`: they are set by the constructor and
never changed. `Geppetto.Create` is the constructor as the source writes it, with the
exception turned into a `Failure`. `Geppetto.Speak` takes the server as a function from
request to fetch result.

## Model

| member | source | states |
|---|---|---|
| Client.ResolveClient | src/index.ts:37-47 | Construction fails with "API Key is required" exactly when the resolved key is absent or empty. A given key wins over the environment value, which is used only when no key is given. A given base URL is stored unchanged; otherwise it is "https://api.geppetto.app". |
| Client.Geppetto.constructor | src/index.ts:45-46 | The client stores the resolved key and base URL, and its key is never empty. |
| Client.Geppetto.Create | src/index.ts:37-47 | `new Geppetto(options)` fails exactly when `ResolveClient` does, with the same message; on success the new client holds the resolved key and base URL. |
| Client.Geppetto.SpeakRequest | src/index.ts:56-64 | One POST to baseURL + "/speak", with exactly two headers: Content-Type "application/json" and Authorization "Bearer " followed by the (non-empty) key. The body is the caller's options with `stream` removed; every other entry is unchanged. |
| Client.Geppetto.Speak | src/index.ts:53-79 | `speak` sends `SpeakRequest(params)` once. Its result is `SpeakOutcome` of the caller's `stream` flag and the server's answer. |
| Client.SpeakOutcome | src/index.ts:65-78 | A rejected fetch rethrows its error. A status outside 200-299 fails with "Error <status>: <statusText>". An OK response without a body fails with "Response body is empty". Otherwise a truthy `stream` gives the body unread, and anything else gives exactly the body's bytes. |
| Client.Ok | src/index.ts:66 | `r.ok` holds exactly for a status from 200 to 299, as the Fetch standard defines it; `SpeakOutcome` and `NonOkIgnoresBody` state what follows from it. |
| JsValue.Truthy | src/index.ts:41-76 | JavaScript truthiness, used by `!apiKey` (line 41) and `if (stream)` (line 76): undefined, null, false, 0 and "" are falsy. `ResolveClient` and `SpeakOutcome` state its consequences. |
| JsValue.Props | src/types/hear.ts:21-32 | The properties a schema reads: a plain object's own, and none for a Buffer or a File. What follows from it is stated by `HearRequestAcceptsBareUpload`, `SeeOptionsRefuseUpload` and the `...SchemaMeaning` lemmas. |
| ClientProperties.ExplicitEmptyKeyRefused | src/index.ts:38-43 | An explicit empty key is refused even when the environment holds a key. |
| ClientProperties.NoKeyAnywhereRefused | src/index.ts:38-43 | With no key given and no environment value, construction fails. |
| ClientProperties.BaseUrlNeverRefused | src/index.ts:39-46 | The base URL never decides whether construction succeeds. |
| ClientProperties.SpeakBodyRestoresOptions | src/index.ts:56-63 | Putting the removed `stream` entry back into the body gives the caller's options exactly. |
| ClientProperties.NonOkIgnoresBody | src/index.ts:65-70 | A non-OK status fails whatever the body holds. The status and status text can be read back from the message. |
| ClientProperties.EmptyBodyBeforeStreamFlag | src/index.ts:75-76 | A missing body fails with "Response body is empty" whatever the stream flag is. |
| ClientProperties.StreamAndBufferAgree | src/index.ts:76-78 | Streaming and buffering the same response deliver the same bytes. |
| ClientProperties.HttpErrorIsNotEmptyBody | src/index.ts:65-75 | An HTTP error message never equals the empty-body message. |
| ClientProperties.StreamFlagDecidesShape | src/index.ts:76-78 | With `stream: true` the result is never a buffer. With `stream` false or absent it is never a stream. |
| HttpError.HttpErrorMessage | src/index.ts:67 | The message starts with "Error ". |
| HttpError.HttpErrorMessageRoundTrip | src/index.ts:67 | Parsing "Error <status>: <statusText>" gives back the status and the status text. |
| HttpError.HttpErrorMessageInjective | src/index.ts:67 | Two failures share a message only when their status and status text agree. |
| Decimal.DecimalString | src/index.ts:67 | The decimal text of a status is a non-empty string of digits with no leading zero. |
| Decimal.ParseDecimalString | src/index.ts:67 | Reading the decimal text of `n` back gives `n`. |
| Decimal.DecimalStringInjective | src/index.ts:67 | Distinct statuses have distinct decimal texts. |
| Decimal.DigitsEndAt | src/index.ts:67 | A run of digits followed by a non-digit ends where the non-digit begins. |
| Zod.Accepts | src/types/hear.ts:5-63 | Whether zod's parse of a value succeeds. Its meaning for each declaration is stated by the `...SchemaMeaning` lemmas below, and `CheckAgreesWithAccepts` ties it to `Check`. |
| Zod.Check | src/types/hear.ts:5-19 | The first issue is reported at or below the path of the value being checked. |
| Zod.CheckAgreesWithAccepts | src/types/hear.ts:5-19 | Check reports no issue exactly when the schema accepts the value. |
| Zod.Extend | src/types/see.ts:56-63 | `.extend` keeps every base entry in place, with the extension's schema when it redeclares that key. After them come exactly the extension entries whose key the base does not have: all of them, nothing else, in the extension's order. |
| Zod.NewEntries | src/types/see.ts:56-63 | The entries of the extension new to the base: every one of them, only those, as a subsequence of the extension. |
| Zod.ExtendOfLeadingEntry | src/types/see.ts:56-63 | Extending a one-entry shape with a shape that starts with that entry and does not repeat its key gives the extension itself. |
| Zod.NewEntriesAll | src/types/see.ts:56-63 | When the base declares none of a run of extension keys, all of them are appended in order. |
| Zod.ExtendKeepsBase | src/types/see.ts:56-57 | If the extension redeclares no base key with a different schema, every value the extended object accepts is accepted by the base object. |
| SeeProperties.SeeOptionsSchemaMeaning | src/types/see.ts:4-43 | The options are accepted exactly when `image` is a string the URL check accepts and each other option is absent or has its declared type. Unknown keys are not rejected. |
| SeeProperties.SeeOptionsRefuseUpload | src/types/see.ts:4-5 | A Buffer or a File passed as see options is refused, because `image` is required. |
| SeeProperties.SeeImageAloneSuffices | src/types/see.ts:4-43 | Options holding only a URL image are accepted. |
| SeeProperties.SeeOptionDefaultsConform | src/types/see.ts:6-42 | Every declared default passes its own option: "describe this image", "", false, 0.2, -1, 0, 0, 1, false. |
| SeeProperties.SeeResponseSchemaMeaning | src/types/see.ts:45-47 | A minimal see response is accepted exactly when `content` is a string. |
| SeeProperties.TimingsSchemaMeaning | src/types/see.ts:49-54 | Timings are accepted exactly when all four fields are numbers. |
| SeeProperties.SeeResponseVerboseShape | src/types/see.ts:56-63 | The extended shape is the six extension fields, with `content` first. |
| SeeProperties.SeeResponseVerboseSchemaMeaning | src/types/see.ts:56-63 | A verbose see response is accepted exactly when it has string `content` and `model`, valid timings, and three numeric token counters. |
| SeeProperties.SeeVerboseIsMinimal | src/types/see.ts:45-57 | Every verbose see response is accepted by the minimal schema. |
| SeeProperties.SeeStreamingSchemaMeaning | src/types/see.ts:65-68 | A streamed event is accepted exactly when `content` is a string and `stop` a boolean. |
| HearProperties.FileSchemaMeaning | src/types/hear.ts:3-19 | An upload is accepted exactly when it is absent, any Buffer, or (where `File` exists) a File of at most 26214400 bytes whose type starts with "audio/". |
| HearProperties.FileSchemaIssue | src/types/hear.ts:5-19 | The first issue for every upload. A File over the limit gets "Max file size is 25MB". A File within the limit but not audio gets "File must be an audio file". Any other refused value gets an invalid-union issue. |
| HearProperties.UploadedFileIssue | src/types/hear.ts:9-16 | For a File, the size is checked before the type. |
| HearProperties.FileIssueWithoutFileClass | src/types/hear.ts:8-17 | Where `File` does not exist, only an absent upload or a Buffer passes. |
| HearProperties.OtherUploadIssue | src/types/hear.ts:5-18 | A value that is neither Buffer nor File matches no alternative. |
| HearProperties.SizeLimitBoundary | src/types/hear.ts:3-13 | An audio File of exactly 26214400 bytes passes. One byte more is refused with the size message. |
| HearProperties.FileRefusedWithoutFileClass | src/types/hear.ts:8-17 | Where `File` does not exist, every File is refused. |
| Hear.FileSchema | src/types/hear.ts:5-19 | The upload field; its meaning is stated by `FileSchemaMeaning` and its issues by `FileSchemaIssue`. |
| Hear.HearRequestSchema | src/types/hear.ts:21-32 | The request schema; its meaning is stated by `HearRequestSchemaMeaning`. |
| HearProperties.HearRequestSchemaMeaning | src/types/hear.ts:21-32 | The request is accepted exactly when it is an object (a Buffer or File included) and: the upload passes the file rule; `model` is absent or "whisper-tiny"; `language` and `prompt` are absent or strings; `response_format` is absent or one of json, text, srt, verbose_json, vtt; and both temperatures are absent or numbers. |
| HearProperties.HearRequestAcceptsBareUpload | src/types/hear.ts:21-32 | A Buffer or a File passed as the whole request is accepted, since every request field is optional. |
| HearProperties.ResponseFormatField | src/types/hear.ts:26-29 | `response_format` passes exactly when it is absent or one of the five format names. |
| HearProperties.HearOptionDefaultsConform | src/types/hear.ts:23-31 | The declared defaults "whisper-tiny", "json", 0 and 0.2 pass their own fields. |
| HearProperties.HearResponseSchemaMeaning | src/types/hear.ts:34-36 | A minimal transcription is accepted exactly when `text` is a string. |
| HearProperties.WordSchemaMeaning | src/types/hear.ts:38-44 | A word is accepted exactly when `word` is a string and start, end, t_dtw and probability are numbers. |
| HearProperties.WordsMeaning | src/types/hear.ts:52 | A words array is accepted exactly when each item is a word. |
| HearProperties.SegmentSchemaMeaning | src/types/hear.ts:46-55 | A segment is accepted exactly when id, start, end, temperature and avg_logprob are numbers, `text` is a string, `tokens` is an array of numbers and `words` is an array of words. |
| HearProperties.SegmentsMeaning | src/types/hear.ts:62 | A segments array is accepted exactly when each item is a segment. |
| HearProperties.HearResponseVerboseSchemaMeaning | src/types/hear.ts:57-63 | A verbose transcription is accepted exactly when: `task` is transcribe or translate; `language` and `text` are strings; `duration` is a number; and `segments` is an array of segments. |
| HearProperties.HearVerboseIsMinimal | src/types/hear.ts:34-63 | Every verbose transcription is accepted by the minimal schema. |

## Left out

- Network I/O. The model does not include `fetch`, `ReadableStream`, `response.arrayBuffer()` or `Buffer.from`. The exchange is an abstract `FetchResult`, and a body is the sequence of bytes it would deliver.
- Client.Geppetto.Speak: the body is the options object handed to `JSON.stringify`. Serialisation is not modelled, including how it drops `undefined` entries.
- Client.ResolveClient: `process.env` is not read. The GEPPETTO_API_KEY value is the parameter `env`, and an option object that is omitted is `ClientOptions(None, None)`.
- Zod.Check: a union reports a refinement's issue when that is an alternative's first issue. zod 3 does so only when the alternative has no other failure, and reports `invalid_union` when a later field of an object alternative has the wrong type. The one union declared here (the upload) has no object alternative, so its issues are exact.
- Zod.Check: reports only the first issue. zod collects every issue, for example both refinement messages for a File that is too large and not audio. Aggregation is not modelled.
- Zod.Accepts: decides acceptance only. The parsed output is not modelled: unknown keys stripped, values copied, defaults inserted. So the model makes no claim about whether a declared default is ever filled in. In these declarations every default sits inside an outer `.optional()`, which accepts an absent value before the default is reached. The defaults are modelled as declared constants, and their type conformity is proved.
- The URL check behind `z.string().url()`. It is the uninterpreted predicate `isUrl`.
- Floating point. Numbers are exact reals and no arithmetic is done on them. 0.2 is the exact constant 0.2.
- JsValue.Props: a Buffer or a File has no properties in the model. zod reads their real properties (`length`, `size`, `type`, `name`, ...); of the declared keys only `text` and `stream` (File methods) are among them, and neither changes a verdict, for the reasons given above.
- The voice and format type unions of `src/index.ts:6-7` and `src/types/speak.ts:1-8` (two speakers in one, six in the other). `speak` never checks them, so they have no effect on its behaviour.
- A streaming `data:` line decoder, and `see`/`hear` methods on the client. Neither appears in `src/index.ts`. This client code is not part of this model.
- The tests under `test/` call the live API, so they describe server behaviour rather than client code.
- The hear `file` field is optional (`src/types/hear.ts:19`), and the model accepts a request without one. Declared defaults are constants that are never filled into a request (see above).
