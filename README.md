# AI travel planner: voice transcription and LLM routes, modelled in Dafny

This project models the two backend route files of the AI travel planner that do more
than forward a request:

- `backend/routes/voice.js`:
  - `buildAuthUrl`, the signed WebSocket URL of the iFLYTEK streaming dictation service
    (IAT v2): the `host`/`date`/request-line signing string, the HMAC-SHA256 signature,
    the base64 `authorization` parameter and the form-urlencoded query;
  - `POST /transcribe`, one request from upload to reply: the file check, the temporary
    files, the ffmpeg outcome, the credentials check, the socket's first frame, the
    1280-byte PCM frames the 40 ms interval sends and the last frame, the vendor's
    result and error messages with append/replace ('apd'/'rpl') merging, and the reply
    that `res.headersSent` keeps to a single one.
- `backend/routes/llm.js`:
  - `createExtractPrompt` and `createTravelPrompt`;
  - `POST /extract`: the missing-text guard, the non-JSON fallback and the five-key
    normalisation.

The modules:

| module | file | contents |
|---|---|---|
| `Wrappers` | wrappers.dfy | `Option`, `Result` |
| `Text` | text.dfy | bytes, UTF-8 with a decoder, decimal numerals, splitting and joining on a separator |
| `Js` | js.dfy | JavaScript values, truthiness, property reads that throw, `String(v)` and `Array.prototype.join`, both of which can throw |
| `Http` | http.dfy | a reply: status and JSON body |
| `VoiceAuth` | voice_auth.dfy | `buildAuthUrl` and the decoders that read its output back |
| `VoiceSession` | voice_session.dfy | the `/transcribe` request as a state machine over values: `State`, `Event`, `Next`, the invariant `Inv` and what it gives |
| `VoiceHandler` | voice_handler.dfy | the class `Transcription`: the handler's closure variables as fields, one method per callback |
| `Llm` | llm.dfy | the two prompt builders and the `/extract` route |

How the `/transcribe` model works:

- Each callback the handler registers is one `Event`: the upload, ffmpeg's `error` or
  `end`, the socket's `open`, `message`, `error` and `close`, and one run of the
  interval.
- `VoiceSession.Next` says what each event does to the request's state.
- `VoiceHandler.Transcription` holds that state in mutable fields. Each of its methods
  is proved to change the fields exactly as `Next` says, and to keep the invariant.

What lies outside the model is passed in:

- the outcome of writing the temp file, of transcoding and of JSON.parse;
- the bytes of the transcoded PCM file;
- the environment variables;
- the clock, as the HTTP-date string;
- HMAC-SHA256 and base64, as a record of two functions;
- the chat-completion call.

## Model

| member | source | states |
|---|---|---|
| `VoiceAuth.SignatureOriginLines` | backend/routes/voice.js:29 | the signing string is exactly three lines: `host: iat-api.xfyun.cn`, `date: <date>`, `GET /v2/iat HTTP/1.1` |
| `VoiceAuth.AuthorizationOriginRendered` | backend/routes/voice.js:38 | authorization_origin is the `name="value"` list of api_key, algorithm, headers and signature joined by `, `, in that order |
| `VoiceAuth.AuthorizationOriginFields` | backend/routes/voice.js:38 | for a key and a signature without `"`, parsing authorization_origin back gives exactly those four fields, in order |
| `VoiceAuth.FieldsUnquoted` | backend/routes/voice.js:38 | no field name contains `=` and no field value contains `"`, provided the key and the signature have no `"` |
| `VoiceAuth.ParseRenderParams` | backend/routes/voice.js:38 | any non-empty list of fields whose names have no `=` and whose values have no `"` is rendered and parsed back unchanged |
| `VoiceAuth.AuthorizationDecodes` | backend/routes/voice.js:38-41 | when base64 decodes what it encoded, the `authorization` parameter decodes to UTF-8 text that parses to api_key, algorithm "hmac-sha256", headers "host date request-line" and the signature |
| `VoiceAuth.EncodedPairs` | backend/routes/voice.js:52 | the serializer writes one `name=value` part per parameter, both halves form-urlencoded |
| `VoiceAuth.HexRoundTrip` | backend/routes/voice.js:52 | each hex digit of a `%XX` escape reads back as its value |
| `VoiceAuth.EncodeByteDecodes` | backend/routes/voice.js:52 | one encoded byte decodes to that byte, whatever follows, and contains no `&` or `=` |
| `VoiceAuth.EncodeBytesDecodes` | backend/routes/voice.js:52 | form-urlencoding a byte string decodes to the same bytes and contains no `&` or `=` |
| `VoiceAuth.FormRoundTrip` | backend/routes/voice.js:52 | form-urlencoding a string (via UTF-8) decodes to the same string and contains no `&` or `=` |
| `VoiceAuth.SearchParamsRoundTrip` | backend/routes/voice.js:44-52 | `URLSearchParams(params).toString()` parses back to the same parameters in the same order, whatever their values |
| `VoiceAuth.BuildAuthUrlQuery` | backend/routes/voice.js:22-54 | the URL is `wss://iat-api.xfyun.cn/v2/iat` followed by a query that parses to exactly authorization, date and host, in that order, with their values |
| `VoiceAuth.SignatureOrigin` | backend/routes/voice.js:29 | defines the signing string; stated by `VoiceAuth.SignatureOriginLines` |
| `VoiceAuth.Signature` | backend/routes/voice.js:32-35 | defines the base64 HMAC-SHA256 of the signing string under the secret, both as UTF-8 |
| `VoiceAuth.AuthorizationOrigin` | backend/routes/voice.js:38 | defines authorization_origin; stated by `VoiceAuth.AuthorizationOriginRendered` and `VoiceAuth.AuthorizationOriginFields` |
| `VoiceAuth.Authorization` | backend/routes/voice.js:41 | defines the base64 of authorization_origin's UTF-8 bytes; stated by `VoiceAuth.AuthorizationDecodes` |
| `VoiceAuth.QueryParams` | backend/routes/voice.js:44-48 | defines the parameters authorization, date and host, in that order |
| `VoiceAuth.BuildAuthUrl` | backend/routes/voice.js:22-54 | defines buildAuthUrl; stated by `VoiceAuth.BuildAuthUrlQuery` and `VoiceSession.ConnectsToSignedUrl` |
| `VoiceAuth.SearchParams` | backend/routes/voice.js:52 | defines `new URLSearchParams(params).toString()`: the encoded `name=value` pairs joined by `&`; stated by `VoiceAuth.SearchParamsRoundTrip` |
| `VoiceAuth.FormEncode` | backend/routes/voice.js:52 | defines the serializer's encoding of a name or value: its UTF-8 bytes, each encoded; stated by `VoiceAuth.FormRoundTrip` |
| `VoiceAuth.EncodeByte` | backend/routes/voice.js:52 | defines one byte as the serializer writes it: space as `+`, the safe bytes as themselves, the rest as `%XX`; stated by `VoiceAuth.EncodeByteDecodes` |
| `Text.Utf8Char` | backend/routes/voice.js:41 | a character takes one to four bytes, one exactly when it is ASCII |
| `Text.Utf8CharDecodes` | backend/routes/voice.js:41 | the lead byte of a character's encoding announces its length, and the encoding decodes to the character |
| `Text.Utf8RoundTrip` | backend/routes/voice.js:41 | `Buffer.from(s)` decodes back to `s` for every string |
| `Text.Utf8Append` | backend/routes/voice.js:41 | encoding distributes over concatenation |
| `Text.Utf8Ascii` | backend/routes/voice.js:41 | an ASCII string encodes to its own code points, one byte each |
| `VoiceSession.MissingFileRejected` | backend/routes/voice.js:57-60 | an upload without a file is answered 400 `没有提供音频文件`, with no temp files and no cleanup |
| `VoiceHandler.Transcription.constructor` | backend/routes/voice.js:57-70 | a new request starts in the initial state, which satisfies the invariant |
| `VoiceHandler.Transcription.Cleanup` | backend/routes/voice.js:67-70 | each call of cleanup() is counted |
| `VoiceHandler.Transcription.Respond` | backend/routes/voice.js:59 | `res.status(..).json(..)` adds exactly one reply and changes nothing else |
| `VoiceHandler.Transcription.Upload` | backend/routes/voice.js:57-74 | changes the fields as `Next` says for the upload (no file: 400; failed writeFileSync, the catch at lines 226-230: cleanup and 500 `服务器写入文件失败`; otherwise transcoding starts) and keeps the invariant |
| `VoiceHandler.Transcription.TranscodeFailed` | backend/routes/voice.js:80-84 | cleanup, then 500 with error `音频转码失败` and the error message as details; keeps the invariant |
| `VoiceHandler.Transcription.Transcoded` | backend/routes/voice.js:85-99 | a missing or empty APPID, API_KEY or API_SECRET gives cleanup and 500 `服务器密钥配置不全`; otherwise the socket is opened on the signed URL; keeps the invariant |
| `VoiceSession.MissingCredentialsFail` | backend/routes/voice.js:88-96 | without all three credentials the request fails with exactly one reply, 500 `服务器密钥配置不全`, one more cleanup and no frame sent |
| `VoiceSession.ConnectsToSignedUrl` | backend/routes/voice.js:85-99 | with all three credentials the socket's URL is the vendor endpoint with a query that parses to `QueryParams` of the configured key, secret and date |
| `VoiceSession.AuthUrl` | backend/routes/voice.js:98-99 | defines the socket's URL as buildAuthUrl of the stored key, secret and date; stated by `VoiceSession.ConnectsToSignedUrl` |
| `VoiceSession.TranscodedPreservesInv` | backend/routes/voice.js:85-99 | ffmpeg's `end` keeps the invariant |
| `VoiceHandler.Transcription.SocketError` | backend/routes/voice.js:104-111 | cleanup, then 500 `WebSocket 连接失败` with the message as details only if nothing was replied yet; keeps the invariant |
| `VoiceHandler.Transcription.SocketClosed` | backend/routes/voice.js:114-121 | cleanup, then 200 with the transcription only if nothing was replied yet; afterwards there is exactly one reply |
| `VoiceSession.ClosingReplies` | backend/routes/voice.js:114-121 | after `close` there is exactly one reply and cleanup has run; if none was given before, it is 200 with the accumulated text |
| `VoiceSession.Transcript` | backend/routes/voice.js:119 | the transcription replied, the accumulated text or else the placeholder `(未识别到语音)`, is never empty, is the accumulated text whenever that is non-empty, and is the placeholder when it is empty |
| `VoiceHandler.Transcription.Message` | backend/routes/voice.js:124-168 | changes the fields as `Next` says for one socket message: unparsable or throwing messages change nothing; keeps the invariant |
| `VoiceSession.Interpret` | backend/routes/voice.js:126-163 | the imperative reading of a parsed message agrees with `Classify`, including where it throws |
| `VoiceSession.UnparsableIgnored` | backend/routes/voice.js:124-168 | a message JSON.parse rejects changes nothing (the catch swallows it) |
| `VoiceSession.MessageLeavesFrames` | backend/routes/voice.js:124-168 | no message changes the frames sent, the cursor, the timer, the phase or the cleanups |
| `VoiceSession.MessagePreservesInv` | backend/routes/voice.js:124-168 | every socket message keeps the invariant |
| `VoiceSession.ApplyPreservesInv` | backend/routes/voice.js:129-163 | applying a recognised result or a vendor error keeps the invariant |
| `VoiceHandler.Transcription.ApplyInbound` | backend/routes/voice.js:139-163 | changes the fields as `Apply` says: merge the segment; on status 2 reply 200 once and close with 1000; on a nonzero code reply 500 once and close with 1005 |
| `VoiceSession.BuildSegment` | backend/routes/voice.js:131-135 | the forEach loop builds the segment `SegmentOf` defines, and throws exactly when `SegmentOf` does |
| `VoiceSession.SegmentPrefixFails` | backend/routes/voice.js:133-135 | once a word group throws, the whole segment throws |
| `VoiceSession.SegmentOfGroups` | backend/routes/voice.js:131-135 | for well-formed `ws` groups the segment is all the words concatenated in order |
| `VoiceSession.GroupTextWords` | backend/routes/voice.js:134 | one `cw` group yields its words joined with no separator |
| `VoiceSession.WordValuesOfEntries` | backend/routes/voice.js:134 | `cw.map((w) => w.w)` on well-formed entries yields the words |
| `Js.JoinStrings` | backend/routes/voice.js:134 | `join('')` of strings is their concatenation |
| `VoiceSession.ClassifyResult` | backend/routes/voice.js:129-149 | a code-0 result message is recognised with its words as the segment, `replace` exactly when pgs is "rpl", `final` exactly when status is 2 |
| `VoiceSession.ClassifyError` | backend/routes/voice.js:156-160 | a message with a nonzero code is a vendor error carrying its message |
| `VoiceSession.RecognisedEffect` | backend/routes/voice.js:129-155 | 'rpl' replaces and anything else appends to the text; status 2 closes with 1000 and replies 200 with the merged text if nothing was replied; a non-final result changes the text and nothing else |
| `VoiceSession.VendorErrorEffect` | backend/routes/voice.js:156-163 | a vendor error leaves the text alone, closes with 1005 and replies 500 `语音识别失败` with the vendor message if nothing was replied |
| `VoiceSession.AccumulateAppends` | backend/routes/voice.js:139-146 | a run of 'apd' segments leaves the earlier text followed by all the segments in order |
| `VoiceSession.AccumulateLastReplace` | backend/routes/voice.js:139-146 | after a run of segments, the text is everything from the last 'rpl' segment on; what came before it is lost |
| `VoiceSession.ReplaceScenario` | backend/routes/voice.js:139-154 | "今天" (apd) and then "今天天气" (rpl, final) give the text "今天天气", a 200 reply with it and close code 1000 |
| `VoiceSession.VendorErrorScenario` | backend/routes/voice.js:156-162 | a recognised "你好" followed by vendor error 10165 gives a 500 reply with the vendor message and close code 1005, and the text stays "你好" |
| `VoiceSession.UnprintableWordIgnored` | backend/routes/voice.js:131-135 | a final result whose word is an object with its own `toString` key throws in `join('')`; the catch at lines 165-167 drops it, so nothing is replied, closed or changed |
| `VoiceSession.AccumulateCons` | backend/routes/voice.js:139-146 | merging the first fragment and then the rest gives the same text as merging them all in order |
| `VoiceSession.RecognisedRun` | backend/routes/voice.js:124-155 | a run of recognised non-final results on an open socket changes only the text, to what `Accumulate` gives for their (segment, pgs is 'rpl') pairs: nothing is replied, closed or sent |
| `VoiceSession.RecognisedStep` | backend/routes/voice.js:124-155 | the first result of such a run merges its segment and changes nothing else, and the rest of the run is such a run |
| `VoiceSession.OnMessage` | backend/routes/voice.js:124-168 | defines the 'message' handler; stated by `VoiceSession.UnparsableIgnored`, `VoiceSession.RecognisedEffect`, `VoiceSession.VendorErrorEffect` and `VoiceSession.MessageLeavesFrames` |
| `VoiceSession.Classify` | backend/routes/voice.js:126-163 | defines the handler's reading of a parsed message; stated by `VoiceSession.ClassifyResult`, `VoiceSession.ClassifyError` and `VoiceSession.Interpret` |
| `VoiceSession.Apply` | backend/routes/voice.js:139-163 | defines what a classified message does; stated by `VoiceSession.ApplyPreservesInv` and `VoiceHandler.Transcription.ApplyInbound` |
| `VoiceSession.Merge` | backend/routes/voice.js:139-146 | defines the 'rpl'/'apd' update of the text |
| `VoiceSession.Accumulate` | backend/routes/voice.js:139-146 | defines the text after a series of fragments; stated by `VoiceSession.AccumulateAppends`, `VoiceSession.AccumulateLastReplace` and `VoiceSession.RecognisedRun` |
| `VoiceSession.SegmentOf` | backend/routes/voice.js:131-135 | defines the segment the forEach builds; stated by `VoiceSession.SegmentOfGroups` and `VoiceSession.BuildSegment` |
| `VoiceSession.GroupText` | backend/routes/voice.js:134 | defines one group's text, throwing where a read or the join throws; stated by `VoiceSession.GroupTextWords` |
| `VoiceSession.WordValues` | backend/routes/voice.js:134 | defines `cw.map((w) => w.w)`; stated by `VoiceSession.WordValuesOfEntries` |
| `VoiceHandler.Transcription.Open` | backend/routes/voice.js:171-198 | sends the first frame, reads the PCM, resets the cursor and starts the interval; keeps the invariant |
| `VoiceSession.OpenSendsFirstFrame` | backend/routes/voice.js:171-198 | after `open` exactly the first frame (with APPID) has been sent, the cursor is 0 and the interval is set; the text is still empty, and the replies and close codes are unchanged |
| `VoiceSession.OpenPreservesInv` | backend/routes/voice.js:171-198 | `open` keeps the invariant |
| `VoiceSession.FirstEnvelope` | backend/routes/voice.js:175-190 | the first frame carries `common.app_id` and an empty `data.audio` |
| `VoiceSession.EnvelopeStatus` | backend/routes/voice.js:175-220 | every frame's `data.status` is 0 for the first, 1 for the middle and 2 for the last |
| `VoiceHandler.Transcription.Tick` | backend/routes/voice.js:198-223 | changes the fields as `Next` says for one interval run; once the interval is cleared, everything sent is `Stream(appId, pcm)` |
| `VoiceSession.TickSendsChunk` | backend/routes/voice.js:210-221 | while audio remains, a tick sends `pcm.slice(cursor, cursor + 1280)`, a non-empty chunk of at most 1280 bytes, and advances the cursor by 1280; the text, replies, close codes and phase stay as they were |
| `VoiceSession.TickSendsLast` | backend/routes/voice.js:199-207 | once the cursor reaches the end, a tick sends the last frame and clears the interval, and the frames sent are then exactly the whole stream; the text, replies, close codes and phase stay as they were |
| `VoiceSession.TickPreservesFrames` | backend/routes/voice.js:198-223 | a tick keeps the frames sent equal to the first frame, the chunks up to the cursor and, once cleared, the last frame |
| `VoiceSession.TickMiddleFrame` | backend/routes/voice.js:210-221 | the frame invariant survives a middle frame |
| `VoiceSession.TickLastFrame` | backend/routes/voice.js:199-207 | the frame invariant survives the last frame |
| `VoiceSession.FramesComplete` | backend/routes/voice.js:198-207 | once the interval is cleared, the frames sent are exactly `Stream(appId, pcm)` |
| `VoiceSession.FramesPrefix` | backend/routes/voice.js:198-223 | while the interval runs, the frames sent are a proper prefix of `Stream(appId, pcm)` |
| `VoiceSession.NothingAfterLast` | backend/routes/voice.js:199-207 | after the last frame no event sends another frame |
| `VoiceSession.MiddleFrames` | backend/routes/voice.js:211-221 | the i-th middle frame carries the i-th 1280-byte slice |
| `VoiceSession.Chunk` | backend/routes/voice.js:211 | defines `pcm.slice(1280 * i, 1280 * i + 1280)`, clipped to the buffer; stated by `VoiceSession.ChunkSizes` and `VoiceSession.TickSendsChunk` |
| `VoiceSession.ChunkSizes` | backend/routes/voice.js:211 | every middle chunk is non-empty and at most 1280 bytes, and all but the last are exactly 1280 |
| `VoiceSession.FrameCountBounds` | backend/routes/voice.js:194-221 | the number of middle frames is the smallest k with 1280·k ≥ the PCM length |
| `VoiceSession.MiddlePayload` | backend/routes/voice.js:198-223 | the audio of the first k middle frames is the PCM's first 1280·k bytes (clipped) |
| `VoiceSession.PayloadAppend` | backend/routes/voice.js:198-223 | the audio of two runs of frames is the audio of the first followed by that of the second |
| `VoiceSession.StreamShape` | backend/routes/voice.js:171-223 | the stream is the first frame, ceil(n/1280) audio frames and the last frame, and its audio, in order, is exactly the PCM: nothing lost, repeated or reordered |
| `VoiceSession.StreamOneFrame` | backend/routes/voice.js:198-223 | 1280 bytes of PCM go out as first, one audio frame, last |
| `VoiceSession.StreamTwoThousand` | backend/routes/voice.js:198-223 | 2000 bytes go out as first, 1280 bytes, 720 bytes, last |
| `VoiceSession.TicksRun` | backend/routes/voice.js:198-223 | while the interval is set it can fire once per remaining slice and once more for the last frame, and ticking never changes the text, the replies, the close codes or the phase |
| `VoiceSession.FrameCountStep` | backend/routes/voice.js:211 | a buffer of at most 1280 bytes takes one slice, and a longer one takes one more slice than its remainder after 1280 bytes |
| `VoiceSession.SilentSessionPlaceholder` | backend/routes/voice.js:114-121 | when nothing is recognised (the socket opens, the interval fires any number of times it can, the socket closes), the request is closed and replied 200 with the transcription `(未识别到语音)`, unless an earlier 'error' had already replied |
| `VoiceSession.RunAppend` | backend/routes/voice.js:57-231 | running two runs of callbacks one after the other is running their concatenation |
| `VoiceSession.OnTick` | backend/routes/voice.js:198-223 | defines one run of the interval; stated by `VoiceSession.TickSendsChunk`, `VoiceSession.TickSendsLast` and `VoiceSession.TickPreservesFrames` |
| `VoiceSession.Envelope` | backend/routes/voice.js:175-220 | defines the JSON of each frame; stated by `VoiceSession.FirstEnvelope` and `VoiceSession.EnvelopeStatus` |
| `VoiceSession.Stream` | backend/routes/voice.js:171-223 | defines every frame of a request in order; stated by `VoiceSession.StreamShape` and `VoiceSession.FramesComplete` |
| `VoiceSession.InitialInv` | backend/routes/voice.js:57-231 | the state before the request is handled satisfies the invariant |
| `VoiceSession.NextPreservesInv` | backend/routes/voice.js:57-231 | every enabled event keeps `Inv`: at most one reply; before the upload no reply, no temp files and no cleanup; a rejected upload has exactly its one 400 reply; a failed or closed request has exactly one reply and at least one cleanup; before `open` nothing is sent and the text is empty; the frames sent are the first frame and the chunks up to the cursor, plus the last frame once the interval is cleared |
| `VoiceSession.ReplyIsFinal` | backend/routes/voice.js:104-163 | once a reply has been given, no event gives another or changes it (the headersSent guards) |
| `VoiceSession.RunKeepsInv` | backend/routes/voice.js:57-231 | any sequence of callbacks keeps the invariant, gives at most one reply and never replaces a reply already given |
| `VoiceSession.Inv` | backend/routes/voice.js:57-231 | defines the request invariant that `VoiceSession.NextPreservesInv` keeps |
| `VoiceSession.Next` | backend/routes/voice.js:57-231 | defines what each callback does to the request; stated by `VoiceSession.NextPreservesInv`, `VoiceSession.ReplyIsFinal` and the per-event lemmas |
| `VoiceSession.Run` | backend/routes/voice.js:57-231 | defines a run of callbacks, each enabled in turn; stated by `VoiceSession.RunKeepsInv` and `VoiceSession.RecognisedRun` |
| `VoiceSession.Guarded` | backend/routes/voice.js:108-110 | defines the `if (!res.headersSent)` guard around a reply |
| `Js.OrNullFacts` | backend/routes/llm.js:200-204 | the null fallback of lines 200-204 gives `v` when truthy and null otherwise, and applying it twice changes nothing |
| `Js.MemberThrows` | backend/routes/llm.js:200 | a property read throws exactly on null and undefined |
| `Js.ToStrThrows` | backend/routes/llm.js:82-86 | `${v}` throws exactly for an object with its own `toString` key and for an array holding such an element; every other value renders |
| `Js.JoinThrows` | backend/routes/voice.js:134 | `join` throws exactly when one of its elements other than null and undefined cannot be rendered |
| `Js.ToStrAll` | backend/routes/llm.js:82-86 | rendering five inputs in turn succeeds exactly when each renders, and gives each rendering in order |
| `Js.ToStr` | backend/routes/llm.js:82-86 | defines `String(v)` as a template literal computes it; stated by `Js.ToStrThrows` and `Js.NumToStrRoundTrip` |
| `Js.Join` | backend/routes/voice.js:134 | defines `Array.prototype.join`, null and undefined giving the empty string; stated by `Js.JoinThrows` and `Js.JoinStrings` |
| `Js.Member` | backend/routes/llm.js:200 | defines a property read: own properties of an object, `length` of a string or array, undefined otherwise, a TypeError on null and undefined; stated by `Js.MemberThrows` |
| `Js.Truthy` | backend/routes/llm.js:154 | defines JavaScript truthiness: false, 0, the empty string, null and undefined are falsy |
| `Js.OrNull` | backend/routes/llm.js:200-204 | defines `v` or-else null; stated by `Js.OrNullFacts` |
| `Js.NumToStrRoundTrip` | backend/routes/llm.js:83-84 | `${n}` for an integer renders and reads back as that integer |
| `Text.DigitChar` | backend/routes/llm.js:83-84 | a digit's character is a decimal digit whose code is `'0'` plus the digit |
| `Text.NatToDecimal` | backend/routes/llm.js:83-84 | a natural number renders as at least one decimal digit, with no leading zero unless it is 0 |
| `Text.NatToDecimalValue` | backend/routes/llm.js:83-84 | the digits of a rendered natural number read back as the number |
| `Text.IntToDecimalRoundTrip` | backend/routes/llm.js:83-84 | every integer's rendering, with `-` for negatives, parses back to the integer |
| `Text.NegativeRoundTrip` | backend/routes/llm.js:83-84 | a negative integer's rendering parses back to it |
| `Llm.ExtractPrompt` | backend/routes/llm.js:8-71 | the prompt is the fixed instructions with the text placed verbatim between the quotes of `原始文本: "…"` |
| `Llm.ExtractPromptRoundTrip` | backend/routes/llm.js:17 | the quoted text can be read back out of the prompt exactly |
| `Llm.ExtractPromptInjective` | backend/routes/llm.js:8-71 | different texts give different prompts |
| `Llm.CreateTravelPromptThrows` | backend/routes/llm.js:74-86 | createTravelPrompt throws exactly when the body is null or undefined, or when one of the five inputs cannot be rendered by `${}` (an object with its own `toString` key, or an array holding one) |
| `Llm.CreateTravelPromptEmbeds` | backend/routes/llm.js:78-86 | whenever the prompt is built, each input is rendered and occurs in it right after its label |
| `Llm.ReadTravelRequest` | backend/routes/llm.js:74-75 | destructuring gives the five inputs in the order destination, days, budget, companions, preferences, each the body's own property or undefined, and throws exactly for a null or undefined body |
| `Llm.CreateTravelPrompt` | backend/routes/llm.js:74-115 | defines createTravelPrompt: the destructuring, then each `${}` in turn, then the text; what it gives is stated by `Llm.CreateTravelPromptThrows` and `Llm.CreateTravelPromptEmbeds` |
| `Llm.TravelPrompt` | backend/routes/llm.js:78-115 | defines the prompt text around the five rendered inputs; its layout is stated by `Llm.TravelPromptLines` and `Llm.TravelPromptEmbedsInputs` |
| `Llm.TravelPromptLines` | backend/routes/llm.js:78-86 | when no rendered input contains a newline, lines 4 to 8 of the prompt are exactly the five requirement lines, each label followed by its input |
| `Llm.TravelPromptEmbedsInputs` | backend/routes/llm.js:78-86 | each requirement line (label and rendered input), and each rendered input alone, occurs in the prompt |
| `Text.SplitJoinWithAll` | backend/routes/voice.js:52 | parts joined with a separator split back into the same parts when none contains it (the query's `&`-separated pairs) |
| `Llm.ExtractRejectsMissingText` | backend/routes/llm.js:152-156 | a missing or falsy `text` is answered 400 before the model is called |
| `Llm.ExtractAsksOnce` | backend/routes/llm.js:158-213 | for a renderable text the model is called exactly once with the text quoted in the prompt; a failed call answers 500 `提取信息失败`; a reply that parses to anything but null or undefined answers 200 with exactly the five keys |
| `Llm.ExtractUnprintableText` | backend/routes/llm.js:158-159 | a text that `${}` cannot render (an object with its own `toString` key) throws inside the try: 500 `提取信息失败` and no call to the model |
| `Llm.ExtractNullReply` | backend/routes/llm.js:184-213 | a model reply that parses to null makes the first property read throw: the route answers 500 `提取信息失败`, where the intended route answers the all-null record |
| `Llm.ExtractIntendedAlwaysRecord` | backend/routes/llm.js:195-208 | the route the comments describe answers every successful model call with 200 and exactly the five keys |
| `Llm.ExtractRoutesAgree` | backend/routes/llm.js:184-213 | the route as written and the intended route give different answers exactly when the model's reply parses to null or undefined |
| `Llm.ExtractUntilParsed` | backend/routes/llm.js:152-193 | defines the route up to JSON.parse: the 400 guard, the 500 for an unrenderable text or a failed call, and the parsed reply or the fallback record |
| `Llm.ExtractRoute` | backend/routes/llm.js:152-215 | defines POST /extract as written: the record built with property reads that throw on null, 500 when they do, 200 otherwise; stated by `Llm.ExtractRejectsMissingText`, `Llm.ExtractAsksOnce`, `Llm.ExtractNullReply` and `Llm.ExtractFallback` |
| `Llm.ExtractRouteIntended` | backend/routes/llm.js:195-208 | defines POST /extract as its comments promise, with every parsed reply normalised; stated by `Llm.ExtractIntendedAlwaysRecord` |
| `Llm.ExtractFallback` | backend/routes/llm.js:184-205 | a reply that is not JSON gives 200 with every field null except `preferences`, which is the user's text |
| `Llm.GuaranteeShape` | backend/routes/llm.js:195-205 | the record always has exactly the keys destination, days, budget, companions and preferences |
| `Llm.GuaranteeFields` | backend/routes/llm.js:199-205 | each value is the parsed field when it is truthy, and null otherwise |
| `Llm.GuaranteeIdempotent` | backend/routes/llm.js:199-205 | normalising an already normalised record changes nothing |
| `Llm.GuaranteeAsWrittenAgrees` | backend/routes/llm.js:184-205 | the record as written equals the intended one for every reply except null and undefined; for null it throws |
| `Llm.Field` | backend/routes/llm.js:200-204 | defines `partialData.x` read so that a missing key, and a reply that is not an object, give undefined |
| `Llm.Guarantee` | backend/routes/llm.js:199-205 | defines the five-key record the comments at lines 196-198 promise; stated by `Llm.GuaranteeShape`, `Llm.GuaranteeFields` and `Llm.GuaranteeIdempotent` |
| `Llm.GuaranteeAsWritten` | backend/routes/llm.js:199-205 | defines guaranteedData as written, each field a property read that throws on null; stated by `Llm.GuaranteeAsWrittenAgrees` |

## Left out

- Transcoding (ffmpeg), the file system and the temp directory are not modelled. Their
  outcomes are event arguments: whether writeFileSync succeeded, ffmpeg's error message,
  and the PCM bytes read at `open`. The temp paths are a flag, and unlink failures are not
  modelled. Neither is a readFileSync failure inside `open`, which would escape the callback.
- The ws transport is not modelled. `sent` is what the handler gives to `ws.send`,
  including frames the interval sends after the socket has closed. `closeCodes` is what it
  gives to `ws.close`; whether ws accepts 1005 as a close code is not modelled.
- Real time is not modelled: the 40 ms interval and the order of callbacks are the order
  of events, limited by `Enabled`. `new Date().toUTCString()` is the `date` argument.
- HMAC-SHA256 and base64 are parameters, not implementations.
- JSON.parse, the vendor's message bytes, `JSON.stringify` of frames and replies, and the
  chat-completion HTTP call (axios, its URL, headers and model name) are not modelled. An
  `undefined` in a reply body is kept as a value; JSON.stringify would drop it.
- `VoiceSession.State`: the socket URL is stored as the key, secret and date it is signed
  with. `VoiceSession.AuthUrl` rebuilds it from them; `VoiceSession.ConnectsToSignedUrl`
  states what it is.
- JavaScript numbers are integers here (`Js.Num`). Fractions, NaN, infinities and exponent
  formatting are not modelled, so `${budget}` is exact only for integral budgets.
- `Js.ToStr` renders values that JSON can produce. A callable `toString` or `valueOf`
  cannot arise there, so the only conversion that throws is an object whose own
  `toString` key hides the inherited one, and an array holding such an object.
- The `/extract` body is taken as its `text` field. express.json() only accepts an object or
  array body, so the destructuring of `req.body` outside the try is not modelled as throwing.
- `Js.Member` reads own data properties only. Prototype properties other than `length` are
  not modelled, and neither are getters. Two further differences lie on no path the routes
  take, since none of their reads uses `length` or an index:
  - a string's `length` counts code points, where JavaScript counts UTF-16 code units;
  - an array's index keys read as undefined, although they are own properties.
- The `/plan` route is not modelled beyond `createTravelPrompt`. It only forwards the
  prompt and parses the reply, which is the same pattern as `/extract`.
- backend/routes/plans.js, backend/routes/expenses.js, backend/server.js and the frontend are
  not part of this model.
- Logging (`console.log`, `console.error`) is not modelled.
- Where the code and its prose description differ, the model follows the code:
  - Missing credentials give 500, not 400.
  - cleanup() runs only on `error`, `close` and the failure paths, not when the final
    result is replied.
  - A vendor error closes the socket but does not clear the interval, so frames can still
    be sent to a closing socket.

## Findings

| source | as written | input that shows it | evidently intended | confidence | as-written member | corrected member |
|---|---|---|---|---|---|---|
| backend/routes/llm.js:184-213 | `partialData.destination` etc. are read from whatever JSON.parse returned | the model replies with the text `null`: JSON.parse returns null, the first property read throws a TypeError, and the route answers 500 `提取信息失败` | the comment at lines 196-198 promises a record with all five keys, null where missing, whatever the reply | not executed | `Llm.ExtractRoute` with `Llm.GuaranteeAsWritten` (`Llm.ExtractNullReply` exhibits the 500; `Llm.ExtractRoutesAgree` shows it is the only difference) | `Llm.ExtractRouteIntended` with `Llm.Guarantee` (`Llm.ExtractIntendedAlwaysRecord`, `Llm.GuaranteeShape`, `Llm.GuaranteeFields`) |
