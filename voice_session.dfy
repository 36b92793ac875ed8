/** The /transcribe handler (backend/routes/voice.js): one request's life from upload to
    reply. Each callback the handler registers (ffmpeg 'error'/'end', the WebSocket's
    'open', 'message', 'error', 'close', and the 40 ms interval) is one event. `Next`
    says what an event does to the request's state; the class `Transcription` (module
    VoiceHandler) holds that state in fields and has one method per event, each proved to
    do what `Next` says.
    Transcoding, the socket and the timer are not modelled: their outcomes arrive as the
    events' arguments. */
module VoiceSession {
  import opened Wrappers
  import opened Text
  import opened Js
  import opened Http
  import VoiceAuth

  /** Bytes of 16 kHz, 16-bit mono PCM per audio frame (40 ms of sound). */
  const FrameSize: nat := 1280

  /** The transcription sent when nothing was recognised. */
  const Placeholder: string := "(未识别到语音)"

  const AudioFormat: string := "audio/L16;rate=16000"

  // ---------------------------------------------------------------------------
  // Outbound frames
  // ---------------------------------------------------------------------------

  /** A frame handed to ws.send: the first (business parameters, no audio), a middle
      one carrying a slice of the PCM, or the last (status only). */
  datatype Frame = First(appId: string) | Audio(chunk: seq<byte>) | Last

  function Status(f: Frame): int {
    match f
    case First(_) => 0
    case Audio(_) => 1
    case Last => 2
  }

  /** The JSON object a frame is serialized from; `base64` encodes the audio. */
  function Envelope(f: Frame, base64: seq<byte> -> string): JsValue {
    match f
    case First(appId) =>
      Obj(map[
        "common" := Obj(map["app_id" := Str(appId)]),
        "business" := Obj(map["language" := Str("zh_cn"), "domain" := Str("iat"),
                              "accent" := Str("mandarin"), "dwa" := Str("wpgs")]),
        "data" := Obj(map["status" := Num(0), "format" := Str(AudioFormat),
                          "encoding" := Str("raw"), "audio" := Str("")])])
    case Audio(chunk) =>
      Obj(map["data" := Obj(map["status" := Num(1), "format" := Str(AudioFormat),
                                "encoding" := Str("raw"), "audio" := Str(base64(chunk))])])
    case Last =>
      Obj(map["data" := Obj(map["status" := Num(2)])])
  }

  /** `data.status` of every envelope is the frame's status tag. */
  lemma {:induction false} EnvelopeStatus(f: Frame, base64: seq<byte> -> string)
    ensures Member(Envelope(f, base64), "data").Ok?
    ensures Member(Member(Envelope(f, base64), "data").value, "status") == Ok(Num(Status(f)))
  {
  }

  /** The first frame names the application and carries no audio. */
  lemma {:induction false} FirstEnvelope(appId: string, base64: seq<byte> -> string)
    ensures Member(Envelope(First(appId), base64), "common").Ok?
    ensures Member(Member(Envelope(First(appId), base64), "common").value, "app_id") == Ok(Str(appId))
    ensures Member(Member(Envelope(First(appId), base64), "data").value, "audio") == Ok(Str(""))
  {
  }

  function Min(a: int, b: int): int {
    if a <= b then a else b
  }

  /** The i-th audio slice: `pcm.slice(1280 * i, 1280 * i + 1280)`, clipped to the buffer. */
  function Chunk(pcm: seq<byte>, i: nat): seq<byte> {
    pcm[Min(FrameSize * i, |pcm|)..Min(FrameSize * (i + 1), |pcm|)]
  }

  /** The first k middle frames. */
  function MiddleFrames(pcm: seq<byte>, k: nat): (frames: seq<Frame>)
    ensures |frames| == k
    ensures forall i :: 0 <= i < k ==> frames[i] == Audio(Chunk(pcm, i))
  {
    if k == 0 then [] else MiddleFrames(pcm, k - 1) + [Audio(Chunk(pcm, k - 1))]
  }

  /** ceil(n / 1280): how many middle frames a buffer of n bytes takes. */
  function FrameCount(n: nat): nat {
    (n + FrameSize - 1) / FrameSize
  }

  /** Everything the session sends for a buffer: first frame, the middle frames, last frame. */
  function Stream(appId: string, pcm: seq<byte>): seq<Frame> {
    [First(appId)] + MiddleFrames(pcm, FrameCount(|pcm|)) + [Last]
  }

  /** The audio carried by a list of frames, in order. */
  function Payload(frames: seq<Frame>): seq<byte> {
    if frames == [] then []
    else
      var init := Payload(frames[..|frames| - 1]);
      match frames[|frames| - 1]
      case Audio(chunk) => init + chunk
      case _ => init
  }

  lemma {:induction false} MiddlePayload(pcm: seq<byte>, k: nat)
    ensures Payload(MiddleFrames(pcm, k)) == pcm[..Min(FrameSize * k, |pcm|)]
  {
    if k > 0 {
      MiddlePayload(pcm, k - 1);
      PayloadSnoc(MiddleFrames(pcm, k - 1), Chunk(pcm, k - 1));
      var a, b := Min(FrameSize * (k - 1), |pcm|), Min(FrameSize * k, |pcm|);
      assert Chunk(pcm, k - 1) == pcm[a..b];
      assert pcm[..a] + pcm[a..b] == pcm[..b];
    }
  }

  lemma {:induction false} PayloadSnoc(frames: seq<Frame>, chunk: seq<byte>)
    ensures Payload(frames + [Audio(chunk)]) == Payload(frames) + chunk
  {
    assert (frames + [Audio(chunk)])[..|frames|] == frames;
  }

  lemma {:induction false} PayloadAppend(a: seq<Frame>, b: seq<Frame>)
    ensures Payload(a + b) == Payload(a) + Payload(b)
    decreases |b|
  {
    if b == [] {
      assert a + b == a;
    } else {
      var n := |b| - 1;
      assert (a + b)[..|a + b| - 1] == a + b[..n];
      PayloadAppend(a, b[..n]);
    }
  }

  lemma {:induction false} FrameCountBounds(n: nat)
    ensures n == 0 ==> FrameCount(n) == 0
    ensures n > 0 ==> FrameSize * (FrameCount(n) - 1) < n <= FrameSize * FrameCount(n)
  {
  }

  /** The frames a session sends for a buffer: one first frame, then ceil(len / 1280)
      middle frames whose audio concatenates back to the buffer, then one last frame. */
  lemma {:induction false} StreamShape(appId: string, pcm: seq<byte>)
    ensures var s := Stream(appId, pcm);
      && |s| == FrameCount(|pcm|) + 2
      && s[0] == First(appId) && s[|s| - 1] == Last
      && (forall i :: 1 <= i < |s| - 1 ==> s[i].Audio?)
      && Payload(s) == pcm
  {
    var k := FrameCount(|pcm|);
    FrameCountBounds(|pcm|);
    MiddlePayload(pcm, k);
    assert pcm[..Min(FrameSize * k, |pcm|)] == pcm;
    PayloadAppend([First(appId)], MiddleFrames(pcm, k));
    PayloadAppend([First(appId)] + MiddleFrames(pcm, k), [Last]);
    assert Payload([First(appId)]) == [] by {
      assert [First(appId)][..0] == [];
    }
    assert Payload([Last]) == [] by {
      assert [Last][..0] == [];
    }
  }

  /** Every middle slice holds 1280 bytes except possibly the last, which holds at least one. */
  lemma {:induction false} ChunkSizes(pcm: seq<byte>, i: nat)
    requires i < FrameCount(|pcm|)
    ensures 0 < |Chunk(pcm, i)| <= FrameSize
    ensures i + 1 < FrameCount(|pcm|) ==> |Chunk(pcm, i)| == FrameSize
  {
    FrameCountBounds(|pcm|);
  }

  /** A buffer of exactly one frame's worth: one middle frame, then the last frame. */
  lemma {:induction false} StreamOneFrame(appId: string, pcm: seq<byte>)
    requires |pcm| == 1280
    ensures Stream(appId, pcm) == [First(appId), Audio(pcm), Last]
  {
    assert Chunk(pcm, 0) == pcm;
  }

  /** A buffer of 2000 bytes: middle frames of 1280 and 720 bytes, then the last frame. */
  lemma {:induction false} StreamTwoThousand(appId: string, pcm: seq<byte>)
    requires |pcm| == 2000
    ensures Stream(appId, pcm) == [First(appId), Audio(pcm[..1280]), Audio(pcm[1280..]), Last]
    ensures |pcm[1280..]| == 720
  {
    assert FrameCount(2000) == 2;
    assert Chunk(pcm, 0) == pcm[..1280];
    assert Chunk(pcm, 1) == pcm[1280..];
    assert MiddleFrames(pcm, 2) == [Audio(pcm[..1280]), Audio(pcm[1280..])];
  }

  // ---------------------------------------------------------------------------
  // Inbound messages
  // ---------------------------------------------------------------------------

  /** `cw.map((w) => w.w)`: throws on a null or undefined entry. */
  function WordValues(cw: seq<JsValue>): Result<seq<JsValue>, Thrown> {
    if cw == [] then Ok([])
    else
      var w :- Member(cw[0], "w");
      var rest :- WordValues(cw[1..]);
      Ok([w] + rest)
  }

  /** `item.cw.map((w) => w.w).join('')` for one word group of `ws`. */
  function GroupText(item: JsValue): Result<string, Thrown> {
    var cw :- Member(item, "cw");
    if !cw.Arr? then Err(TypeError)
    else
      var words :- WordValues(cw.items);
      var text :- Join(words, "");
      Ok(text)
  }

  /** The segment the forEach over `ws` builds: every group's text, in order. */
  function SegmentOf(items: seq<JsValue>): Result<string, Thrown> {
    if items == [] then Ok("")
    else
      var init :- SegmentOf(items[..|items| - 1]);
      var last :- GroupText(items[|items| - 1]);
      Ok(init + last)
  }

  /** What a parsed vendor message asks of the session. */
  datatype Inbound =
    | Recognised(segment: string, replace: bool, final: bool)
    | VendorError(details: JsValue)
    | Other

  /** The message handler's reading of a parsed message: code 0 with a result, a nonzero
      code, or anything else; a TypeError where a property read or call would throw. */
  function Classify(json: JsValue): Result<Inbound, Thrown> {
    var code :- Member(json, "code");
    // `json` is neither null nor undefined from here on, nor is any truthy value read
    // from it, so the remaining property reads cannot throw
    if code == Num(0) then
      var data := Member(json, "data").value;
      if !Truthy(data) then Ok(Other)
      else
        var result := Member(data, "result").value;
        if !Truthy(result) then Ok(Other)
        else
          var ws := Member(result, "ws").value;
          if !ws.Arr? then Err(TypeError)
          else
            var segment :- SegmentOf(ws.items);
            var pgs := Member(result, "pgs").value;
            var status := Member(data, "status").value;
            Ok(Recognised(segment, pgs == Str("rpl"), status == Num(2)))
    else
      Ok(VendorError(Member(json, "message").value))
  }

  /** The accumulator after one recognised segment: 'rpl' overwrites, anything else appends. */
  function Merge(acc: string, segment: string, replace: bool): string {
    if replace then segment else acc + segment
  }

  /** The accumulator after a series of (segment, replace) fragments. */
  function Accumulate(acc: string, fragments: seq<(string, bool)>): string {
    if fragments == [] then acc
    else Merge(Accumulate(acc, fragments[..|fragments| - 1]), fragments[|fragments| - 1].0,
               fragments[|fragments| - 1].1)
  }

  function Segments(fragments: seq<(string, bool)>): seq<string> {
    if fragments == [] then [] else [fragments[0].0] + Segments(fragments[1..])
  }

  lemma {:induction false} SegmentsSnoc(fragments: seq<(string, bool)>)
    requires fragments != []
    ensures Segments(fragments) == Segments(fragments[..|fragments| - 1]) + [fragments[|fragments| - 1].0]
  {
    if |fragments| > 1 {
      SegmentsSnoc(fragments[1..]);
      assert fragments[1..][..|fragments| - 2] == fragments[..|fragments| - 1][1..];
    }
  }

  /** With no replacement, the result is the start followed by every segment. */
  lemma {:induction false} AccumulateAppends(acc: string, fragments: seq<(string, bool)>)
    requires forall i :: 0 <= i < |fragments| ==> !fragments[i].1
    ensures Accumulate(acc, fragments) == acc + Concat(Segments(fragments))
  {
    if fragments != [] {
      var n := |fragments| - 1;
      AccumulateAppends(acc, fragments[..n]);
      SegmentsSnoc(fragments);
      ConcatSnoc(Segments(fragments[..n]), fragments[n].0);
    }
  }

  /** Last replacement wins: the result is the last replacing segment followed by every
      segment after it, whatever came before. */
  lemma {:induction false} AccumulateLastReplace(acc: string, fragments: seq<(string, bool)>, j: nat)
    requires j < |fragments| && fragments[j].1
    requires forall i :: j < i < |fragments| ==> !fragments[i].1
    ensures Accumulate(acc, fragments) == Concat(Segments(fragments[j..]))
  {
    var n := |fragments| - 1;
    if n == j {
      assert fragments[j..] == [fragments[j]];
    } else {
      AccumulateLastReplace(acc, fragments[..n], j);
      assert fragments[..n][j..] == fragments[j..][..|fragments[j..]| - 1];
      SegmentsSnoc(fragments[j..]);
      ConcatSnoc(Segments(fragments[..n][j..]), fragments[n].0);
    }
  }

  /** `finalTranscription || '(未识别到语音)'`: never empty. */
  function Transcript(acc: string): (t: string)
    ensures t != ""
    ensures acc != "" ==> t == acc
    ensures acc == "" ==> t == "(未识别到语音)"
  {
    if acc == "" then Placeholder else acc
  }

  function TranscriptBody(acc: string): JsValue {
    Obj(map["transcription" := Str(Transcript(acc))])
  }

  // ---------------------------------------------------------------------------
  // The request's state and the events that change it
  // ---------------------------------------------------------------------------

  /** Where the request is: not yet handled, refused (no file), failed before the socket
      (write, transcode or configuration error), socket being afterOpen, socket open, socket
      closed. */
  datatype Phase = Idle | Rejected | Transcoding | Failed | Connecting | Streaming | Closed

  /** The three vendor credentials read from the environment (None when unset). */
  datatype Credentials = Credentials(appId: Option<string>, apiKey: Option<string>, apiSecret: Option<string>)

  predicate Configured(v: Option<string>) {
    v.Some? && v.value != ""
  }

  /** The request's state. `apiKey`, `apiSecret` and `date` are what the socket's URL is
      signed with (see AuthUrl); `replies` are the responses given to Express (headersSent is
      `replies != []`); `sent` the frames given to ws.send; `closeCodes` the codes given
      to ws.close; `cleanups` the calls of cleanup(); `tempFiles` whether temp paths were
      allocated. */
  datatype State = State(
    phase: Phase,
    appId: string,
    apiKey: string,
    apiSecret: string,
    date: string,
    pcm: seq<byte>,
    cursor: nat,
    acc: string,
    timerActive: bool,
    sent: seq<Frame>,
    closeCodes: seq<int>,
    replies: seq<Reply>,
    cleanups: nat,
    tempFiles: bool)

  const Initial: State := State(Idle, "", "", "", "", [], 0, "", false, [], [], [], 0, false)

  datatype Event =
    | Upload(file: Option<seq<byte>>, writeOk: bool)
    | TranscodeFailed(message: string)
    | Transcoded(credentials: Credentials, date: string)
    | Open(pcm: seq<byte>)
    | Tick
    | Message(parsed: Option<JsValue>)
    | SocketError(message: string)
    | SocketClosed

  /** Which callbacks can fire now: the upload first; ffmpeg's outcome while transcoding;
      'open' once while connecting; the interval while it is set; 'message' while the
      socket is open; 'error' and 'close' until the socket has closed. */
  predicate Enabled(s: State, e: Event) {
    match e
    case Upload(_, _) => s.phase == Idle
    case TranscodeFailed(_) => s.phase == Transcoding
    case Transcoded(_, _) => s.phase == Transcoding
    case Open(_) => s.phase == Connecting
    case Tick => s.timerActive
    case Message(_) => s.phase == Streaming
    case SocketError(_) => s.phase == Connecting || s.phase == Streaming
    case SocketClosed => s.phase == Connecting || s.phase == Streaming
  }

  /** `if (!res.headersSent) res.status(..).json(..)`. */
  function Guarded(replies: seq<Reply>, r: Reply): seq<Reply> {
    if replies == [] then [r] else replies
  }

  /** The 'message' handler. A message that does not parse, that throws while being read,
      or that is neither a result nor an error changes nothing. */
  function OnMessage(s: State, parsed: Option<JsValue>): State {
    match parsed
    case None => s
    case Some(json) =>
      match Classify(json)
      case Err(_) => s
      case Ok(inbound) => Apply(s, inbound)
  }

  /** What a classified message does: a recognised segment is merged into the accumulator
      and, when final, replied (if nothing was) and closed with 1000; a vendor error is
      replied with 500 (if nothing was) and closed with 1005. */
  function Apply(s: State, inbound: Inbound): State {
    match inbound
    case Other => s
    case Recognised(segment, replace, final) =>
      var acc := Merge(s.acc, segment, replace);
      if final then
        s.(acc := acc, replies := Guarded(s.replies, Reply(200, TranscriptBody(acc))),
           closeCodes := s.closeCodes + [1000])
      else s.(acc := acc)
    case VendorError(details) =>
      s.(replies := Guarded(s.replies, Reply(500, ErrorWithDetails("语音识别失败", details))),
         closeCodes := s.closeCodes + [1005])
  }

  /** The interval callback: a middle frame while audio remains, else the last frame and
      clearInterval. */
  function OnTick(s: State): State {
    if s.cursor >= |s.pcm| then
      s.(timerActive := false, sent := s.sent + [Last])
    else
      s.(sent := s.sent + [Audio(s.pcm[s.cursor..Min(s.cursor + FrameSize, |s.pcm|)])],
         cursor := s.cursor + FrameSize)
  }

  /** What each event does to the request. */
  function Next(crypto: VoiceAuth.Crypto, s: State, e: Event): State
    requires Enabled(s, e)
  {
    match e
    case Upload(file, writeOk) =>
      if file.None? then
        s.(phase := Rejected, replies := s.replies + [Reply(400, ErrorBody("没有提供音频文件"))])
      else if !writeOk then
        s.(phase := Failed, tempFiles := true, cleanups := s.cleanups + 1,
           replies := s.replies + [Reply(500, ErrorBody("服务器写入文件失败"))])
      else
        s.(phase := Transcoding, tempFiles := true)
    case TranscodeFailed(message) =>
      s.(phase := Failed, cleanups := s.cleanups + 1,
         replies := s.replies + [Reply(500, ErrorWithDetails("音频转码失败", Str(message)))])
    case Transcoded(credentials, date) =>
      if !Configured(credentials.appId) || !Configured(credentials.apiKey)
         || !Configured(credentials.apiSecret) then
        s.(phase := Failed, cleanups := s.cleanups + 1,
           replies := s.replies + [Reply(500, ErrorBody("服务器密钥配置不全"))])
      else
        s.(phase := Connecting, appId := credentials.appId.value,
           apiKey := credentials.apiKey.value, apiSecret := credentials.apiSecret.value, date := date)
    case Open(pcm) =>
      s.(phase := Streaming, sent := s.sent + [First(s.appId)], pcm := pcm, cursor := 0,
         timerActive := true)
    case Tick =>
      OnTick(s)
    case Message(parsed) =>
      OnMessage(s, parsed)
    case SocketError(message) =>
      s.(cleanups := s.cleanups + 1,
         replies := Guarded(s.replies, Reply(500, ErrorWithDetails("WebSocket 连接失败", Str(message)))))
    case SocketClosed =>
      s.(phase := Closed, cleanups := s.cleanups + 1,
         replies := Guarded(s.replies, Reply(200, TranscriptBody(s.acc))))
  }

  /** The URL the socket is afterOpen on: buildAuthUrl with the stored key, secret and date. */
  function AuthUrl(crypto: VoiceAuth.Crypto, s: State): string {
    VoiceAuth.BuildAuthUrl(crypto, s.apiKey, s.apiSecret, s.date)
  }

  /** With all three credentials set, the socket connects to the vendor endpoint with a
      query signed by the configured key and secret at the given date. */
  lemma {:induction false} ConnectsToSignedUrl(crypto: VoiceAuth.Crypto, s: State, credentials: Credentials, date: string)
    requires s.phase == Transcoding
    requires Configured(credentials.appId) && Configured(credentials.apiKey) && Configured(credentials.apiSecret)
    ensures var t := Next(crypto, s, Transcoded(credentials, date));
      var (base, query) := VoiceAuth.SplitUrl(AuthUrl(crypto, t));
      && t.phase == Connecting && t.appId == credentials.appId.value
      && base == VoiceAuth.Endpoint
      && VoiceAuth.ParseQuery(query)
         == Some(VoiceAuth.QueryParams(crypto, credentials.apiKey.value, credentials.apiSecret.value, date))
  {
    var t := Next(crypto, s, Transcoded(credentials, date));
    assert t.apiKey == credentials.apiKey.value && t.apiSecret == credentials.apiSecret.value && t.date == date;
    VoiceAuth.BuildAuthUrlQuery(crypto, t.apiKey, t.apiSecret, t.date);
  }

  /** Any credential unset or empty fails with 500 before a socket is afterOpen. */
  lemma {:induction false} MissingCredentialsFail(crypto: VoiceAuth.Crypto, s: State, credentials: Credentials, date: string)
    requires Inv(s) && s.phase == Transcoding
    requires !Configured(credentials.appId) || !Configured(credentials.apiKey) || !Configured(credentials.apiSecret)
    ensures var t := Next(crypto, s, Transcoded(credentials, date));
      t.phase == Failed && t.replies == [Reply(500, ErrorBody("服务器密钥配置不全"))]
      && t.cleanups == s.cleanups + 1 && t.sent == []
  {
  }

  // ---------------------------------------------------------------------------
  // The invariant
  // ---------------------------------------------------------------------------

  /** The frames sent so far, once the socket has afterOpen: the first frame, the middle
      frames up to the cursor and, once the timer is cleared, the last frame. */
  predicate FramesInvariant(s: State) {
    && s.cursor % FrameSize == 0
    && (s.cursor > 0 ==> s.cursor - FrameSize < |s.pcm|)
    && (!s.timerActive ==> s.cursor >= |s.pcm|)
    && s.sent == [First(s.appId)] + MiddleFrames(s.pcm, s.cursor / FrameSize)
                 + (if s.timerActive then [] else [Last])
  }

  /** The phases in which the socket has not afterOpen. */
  predicate BeforeOpen(p: Phase) {
    p.Idle? || p.Rejected? || p.Transcoding? || p.Failed? || p.Connecting?
  }

  predicate Inv(s: State) {
    && |s.replies| <= 1
    && (s.phase == Idle ==> s.replies == [] && !s.tempFiles && s.cleanups == 0)
    && (s.phase == Rejected ==> |s.replies| == 1 && s.replies[0].status == 400
                                && !s.tempFiles && s.cleanups == 0)
    && (s.phase == Transcoding ==> s.replies == [] && s.tempFiles)
    && (s.phase == Connecting ==> s.tempFiles)
    && (s.phase == Failed || s.phase == Closed ==> |s.replies| == 1 && s.cleanups >= 1 && s.tempFiles)
    && (BeforeOpen(s.phase) ==>
          s.sent == [] && !s.timerActive && s.cursor == 0 && s.acc == "" && s.closeCodes == [])
    && (s.phase == Streaming ==> s.sent != [] && s.tempFiles)
    && (s.sent == [] ==> !s.timerActive)
    && (s.sent != [] ==> FramesInvariant(s))
  }

  lemma {:induction false} InitialInv()
    ensures Inv(Initial)
  {
  }

  lemma {:induction false} TickPreservesFrames(s: State)
    requires FramesInvariant(s) && s.timerActive
    ensures FramesInvariant(OnTick(s))
  {
    if s.cursor < |s.pcm| {
      TickMiddleFrame(s);
    } else {
      TickLastFrame(s);
    }
  }

  lemma {:induction false} TickMiddleFrame(s: State)
    requires FramesInvariant(s) && s.timerActive && s.cursor < |s.pcm|
    ensures FramesInvariant(OnTick(s))
  {
    var k := s.cursor / FrameSize;
    var t := OnTick(s);
    assert s.cursor == FrameSize * k;
    assert t.cursor / FrameSize == k + 1;
    assert Chunk(s.pcm, k) == s.pcm[s.cursor..Min(s.cursor + FrameSize, |s.pcm|)];
    assert MiddleFrames(s.pcm, k + 1) == MiddleFrames(s.pcm, k) + [Audio(Chunk(s.pcm, k))];
    assert t.sent == [First(s.appId)] + MiddleFrames(s.pcm, k + 1);
  }

  lemma {:induction false} TickLastFrame(s: State)
    requires FramesInvariant(s) && s.timerActive && s.cursor >= |s.pcm|
    ensures FramesInvariant(OnTick(s))
  {
    var t := OnTick(s);
    assert t.sent == [First(s.appId)] + MiddleFrames(s.pcm, s.cursor / FrameSize) + [Last];
  }

  /** Every event keeps the invariant. */
  lemma {:induction false} NextPreservesInv(crypto: VoiceAuth.Crypto, s: State, e: Event)
    requires Inv(s) && Enabled(s, e)
    ensures Inv(Next(crypto, s, e))
  {
    match e
    case Upload(file, writeOk) =>
    case TranscodeFailed(_) =>
    case Transcoded(credentials, date) =>
      TranscodedPreservesInv(crypto, s, credentials, date);
    case Open(pcm) =>
      OpenPreservesInv(crypto, s, pcm);
    case Tick =>
      TickPreservesFrames(s);
    case Message(parsed) =>
      MessagePreservesInv(s, parsed);
    case SocketError(_) =>
    case SocketClosed =>
  }

  lemma {:induction false} TranscodedPreservesInv(crypto: VoiceAuth.Crypto, s: State, credentials: Credentials, date: string)
    requires Inv(s) && s.phase == Transcoding
    ensures Inv(Next(crypto, s, Transcoded(credentials, date)))
  {
  }

  lemma {:induction false} OpenPreservesInv(crypto: VoiceAuth.Crypto, s: State, pcm: seq<byte>)
    requires Inv(s) && s.phase == Connecting
    ensures Inv(Next(crypto, s, Open(pcm)))
  {
    var t := Next(crypto, s, Open(pcm));
    assert t.sent == [First(t.appId)] + MiddleFrames(t.pcm, 0) + [];
  }

  lemma {:induction false} MessagePreservesInv(s: State, parsed: Option<JsValue>)
    requires Inv(s) && s.phase == Streaming
    ensures Inv(OnMessage(s, parsed))
  {
    if parsed.Some? && Classify(parsed.value).Ok? {
      ApplyPreservesInv(s, Classify(parsed.value).value);
    }
  }

  lemma {:induction false} ApplyPreservesInv(s: State, inbound: Inbound)
    requires Inv(s) && s.phase == Streaming
    ensures Inv(Apply(s, inbound))
  {
    var t := Apply(s, inbound);
    assert t.phase == s.phase && t.sent == s.sent && t.cursor == s.cursor
      && t.timerActive == s.timerActive && t.pcm == s.pcm && t.appId == s.appId
      && t.tempFiles == s.tempFiles;
    assert |t.replies| <= 1;
  }

  // ---------------------------------------------------------------------------
  // What the invariant gives
  // ---------------------------------------------------------------------------

  /** Once a reply has been given, no event gives another or changes it. */
  lemma {:induction false} ReplyIsFinal(crypto: VoiceAuth.Crypto, s: State, e: Event)
    requires Inv(s) && Enabled(s, e) && s.replies != []
    ensures Next(crypto, s, e).replies == s.replies
  {
  }

  /** Every way the request ends gives exactly one reply; the socket closing without one
      replies 200 with the accumulated text or the placeholder. */
  lemma {:induction false} ClosingReplies(crypto: VoiceAuth.Crypto, s: State)
    requires Inv(s) && Enabled(s, SocketClosed)
    ensures var t := Next(crypto, s, SocketClosed);
      |t.replies| == 1 && t.cleanups >= 1
      && (s.replies == [] ==> t.replies == [Reply(200, TranscriptBody(s.acc))])
  {
  }

  /** A missing file is refused with 400, before any temp path, cleanup or frame. */
  lemma {:induction false} MissingFileRejected(crypto: VoiceAuth.Crypto, writeOk: bool)
    ensures var t := Next(crypto, Initial, Upload(None, writeOk));
      t.replies == [Reply(400, ErrorBody("没有提供音频文件"))] && !t.tempFiles && t.cleanups == 0
      && t.phase == Rejected
  {
  }

  /** Once the interval is cleared, the frames sent are exactly the stream for the buffer. */
  lemma {:induction false} FramesComplete(s: State)
    requires Inv(s) && s.sent != [] && !s.timerActive
    ensures s.sent == Stream(s.appId, s.pcm)
  {
    var k := s.cursor / FrameSize;
    FrameCountBounds(|s.pcm|);
    assert k == FrameCount(|s.pcm|);
  }

  /** While the interval runs, the frames sent are a prefix of that stream that stops
      short of the last frame. */
  lemma {:induction false} FramesPrefix(s: State)
    requires Inv(s) && s.sent != [] && s.timerActive
    ensures |s.sent| < |Stream(s.appId, s.pcm)| && s.sent == Stream(s.appId, s.pcm)[..|s.sent|]
  {
    var k := s.cursor / FrameSize;
    var n := FrameCount(|s.pcm|);
    FrameCountBounds(|s.pcm|);
    assert k <= n;
    var st := Stream(s.appId, s.pcm);
    assert |st| == n + 2;
    forall i | 0 <= i < |s.sent|
      ensures s.sent[i] == st[i]
    {
      if i > 0 {
        assert s.sent[i] == MiddleFrames(s.pcm, k)[i - 1];
        assert st[i] == MiddleFrames(s.pcm, n)[i - 1];
      }
    }
  }

  /** On 'open' exactly one frame is sent, the first one, and the interval starts at
      byte 0 of the buffer. */
  lemma {:induction false} OpenSendsFirstFrame(crypto: VoiceAuth.Crypto, s: State, pcm: seq<byte>)
    requires Inv(s) && s.phase == Connecting
    ensures var t := Next(crypto, s, Open(pcm));
      t.sent == [First(s.appId)] && t.timerActive && t.cursor == 0 && t.pcm == pcm
      && t.replies == s.replies && t.acc == s.acc && t.acc == "" && t.closeCodes == s.closeCodes
      && t.phase == Streaming
  {
  }

  /** While audio remains, a tick sends the next slice, of 1 to 1280 bytes starting at the
      cursor, and moves the cursor by 1280. */
  lemma {:induction false} TickSendsChunk(crypto: VoiceAuth.Crypto, s: State)
    requires Inv(s) && s.timerActive && s.cursor < |s.pcm|
    ensures var t := Next(crypto, s, Tick);
      && t.sent == s.sent + [Audio(Chunk(s.pcm, s.cursor / FrameSize))]
      && Chunk(s.pcm, s.cursor / FrameSize) == s.pcm[s.cursor..Min(s.cursor + FrameSize, |s.pcm|)]
      && 0 < |Chunk(s.pcm, s.cursor / FrameSize)| <= FrameSize
      && t.cursor == s.cursor + FrameSize && t.timerActive
    ensures var t := Next(crypto, s, Tick);
      t.acc == s.acc && t.replies == s.replies && t.closeCodes == s.closeCodes && t.phase == s.phase
  {
  }

  /** The first tick with the buffer used up sends the last frame and clears the interval;
      the frames are then the whole stream. */
  lemma {:induction false} TickSendsLast(crypto: VoiceAuth.Crypto, s: State)
    requires Inv(s) && s.timerActive && s.cursor >= |s.pcm|
    ensures var t := Next(crypto, s, Tick);
      t.sent == s.sent + [Last] && !t.timerActive && t.sent == Stream(s.appId, s.pcm)
    ensures var t := Next(crypto, s, Tick);
      t.acc == s.acc && t.replies == s.replies && t.closeCodes == s.closeCodes && t.phase == s.phase
  {
    NextPreservesInv(crypto, s, Tick);
    FramesComplete(Next(crypto, s, Tick));
  }

  /** After the last frame nothing else is sent: no event adds to the frames. */
  lemma {:induction false} NothingAfterLast(crypto: VoiceAuth.Crypto, s: State, e: Event)
    requires Inv(s) && Enabled(s, e) && s.sent != [] && !s.timerActive
    ensures Next(crypto, s, e).sent == s.sent
  {
  }

  /** A run of events from a state, or None if some event could not fire. */
  function Run(crypto: VoiceAuth.Crypto, s: State, events: seq<Event>): Option<State>
    decreases |events|
  {
    if events == [] then Some(s)
    else if !Enabled(s, events[0]) then None
    else Run(crypto, Next(crypto, s, events[0]), events[1..])
  }

  /** A run that fires `a` and then `b`. */
  lemma {:induction false} RunAppend(crypto: VoiceAuth.Crypto, s: State, a: seq<Event>, b: seq<Event>)
    ensures Run(crypto, s, a + b)
            == (match Run(crypto, s, a) case None => None case Some(t) => Run(crypto, t, b))
    decreases |a|
  {
    if a != [] {
      assert (a + b)[0] == a[0] && (a + b)[1..] == a[1..] + b;
      if Enabled(s, a[0]) {
        RunAppend(crypto, Next(crypto, s, a[0]), a[1..], b);
      }
    } else {
      assert a + b == b;
    }
  }

  /** `n` runs of the interval. */
  function Ticks(n: nat): (events: seq<Event>)
    ensures |events| == n
  {
    if n == 0 then [] else [Tick] + Ticks(n - 1)
  }

  /** How many more times the interval fires: once per remaining slice, then once for
      the last frame. */
  function TicksLeft(s: State): nat {
    if s.cursor >= |s.pcm| then 1 else FrameCount(|s.pcm| - s.cursor) + 1
  }

  lemma {:induction false} FrameCountStep(x: nat)
    requires x > 0
    ensures x <= FrameSize ==> FrameCount(x) == 1
    ensures x > FrameSize ==> FrameCount(x) == FrameCount(x - FrameSize) + 1
  {
  }

  /** While the interval is set it can fire TicksLeft times, and ticking changes neither
      the text, the replies, the close codes nor the phase. */
  lemma {:induction false} TicksRun(crypto: VoiceAuth.Crypto, s: State, n: nat)
    requires n == 0 || s.timerActive
    requires n <= TicksLeft(s)
    ensures Run(crypto, s, Ticks(n)).Some?
    ensures var t := Run(crypto, s, Ticks(n)).value;
      t.acc == s.acc && t.replies == s.replies && t.closeCodes == s.closeCodes && t.phase == s.phase
    decreases n
  {
    if n > 0 {
      var t := OnTick(s);
      assert Ticks(n)[0] == Tick && Ticks(n)[1..] == Ticks(n - 1);
      assert Run(crypto, s, Ticks(n)) == Run(crypto, t, Ticks(n - 1));
      if s.cursor < |s.pcm| {
        FrameCountStep(|s.pcm| - s.cursor);
        assert n - 1 <= TicksLeft(t);
      }
      TicksRun(crypto, t, n - 1);
    }
  }

  /** A session in which the vendor recognises nothing: the socket opens, the interval
      fires any number of times it can, and the socket closes. Unless an 'error' before
      'open' already replied, the reply is 200 with the placeholder transcription. */
  lemma {:induction false} SilentSessionPlaceholder(crypto: VoiceAuth.Crypto, s: State, pcm: seq<byte>, n: nat)
    requires Inv(s) && s.phase == Connecting
    requires n <= FrameCount(|pcm|) + 1
    ensures var r := Run(crypto, s, [Open(pcm)] + Ticks(n) + [SocketClosed]);
      && r.Some? && r.value.phase == Closed && r.value.closeCodes == []
      && (s.replies == [] ==>
            r.value.replies == [Reply(200, Obj(map["transcription" := Str("(未识别到语音)")]))])
      && (s.replies != [] ==> r.value.replies == s.replies)
  {
    OpenSendsFirstFrame(crypto, s, pcm);
    var afterOpen := Next(crypto, s, Open(pcm));
    assert Run(crypto, s, [Open(pcm)]) == Some(afterOpen);
    TicksRun(crypto, afterOpen, n);
    var ticked := Run(crypto, afterOpen, Ticks(n)).value;
    RunAppend(crypto, s, [Open(pcm)], Ticks(n));
    RunAppend(crypto, s, [Open(pcm)] + Ticks(n), [SocketClosed]);
    var closed := Next(crypto, ticked, SocketClosed);
    assert Run(crypto, ticked, [SocketClosed]) == Some(closed);
    assert Transcript(ticked.acc) == "(未识别到语音)";
  }

  /** Over any run: the invariant holds at the end, at most one reply is ever given, and a
      reply once given stays the only one. */
  lemma {:induction false} RunKeepsInv(crypto: VoiceAuth.Crypto, s: State, events: seq<Event>)
    requires Inv(s) && Run(crypto, s, events).Some?
    ensures Inv(Run(crypto, s, events).value)
    ensures |Run(crypto, s, events).value.replies| <= 1
    ensures s.replies != [] ==> Run(crypto, s, events).value.replies == s.replies
    decreases |events|
  {
    if events != [] {
      NextPreservesInv(crypto, s, events[0]);
      if s.replies != [] {
        ReplyIsFinal(crypto, s, events[0]);
      }
      RunKeepsInv(crypto, Next(crypto, s, events[0]), events[1..]);
    }
  }

  // ---------------------------------------------------------------------------
  // The message handler, read off OnMessage
  // ---------------------------------------------------------------------------

  /** A message that does not parse leaves everything as it was. */
  lemma {:induction false} UnparsableIgnored(s: State)
    ensures OnMessage(s, None) == s
  {
  }

  /** A recognised segment replaces or extends the accumulator; a final one also replies
      (if nothing was replied yet) and closes normally. */
  lemma {:induction false} RecognisedEffect(s: State, json: JsValue, segment: string, replace: bool, final: bool)
    requires Classify(json) == Ok(Recognised(segment, replace, final))
    ensures OnMessage(s, Some(json)).acc == (if replace then segment else s.acc + segment)
    ensures final ==> OnMessage(s, Some(json)).closeCodes == s.closeCodes + [1000]
    ensures final && s.replies == [] ==>
      OnMessage(s, Some(json)).replies == [Reply(200, TranscriptBody(Merge(s.acc, segment, replace)))]
    ensures !final ==> OnMessage(s, Some(json)) == s.(acc := Merge(s.acc, segment, replace))
  {
  }

  /** A nonzero code replies 500 with the vendor's message (if nothing was replied yet)
      and closes with 1005; the accumulator is untouched. */
  lemma {:induction false} VendorErrorEffect(s: State, json: JsValue, details: JsValue)
    requires Classify(json) == Ok(VendorError(details))
    ensures OnMessage(s, Some(json)).acc == s.acc
    ensures OnMessage(s, Some(json)).closeCodes == s.closeCodes + [1005]
    ensures s.replies == [] ==>
      OnMessage(s, Some(json)).replies == [Reply(500, ErrorWithDetails("语音识别失败", details))]
  {
  }

  /** The message handler never touches the frames, the cursor or the timer. */
  lemma {:induction false} MessageLeavesFrames(s: State, parsed: Option<JsValue>)
    ensures var t := OnMessage(s, parsed);
      t.sent == s.sent && t.cursor == s.cursor && t.timerActive == s.timerActive
      && t.phase == s.phase && t.cleanups == s.cleanups
  {
  }

  // ---------------------------------------------------------------------------
  // Segments from well-formed results
  // ---------------------------------------------------------------------------

  /** `{ cw: [{ w: word } ...] }` */
  function WordGroup(words: seq<string>): JsValue {
    Obj(map["cw" := Arr(WordEntries(words))])
  }

  function WordEntries(words: seq<string>): (entries: seq<JsValue>)
    ensures |entries| == |words|
    ensures forall i :: 0 <= i < |words| ==> entries[i] == Obj(map["w" := Str(words[i])])
  {
    if words == [] then [] else [Obj(map["w" := Str(words[0])])] + WordEntries(words[1..])
  }

  function Strs(words: seq<string>): (items: seq<JsValue>)
    ensures |items| == |words|
    ensures forall i :: 0 <= i < |words| ==> items[i] == Str(words[i])
  {
    if words == [] then [] else [Str(words[0])] + Strs(words[1..])
  }

  lemma {:induction false} WordValuesOfEntries(words: seq<string>)
    ensures WordValues(WordEntries(words)) == Ok(Strs(words))
  {
    if words != [] {
      WordValuesOfEntries(words[1..]);
      var entries := WordEntries(words);
      assert entries[1..] == WordEntries(words[1..]);
      assert Member(entries[0], "w") == Ok(Str(words[0]));
    }
  }

  lemma {:induction false} GroupTextWords(words: seq<string>)
    ensures GroupText(WordGroup(words)) == Ok(Concat(words))
  {
    WordValuesOfEntries(words);
    assert Member(WordGroup(words), "cw") == Ok(Arr(WordEntries(words)));
    JoinStrings(Strs(words), words);
  }

  function Groups(groups: seq<seq<string>>): (items: seq<JsValue>)
    ensures |items| == |groups|
  {
    if groups == [] then [] else Groups(groups[..|groups| - 1]) + [WordGroup(groups[|groups| - 1])]
  }

  function Flatten(groups: seq<seq<string>>): seq<string> {
    if groups == [] then [] else Flatten(groups[..|groups| - 1]) + groups[|groups| - 1]
  }

  /** The segment is every `cw[].w` across `ws[]`, concatenated in order. */
  lemma {:induction false} SegmentOfGroups(groups: seq<seq<string>>)
    ensures SegmentOf(Groups(groups)) == Ok(Concat(Flatten(groups)))
  {
    if groups != [] {
      var n := |groups| - 1;
      SegmentOfGroups(groups[..n]);
      assert Groups(groups)[..n] == Groups(groups[..n]);
      GroupTextWords(groups[n]);
      ConcatAppend(Flatten(groups[..n]), groups[n]);
    }
  }

  /** A recognition result as the vendor sends it: code 0, `data.status`, and
      `data.result` with the word groups and the `pgs` flag. */
  function ResultMessage(groups: seq<seq<string>>, pgs: string, status: int): JsValue {
    Obj(map["code" := Num(0),
            "data" := Obj(map["status" := Num(status),
                              "result" := Obj(map["ws" := Arr(Groups(groups)), "pgs" := Str(pgs)])])])
  }

  /** An error as the vendor sends it: a nonzero code and a message. */
  function ErrorMessage(code: int, message: string): JsValue {
    Obj(map["code" := Num(code), "message" := Str(message)])
  }

  /** A result message is read as its words concatenated, replacing exactly when `pgs` is
      "rpl" and final exactly when the status is 2. */
  lemma {:induction false} ClassifyResult(groups: seq<seq<string>>, pgs: string, status: int)
    ensures Classify(ResultMessage(groups, pgs, status))
            == Ok(Recognised(Concat(Flatten(groups)), pgs == "rpl", status == 2))
  {
    var json := ResultMessage(groups, pgs, status);
    var data := Obj(map["status" := Num(status),
                        "result" := Obj(map["ws" := Arr(Groups(groups)), "pgs" := Str(pgs)])]);
    var result := Obj(map["ws" := Arr(Groups(groups)), "pgs" := Str(pgs)]);
    assert Member(json, "code") == Ok(Num(0));
    assert Member(json, "data") == Ok(data);
    assert Member(data, "result") == Ok(result);
    assert Member(result, "ws") == Ok(Arr(Groups(groups)));
    SegmentOfGroups(groups);
  }

  /** An error message is read as a vendor error carrying its message. */
  lemma {:induction false} ClassifyError(code: int, message: string)
    requires code != 0
    ensures Classify(ErrorMessage(code, message)) == Ok(VendorError(Str(message)))
  {
    assert Member(ErrorMessage(code, message), "code") == Ok(Num(code));
  }

  /** A session hears "今天" appended and then "今天天气" as a final replacement: it replies
      200 with the replacement alone and closes normally. */
  lemma {:induction false} ReplaceScenario(s: State)
    requires s.acc == "" && s.replies == []
    ensures var m1 := ResultMessage([["今天"]], "apd", 1);
      var m2 := ResultMessage([["今天", "天气"]], "rpl", 2);
      var t := OnMessage(OnMessage(s, Some(m1)), Some(m2));
      t.acc == "今天天气" && t.replies == [Reply(200, TranscriptBody("今天天气"))]
      && t.closeCodes == s.closeCodes + [1000]
  {
    ClassifyResult([["今天"]], "apd", 1);
    ClassifyResult([["今天", "天气"]], "rpl", 2);
    assert Flatten([["今天"]]) == ["今天"];
    assert Flatten([["今天", "天气"]]) == ["今天", "天气"];
  }

  /** A vendor error after recognised text replies 500 with the vendor's message, not the
      text, and closes with 1005. */
  lemma {:induction false} VendorErrorScenario(s: State)
    requires s.acc == "" && s.replies == []
    ensures var m1 := ResultMessage([["你好"]], "apd", 1);
      var m2 := ErrorMessage(10165, "invalid handle");
      var t := OnMessage(OnMessage(s, Some(m1)), Some(m2));
      t.acc == "你好" && t.replies == [Reply(500, ErrorWithDetails("语音识别失败", Str("invalid handle")))]
      && t.closeCodes == s.closeCodes + [1005]
  {
    var m1 := ResultMessage([["你好"]], "apd", 1);
    ClassifyResult([["你好"]], "apd", 1);
    assert Flatten([["你好"]]) == ["你好"];
    assert Concat(["你好"]) == "你好";
    RecognisedEffect(s, m1, "你好", false, false);
    var t1 := OnMessage(s, Some(m1));
    assert t1.acc == "你好" && t1.replies == [] && t1.closeCodes == s.closeCodes;
    var m2 := ErrorMessage(10165, "invalid handle");
    ClassifyError(10165, "invalid handle");
    VendorErrorEffect(t1, m2, Str("invalid handle"));
  }

  /** A word that is an object with its own `toString` key makes `join('')` throw, so a
      final result carrying it is dropped by the catch: no reply, no close, no change. */
  lemma {:induction false} UnprintableWordIgnored(s: State)
    ensures var word := Obj(map["w" := Obj(map["toString" := Num(1)])]);
      var result := Obj(map["ws" := Arr([Obj(map["cw" := Arr([word])])]), "pgs" := Str("apd")]);
      var json := Obj(map["code" := Num(0), "data" := Obj(map["status" := Num(2), "result" := result])]);
      Classify(json).Err? && OnMessage(s, Some(json)) == s
  {
    var printless := Obj(map["toString" := Num(1)]);
    var word := Obj(map["w" := printless]);
    var group := Obj(map["cw" := Arr([word])]);
    var result := Obj(map["ws" := Arr([group]), "pgs" := Str("apd")]);
    var data := Obj(map["status" := Num(2), "result" := result]);
    var json := Obj(map["code" := Num(0), "data" := data]);
    assert Member(json, "code") == Ok(Num(0));
    assert Member(json, "data") == Ok(data);
    assert Member(data, "result") == Ok(result);
    assert Member(result, "ws") == Ok(Arr([group]));
    assert Member(group, "cw") == Ok(Arr([word]));
    assert WordValues([word]) == Ok([printless]) by {
      assert Member(word, "w") == Ok(printless);
      assert [word][1..] == [];
      assert WordValues([]) == Ok([]);
      assert [printless] + [] == [printless];
    }
    assert Join([printless], "").Err?;
    assert GroupText(group).Err?;
    assert [group][..0] == [];
    assert SegmentOf([group]).Err?;
  }

  /** Every event of a run delivers the next message. */
  function MessageEvents(messages: seq<JsValue>): (events: seq<Event>)
    ensures |events| == |messages|
  {
    if messages == [] then [] else [Message(Some(messages[0]))] + MessageEvents(messages[1..])
  }

  /** The first fragment can be merged before the rest are. */
  lemma {:induction false} AccumulateCons(acc: string, first: (string, bool), rest: seq<(string, bool)>)
    ensures Accumulate(acc, [first] + rest) == Accumulate(Merge(acc, first.0, first.1), rest)
  {
    if rest != [] {
      var n := |rest| - 1;
      AccumulateCons(acc, first, rest[..n]);
      assert ([first] + rest)[..|rest|] == [first] + rest[..n];
    }
  }

  /** The first of a run of recognised, non-final results on an open socket only merges
      its segment, and the rest of the run is recognised in the same way. */
  lemma {:induction false} RecognisedStep(crypto: VoiceAuth.Crypto, s: State, messages: seq<JsValue>,
                                          fragments: seq<(string, bool)>)
    requires s.phase == Streaming && RecognisedAs(messages, fragments) && messages != []
    ensures Run(crypto, s, MessageEvents(messages))
            == Run(crypto, s.(acc := Merge(s.acc, fragments[0].0, fragments[0].1)), MessageEvents(messages[1..]))
    ensures RecognisedAs(messages[1..], fragments[1..])
  {
    var events := MessageEvents(messages);
    assert events[0] == Message(Some(messages[0]));
    assert events[1..] == MessageEvents(messages[1..]);
    assert Classify(messages[0]) == Ok(Recognised(fragments[0].0, fragments[0].1, false));
    assert forall k :: 0 <= k < |messages| - 1 ==>
      messages[1..][k] == messages[k + 1] && fragments[1..][k] == fragments[k + 1];
  }

  /** Each message is recognised as its fragment, not final. */
  predicate RecognisedAs(messages: seq<JsValue>, fragments: seq<(string, bool)>) {
    |messages| == |fragments|
    && forall k :: 0 <= k < |messages| ==>
      Classify(messages[k]) == Ok(Recognised(fragments[k].0, fragments[k].1, false))
  }

  /** A run of recognised, non-final results on an open socket changes only the text,
      to what Accumulate describes from their (segment, pgs == 'rpl') pairs: nothing is
      replied, closed or sent. */
  lemma {:induction false} RecognisedRun(crypto: VoiceAuth.Crypto, s: State, messages: seq<JsValue>,
                                         fragments: seq<(string, bool)>)
    requires s.phase == Streaming && RecognisedAs(messages, fragments)
    ensures Run(crypto, s, MessageEvents(messages)) == Some(s.(acc := Accumulate(s.acc, fragments)))
    decreases |messages|
  {
    if messages == [] {
      assert s.(acc := Accumulate(s.acc, fragments)) == s;
    } else {
      RecognisedStep(crypto, s, messages, fragments);
      var t := s.(acc := Merge(s.acc, fragments[0].0, fragments[0].1));
      RecognisedRun(crypto, t, messages[1..], fragments[1..]);
      AccumulateCons(s.acc, fragments[0], fragments[1..]);
      assert [fragments[0]] + fragments[1..] == fragments;
      assert t.(acc := Accumulate(t.acc, fragments[1..])) == s.(acc := Accumulate(s.acc, fragments));
    }
  }

  /** A segment stops at the first word group that throws: a failing prefix fails the whole. */
  lemma {:induction false} SegmentPrefixFails(items: seq<JsValue>, i: nat)
    requires i <= |items| && SegmentOf(items[..i]).Err?
    ensures SegmentOf(items).Err?
    decreases |items| - i
  {
    if i < |items| {
      assert items[..i + 1][..i] == items[..i];
      SegmentPrefixFails(items, i + 1);
    } else {
      assert items[..i] == items;
    }
  }

  /** forEach over `ws` with `segment +=`: builds what SegmentOf describes. */
  method BuildSegment(items: seq<JsValue>) returns (r: Result<string, Thrown>)
    ensures r == SegmentOf(items)
  {
    var segment := "";
    var i := 0;
    while i < |items|
      invariant 0 <= i <= |items|
      invariant SegmentOf(items[..i]) == Ok(segment)
    {
      assert items[..i + 1][..i] == items[..i];
      var piece := GroupText(items[i]);
      if piece.Err? {
        assert SegmentOf(items[..i + 1]).Err?;
        SegmentPrefixFails(items, i + 1);
        assert SegmentOf(items).error.TypeError?;
        return Err(TypeError);
      }
      segment := segment + piece.value;
      i := i + 1;
    }
    assert items[..i] == items;
    return Ok(segment);
  }

  /** The message handler's reads of a parsed message, in the order it makes them, the
      segment built by the forEach loop. */
  method Interpret(json: JsValue) returns (r: Result<Inbound, Thrown>)
    ensures r == Classify(json)
  {
    var code :- Member(json, "code");
    if code != Num(0) {
      return Ok(VendorError(Member(json, "message").value));
    }
    var data := Member(json, "data").value;
    if !Truthy(data) {
      return Ok(Other);
    }
    var result := Member(data, "result").value;
    if !Truthy(result) {
      return Ok(Other);
    }
    var ws := Member(result, "ws").value;
    if !ws.Arr? {
      return Err(TypeError);
    }
    var segment :- BuildSegment(ws.items);
    var pgs := Member(result, "pgs").value;
    var status := Member(data, "status").value;
    return Ok(Recognised(segment, pgs == Str("rpl"), status == Num(2)));
  }
}
