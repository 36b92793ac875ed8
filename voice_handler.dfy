/** The /transcribe handler's closure state in place: one object per request, one method
    per callback, each proved to change the state as VoiceSession.Next says. */
module VoiceHandler {
  import opened Wrappers
  import opened Text
  import opened Js
  import opened Http
  import VoiceAuth
  import opened VoiceSession

  /** One /transcribe request: the handler's closure variables and the effects it has had. */
  class Transcription {
    const crypto: VoiceAuth.Crypto
    var phase: Phase
    var appId: string
    var apiKey: string
    var apiSecret: string
    var date: string
    var pcm: seq<byte>
    var cursor: nat
    var acc: string
    var timerActive: bool
    var sent: seq<Frame>
    var closeCodes: seq<int>
    var replies: seq<Reply>
    var cleanups: nat
    var tempFiles: bool

    function Current(): State
      reads this
    {
      State(phase, appId, apiKey, apiSecret, date, pcm, cursor, acc, timerActive, sent, closeCodes, replies,
            cleanups, tempFiles)
    }

    ghost predicate Valid()
      reads this
    {
      Inv(Current())
    }

    constructor (crypto: VoiceAuth.Crypto)
      ensures Valid() && Current() == Initial && this.crypto == crypto
    {
      this.crypto := crypto;
      phase, appId, apiKey, apiSecret, date := Idle, "", "", "", "";
      pcm, cursor, acc := [], 0, "";
      timerActive, sent, closeCodes, replies, cleanups, tempFiles := false, [], [], [], 0, false;
    }

    method Cleanup()
      modifies this`cleanups
      ensures cleanups == old(cleanups) + 1
    {
      cleanups := cleanups + 1;
    }

    method Respond(r: Reply)
      modifies this`replies
      ensures replies == old(replies) + [r]
    {
      replies := replies + [r];
    }

    /** The route's synchronous part: the file check, the temp paths, writeFileSync. */
    method Upload(file: Option<seq<byte>>, writeOk: bool)
      requires Valid() && Enabled(Current(), Event.Upload(file, writeOk))
      modifies this
      ensures Valid() && Current() == Next(crypto, old(Current()), Event.Upload(file, writeOk))
    {
      ghost var next := Next(crypto, Current(), Event.Upload(file, writeOk));
      NextPreservesInv(crypto, Current(), Event.Upload(file, writeOk));
      if file.None? {
        Respond(Reply(400, ErrorBody("没有提供音频文件")));
        phase := Rejected;
        assert Current() == next;
        return;
      }
      tempFiles := true;
      if !writeOk {
        Cleanup();
        Respond(Reply(500, ErrorBody("服务器写入文件失败")));
        phase := Failed;
        assert Current() == next;
        return;
      }
      phase := Transcoding;
      assert Current() == next;
    }

    /** ffmpeg's 'error'. */
    method TranscodeFailed(message: string)
      requires Valid() && Enabled(Current(), Event.TranscodeFailed(message))
      modifies this
      ensures Valid() && Current() == Next(crypto, old(Current()), Event.TranscodeFailed(message))
    {
      ghost var next := Next(crypto, Current(), Event.TranscodeFailed(message));
      NextPreservesInv(crypto, Current(), Event.TranscodeFailed(message));
      Cleanup();
      Respond(Reply(500, ErrorWithDetails("音频转码失败", Str(message))));
      phase := Failed;
      assert Current() == next;
    }

    /** ffmpeg's 'end': the credentials check, then the signed URL and a new socket. */
    method Transcoded(credentials: Credentials, date: string)
      requires Valid() && Enabled(Current(), Event.Transcoded(credentials, date))
      modifies this
      ensures Valid() && Current() == Next(crypto, old(Current()), Event.Transcoded(credentials, date))
    {
      ghost var next := Next(crypto, Current(), Event.Transcoded(credentials, date));
      NextPreservesInv(crypto, Current(), Event.Transcoded(credentials, date));
      if !Configured(credentials.appId) || !Configured(credentials.apiKey)
         || !Configured(credentials.apiSecret) {
        Cleanup();
        Respond(Reply(500, ErrorBody("服务器密钥配置不全")));
        phase := Failed;
        assert Current() == next;
        return;
      }
      appId := credentials.appId.value;
      apiKey := credentials.apiKey.value;
      apiSecret := credentials.apiSecret.value;
      this.date := date;
      phase := Connecting;
      assert Current() == next;
    }

    /** The socket's 'open': the first frame, then the PCM and the interval. */
    method Open(buffer: seq<byte>)
      requires Valid() && Enabled(Current(), Event.Open(buffer))
      modifies this
      ensures Valid() && Current() == Next(crypto, old(Current()), Event.Open(buffer))
    {
      ghost var next := Next(crypto, Current(), Event.Open(buffer));
      NextPreservesInv(crypto, Current(), Event.Open(buffer));
      sent := sent + [First(appId)];
      pcm := buffer;
      cursor := 0;
      timerActive := true;
      phase := Streaming;
      assert Current() == next;
    }

    /** One run of the interval callback. */
    method Tick()
      requires Valid() && timerActive
      modifies this
      ensures Valid() && Current() == Next(crypto, old(Current()), Event.Tick)
      ensures !timerActive ==> sent == Stream(appId, pcm)
    {
      ghost var next := Next(crypto, Current(), Event.Tick);
      NextPreservesInv(crypto, Current(), Event.Tick);
      if cursor >= |pcm| {
        timerActive := false;
        sent := sent + [Last];
        assert Current() == next;
        FramesComplete(Current());
        return;
      }
      var chunk := pcm[cursor..Min(cursor + FrameSize, |pcm|)];
      sent := sent + [Audio(chunk)];
      cursor := cursor + FrameSize;
      assert Current() == next;
    }

    /** The socket's 'message', given what JSON.parse made of it (None if it threw). */
    method Message(parsed: Option<JsValue>)
      requires Valid() && Enabled(Current(), Event.Message(parsed))
      modifies this
      ensures Valid() && Current() == Next(crypto, old(Current()), Event.Message(parsed))
    {
      NextPreservesInv(crypto, Current(), Event.Message(parsed));
      if parsed.None? {
        return;
      }
      var inbound := Interpret(parsed.value);
      if inbound.Ok? {
        ApplyInbound(inbound.value);
      }
    }

    method ApplyInbound(inbound: Inbound)
      modifies this
      ensures Current() == Apply(old(Current()), inbound)
    {
      match inbound
      case Other =>
      case Recognised(segment, replace, final) =>
        if replace {
          acc := segment;
        } else {
          acc := acc + segment;
        }
        if final {
          if replies == [] {
            Respond(Reply(200, TranscriptBody(acc)));
          }
          closeCodes := closeCodes + [1000];
        }
      case VendorError(details) =>
        if replies == [] {
          Respond(Reply(500, ErrorWithDetails("语音识别失败", details)));
        }
        closeCodes := closeCodes + [1005];
    }

    /** The socket's 'error'. */
    method SocketError(message: string)
      requires Valid() && Enabled(Current(), Event.SocketError(message))
      modifies this
      ensures Valid() && Current() == Next(crypto, old(Current()), Event.SocketError(message))
    {
      ghost var next := Next(crypto, Current(), Event.SocketError(message));
      NextPreservesInv(crypto, Current(), Event.SocketError(message));
      Cleanup();
      if replies == [] {
        Respond(Reply(500, ErrorWithDetails("WebSocket 连接失败", Str(message))));
      }
      assert Current() == next;
    }

    /** The socket's 'close'. */
    method SocketClosed()
      requires Valid() && Enabled(Current(), Event.SocketClosed)
      modifies this
      ensures Valid() && Current() == Next(crypto, old(Current()), Event.SocketClosed)
      ensures |replies| == 1
    {
      ghost var next := Next(crypto, Current(), Event.SocketClosed);
      NextPreservesInv(crypto, Current(), Event.SocketClosed);
      Cleanup();
      if replies == [] {
        Respond(Reply(200, TranscriptBody(acc)));
      }
      phase := Closed;
      assert Current() == next;
    }
  }
}
