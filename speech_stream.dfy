/**
 * The synthesis stream client `websocketSendReceive` (main.go:235-278).
 *
 * After the connection is dialled and the request is sent, each inbound message
 * is tried as a JSON object. An object whose string field "type" is
 * "end_of_audio" ends the stream; any other object is logged and ignored; a
 * message that is not a JSON object is raw audio and is written to the player
 * unchanged. A read error or a failed player write also ends the stream.
 */
module SpeechStream {
  import opened Outcomes
  import opened Pcm

  /** One inbound message body or one chunk written to the player. */
  type Chunk = seq<Byte>

  /** The value of "type" that ends the stream (main.go:260). */
  const EndOfAudioMarker: string := "end_of_audio"

  /** What one `ReadMessage` call yields: a message body, or an error (closure included). */
  datatype Inbound = Message(data: Chunk) | ReadError

  /**
   * The outcome of decoding a message into a JSON object: not an object at all,
   * or an object together with its "type" field when that field holds a string.
   * JSON `null` decodes without error into a nil map, so it is `JsonObject(None)`.
   */
  datatype Parsed = NotJson | JsonObject(typeField: Option<string>)

  datatype StopReason = EndOfAudio | ReadFailed | WriteFailed

  /** All chunks the player holds when the loop ends, why it ended, and at which message. */
  datatype Session = Session(played: seq<Chunk>, stop: StopReason, at: nat)

  /** The player's connection to the synthesis service, as far as one request goes. */
  datatype Server = Server(dialOk: bool, sendOk: bool, inbound: seq<Inbound>)

  /** How `websocketSendReceive` returns. */
  datatype StreamEnd = DialFailed | SendFailed | Received(stop: StopReason, at: nat)

  predicate IsEndOfAudio(p: Parsed) {
    p.JsonObject? && p.typeField == Some(EndOfAudioMarker)
  }

  /**
   * The audio output device. Whether a write succeeds is the device's business:
   * `accepts` tells, from the chunks played so far, whether it takes the next one.
   */
  class Player {
    var played: seq<Chunk>
    const accepts: (seq<Chunk>, Chunk) -> bool

    constructor (accepts: (seq<Chunk>, Chunk) -> bool)
      ensures played == [] && this.accepts == accepts
    {
      played := [];
      this.accepts := accepts;
    }

    /** `player.Write`: the chunk is appended to what was played, or the write fails. */
    method Write(chunk: Chunk) returns (ok: bool)
      modifies this
      ensures ok == accepts(old(played), chunk)
      ensures played == if ok then old(played) + [chunk] else old(played)
    {
      ok := accepts(played, chunk);
      if ok {
        played := played + [chunk];
      }
    }
  }

  /**
   * The receive loop from message i on, with `played` already written. A finite
   * script of messages that runs out is a connection that reports an error.
   */
  function Demux(inbound: seq<Inbound>, i: nat, parse: Chunk -> Parsed,
                 accepts: (seq<Chunk>, Chunk) -> bool, played: seq<Chunk>): Session
    requires i <= |inbound|
    decreases |inbound| - i
  {
    if i == |inbound| then Session(played, ReadFailed, i)
    else match inbound[i]
      case ReadError => Session(played, ReadFailed, i)
      case Message(m) =>
        match parse(m)
        case JsonObject(t) =>
          if t == Some(EndOfAudioMarker) then Session(played, EndOfAudio, i)
          else Demux(inbound, i + 1, parse, accepts, played)
        case NotJson =>
          if accepts(played, m) then Demux(inbound, i + 1, parse, accepts, played + [m])
          else Session(played, WriteFailed, i)
  }

  /** The audio chunks among some messages: the bodies that are not JSON objects, in order. */
  function AudioOf(msgs: seq<Inbound>, parse: Chunk -> Parsed): seq<Chunk>
    decreases |msgs|
  {
    if msgs == [] then []
    else (if msgs[0].Message? && parse(msgs[0].data).NotJson? then [msgs[0].data] else [])
         + AudioOf(msgs[1..], parse)
  }

  /** A parsed JSON object is never played. */
  lemma {:induction false} AudioIsNotJson(msgs: seq<Inbound>, parse: Chunk -> Parsed)
    ensures forall c :: c in AudioOf(msgs, parse) ==> parse(c) == NotJson
    decreases |msgs|
  {
    if msgs != [] {
      AudioIsNotJson(msgs[1..], parse);
    }
  }

  /**
   * The receive loop plays exactly the audio messages before its stop point,
   * unchanged and in order; it stops at the first read error, the first
   * end-of-audio object or the first failed write, and at nothing else.
   */
  lemma {:induction false} DemuxStopsAtFirst(inbound: seq<Inbound>, i: nat, parse: Chunk -> Parsed,
                                             accepts: (seq<Chunk>, Chunk) -> bool, played: seq<Chunk>)
    requires i <= |inbound|
    ensures var r := Demux(inbound, i, parse, accepts, played);
      && i <= r.at <= |inbound|
      && r.played == played + AudioOf(inbound[i..r.at], parse)
      && (forall j :: i <= j < r.at ==> inbound[j].Message? && !IsEndOfAudio(parse(inbound[j].data)))
      && (forall j :: i <= j < r.at && parse(inbound[j].data).NotJson? ==>
            accepts(played + AudioOf(inbound[i..j], parse), inbound[j].data))
      && (r.stop == ReadFailed <==> r.at == |inbound| || inbound[r.at].ReadError?)
      && (r.stop == EndOfAudio <==> r.at < |inbound| && inbound[r.at].Message? && IsEndOfAudio(parse(inbound[r.at].data)))
      && (r.stop == WriteFailed <==>
            r.at < |inbound| && inbound[r.at].Message? && parse(inbound[r.at].data).NotJson?
            && !accepts(r.played, inbound[r.at].data))
    decreases |inbound| - i
  {
    var r := Demux(inbound, i, parse, accepts, played);
    if i == |inbound| || inbound[i].ReadError? {
      assert inbound[i..i] == [];
    } else {
      var m := inbound[i].data;
      var here := if parse(m).NotJson? then [m] else [];
      if IsEndOfAudio(parse(m)) {
        assert inbound[i..i] == [];
      } else if parse(m).NotJson? && !accepts(played, m) {
        assert inbound[i..i] == [];
      } else {
        var next := played + here;
        assert r == Demux(inbound, i + 1, parse, accepts, next) by {
          if parse(m).JsonObject? {
            assert next == played;
          }
        }
        DemuxStopsAtFirst(inbound, i + 1, parse, accepts, next);
        assert played + AudioOf(inbound[i..i], parse) == played by {
          assert inbound[i..i] == [];
        }
        forall j | i < j <= r.at
          ensures played + AudioOf(inbound[i..j], parse) == next + AudioOf(inbound[i + 1..j], parse)
        {
          assert inbound[i..j][1..] == inbound[i + 1..j];
          assert AudioOf(inbound[i..j], parse) == here + AudioOf(inbound[i + 1..j], parse);
        }
      }
    }
  }

  /** Every chunk the receive loop plays is one that does not decode as a JSON object. */
  lemma DemuxPlaysNoJson(inbound: seq<Inbound>, i: nat, parse: Chunk -> Parsed,
                         accepts: (seq<Chunk>, Chunk) -> bool, played: seq<Chunk>)
    requires i <= |inbound|
    ensures var r := Demux(inbound, i, parse, accepts, played);
      |played| <= |r.played| && r.played[..|played|] == played
      && forall k :: |played| <= k < |r.played| ==> parse(r.played[k]) == NotJson
  {
    var r := Demux(inbound, i, parse, accepts, played);
    DemuxStopsAtFirst(inbound, i, parse, accepts, played);
    var audio := AudioOf(inbound[i..r.at], parse);
    AudioIsNotJson(inbound[i..r.at], parse);
    forall k | |played| <= k < |r.played|
      ensures parse(r.played[k]) == NotJson
    {
      assert r.played[k] == audio[k - |played|];
    }
  }

  /** The loop of main.go:249-277 over the inbound messages. */
  method ReceiveLoop(inbound: seq<Inbound>, parse: Chunk -> Parsed, player: Player) returns (stop: StopReason, at: nat)
    modifies player
    ensures Session(player.played, stop, at) == Demux(inbound, 0, parse, player.accepts, old(player.played))
  {
    var i := 0;
    while true
      invariant i <= |inbound|
      invariant Demux(inbound, i, parse, player.accepts, player.played)
             == Demux(inbound, 0, parse, player.accepts, old(player.played))
      decreases |inbound| - i
    {
      if i == |inbound| || inbound[i].ReadError? {
        stop, at := ReadFailed, i;
        break;
      }
      var message := inbound[i].data;
      var parsed := parse(message);
      if parsed.JsonObject? {
        if parsed.typeField == Some(EndOfAudioMarker) {
          stop, at := EndOfAudio, i;
          break;
        }
        // any other object is only logged
      } else {
        var ok := player.Write(message);
        if !ok {
          stop, at := WriteFailed, i;
          break;
        }
      }
      i := i + 1;
    }
  }

  /** Reference outcome of a whole `websocketSendReceive` call, with the chunks played by its end. */
  function Converse(server: Server, parse: Chunk -> Parsed,
                    accepts: (seq<Chunk>, Chunk) -> bool, played: seq<Chunk>): (r: (StreamEnd, seq<Chunk>))
    ensures r.0 == DialFailed <==> !server.dialOk
    ensures r.0 == SendFailed <==> server.dialOk && !server.sendOk
    ensures !r.0.Received? ==> r.1 == played
  {
    if !server.dialOk then (DialFailed, played)
    else if !server.sendOk then (SendFailed, played)
    else
      var s := Demux(server.inbound, 0, parse, accepts, played);
      (Received(s.stop, s.at), s.played)
  }

  /** A failed dial or a failed send plays nothing; otherwise the receive loop runs. */
  method WebsocketSendReceive(server: Server, parse: Chunk -> Parsed, player: Player) returns (end: StreamEnd)
    modifies player
    ensures (end, player.played) == Converse(server, parse, player.accepts, old(player.played))
  {
    if !server.dialOk {
      return DialFailed;
    }
    if !server.sendOk {
      return SendFailed;
    }
    var stop, at := ReceiveLoop(server.inbound, parse, player);
    end := Received(stop, at);
  }

  /**
   * A status object, then raw bytes, then the end-of-audio object: the bytes are
   * played once and the loop ends at the third message.
   */
  lemma StatusAudioEnd(parse: Chunk -> Parsed, status: Chunk, audio: Chunk, end: Chunk)
    requires parse(status) == JsonObject(Some("status"))
    requires parse(audio) == NotJson
    requires parse(end) == JsonObject(Some(EndOfAudioMarker))
    ensures Demux([Message(status), Message(audio), Message(end)], 0, parse, (h, c) => true, [])
         == Session([audio], EndOfAudio, 2)
  {
    var inbound := [Message(status), Message(audio), Message(end)];
    var always := (h: seq<Chunk>, c: Chunk) => true;
    assert Demux(inbound, 2, parse, always, [audio]) == Session([audio], EndOfAudio, 2);
    assert Demux(inbound, 1, parse, always, []) == Demux(inbound, 2, parse, always, [] + [audio]);
  }
}
