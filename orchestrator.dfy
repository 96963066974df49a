/**
 * `handleInputAudio` (main.go:124-160): what happens to one utterance handed off
 * by the segmenter. The transcription service, the dialogue model and the
 * synthesis service are outside the model; they are given as oracles, and the
 * method records which of them it calls, with what, in a trace.
 */
module Orchestrator {
  import opened Outcomes
  import opened Pcm
  import opened Segmentation
  import opened Gate
  import opened SpeechStream

  /** The dialogue model asked for a reply (main.go:147). */
  const DialogueModel: string := "gemma2:9b"

  /** The body sent to the synthesis service (main.go:152-156); a missing reply is sent as JSON null. */
  datatype SynthesisRequest = SynthesisRequest(message: Option<string>, language: string, speed: real)

  /** One call to an external service. */
  datatype Call =
    | Transcribe(samples: seq<Normalized>)
    | Generate(model: string, prompt: string)
    | Synthesize(request: SynthesisRequest)

  /**
   * The external services for one utterance: the transcript (or error) for a
   * sample sequence, the "response" of the dialogue model for a model and a prompt
   * (None when the call fails or gives no response), the synthesis connection and
   * the JSON decoder applied to its messages.
   */
  datatype Services = Services(
    transcribe: seq<Normalized> -> Result<string>,
    generate: (string, string) -> Option<string>,
    server: Server,
    parse: Chunk -> Parsed)

  /** The request built from a dialogue reply. */
  function RequestFor(reply: Option<string>): SynthesisRequest {
    SynthesisRequest(reply, "ru", 1.0)
  }

  /**
   * One utterance through the gate, transcription, the phrase filter, the
   * dialogue model and the synthesis stream. A dialogue failure does not stop the
   * pipeline: the request is sent with whatever the reply holds.
   */
  method HandleInputAudio(buffer: seq<Frame>, services: Services, player: Player)
    returns (trace: seq<Call>, end: Option<StreamEnd>)
    modifies player
    ensures |trace| <= 3
    ensures |trace| >= 1 <==> TotalSamples(buffer) >= 6400
    ensures |trace| >= 1 ==> trace[0] == Transcribe(Concat(buffer))
    ensures |trace| >= 2 <==>
      && TotalSamples(buffer) >= 6400
      && services.transcribe(Concat(buffer)).Success?
      && services.transcribe(Concat(buffer)).value !in ExcludedWords
    ensures |trace| >= 2 ==>
      var prompt := services.transcribe(Concat(buffer)).value;
      && |trace| == 3
      && trace[1] == Generate(DialogueModel, prompt)
      && trace[2] == Synthesize(RequestFor(services.generate(DialogueModel, prompt)))
    ensures end.Some? <==> |trace| == 3
    ensures end.None? ==> player.played == old(player.played)
    ensures end.Some? ==>
      (end.value, player.played) == Converse(services.server, services.parse, player.accepts, old(player.played))
  {
    trace, end := [], None;
    var merged := MergeFrames(buffer);
    var length := CalculateAudioLength(buffer, SampleRate);
    GateThreshold(TotalSamples(buffer));
    if length < MinDuration {
      return;
    }
    trace := trace + [Transcribe(merged)];
    var transcription := services.transcribe(merged);
    if transcription.Failure? {
      return;
    }
    var excluded := IsExcluded(transcription.value);
    if excluded {
      return;
    }
    trace := trace + [Generate(DialogueModel, transcription.value)];
    var reply := services.generate(DialogueModel, transcription.value);
    var request := RequestFor(reply);
    trace := trace + [Synthesize(request)];
    var e := WebsocketSendReceive(services.server, services.parse, player);
    end := Some(e);
  }
}
