# Voice pipeline core of go-ast-test-mic, modelled in Dafny

The program listens to a microphone, cuts the sample stream into utterances with
a voice-activity segmenter, drops utterances that are too short, sends the rest
to a transcription service, drops known spurious transcripts, asks a dialogue
model for a reply, and streams the synthesized reply from a WebSocket service
to the speaker. This project models the sequential logic of `main.go` that does
this:

- `pcm.dfy` (module `Pcm`): `int16ToByte`, the 16-bit little-endian encoder, and
  `pcmToFloat32Array`, the matching decoder with its 1/32768 scaling. Samples and
  bytes are integers in the ranges of Go's `int16` and `byte`. The scaling is exact
  rational division.
- `segmenter.dfy` (module `Segmentation`): the segmenter state of the capture loop
  (`inputAudioBuffer`, `silenceCount`) as the class `Segmenter`. The voice
  classifier's verdict (active, inactive, error) is an input of each step. The
  pure specification `Next`/`Run` is what the lemmas reason about.
- `gate.dfy` (module `Gate`): merging the frames of an utterance,
  `calculateAudioLength`, the 0.40 s gate and the excluded-phrase scan.
- `speech_stream.dfy` (module `SpeechStream`): `websocketSendReceive`. The speaker
  is the class `Player`, whose `played` sequence grows with each accepted write.
  The receive loop is proved against the specification `Demux`.
- `orchestrator.dfy` (module `Orchestrator`): `handleInputAudio`. Transcription,
  dialogue and synthesis are oracles, and the method returns a trace of the calls
  it made.
- `outcomes.dfy` (module `Outcomes`): `Option` and `Result`, used for Go's
  `(value, error)` returns.

Two points where the code may not do what a reader expects:

- A reader might expect the silence counter to be cleared on hand-off too. The
  code (main.go:100-107) resets it only on an active frame. The model keeps the
  code's behaviour.
  `Segmentation.ResettingAgrees` proves that the two behaviours hand off the same
  utterances at the same frames.
- A message is treated as audio when it does not decode into a JSON *object*
  (`json.Unmarshal` into a map). Valid JSON that is not an object, such as an
  array or a number, is therefore audio too, and the oracle `parse` returns
  `NotJson` for it. The exception is `null`, which decodes without error into a
  nil map: `parse` gives `JsonObject(None)` for it, so it is logged and never
  played.

## Model

| member | source | states |
|---|---|---|
| `Pcm.SampleBytes` | main.go:162-169 | the two bytes written for a sample are its 16-bit two's-complement pattern (low + 256·high = s mod 65536), and reading them little-endian gives the sample back |
| `Pcm.EncodeAt` | main.go:164-167 | byte 2i of the encoding is the low byte of sample i and byte 2i+1 its high byte |
| `Pcm.Int16ToByte` | main.go:162-169 | returns 2·n bytes; byte 2i is the low byte and byte 2i+1 the high byte of sample i in two's complement; equals the reference encoding |
| `Pcm.DecodeAt` | main.go:184-190 | decoded sample i is the little-endian int16 of bytes 2i and 2i+1 |
| `Pcm.DecodeEncode` | main.go:162-191 | decoding the output of `int16ToByte` recovers every original sample, in order |
| `Pcm.EncodeDecode` | main.go:178-191 | every even-length byte string is the encoding of its decoding, so decoding loses nothing |
| `Pcm.Normalize` | main.go:189 | a scaled sample lies in [-1, 1) and times 32768 gives the sample back |
| `Pcm.NormalizeAll` | main.go:182-190 | scaling keeps the length and puts every value in [-1, 1) |
| `Pcm.PcmToFloat32Array` | main.go:178-191 | an error iff the byte count is odd; otherwise exactly len/2 values, value i being sample i (bytes 2i, 2i+1 little-endian) divided by 32768, in [-1, 1) |
| `Pcm.CaptureFrame` | main.go:87-93 | serialising captured samples and decoding them never fails and yields each sample divided by 32768, so the skip at main.go:90-93 is never taken |
| `Segmentation.Next` | main.go:95-110 | one step keeps the invariant "non-empty buffer ⇒ counter ≤ 5"; a hand-off returns the whole old buffer, never empty, and leaves the buffer empty |
| `Segmentation.RunKeepsInv` | main.go:95-110 | after every sequence of frames the invariant holds and no handed-off utterance is empty |
| `Segmentation.NextConservesFrames` | main.go:97-108 | one step moves an active frame to the end of the buffer and a handed-off buffer to the end of the utterance list, losing nothing |
| `Segmentation.RunConservesFrames` | main.go:95-110 | the utterances handed off, followed by the buffer, are exactly the active frames in arrival order |
| `Segmentation.RunAppend` | main.go:81-110 | feeding two stretches of frames one after the other ends in the same state and hands off the same utterances, in order, as feeding them together |
| `Segmentation.BufferSinceEmpty` | main.go:97-107 | from a point where the buffer was empty (the start or just after a hand-off), while nothing is handed off, the buffer is exactly the active frames since that point, so the next utterance is exactly those frames |
| `Segmentation.SilenceNeverEmits` | main.go:101-108 | a frame sequence with no active frame never hands anything off from an empty buffer |
| `Segmentation.SilenceRunFlushes` | main.go:101-108 | behind a non-empty buffer, inactive frames hand the buffer off exactly when the counter exceeds 5; the counter keeps counting and is not reset |
| `Segmentation.ResettingAgrees` | main.go:100-107 | resetting the counter on hand-off as well would change no handed-off utterance |
| `Segmentation.Segmenter.constructor` | main.go:67-69 | the segmenter starts with an empty buffer and a zero counter |
| `Segmentation.Segmenter.Step` | main.go:95-110 | active: frame appended at the end, earlier contents unchanged, counter 0, nothing handed off; inactive: counter + 1, hand-off iff the new counter > 5 and the buffer is non-empty, hand-off returns the old buffer and empties it, counter not reset; classifier error: nothing changes |
| `Segmentation.Segmenter.Capture` | main.go:87-110 | one loop iteration steps the segmenter with the captured samples divided by 32768 |
| `Segmentation.Segmenter.Listen` | main.go:81-116 | the capture loop over a stretch of frames returns every handed-off utterance in order and ends in the state given by `Run` |
| `Gate.ConcatLength` | main.go:125-129 | the merged buffer holds as many samples as the frames together, the count `calculateAudioLength` sums |
| `Gate.ConcatAt` | main.go:125-128 | sample j of frame i sits in the merged buffer after all samples of the earlier frames |
| `Gate.MergeFrames` | main.go:125-128 | the merged buffer is the concatenation of the frames in order, and its length is the sum of the frame lengths |
| `Gate.CalculateAudioLength` | main.go:170-177 | the duration is the total sample count over the rate; times the rate it gives the merged length |
| `Gate.GateThreshold` | main.go:131 | at 16000 Hz, a duration below 0.40 s means fewer than 6400 samples |
| `Gate.IsExcluded` | main.go:140-146 | a transcript is excluded iff it equals one of the three phrases exactly |
| `Gate.SurroundedNotExcluded` | main.go:140-146 | an excluded phrase with any text added in front, behind or both is not excluded |
| `Gate.PartNotExcluded` | main.go:140-146 | a proper substring of an excluded phrase, cut anywhere, is not excluded |
| `SpeechStream.Player.constructor` | main.go:53 | a new player has played nothing |
| `SpeechStream.Player.Write` | main.go:266-269 | a write either appends the chunk unchanged to what was played or fails and changes nothing |
| `SpeechStream.AudioIsNotJson` | main.go:258-270 | no message that decodes as a JSON object is ever among the played chunks |
| `SpeechStream.DemuxPlaysNoJson` | main.go:258-270 | the receive loop only appends to what was played, and every chunk it appends does not decode as a JSON object |
| `SpeechStream.DemuxStopsAtFirst` | main.go:249-277 | the played chunks are exactly the non-JSON messages before the stop point, unchanged and in order; the loop stops at the first read error, the first "end_of_audio" object or the first failed write, and other JSON objects never stop it |
| `SpeechStream.ReceiveLoop` | main.go:249-277 | the loop appends to the player and ends as the specification `Demux` says |
| `SpeechStream.Converse` | main.go:235-247 | a failed dial or a failed initial send ends the call with nothing played |
| `SpeechStream.WebsocketSendReceive` | main.go:235-278 | the call ends, and leaves the player, as `Converse` says |
| `SpeechStream.StatusAudioEnd` | main.go:258-263 | a status object, raw bytes, then the end-of-audio object: the bytes are played once and the loop ends at the third message |
| `Orchestrator.HandleInputAudio` | main.go:124-160 | transcription is called, with the merged buffer, iff the utterance has ≥ 6400 samples (0.40 s); dialogue is called iff transcription succeeded and its text is not exactly an excluded phrase; synthesis follows dialogue even when dialogue fails; nothing is played unless synthesis runs |

## Left out

- Device I/O: PortAudio and oto initialisation, `stream.Read` and the real speaker
  (main.go:34-65, 83). Captured frames are an input sequence. The speaker is the
  `Player` class: whether it accepts a write is a given function of what it
  played before.
- The capture goroutine, the interrupt-signal shutdown and the one-second grace
  sleep (main.go:56-57, 80, 119-122). These are concurrency and process exit.
  Frames lost while an utterance's pipeline runs are a timing effect; the model's
  frame sequence is the frames actually read.
- The voice classifier `webrtcvad` (main.go:71-78, 95). Its verdict on each frame,
  including an error, is an input.
- `sendFloat32ArrayToServer` (main.go:194-233): float32 serialisation, the HTTP
  request and the JSON lookup of `transcription`. It is the oracle
  `Services.transcribe`, which returns a transcript or an error.
- `client.GenerateNoStream` and `NewOllamaClient` (main.go:30, 147). The Ollama
  client file is not part of this model. The oracle `Services.generate` returns
  the reply's `"response"`, taken to be a string or absent. On a failed call the
  request is sent with a null message, as the code proceeds after logging.
  Logging the wrong error variable at main.go:149 affects only the log.
- JSON decoding and the WebSocket library. `json.Unmarshal` is the oracle `parse`.
  Dial and `WriteJSON` success are two booleans of `Server`. The inbound messages
  are a finite script, and running out of messages counts as a read error. The
  synthesis service's answer does not depend on the request in the model; the
  request sent is recorded in the trace.
- The close-code test at main.go:252: it only decides whether a closure is
  logged, and the loop ends either way.
- Floating point. Durations and scaled samples are exact rationals. For
  `float64(n) / 16000 < 0.40` this agrees with the code for every sample count.
- Logging throughout, including the "0.45 seconds" message at main.go:132, which
  does not match the 0.40 threshold it reports on.
- `Pcm.PcmToFloat32Array`: the per-sample read error of `binary.Read` is not a
  separate branch. The reader holds exactly two bytes for each sample read, so
  that error cannot occur.
- `Segmentation.Segmenter.Listen`: returns the utterances it hands off instead of
  running `handleInputAudio` on each at main.go:106. This changes nothing for the
  segmenter: `handleInputAudio` reads its own copy of the buffer and touches
  neither `inputAudioBuffer` nor `silenceCount`, and the buffer is cleared after
  it returns. What one hand-off does downstream is `Orchestrator.HandleInputAudio`.
- `Gate.CalculateAudioLength`: requires a positive sample rate. The source would
  return an infinite or NaN float for a zero rate, but its only caller passes 16000.
- `SpeechStream.Player.Write`: a short write (fewer bytes accepted without an
  error) is not modelled. A write either takes the whole chunk or fails.
