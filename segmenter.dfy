/**
 * The voice-activity segmenter of the capture loop in main.go (state declared
 * at lines 67-69, updated at lines 95-110).
 *
 * Each captured frame comes with the classifier's verdict. An active frame is
 * appended to the utterance buffer and resets the silence counter; an inactive
 * frame increments the counter, and once the counter exceeds the threshold of 5
 * while the buffer holds frames, the buffer is handed off as one utterance and
 * cleared. The counter is NOT reset on hand-off: only an active frame resets it.
 */
module Segmentation {
  import opened Outcomes
  import opened Pcm

  /** One frame of captured audio after scaling. */
  type Frame = seq<Normalized>

  /** `silenceThreshold` (main.go:67). */
  const SilenceThreshold: nat := 5

  /** The outcome of the voice classifier on one frame: active, inactive, or an error. */
  datatype Verdict = Active | Inactive | VadError

  datatype Event = Event(frame: Frame, verdict: Verdict)

  /** One frame as read from the microphone, with the verdict the classifier gives on it. */
  datatype Captured = Captured(samples: seq<Int16>, verdict: Verdict)

  datatype State = State(buffer: seq<Frame>, silenceCount: nat)

  datatype StepResult = StepResult(state: State, emitted: Option<seq<Frame>>)

  datatype RunResult = RunResult(state: State, emitted: seq<seq<Frame>>)

  const Initial: State := State([], 0)

  /** A buffer holding frames never sits behind a silence run longer than the threshold. */
  ghost predicate Inv(s: State) {
    s.buffer != [] ==> s.silenceCount <= SilenceThreshold
  }

  /** The segmenter's reaction to one classified frame, as main.go:95-110 writes it. */
  function Next(s: State, e: Event): (r: StepResult)
    ensures Inv(s) ==> Inv(r.state)
    ensures r.emitted.Some? ==> r.emitted.value == s.buffer && r.emitted.value != [] && r.state.buffer == []
  {
    match e.verdict
    case VadError => StepResult(s, None)
    case Active => StepResult(State(s.buffer + [e.frame], 0), None)
    case Inactive =>
      var count := s.silenceCount + 1;
      if count > SilenceThreshold && |s.buffer| > 0 then StepResult(State([], count), Some(s.buffer))
      else StepResult(State(s.buffer, count), None)
  }

  function OptionToSeq<T>(o: Option<T>): seq<T> {
    if o.Some? then [o.value] else []
  }

  /** Feeding a whole sequence of frames, collecting the utterances handed off in order. */
  function Run(s: State, events: seq<Event>): RunResult
    decreases |events|
  {
    if events == [] then RunResult(s, [])
    else
      var prev := Run(s, events[..|events| - 1]);
      var step := Next(prev.state, events[|events| - 1]);
      RunResult(step.state, prev.emitted + OptionToSeq(step.emitted))
  }

  /** The frames classified active, in arrival order. */
  function ActiveFrames(events: seq<Event>): seq<Frame>
    decreases |events|
  {
    if events == [] then []
    else
      var last := events[|events| - 1];
      ActiveFrames(events[..|events| - 1]) + (if last.verdict == Active then [last.frame] else [])
  }

  /** All frames of a sequence of utterances, in order. */
  function Flatten(utterances: seq<seq<Frame>>): seq<Frame>
    decreases |utterances|
  {
    if utterances == [] then [] else Flatten(utterances[..|utterances| - 1]) + utterances[|utterances| - 1]
  }

  lemma FlattenSnoc(utterances: seq<seq<Frame>>, u: seq<Frame>)
    ensures Flatten(utterances + [u]) == Flatten(utterances) + u
  {
    assert (utterances + [u])[..|utterances|] == utterances;
  }

  /** The invariant holds after every step, and no handed-off utterance is empty. */
  lemma {:induction false} RunKeepsInv(s: State, events: seq<Event>)
    requires Inv(s)
    ensures Inv(Run(s, events).state)
    ensures forall k :: 0 <= k < |Run(s, events).emitted| ==> Run(s, events).emitted[k] != []
    decreases |events|
  {
    if events != [] {
      RunKeepsInv(s, events[..|events| - 1]);
    }
  }

  /** One step moves an active frame into the buffer and the buffer into the hand-off list. */
  lemma NextConservesFrames(done: seq<seq<Frame>>, s: State, e: Event)
    ensures Flatten(done + OptionToSeq(Next(s, e).emitted)) + Next(s, e).state.buffer
         == Flatten(done) + s.buffer + (if e.verdict == Active then [e.frame] else [])
  {
    var r := Next(s, e);
    if r.emitted.Some? {
      FlattenSnoc(done, s.buffer);
    } else {
      assert done + OptionToSeq(r.emitted) == done;
    }
  }

  /**
   * No frame is lost or duplicated: the utterances handed off, followed by what is
   * still buffered, are exactly the active frames in arrival order.
   */
  lemma {:induction false} RunConservesFrames(s: State, events: seq<Event>)
    ensures Flatten(Run(s, events).emitted) + Run(s, events).state.buffer == s.buffer + ActiveFrames(events)
    decreases |events|
  {
    if events != [] {
      var init, last := events[..|events| - 1], events[|events| - 1];
      var prev := Run(s, init);
      RunConservesFrames(s, init);
      NextConservesFrames(prev.emitted, prev.state, last);
      var extra := if last.verdict == Active then [last.frame] else [];
      calc {
        Flatten(Run(s, events).emitted) + Run(s, events).state.buffer;
        Flatten(prev.emitted) + prev.state.buffer + extra;
        s.buffer + ActiveFrames(init) + extra;
        s.buffer + ActiveFrames(events);
      }
    }
  }

  /** Feeding two stretches of frames one after the other is feeding them together. */
  lemma {:induction false} RunAppend(s: State, pre: seq<Event>, post: seq<Event>)
    ensures Run(s, pre + post).state == Run(Run(s, pre).state, post).state
    ensures Run(s, pre + post).emitted == Run(s, pre).emitted + Run(Run(s, pre).state, post).emitted
    decreases |post|
  {
    if post == [] {
      assert pre + post == pre;
    } else {
      var post' := post[..|post| - 1];
      assert (pre + post)[..|pre + post| - 1] == pre + post';
      assert (pre + post)[|pre + post| - 1] == post[|post| - 1];
      RunAppend(s, pre, post');
    }
  }

  /**
   * From a point where the buffer was empty (the start, or just after a hand-off),
   * as long as nothing is handed off, the buffer is exactly the active frames
   * since that point; so the next utterance consists of exactly those frames.
   */
  lemma BufferSinceEmpty(s: State, pre: seq<Event>, post: seq<Event>)
    requires Run(s, pre).state.buffer == []
    requires Run(s, pre + post).emitted == Run(s, pre).emitted
    ensures Run(s, pre + post).state.buffer == ActiveFrames(post)
  {
    var t := Run(s, pre).state;
    RunAppend(s, pre, post);
    var r := Run(t, post);
    assert |r.emitted| == 0;
    RunConservesFrames(t, post);
    // nothing handed off and nothing buffered before: both sides reduce to their second part
    assert Flatten(r.emitted) + r.state.buffer == r.state.buffer;
    assert t.buffer + ActiveFrames(post) == ActiveFrames(post);
  }

  /** Without an active frame nothing is ever handed off from an empty buffer. */
  lemma {:induction false} SilenceNeverEmits(s: State, events: seq<Event>)
    requires s.buffer == []
    requires forall i :: 0 <= i < |events| ==> events[i].verdict != Active
    ensures Run(s, events).emitted == []
    ensures Run(s, events).state.buffer == []
    decreases |events|
  {
    if events != [] {
      SilenceNeverEmits(s, events[..|events| - 1]);
    }
  }

  /**
   * A run of inactive frames behind a non-empty buffer hands the buffer off
   * exactly when the counter passes the threshold, and keeps counting after that.
   */
  lemma {:induction false} SilenceRunFlushes(s: State, events: seq<Event>)
    requires s.buffer != [] && s.silenceCount <= SilenceThreshold
    requires forall i :: 0 <= i < |events| ==> events[i].verdict == Inactive
    ensures Run(s, events).state.silenceCount == s.silenceCount + |events|
    ensures s.silenceCount + |events| > SilenceThreshold ==>
      Run(s, events).emitted == [s.buffer] && Run(s, events).state.buffer == []
    ensures s.silenceCount + |events| <= SilenceThreshold ==>
      Run(s, events).emitted == [] && Run(s, events).state.buffer == s.buffer
    decreases |events|
  {
    if events != [] {
      SilenceRunFlushes(s, events[..|events| - 1]);
    }
  }

  /**
   * The variant in which the counter is also reset on hand-off (the behaviour a
   * reader might expect): used only to show that the difference is invisible.
   */
  function NextResetting(s: State, e: Event): StepResult {
    var r := Next(s, e);
    if r.emitted.Some? then StepResult(State([], 0), r.emitted) else r
  }

  function RunResetting(s: State, events: seq<Event>): RunResult
    decreases |events|
  {
    if events == [] then RunResult(s, [])
    else
      var prev := RunResetting(s, events[..|events| - 1]);
      var step := NextResetting(prev.state, events[|events| - 1]);
      RunResult(step.state, prev.emitted + OptionToSeq(step.emitted))
  }

  /** Two states that agree on the buffer, and on the counter whenever the buffer holds frames. */
  ghost predicate Agree(s: State, t: State) {
    s.buffer == t.buffer && (s.buffer != [] ==> s.silenceCount == t.silenceCount)
  }

  /** Not resetting the counter on hand-off changes no utterance and no hand-off time. */
  lemma {:induction false} ResettingAgrees(s: State, t: State, events: seq<Event>)
    requires Agree(s, t)
    ensures Agree(Run(s, events).state, RunResetting(t, events).state)
    ensures Run(s, events).emitted == RunResetting(t, events).emitted
    decreases |events|
  {
    if events != [] {
      ResettingAgrees(s, t, events[..|events| - 1]);
    }
  }

  /**
   * The segmenter state owned by the capture loop: `inputAudioBuffer` and
   * `silenceCount`.
   */
  class Segmenter {
    var buffer: seq<Frame>
    var silenceCount: nat

    ghost function Current(): State
      reads this
    {
      State(buffer, silenceCount)
    }

    ghost predicate Valid()
      reads this
    {
      Inv(Current())
    }

    /** main.go:68-69: an empty buffer and a zero counter. */
    constructor ()
      ensures Valid()
      ensures buffer == [] && silenceCount == 0
    {
      buffer := [];
      silenceCount := 0;
    }

    /** One classified frame (main.go:95-110); an utterance handed off is returned. */
    method Step(frame: Frame, verdict: Verdict) returns (utterance: Option<seq<Frame>>)
      requires Valid()
      modifies this
      ensures Valid()
      ensures StepResult(Current(), utterance) == Next(old(Current()), Event(frame, verdict))
      ensures verdict == Active ==>
        buffer == old(buffer) + [frame] && silenceCount == 0 && utterance == None
      ensures verdict == Inactive ==> silenceCount == old(silenceCount) + 1
      ensures verdict == Inactive ==>
        (utterance.Some? <==> silenceCount > SilenceThreshold && old(buffer) != [])
      ensures utterance.Some? ==> utterance.value == old(buffer) && utterance.value != [] && buffer == []
      ensures utterance.None? && verdict != Active ==> buffer == old(buffer)
      ensures verdict == VadError ==> silenceCount == old(silenceCount)
    {
      utterance := None;
      match verdict
      case VadError =>
      case Active =>
        buffer := buffer + [frame];
        silenceCount := 0;
      case Inactive =>
        silenceCount := silenceCount + 1;
        if silenceCount > SilenceThreshold {
          if |buffer| > 0 {
            utterance := Some(buffer);
            buffer := [];
          }
        }
    }

    /**
     * One iteration of the capture loop (main.go:87-110): serialise and decode
     * the samples, skip the frame if decoding fails, and otherwise step.
     */
    method Capture(c: Captured) returns (utterance: Option<seq<Frame>>)
      requires Valid()
      modifies this
      ensures Valid()
      ensures StepResult(Current(), utterance) == Next(old(Current()), Event(NormalizeAll(c.samples), c.verdict))
    {
      var data, floatArray := CaptureFrame(c.samples);
      match floatArray
      case Failure(_) =>
        utterance := None;
      case Success(frame) =>
        utterance := Step(frame, c.verdict);
    }

    /**
     * The capture loop over a finite stretch of frames: every utterance it hands
     * off, in order.
     */
    method Listen(frames: seq<Captured>) returns (utterances: seq<seq<Frame>>)
      requires Valid()
      modifies this
      ensures Valid()
      ensures RunResult(Current(), utterances) == Run(old(Current()), Events(frames))
    {
      utterances := [];
      ghost var start := Current();
      for i := 0 to |frames|
        invariant Valid()
        invariant RunResult(Current(), utterances) == Run(start, Events(frames)[..i])
      {
        var u := Capture(frames[i]);
        assert Events(frames)[..i + 1][..i] == Events(frames)[..i];
        utterances := utterances + OptionToSeq(u);
      }
      assert Events(frames)[..|frames|] == Events(frames);
    }
  }

  /** The classified frames the segmenter sees for a stretch of captured frames. */
  function Events(frames: seq<Captured>): seq<Event> {
    seq(|frames|, i requires 0 <= i < |frames| => Event(NormalizeAll(frames[i].samples), frames[i].verdict))
  }
}
