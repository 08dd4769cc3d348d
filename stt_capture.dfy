/** The voice-command pipeline: record a clip, transcribe it, classify the
    transcript, dispatch on the label, and delete the clip. Microphone,
    Whisper and Gemini are not modelled; the value each service returns, or
    the fact that it raised, is an input. The pipeline's effects are an event
    log and the set of audio files on disk. */
module SttCapture {
  import opened Wrappers
  import opened PyText

  /** `record_audio` defaults, as `listen_and_process` calls it. */
  const AudioFile := "command.wav"
  const Seconds := 10
  const SampleRate := 16000

  /** The labels `handle_command` acts on, and the one returned on failure. */
  const ZoomInLabel := "zoom_in"
  const ReadTextLabel := "read_text"
  const IncreaseVolumeLabel := "increase_volume"
  const HowToLabel := "how_to_do_something"
  const OtherLabel := "other"

  datatype Event =
    | Recorded(file: string, seconds: int, rate: int)
    | TranscriptionRequested(file: string)
    | IntentRequested(text: string)
    | HowtoTriggered(text: string)      // trigger_electron_howto(text)
    | RemovalAttempted(file: string)

  /** The branch `handle_command` takes. */
  datatype Handling = NoTranscription | ZoomIn | ReadText | IncreaseVolume | HowTo | NoBranch

  /** Python's `not text` for an optional string. */
  predicate Falsy(text: Option<string>) {
    text.None? || text.value == []
  }

  /** `transcribe_whisper`: the service's text, or `None` when anything raised. */
  function TranscriptOf(service: Result<string>): (r: Option<string>)
    ensures service.Raised? <==> r.None?
    ensures service.Success? ==> r == Some(service.value)
  {
    match service
    case Success(text) => Some(text)
    case Raised(_) => None
  }

  /** `detect_intent`: the classifier's reply stripped and lowercased, or
      "other" when the call raised. No other coercion takes place. */
  function IntentOf(service: Result<string>): (intent: string)
    ensures service.Raised? ==> intent == OtherLabel
    ensures service.Success? ==> intent == Lower(Strip(service.value))
  {
    match service
    case Success(reply) => Lower(Strip(reply))
    case Raised(_) => OtherLabel
  }

  /** Every label `detect_intent` returns is lowercase and carries no
      surrounding whitespace: normalising it again changes nothing. */
  lemma IntentIsNormal(service: Result<string>)
    ensures IsLower(IntentOf(service))
    ensures Strip(IntentOf(service)) == IntentOf(service)
    ensures Lower(IntentOf(service)) == IntentOf(service)
  {
    if service.Success? {
      var s := Strip(service.value);
      LowerIsLower(s);
      LowerStripCommute(s);
      StripIdempotent(service.value);
    } else {
      AlreadyNormal(OtherLabel);
    }
  }

  /** An unrecognised reply is passed through, not mapped to "other". */
  lemma UnknownLabelPassesThrough()
    ensures IntentOf(Success("open_mail")) == "open_mail"
  {
    AlreadyNormal("open_mail");
  }

  /** `handle_command(text, intent)` */
  function Dispatch(text: Option<string>, intent: string): (h: Handling)
    ensures Falsy(text) <==> h == NoTranscription
    ensures h == HowTo <==> !Falsy(text) && intent == HowToLabel
    ensures h == NoBranch <==>
      !Falsy(text) && intent !in {ZoomInLabel, ReadTextLabel, IncreaseVolumeLabel, HowToLabel}
  {
    if Falsy(text) then NoTranscription
    else if intent == ZoomInLabel then ZoomIn
    else if intent == ReadTextLabel then ReadText
    else if intent == IncreaseVolumeLabel then IncreaseVolume
    else if intent == HowToLabel then HowTo
    else NoBranch
  }

  /** The external effects of a branch: only the how-to branch has one. */
  function EffectsOf(h: Handling, text: Option<string>): (es: seq<Event>)
    ensures |es| <= 1
    ensures es != [] <==> h == HowTo && text.Some?
    ensures es != [] ==> es[0] == HowtoTriggered(text.value)
  {
    if h == HowTo && text.Some? then [HowtoTriggered(text.value)] else []
  }

  /** The events of one run of `listen_and_process`: it always records and
      asks for a transcription first, and goes on exactly when Whisper gave
      a non-empty text. */
  function PipelineTrace(whisper: Result<string>, classifier: Result<string>): (tr: seq<Event>)
    ensures |tr| >= 2 && tr[1] == TranscriptionRequested(AudioFile)
    ensures |tr| == 2 <==> whisper.Raised? || whisper.value == []
  {
    var text := TranscriptOf(whisper);
    [Recorded(AudioFile, Seconds, SampleRate), TranscriptionRequested(AudioFile)] +
    if Falsy(text) then []
    else
      [IntentRequested(text.value)]
      + EffectsOf(Dispatch(text, IntentOf(classifier)), text)
      + [RemovalAttempted(AudioFile)]
  }

  /** Whether the clip is still on disk after a run: it is gone exactly when
      Whisper gave a non-empty text and the removal worked. */
  function ClipKept(whisper: Result<string>, removalFails: bool): (kept: bool)
    ensures !kept <==> whisper.Success? && whisper.value != [] && !removalFails
  {
    Falsy(TranscriptOf(whisper)) || removalFails
  }

  // ---------------------------------------------------------------- properties

  /** No transcript: no classification, no dispatch, and no removal, so the
      clip stays on disk. */
  lemma NoTranscriptStops(whisper: Result<string>, classifier: Result<string>, removalFails: bool)
    requires Falsy(TranscriptOf(whisper))
    ensures PipelineTrace(whisper, classifier) ==
      [Recorded(AudioFile, Seconds, SampleRate), TranscriptionRequested(AudioFile)]
    ensures ClipKept(whisper, removalFails)
  {
  }

  /** With a transcript, the classifier sees it unchanged, removal is the
      last event, and the electron window is triggered exactly when the label
      is the how-to label — once, with the unchanged transcript. */
  lemma TranscriptRuns(whisper: Result<string>, classifier: Result<string>)
    requires !Falsy(TranscriptOf(whisper))
    ensures var tr := PipelineTrace(whisper, classifier);
      && tr[2] == IntentRequested(whisper.value)
      && tr[|tr| - 1] == RemovalAttempted(AudioFile)
      && (IntentOf(classifier) == HowToLabel <==> HowtoTriggered(whisper.value) in tr)
      && |tr| == (if IntentOf(classifier) == HowToLabel then 5 else 4)
  {
    var text := TranscriptOf(whisper);
    var head := [Recorded(AudioFile, Seconds, SampleRate), TranscriptionRequested(AudioFile), IntentRequested(text.value)];
    var es := EffectsOf(Dispatch(text, IntentOf(classifier)), text);
    var tr := PipelineTrace(whisper, classifier);
    TraceWithTranscript(whisper, classifier);
    assert tr == head + es + [RemovalAttempted(AudioFile)];
    if IntentOf(classifier) == HowToLabel {
      assert es == [HowtoTriggered(text.value)];
      assert tr == head + [HowtoTriggered(text.value), RemovalAttempted(AudioFile)];
      assert tr[3] == HowtoTriggered(whisper.value);
    } else {
      assert es == [];
      assert tr == head + [RemovalAttempted(AudioFile)];
      assert forall k :: 0 <= k < |tr| ==> !tr[k].HowtoTriggered?;
    }
  }

  /** The only place a trigger can occur is right after the classification
      request, and it carries the transcript. */
  lemma TriggerPosition(whisper: Result<string>, classifier: Result<string>)
    ensures var tr := PipelineTrace(whisper, classifier);
      forall k :: 0 <= k < |tr| && tr[k].HowtoTriggered? ==> k == 3 && tr[k] == HowtoTriggered(whisper.value)
  {
    var text := TranscriptOf(whisper);
    var tr := PipelineTrace(whisper, classifier);
    var head := [Recorded(AudioFile, Seconds, SampleRate), TranscriptionRequested(AudioFile)];
    if Falsy(text) {
      TriggersOf(tr, head, [], [], "");
    } else {
      var es := EffectsOf(Dispatch(text, IntentOf(classifier)), text);
      TraceWithTranscript(whisper, classifier);
      assert tr == head + [IntentRequested(text.value)] + es + [RemovalAttempted(AudioFile)];
      var rest := [IntentRequested(text.value)] + es + [RemovalAttempted(AudioFile)];
      assert rest[1..|rest| - 1] == es;
      TriggersOf(tr, head, rest, es, text.value);
    }
  }

  /** In a trace made of the two opening events, then nothing or the
      classification request, the effects and the removal, a trigger can
      only be the effect at index 3. */
  lemma TriggersOf(tr: seq<Event>, head: seq<Event>, rest: seq<Event>, es: seq<Event>, t: string)
    requires head == [Recorded(AudioFile, Seconds, SampleRate), TranscriptionRequested(AudioFile)]
    requires tr == head + rest
    requires rest == [] || (|rest| >= 2 && rest[0] == IntentRequested(t)
                            && rest[|rest| - 1] == RemovalAttempted(AudioFile) && rest[1..|rest| - 1] == es)
    requires |es| <= 1 && forall e :: e in es ==> e == HowtoTriggered(t)
    ensures forall k :: 0 <= k < |tr| && tr[k].HowtoTriggered? ==> k == 3 && tr[k] == HowtoTriggered(t)
  {
    forall k | 0 <= k < |tr| && tr[k].HowtoTriggered?
      ensures k == 3 && tr[k] == HowtoTriggered(t)
    {
      assert k >= 2 && tr[k] == rest[k - 2];
      assert 0 < k - 2 < |rest| - 1;
      assert rest[k - 2] == es[k - 3] && es[k - 3] in es;
    }
  }

  /** At most one how-to trigger occurs in a run, and it carries the
      transcript. */
  lemma AtMostOneTrigger(whisper: Result<string>, classifier: Result<string>, i: nat, j: nat)
    requires var tr := PipelineTrace(whisper, classifier);
      i < |tr| && j < |tr| && tr[i].HowtoTriggered? && tr[j].HowtoTriggered?
    ensures i == j
    ensures PipelineTrace(whisper, classifier)[i] == HowtoTriggered(whisper.value)
  {
    TriggerPosition(whisper, classifier);
  }

  /** An unknown label and a failed classification take no branch. */
  lemma UnknownLabelTakesNoBranch(text: string, classifier: Result<string>)
    requires text != []
    requires IntentOf(classifier) !in {ZoomInLabel, ReadTextLabel, IncreaseVolumeLabel, HowToLabel}
    ensures Dispatch(Some(text), IntentOf(classifier)) == NoBranch
    ensures EffectsOf(Dispatch(Some(text), IntentOf(classifier)), Some(text)) == []
  {
  }

  /** A failed classification is "other", which takes no branch. */
  lemma FailedClassificationTakesNoBranch(text: string, message: string)
    requires text != []
    ensures Dispatch(Some(text), IntentOf(Raised(message))) == NoBranch
  {
  }

  /** The trace of a run that has a transcript: the three requests, the
      branch's effects, and the removal. */
  lemma TraceWithTranscript(whisper: Result<string>, classifier: Result<string>)
    requires !Falsy(TranscriptOf(whisper))
    ensures var text := TranscriptOf(whisper);
      PipelineTrace(whisper, classifier) ==
        [Recorded(AudioFile, Seconds, SampleRate), TranscriptionRequested(AudioFile), IntentRequested(text.value)]
        + EffectsOf(Dispatch(text, IntentOf(classifier)), text)
        + [RemovalAttempted(AudioFile)]
  {
    var text := TranscriptOf(whisper);
    var head := [Recorded(AudioFile, Seconds, SampleRate), TranscriptionRequested(AudioFile)];
    var ask := [IntentRequested(text.value)];
    var es := EffectsOf(Dispatch(text, IntentOf(classifier)), text);
    var rm := [RemovalAttempted(AudioFile)];
    assert PipelineTrace(whisper, classifier) == head + (ask + es + rm);
    ConcatAssoc(ask, es, rm);
    ConcatAssoc(head, ask, es + rm);
    ConcatAssoc(head + ask, es, rm);
    assert head + ask == [Recorded(AudioFile, Seconds, SampleRate), TranscriptionRequested(AudioFile), IntentRequested(text.value)];
  }

  // ---------------------------------------------------------------- pipeline

  class SpeechPipeline {
    /** The audio files on disk. */
    var files: set<string>
    /** Requests made and effects caused, oldest first. */
    var log: seq<Event>

    constructor ()
      ensures files == {} && log == []
    {
      files := {};
      log := [];
    }

    /** `record_audio(duration=10)` */
    method RecordAudio() returns (filename: string)
      modifies this
      ensures filename == AudioFile
      ensures files == old(files) + {AudioFile}
      ensures log == old(log) + [Recorded(AudioFile, Seconds, SampleRate)]
    {
      filename := AudioFile;
      files := files + {filename};
      log := log + [Recorded(filename, Seconds, SampleRate)];
    }

    /** `transcribe_whisper(path)` */
    method TranscribeWhisper(path: string, service: Result<string>) returns (text: Option<string>)
      modifies this
      ensures text == TranscriptOf(service)
      ensures files == old(files) && log == old(log) + [TranscriptionRequested(path)]
    {
      log := log + [TranscriptionRequested(path)];
      match service {
        case Success(t) => text := Some(t);
        case Raised(_) => text := None;
      }
    }

    /** `detect_intent(text)` */
    method DetectIntent(text: string, service: Result<string>) returns (intent: string)
      modifies this
      ensures intent == IntentOf(service)
      ensures files == old(files) && log == old(log) + [IntentRequested(text)]
    {
      log := log + [IntentRequested(text)];
      match service {
        case Success(reply) => intent := Lower(Strip(reply));
        case Raised(_) => intent := OtherLabel;
      }
    }

    /** `handle_command(text, intent)` */
    method HandleCommand(text: Option<string>, intent: string) returns (h: Handling)
      modifies this
      ensures h == Dispatch(text, intent)
      ensures files == old(files) && log == old(log) + EffectsOf(h, text)
    {
      if Falsy(text) {
        return NoTranscription;
      }
      if intent == ZoomInLabel {
        h := ZoomIn;
      } else if intent == ReadTextLabel {
        h := ReadText;
      } else if intent == IncreaseVolumeLabel {
        h := IncreaseVolume;
      } else if intent == HowToLabel {
        h := HowTo;
        log := log + [HowtoTriggered(text.value)];
      } else {
        h := NoBranch;
      }
    }

    /** `listen_and_process()`; a failing removal is swallowed. */
    method ListenAndProcess(whisper: Result<string>, classifier: Result<string>, removalFails: bool)
      modifies this
      ensures log == old(log) + PipelineTrace(whisper, classifier)
      ensures files == (if ClipKept(whisper, removalFails) then old(files) + {AudioFile}
                        else old(files) - {AudioFile})
    {
      ghost var start := log;
      var audioFile := RecordAudio();
      var commandText := TranscribeWhisper(audioFile, whisper);
      ghost var requested := [Recorded(AudioFile, Seconds, SampleRate), TranscriptionRequested(AudioFile)];
      assert log == start + requested;
      if Falsy(commandText) {
        NoTranscriptStops(whisper, classifier, removalFails);
        return;
      }
      var intent := DetectIntent(commandText.value, classifier);
      ghost var head := requested + [IntentRequested(commandText.value)];
      assert log == start + head by {
        ConcatAssoc(start, requested, [IntentRequested(commandText.value)]);
      }
      var handled := HandleCommand(commandText, intent);
      ghost var es := EffectsOf(handled, commandText);
      log := log + [RemovalAttempted(audioFile)];
      ghost var rm := [RemovalAttempted(AudioFile)];
      assert log == ((start + head) + es) + rm;
      assert log == start + PipelineTrace(whisper, classifier) by {
        ConcatAssoc(start + head, es, rm);
        ConcatAssoc(start, head, es + rm);
        ConcatAssoc(head, es, rm);
        TraceWithTranscript(whisper, classifier);
        assert head == [Recorded(AudioFile, Seconds, SampleRate), TranscriptionRequested(AudioFile), IntentRequested(commandText.value)];
      }
      if !removalFails {
        files := files - {audioFile};
      }
    }
  }
}
