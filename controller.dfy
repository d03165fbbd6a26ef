/** The recording controller of `VoiceConverterApp` (main.py:140-208) as a
    state machine over values: the state of the window that the handlers
    read and write, one function per handler, and the events a user and the
    worker thread can cause. The class in app.dfy is proved to follow these
    functions; the properties of the window are proved here about them.

    Qt delivers the worker's signals to the window's thread in the order the
    worker emits them; here a delivery is a call made in that order. The
    translator, the speech synthesizer and the player's audio output are not
    modelled: each call to them is recorded as an `Effect` in a trace, with
    the reply of the translator given as an input of the event. */
module Controller {
  import opened LanguageCatalog
  import opened RecognitionWorker

  /** The fixed file every cycle overwrites and plays (main.py:192, 196). */
  const AudioFile: string := "translated_audio.mp3"

  /** What the media player is pointed at. */
  datatype Media = NoMedia | LocalFile(path: string)

  /** Calls the window makes to collaborators outside the model. */
  datatype Effect =
    | WorkerStarted(generation: nat)                       // recognition_thread.start()
    | WorkerRetired(generation: nat)                       // recognition_thread.deleteLater()
    | Translated(text: string, lang: string, result: string)  // Translator(to_lang=lang).translate(text)
    | PlayerStopped                                        // player.stop()
    | MediaSet(media: Media)                               // player.setMedia(...)
    | SpeechSaved(text: string, lang: string, path: string)   // gTTS(text, lang=lang).save(path)
    | PlayerStarted                                        // player.play()

  /** The worker handle the window holds: which thread object it is (its
      generation, counted from the one built by `init_ui`), whether `start`
      has been called on it, and whether its two signals are connected to
      the window's handlers. */
  datatype WorkerState = WorkerState(generation: nat, started: bool, resultConnected: bool, finishedConnected: bool)

  /** The window's state that the handlers read and write. */
  datatype AppState = AppState(
    recording: bool,           // self.recording
    buttonEnabled: bool,       // start_button enabled
    dropdownText: string,      // language_dropdown.currentText()
    selectedLanguage: string,  // self.selected_language
    spokenText: string,        // spoken_label text
    translatedText: string,    // translated_label text
    worker: WorkerState,       // self.recognition_thread
    media: Media,              // the player's current media
    playing: bool,             // whether play() was the player's last command
    effects: seq<Effect>)      // the calls made so far, oldest first

  /** A new `SpeechRecognitionThread` wired to `translate_and_play` and
      `on_recognition_finished`, not yet started (main.py:146-148, 203-205). */
  function FreshWorker(generation: nat): WorkerState
  {
    WorkerState(generation, false, true, true)
  }

  /** The state `init_ui` leaves (main.py:130-150): idle, the button enabled,
      the dropdown on its first item, an unstarted worker of generation 0. It
      satisfies the invariant, and its dropdown shows "Select Language". */
  function Initial(): (s: AppState)
    ensures Inv(s)
    ensures s.dropdownText == Sentinel
  {
    AppState(false, true, Names()[0], "", "Spoken Text:", "Translated Text:", FreshWorker(0), NoMedia, false, [])
  }

  // ---------------------------------------------------------------------
  // The handlers

  /** `start_recording` as written (main.py:165-174). */
  function StartStep(s: AppState): AppState
  {
    if s.recording then s
    else
      var code := Lookup(s.dropdownText);
      var s' := s.(recording := true, buttonEnabled := false, spokenText := "", translatedText := "",
                   selectedLanguage := code);
      if code != "" then
        s'.(worker := s.worker.(started := true), effects := s.effects + [WorkerStarted(s.worker.generation)])
      else s'
  }

  /** `start_recording` corrected: with no language chosen the click is
      refused and nothing changes, so the flag is never set without a
      worker that will clear it. */
  function CheckedStartStep(s: AppState): AppState
  {
    if s.recording || Lookup(s.dropdownText) == "" then s
    else StartStep(s)
  }

  /** The calls `translate_and_play` makes for one transcript, in order
      (main.py:180-197). */
  function PlaybackEffects(text: string, lang: string, result: string): seq<Effect>
  {
    [Translated(text, lang, result), PlayerStopped, MediaSet(NoMedia),
     SpeechSaved(result, lang, AudioFile), MediaSet(LocalFile(AudioFile)), PlayerStarted]
  }

  /** `translate_and_play(text)` (main.py:176-198), `result` being the
      translator's reply. */
  function TranslateAndPlayStep(s: AppState, text: string, result: string): AppState
  {
    s.(spokenText := "Spoken Text: " + text, translatedText := "Translated Text: " + result,
       media := LocalFile(AudioFile), playing := true,
       effects := s.effects + PlaybackEffects(text, s.selectedLanguage, result))
  }

  /** `on_recognition_finished` (main.py:200-208). */
  function FinishStep(s: AppState): AppState
  {
    s.(worker := FreshWorker(s.worker.generation + 1), recording := false, buttonEnabled := true,
       effects := s.effects + [WorkerRetired(s.worker.generation)])
  }

  /** Delivers the signals of worker `w`, in order, to the handlers they are
      connected to. */
  function Deliver(s: AppState, w: WorkerState, signals: seq<Signal>, result: string): AppState
    decreases |signals|
  {
    if signals == [] then s
    else
      var next := match signals[0]
        case RecognitionResult(text) => if w.resultConnected then TranslateAndPlayStep(s, text, result) else s
        case Finished => if w.finishedConnected then FinishStep(s) else s;
      Deliver(next, w, signals[1..], result)
  }

  /** What a started worker's signals do once delivered: `translate_and_play`
      runs for a transcript if that signal is connected, then
      `on_recognition_finished` runs if `finished` is connected. */
  lemma DeliverThreadEmits(s: AppState, w: WorkerState, o: Outcome, t: string)
    ensures
      var mid := if o.Recognized? && w.resultConnected then TranslateAndPlayStep(s, o.text, t) else s;
      Deliver(s, w, ThreadEmits(o), t) == if w.finishedConnected then FinishStep(mid) else mid
  {
    if o.Recognized? {
      assert ThreadEmits(o) == [RecognitionResult(o.text), Finished];
      var mid := if w.resultConnected then TranslateAndPlayStep(s, o.text, t) else s;
      assert Deliver(s, w, ThreadEmits(o), t) == Deliver(mid, w, [Finished], t);
    } else {
      assert ThreadEmits(o) == [Finished];
    }
  }

  // ---------------------------------------------------------------------
  // Events

  /** What can happen to the window: the user picks a dropdown item, the
      user clicks the start button, or the started worker's run ends with an
      outcome (and, for a transcript, the translator replies `translation`). */
  datatype Event = Choose(name: string) | Click | WorkerRuns(outcome: Outcome, translation: string)

  /** Which `start_recording` the button is connected to. */
  datatype Variant = AsWritten | Checked

  function Step(v: Variant, s: AppState, e: Event): AppState
  {
    match e
    // the dropdown offers only the catalog's names
    case Choose(name) => if name in Catalog() then s.(dropdownText := name) else s
    // a disabled button emits no `clicked`
    case Click =>
      if !s.buttonEnabled then s
      else if v == AsWritten then StartStep(s)
      else CheckedStartStep(s)
    // a thread that was never started never runs
    case WorkerRuns(o, t) => if s.worker.started then Deliver(s, s.worker, ThreadEmits(o), t) else s
  }

  function Run(v: Variant, s: AppState, events: seq<Event>): AppState
    decreases |events|
  {
    if events == [] then s else Run(v, Step(v, s, events[0]), events[1..])
  }

  // ---------------------------------------------------------------------
  // Invariants

  /** Each worker is started at most once: the generations in the trace's
      `WorkerStarted` effects strictly increase, and none is newer than the
      current worker (nor equal to it unless it has been started). */
  ghost predicate StartsOnce(effects: seq<Effect>, w: WorkerState)
  {
    && (forall k :: 0 <= k < |effects| && effects[k].WorkerStarted? ==>
          effects[k].generation < w.generation || (effects[k].generation == w.generation && w.started))
    && (forall i, j :: 0 <= i < j < |effects| && effects[i].WorkerStarted? && effects[j].WorkerStarted? ==>
          effects[i].generation < effects[j].generation)
  }

  /** The audio file is only overwritten with the player stopped and its
      media released, right after the translation it speaks and in the same
      language; the player is pointed at the file only right after a save,
      and started only right after it has been pointed at the file. */
  ghost predicate SafeOverwrites(effects: seq<Effect>)
  {
    && (forall k :: 0 <= k < |effects| && effects[k].SpeechSaved? ==>
          && 3 <= k
          && effects[k - 1] == MediaSet(NoMedia)
          && effects[k - 2] == PlayerStopped
          && effects[k - 3].Translated?
          && effects[k - 3].result == effects[k].text
          && effects[k - 3].lang == effects[k].lang)
    && (forall k :: 0 <= k < |effects| && effects[k] == MediaSet(LocalFile(AudioFile)) ==>
          1 <= k && effects[k - 1].SpeechSaved? && effects[k - 1].path == AudioFile)
    && (forall k :: 0 <= k < |effects| && effects[k] == PlayerStarted ==>
          1 <= k && effects[k - 1] == MediaSet(LocalFile(AudioFile)))
  }

  /** What every reachable state satisfies. */
  ghost predicate Inv(s: AppState)
  {
    && s.buttonEnabled == !s.recording
    && s.worker.resultConnected && s.worker.finishedConnected
    && (s.worker.started ==> s.recording && s.selectedLanguage != "")
    && StartsOnce(s.effects, s.worker)
    && SafeOverwrites(s.effects)
  }

  /** The state the as-written `start_recording` can leave behind: recording,
      button disabled, and no worker running that could ever clear the flag. */
  ghost predicate Stuck(s: AppState)
  {
    s.recording && !s.buttonEnabled && !s.worker.started
  }

  lemma AppendPlaybackKeepsSafe(effects: seq<Effect>, text: string, lang: string, result: string)
    requires SafeOverwrites(effects)
    ensures SafeOverwrites(effects + PlaybackEffects(text, lang, result))
  {
    var t := effects + PlaybackEffects(text, lang, result);
    var n := |effects|;
    forall k | 0 <= k < |t| && t[k].SpeechSaved?
      ensures 3 <= k && t[k - 1] == MediaSet(NoMedia) && t[k - 2] == PlayerStopped
      ensures t[k - 3].Translated? && t[k - 3].result == t[k].text && t[k - 3].lang == t[k].lang
    {
      if k < n {
        assert t[k] == effects[k];
      } else {
        assert k == n + 3;
      }
    }
    forall k | 0 <= k < |t| && t[k] == MediaSet(LocalFile(AudioFile))
      ensures 1 <= k && t[k - 1].SpeechSaved? && t[k - 1].path == AudioFile
    {
      if k < n {
        assert t[k] == effects[k];
      } else {
        assert k == n + 4;
      }
    }
    forall k | 0 <= k < |t| && t[k] == PlayerStarted
      ensures 1 <= k && t[k - 1] == MediaSet(LocalFile(AudioFile))
    {
      if k < n {
        assert t[k] == effects[k];
      } else {
        assert k == n + 5;
      }
    }
  }

  lemma AppendWorkerEffectKeepsSafe(effects: seq<Effect>, e: Effect)
    requires SafeOverwrites(effects)
    requires e.WorkerStarted? || e.WorkerRetired?
    ensures SafeOverwrites(effects + [e])
  {
    var t := effects + [e];
    var n := |effects|;
    forall k | 0 <= k < |t| && t[k].SpeechSaved?
      ensures 3 <= k && t[k - 1] == MediaSet(NoMedia) && t[k - 2] == PlayerStopped
      ensures t[k - 3].Translated? && t[k - 3].result == t[k].text && t[k - 3].lang == t[k].lang
    {
      assert k < n && t[k] == effects[k];
    }
    forall k | 0 <= k < |t| && t[k] == MediaSet(LocalFile(AudioFile))
      ensures 1 <= k && t[k - 1].SpeechSaved? && t[k - 1].path == AudioFile
    {
      assert k < n && t[k] == effects[k];
    }
    forall k | 0 <= k < |t| && t[k] == PlayerStarted
      ensures 1 <= k && t[k - 1] == MediaSet(LocalFile(AudioFile))
    {
      assert k < n && t[k] == effects[k];
    }
  }

  /** Calls other than starting a worker keep `StartsOnce`, for the same
      worker or for a newer one. */
  lemma AppendOtherCallsKeepsStartsOnce(effects: seq<Effect>, extra: seq<Effect>, w: WorkerState, w': WorkerState)
    requires StartsOnce(effects, w)
    requires forall k :: 0 <= k < |extra| ==> !extra[k].WorkerStarted?
    requires w' == w || w.generation < w'.generation
    ensures StartsOnce(effects + extra, w')
  {
    var t := effects + extra;
    var n := |effects|;
    forall k | 0 <= k < |t| && t[k].WorkerStarted?
      ensures t[k].generation < w'.generation || (t[k].generation == w'.generation && w'.started)
    {
      if k < n {
        assert t[k] == effects[k];
      } else {
        assert false;
      }
    }
    forall i, j | 0 <= i < j < |t| && t[i].WorkerStarted? && t[j].WorkerStarted?
      ensures t[i].generation < t[j].generation
    {
      if j < n {
        assert t[i] == effects[i] && t[j] == effects[j];
      } else {
        assert false;
      }
    }
  }

  /** Each handler keeps the invariant. */
  lemma TranslateAndPlayKeepsInv(s: AppState, text: string, result: string)
    requires Inv(s)
    ensures Inv(TranslateAndPlayStep(s, text, result))
  {
    var calls := PlaybackEffects(text, s.selectedLanguage, result);
    AppendPlaybackKeepsSafe(s.effects, text, s.selectedLanguage, result);
    AppendOtherCallsKeepsStartsOnce(s.effects, calls, s.worker, s.worker);
  }

  lemma FinishKeepsInv(s: AppState)
    requires Inv(s)
    ensures Inv(FinishStep(s))
  {
    AppendWorkerEffectKeepsSafe(s.effects, WorkerRetired(s.worker.generation));
    AppendOtherCallsKeepsStartsOnce(s.effects, [WorkerRetired(s.worker.generation)], s.worker,
                                    FreshWorker(s.worker.generation + 1));
  }

  /** Starting a worker that has not been started keeps every worker
      started at most once. */
  lemma AppendStartKeepsStartsOnce(effects: seq<Effect>, w: WorkerState)
    requires StartsOnce(effects, w) && !w.started
    ensures StartsOnce(effects + [WorkerStarted(w.generation)], w.(started := true))
  {
    var t := effects + [WorkerStarted(w.generation)];
    assert forall k :: 0 <= k < |effects| ==> t[k] == effects[k];
    assert t[|effects|] == WorkerStarted(w.generation);
  }

  lemma StartKeepsInv(s: AppState)
    requires Inv(s)
    ensures Inv(StartStep(s)) && Inv(CheckedStartStep(s))
  {
    if !s.recording && Lookup(s.dropdownText) != "" {
      AppendWorkerEffectKeepsSafe(s.effects, WorkerStarted(s.worker.generation));
      AppendStartKeepsStartsOnce(s.effects, s.worker);
    }
  }

  /** Every event keeps the invariant, in both variants. */
  lemma StepKeepsInv(v: Variant, s: AppState, e: Event)
    requires Inv(s)
    ensures Inv(Step(v, s, e))
  {
    match e
    case Choose(_) =>
    case Click => StartKeepsInv(s);
    case WorkerRuns(o, t) =>
      if s.worker.started {
        DeliverThreadEmits(s, s.worker, o, t);
        var mid := if o.Recognized? then TranslateAndPlayStep(s, o.text, t) else s;
        if o.Recognized? {
          TranslateAndPlayKeepsInv(s, o.text, t);
        }
        FinishKeepsInv(mid);
      }
  }

  /** Every reachable state satisfies the invariant. */
  lemma {:induction false} RunKeepsInv(v: Variant, s: AppState, events: seq<Event>)
    requires Inv(s)
    ensures Inv(Run(v, s, events))
    decreases |events|
  {
    if events != [] {
      StepKeepsInv(v, s, events[0]);
      RunKeepsInv(v, Step(v, s, events[0]), events[1..]);
    }
  }

  lemma ReachableInv(v: Variant, events: seq<Event>)
    ensures Inv(Run(v, Initial(), events))
  {
    RunKeepsInv(v, Initial(), events);
  }

  // ---------------------------------------------------------------------
  // start_recording

  /** While a recording is in flight, `start_recording` changes nothing. From
      idle it always sets the flag, disables the button, clears both labels
      and stores the catalog code of the dropdown text ("" for the sentinel
      or an unknown text); it starts the current worker, once, exactly when
      that text is a catalog name other than the sentinel. */
  lemma StartRecordingSpec(s: AppState)
    ensures s.recording ==> StartStep(s) == s
    ensures !s.recording ==>
      var r := StartStep(s);
      && r.recording && !r.buttonEnabled
      && r.spokenText == "" && r.translatedText == ""
      && r.selectedLanguage == Lookup(s.dropdownText)
      && r.worker.generation == s.worker.generation
      && (r.worker.started <==> s.worker.started || (s.dropdownText in Catalog() && s.dropdownText != Sentinel))
      && r.effects == (if Lookup(s.dropdownText) != "" then s.effects + [WorkerStarted(s.worker.generation)]
                       else s.effects)
      && r.dropdownText == s.dropdownText && r.media == s.media && r.playing == s.playing
  {
  }

  /** From a reachable idle state with a real language chosen, a click
      begins a cycle: the worker is started and the language stored. */
  lemma IdleClickStartsWorker(v: Variant, s: AppState)
    requires Inv(s) && !s.recording
    requires s.dropdownText in Catalog() && s.dropdownText != Sentinel
    ensures Step(v, s, Click).recording && !Step(v, s, Click).buttonEnabled
    ensures Step(v, s, Click).worker == s.worker.(started := true)
    ensures Step(v, s, Click).selectedLanguage == Lookup(s.dropdownText) != ""
    ensures Step(v, s, Click).effects == s.effects + [WorkerStarted(s.worker.generation)]
  {
  }

  // ---------------------------------------------------------------------
  // The end of a worker's run

  /** When the started worker's run ends, whatever its outcome, the window is
      idle again with a fresh, unstarted worker of the next generation. Only
      a transcript leads to the translate-and-play calls, made with the
      language stored at the start of the cycle; every failure makes no call
      besides retiring the worker. */
  lemma WorkerRunCompletesCycle(v: Variant, s: AppState, o: Outcome, t: string)
    requires Inv(s) && s.worker.started
    ensures
      var r := Step(v, s, WorkerRuns(o, t));
      && !r.recording && r.buttonEnabled
      && r.worker == FreshWorker(s.worker.generation + 1)
      && r.selectedLanguage == s.selectedLanguage
      && r.effects == s.effects
           + (if o.Recognized? then PlaybackEffects(o.text, s.selectedLanguage, t) else [])
           + [WorkerRetired(s.worker.generation)]
      && r.dropdownText == s.dropdownText
      && (o.Recognized? ==> r.media == LocalFile(AudioFile) && r.playing
                            && r.spokenText == "Spoken Text: " + o.text
                            && r.translatedText == "Translated Text: " + t)
      && (!o.Recognized? ==> r.media == s.media && r.playing == s.playing
                             && r.spokenText == s.spokenText && r.translatedText == s.translatedText)
  {
    DeliverThreadEmits(s, s.worker, o, t);
    var mid := if o.Recognized? then TranslateAndPlayStep(s, o.text, t) else s;
    assert Step(v, s, WorkerRuns(o, t)) == FinishStep(mid);
  }

  /** A cycle can always be begun again: after a run completes, a click with
      a real language chosen starts the new worker. */
  lemma CompletionRearms(v: Variant, s: AppState, o: Outcome, t: string, name: string)
    requires Inv(s) && s.worker.started
    requires name in Catalog() && name != Sentinel
    ensures
      var idle := Step(v, Step(v, s, WorkerRuns(o, t)), Choose(name));
      && Step(v, idle, Click).recording
      && Step(v, idle, Click).worker == FreshWorker(s.worker.generation + 1).(started := true)
  {
    WorkerRunCompletesCycle(v, s, o, t);
    var done := Step(v, s, WorkerRuns(o, t));
    StepKeepsInv(v, s, WorkerRuns(o, t));
    StepKeepsInv(v, done, Choose(name));
    IdleClickStartsWorker(v, Step(v, done, Choose(name)));
  }

  // ---------------------------------------------------------------------
  // The defect of the as-written start_recording, and its correction

  /** From a reachable idle state whose dropdown shows the sentinel, a click
      sets the flag and disables the button but starts no worker. */
  lemma SentinelClickSticks(s: AppState)
    requires Inv(s) && !s.recording && s.dropdownText == Sentinel
    ensures Stuck(Step(AsWritten, s, Click))
  {
  }

  /** Once stuck, the as-written window stays stuck whatever happens: the
      button emits nothing, no worker runs, so `on_recognition_finished` is
      never called, and every later `start_recording` is a no-op. */
  lemma {:induction false} StuckForever(s: AppState, events: seq<Event>)
    requires Stuck(s)
    ensures Stuck(Run(AsWritten, s, events))
    ensures StartStep(Run(AsWritten, s, events)) == Run(AsWritten, s, events)
    ensures Run(AsWritten, s, events).worker == s.worker
    ensures Run(AsWritten, s, events).effects == s.effects
    decreases |events|
  {
    if events != [] {
      StuckForever(Step(AsWritten, s, events[0]), events[1..]);
    }
  }

  /** The dropdown starts on "Select Language", so the very first click of a
      new window wedges it for good. */
  lemma DefectAtStartup(events: seq<Event>)
    ensures Stuck(Run(AsWritten, Initial(), [Click] + events))
  {
    SentinelClickSticks(Initial());
    var wedged := Step(AsWritten, Initial(), Click);
    assert Run(AsWritten, Initial(), [Click] + events) == Run(AsWritten, wedged, events) by {
      assert ([Click] + events)[1..] == events;
    }
    StuckForever(wedged, events);
  }

  /** With the corrected handler, the flag is set only while a started worker
      is running, so every recording is ended by that worker's run. */
  ghost predicate Live(s: AppState)
  {
    s.recording ==> s.worker.started
  }

  lemma {:induction false} CheckedRunStaysLive(s: AppState, events: seq<Event>)
    requires Inv(s) && Live(s)
    ensures Live(Run(Checked, s, events))
    decreases |events|
  {
    if events != [] {
      var e := events[0];
      StepKeepsInv(Checked, s, e);
      match e {
        case Choose(_) =>
        case Click =>
        case WorkerRuns(o, t) =>
          if s.worker.started {
            WorkerRunCompletesCycle(Checked, s, o, t);
          }
      }
      CheckedRunStaysLive(Step(Checked, s, e), events[1..]);
    }
  }

  /** The corrected window never reaches the stuck state. */
  lemma CheckedNeverStuck(events: seq<Event>)
    ensures !Stuck(Run(Checked, Initial(), events))
  {
    CheckedRunStaysLive(Initial(), events);
  }
}
