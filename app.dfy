/** The window object `VoiceConverterApp` and its worker objects
    `SpeechRecognitionThread` (main.py:11-16, 37-208) as classes whose
    methods update their fields in place, each proved to leave the state
    the matching function of module Controller computes. */
module VoiceConverter {
  import opened LanguageCatalog
  import opened RecognitionWorker
  import opened Controller

  /** A `SpeechRecognitionThread` object: one-shot, replaced after it
      finishes rather than restarted. */
  class RecognitionThread {
    const generation: nat
    var started: bool
    var resultConnected: bool
    var finishedConnected: bool
    var deleteScheduled: bool

    constructor (generation: nat)
      ensures this.generation == generation
      ensures !started && !resultConnected && !finishedConnected && !deleteScheduled
    {
      this.generation := generation;
      started, resultConnected, finishedConnected, deleteScheduled := false, false, false, false;
    }

    function View(): WorkerState
      reads this
    {
      WorkerState(generation, started, resultConnected, finishedConnected)
    }

    /** `start()`: the thread will run `run` once. */
    method Start()
      modifies this`started
      ensures started
    {
      started := true;
    }

    /** `recognition_result.connect(self.translate_and_play)`. */
    method ConnectResult()
      modifies this`resultConnected
      ensures resultConnected
    {
      resultConnected := true;
    }

    /** `finished.connect(self.on_recognition_finished)`. */
    method ConnectFinished()
      modifies this`finishedConnected
      ensures finishedConnected
    {
      finishedConnected := true;
    }

    /** `deleteLater()`: the object is scheduled for deletion. */
    method DeleteLater()
      modifies this`deleteScheduled
      ensures deleteScheduled
    {
      deleteScheduled := true;
    }
  }

  /** The window's state: the recording flag, the start button, the
      dropdown, the stored language, the two labels, the current worker and
      the media player, plus the trace of calls made to collaborators. */
  class App {
    var recording: bool
    var buttonEnabled: bool
    var dropdownText: string
    var selectedLanguage: string
    var spokenText: string
    var translatedText: string
    var worker: RecognitionThread
    var media: Media
    var playing: bool
    ghost var effects: seq<Effect>

    ghost function State(): AppState
      reads this, worker
    {
      AppState(recording, buttonEnabled, dropdownText, selectedLanguage, spokenText, translatedText,
               worker.View(), media, playing, effects)
    }

    /** `init_ui`, the parts that are not presentation (main.py:130, 140-150). */
    constructor ()
      ensures State() == Initial()
      ensures fresh(worker) && !worker.deleteScheduled
    {
      buttonEnabled := true;
      spokenText := "Spoken Text:";
      translatedText := "Translated Text:";
      dropdownText := Names()[0];
      recording := false;
      selectedLanguage := "";
      var w := new RecognitionThread(0);
      w.ConnectResult();
      w.ConnectFinished();
      worker := w;
      media := NoMedia;
      playing := false;
      effects := [];
    }

    /** The user picks `name` from the dropdown; a text that is not one of
        its items leaves the selection as it is. */
    method ChooseLanguage(name: string)
      modifies this`dropdownText
      ensures State() == Step(AsWritten, old(State()), Choose(name))
    {
      if name in Catalog() {
        dropdownText := name;
      }
    }

    /** `start_recording` (main.py:165-174). */
    method StartRecording()
      modifies this, worker
      ensures worker == old(worker) && worker.deleteScheduled == old(worker.deleteScheduled)
      ensures State() == StartStep(old(State()))
    {
      if !recording {
        recording := true;
        buttonEnabled := false;
        spokenText := "";
        translatedText := "";
        selectedLanguage := Lookup(dropdownText);
        if selectedLanguage != "" {
          worker.Start();
          effects := effects + [WorkerStarted(worker.generation)];
        }
      }
    }

    /** `start_recording` corrected: nothing happens unless the dropdown
        shows a language with a code. */
    method StartRecordingChecked()
      modifies this, worker
      ensures worker == old(worker) && worker.deleteScheduled == old(worker.deleteScheduled)
      ensures State() == CheckedStartStep(old(State()))
    {
      if !recording && Lookup(dropdownText) != "" {
        StartRecording();
      }
    }

    /** A click on the start button: a disabled button emits nothing. */
    method Click()
      modifies this, worker
      ensures worker == old(worker) && worker.deleteScheduled == old(worker.deleteScheduled)
      ensures State() == Step(AsWritten, old(State()), Event.Click)
    {
      if buttonEnabled {
        StartRecording();
      }
    }

    /** `translate_and_play(text)` (main.py:176-198); `translation` is what
        the translator returns for `text`. */
    method TranslateAndPlay(text: string, translation: string)
      modifies this`spokenText, this`translatedText, this`media, this`playing, this`effects
      ensures State() == TranslateAndPlayStep(old(State()), text, translation)
    {
      spokenText := "Spoken Text: " + text;
      var lang := selectedLanguage;
      var translated := translation;
      ghost var calls := [Translated(text, lang, translated)];
      translatedText := "Translated Text: " + translated;
      playing := false;
      media := NoMedia;
      calls := calls + [PlayerStopped, MediaSet(NoMedia)];
      calls := calls + [SpeechSaved(translated, lang, AudioFile)];
      media := LocalFile(AudioFile);
      playing := true;
      calls := calls + [MediaSet(media), PlayerStarted];
      effects := effects + calls;
    }

    /** `on_recognition_finished` (main.py:200-208): retire the finished
        thread, install a fresh one wired to the same handlers, and go idle. */
    method OnRecognitionFinished()
      modifies this, worker
      ensures fresh(worker) && !worker.deleteScheduled
      ensures old(worker).deleteScheduled
      ensures State() == FinishStep(old(State()))
    {
      effects := effects + [WorkerRetired(worker.generation)];
      worker.DeleteLater();
      var next := new RecognitionThread(worker.generation + 1);
      next.ConnectResult();
      next.ConnectFinished();
      worker := next;
      recording := false;
      buttonEnabled := true;
    }

    /** The current worker's `run` ends with outcome `o` and its signals are
        delivered in the order it emits them: `recognition_result` for a
        transcript (main.py:29), then `finished`. A worker that was never
        started never runs. */
    method WorkerRuns(o: Outcome, translation: string)
      modifies this, worker
      ensures old(worker.started && worker.finishedConnected) ==>
                fresh(worker) && !worker.deleteScheduled && old(worker).deleteScheduled
      ensures !old(worker.started && worker.finishedConnected) ==>
                worker == old(worker) && worker.deleteScheduled == old(worker.deleteScheduled)
      ensures State() == Step(AsWritten, old(State()), Event.WorkerRuns(o, translation))
    {
      if worker.started {
        var w := worker;
        ghost var before := State();
        DeliverThreadEmits(before, w.View(), o, translation);
        if o.Recognized? && w.resultConnected {
          TranslateAndPlay(o.text, translation);
        }
        if w.finishedConnected {
          OnRecognitionFinished();
        }
      }
    }
  }

  /** A new window whose start button is clicked before any language is
      chosen: the flag is set, the button disabled, no worker started and no
      call made. Clicking again, or calling `start_recording` directly,
      changes nothing at all. */
  method ClickBeforeChoosing()
    returns (recordingAfter: bool, enabledAfter: bool, workerStarted: bool,
             ghost afterFirst: AppState, ghost afterMore: AppState)
    ensures recordingAfter && !enabledAfter && !workerStarted
    ensures afterFirst.recording == recordingAfter && afterFirst.buttonEnabled == enabledAfter
    ensures afterFirst.worker.started == workerStarted && afterFirst.effects == []
    ensures afterFirst.selectedLanguage == ""
    ensures afterMore == afterFirst
  {
    var app := new App();
    app.Click();
    afterFirst := app.State();
    recordingAfter, enabledAfter, workerStarted := app.recording, app.buttonEnabled, app.worker.started;
    app.Click();
    app.StartRecording();
    afterMore := app.State();
  }

  /** One full cycle of a new window: choose a language, click, and the
      worker hears `heard`, which the translator renders as `reply`. The
      labels show both texts, the player holds the overwritten audio file
      and plays it, and the window is idle with a fresh worker. */
  method OneCycle(name: string, heard: string, reply: string)
    returns (spoken: string, translated: string, playerMedia: Media, playing: bool, enabledAfter: bool, freshWorker: bool)
    requires name in Catalog() && name != Sentinel
    ensures spoken == "Spoken Text: " + heard && translated == "Translated Text: " + reply
    ensures playerMedia == LocalFile(AudioFile) && playing
    ensures enabledAfter && freshWorker
  {
    var app := new App();
    app.ChooseLanguage(name);
    ghost var chosen := app.State();
    assert chosen == Step(AsWritten, Initial(), Choose(name));
    assert chosen.dropdownText == name && !chosen.recording;
    StepKeepsInv(AsWritten, Initial(), Choose(name));
    app.Click();
    ghost var started := app.State();
    IdleClickStartsWorker(AsWritten, chosen);
    StepKeepsInv(AsWritten, chosen, Event.Click);
    assert started.worker.started && Inv(started);
    app.WorkerRuns(Recognized(heard), reply);
    WorkerRunCompletesCycle(AsWritten, started, Recognized(heard), reply);
    ghost var done := app.State();
    assert done.spokenText == "Spoken Text: " + heard;
    spoken, translated := app.spokenText, app.translatedText;
    playerMedia, playing := app.media, app.playing;
    enabledAfter := app.buttonEnabled;
    freshWorker := !app.worker.started && app.worker.generation == 1;
  }
}
