# Voice converter: recording controller, language catalog and worker, in Dafny

This project models the core of the Multilingual Voice Transcriber and
Translator window (`main.py`). The window records one utterance on a
background worker thread (`SpeechRecognitionThread`). When a transcript
arrives, it translates it into the language picked in a dropdown,
synthesizes the translation into a fixed audio file and plays that file.
The model covers four parts:

- **The language catalog** (`catalog.dfy`, module `LanguageCatalog`). It is
  the ordered table of 60 (display name, code) pairs behind the dropdown.
  The placeholder "Select Language" maps to the empty code. The lookup
  `language_dict.get(text, "")` returns "" for any text that is not a key.
- **The worker's outcome mapping** (`worker.dfy`, module
  `RecognitionWorker`). The devices and the recognition service are given as
  an abstract `Outcome`. A transcript makes `run` emit one
  `recognition_result`. `UnknownValueError`, `RequestError` and any other
  exception emit nothing. When `run` returns, QThread's `finished` follows.
  `listen` has no timeout, so a run may never return. Then nothing is
  emitted and the window stays recording with its button disabled.
- **The recording controller as a state machine on values**
  (`controller.dfy`, module `Controller`). There is one function per
  handler: `start_recording`, `translate_and_play` and
  `on_recognition_finished`. Events are a dropdown choice, a click and a
  worker run. Calls to the translator, the synthesizer and the media player
  are recorded as a trace of effects. The invariants of reachable states
  and the defect of `start_recording` are proved about these functions.
- **The window and worker objects** (`app.dfy`, module `VoiceConverter`).
  The classes `App` and `RecognitionThread` have the source's fields, and
  their methods update those fields in place. Each method is proved to
  leave exactly the state that the matching `Controller` function computes.
  It is also proved to leave the deletion flag of each thread object as
  the source does: set only on a thread that `on_recognition_finished`
  retires, and clear on every new thread.

Qt delivers the worker's two signals to the window's thread through its
event queue, in the order they were emitted. The model therefore makes
them plain calls in that order. `translate_and_play` returns before
`on_recognition_finished` starts, so in this model the button is only
re-enabled after the playback calls of the cycle have been made.

## Model

| member | source | states |
|---|---|---|
| `LanguageCatalog.ToMap` | main.py:67-129 | the dictionary a literal builds has exactly the listed names as keys, and each key's value is listed beside that name in some entry |
| `LanguageCatalog.LastEntryWins` | main.py:67-129 | a name that no later entry repeats keeps the value listed beside it, as in a Python dict literal |
| `LanguageCatalog.Names` | main.py:130 | the dropdown items are the table's names in table order. The first item is "Select Language", and no item appears twice |
| `LanguageCatalog.BandsWellFormed` | main.py:70-128 | the 59 entries after the placeholder have non-empty, pairwise distinct codes, and none is named "Select Language" |
| `LanguageCatalog.EntriesWellFormed` | main.py:67-129 | the table has 60 entries; "Select Language" is first with code ""; no other entry has that name; every other code is non-empty; all 60 codes are pairwise distinct |
| `LanguageCatalog.EntryNamesDistinct` | main.py:69-128 | no two of the 60 entries share a name, so the dictionary keeps every entry |
| `LanguageCatalog.JoinBands` | main.py:70-128 | two runs of entries with distinct codes in disjoint letter bands join into one run whose codes are still distinct |
| `LanguageCatalog.JoinNames` | main.py:70-128 | two runs with distinct names that share no name join into one run with distinct names |
| `LanguageCatalog.ApartConcat` | main.py:70-128 | two runs that each share no name with a third run make one run that shares no name with it |
| `LanguageCatalog.CatalogFacts` | main.py:67-129 | the keys of `language_dict` are exactly the dropdown items. Each listed name maps to the code listed beside it, and "Select Language" is the only key whose code is "" |
| `LanguageCatalog.Lookup` | main.py:171 | `language_dict.get(text, "")` gives "" iff the text is "Select Language" or not a key; for a listed name it gives the code listed beside it |
| `LanguageCatalog.LookupInjective` | main.py:69-128 | two names with the same non-empty code are the same name |
| `RecognitionWorker.RunEmits` | main.py:18-35 | `run` emits at most one signal. It emits one iff recognition returned a transcript, and that signal is `recognition_result` carrying the transcript |
| `RecognitionWorker.ThreadEmits` | main.py:18-35 | a started thread whose run returns emits exactly one `finished`, and it comes last |
| `RecognitionWorker.AtMostOneResult` | main.py:25-35 | `recognition_result` is emitted at most once, exactly for a transcript, and carries that transcript |
| `Controller.Initial` | main.py:130-150 | the state `init_ui` leaves satisfies the invariant, and its dropdown shows "Select Language" |
| `Controller.StartStep` | main.py:165-174 | models `start_recording` as written; no contract of its own, its properties are stated by `StartRecordingSpec`, `StartKeepsInv` and `SentinelClickSticks` |
| `Controller.CheckedStartStep` | main.py:165-174 | models the corrected `start_recording`, which refuses a click when the lookup gives ""; its properties are stated by `StartKeepsInv` and `CheckedRunStaysLive` |
| `Controller.PlaybackEffects` | main.py:180-197 | the six calls of `translate_and_play`, in source order; their ordering is stated by `AppendPlaybackKeepsSafe` |
| `Controller.TranslateAndPlayStep` | main.py:176-198 | models `translate_and_play`; its properties are stated by `TranslateAndPlayKeepsInv` and `WorkerRunCompletesCycle` |
| `Controller.FinishStep` | main.py:200-208 | models `on_recognition_finished`; its properties are stated by `FinishKeepsInv` and `WorkerRunCompletesCycle` |
| `Controller.Deliver` | main.py:147-148 | delivers a worker's signals in emission order to the connected handlers; stated by `DeliverThreadEmits` |
| `Controller.Step` | main.py:140-208 | one event: a dropdown choice of a catalog name, a click on an enabled button, or the run of a started worker; stated by `StepKeepsInv` |
| `Controller.DeliverThreadEmits` | main.py:147-148 | delivering a worker's signals runs `translate_and_play` (for a transcript, if connected) and then `on_recognition_finished` (if connected) |
| `Controller.AppendPlaybackKeepsSafe` | main.py:187-197 | the calls of one `translate_and_play` keep the trace safe. Every save of the audio file comes right after a stop, a media release and the translation it speaks. The player is pointed at the file only right after a save, and started only right after that |
| `Controller.AppendWorkerEffectKeepsSafe` | main.py:174 | starting or retiring a worker keeps the trace safe |
| `Controller.AppendOtherCallsKeepsStartsOnce` | main.py:174 | calls other than a worker start keep every worker started at most once |
| `Controller.AppendStartKeepsStartsOnce` | main.py:174 | starting a worker not yet started keeps every worker started at most once |
| `Controller.StartKeepsInv` | main.py:165-174 | `start_recording`, as written and corrected, keeps the invariant |
| `Controller.TranslateAndPlayKeepsInv` | main.py:176-198 | `translate_and_play` keeps the invariant |
| `Controller.FinishKeepsInv` | main.py:200-208 | `on_recognition_finished` keeps the invariant |
| `Controller.StepKeepsInv` | main.py:140-208 | every event keeps the invariant: button enabled iff not recording; both signals wired; a started worker implies recording with a non-empty language; each worker started at most once; audio file overwritten, loaded and played only in the safe order |
| `Controller.RunKeepsInv` | main.py:140-208 | any sequence of events keeps the invariant |
| `Controller.ReachableInv` | main.py:140-208 | every state reachable from a new window satisfies the invariant |
| `Controller.StartRecordingSpec` | main.py:165-174 | while recording, `start_recording` changes nothing. From idle it always sets the flag, disables the button, clears both labels and stores the catalog code of the dropdown text. It starts the worker iff that text is a catalog name other than "Select Language" |
| `Controller.IdleClickStartsWorker` | main.py:165-174 | from a reachable idle state with a real language chosen, a click starts the current worker once and stores a non-empty language |
| `Controller.WorkerRunCompletesCycle` | main.py:176-208 | whatever the outcome, the run ends idle with a fresh, unstarted worker of the next generation. Only a transcript causes the translate, save and play calls, all in the stored language; a failure causes no call besides retiring the worker |
| `Controller.CompletionRearms` | main.py:200-208 | after a completed run, a click with a real language chosen starts the new worker |
| `Controller.SentinelClickSticks` | main.py:167-174 | from idle with "Select Language" shown, a click sets the flag and disables the button but starts no worker |
| `Controller.StuckForever` | main.py:165-208 | once stuck, every later event leaves the window stuck: the worker is unchanged, no call is made, and `start_recording` is a no-op |
| `Controller.DefectAtStartup` | main.py:165-174 | the first click on a new window, whose dropdown shows "Select Language", leaves it stuck whatever follows |
| `Controller.CheckedRunStaysLive` | main.py:165-174 | with the corrected `start_recording`, the flag is set only while a started worker exists, after any events |
| `Controller.CheckedNeverStuck` | main.py:165-174 | the corrected window never reaches the stuck state |
| `VoiceConverter.RecognitionThread.constructor` | main.py:14-16 | a new thread is unstarted, unwired and not scheduled for deletion |
| `VoiceConverter.RecognitionThread.Start` | main.py:174 | `start()` marks the thread started |
| `VoiceConverter.RecognitionThread.ConnectResult` | main.py:147 | wires `recognition_result` to the window |
| `VoiceConverter.RecognitionThread.ConnectFinished` | main.py:148 | wires `finished` to the window |
| `VoiceConverter.RecognitionThread.DeleteLater` | main.py:201 | schedules the thread for deletion |
| `VoiceConverter.App.constructor` | main.py:130-150 | a new window is in the initial state, with a fresh wired worker of generation 0 that is not scheduled for deletion |
| `VoiceConverter.App.ChooseLanguage` | main.py:130 | selecting a dropdown item changes only the dropdown text; other text is ignored |
| `VoiceConverter.App.StartRecording` | main.py:165-174 | updates the fields as `StartStep` does, keeping the same worker object and its deletion flag |
| `VoiceConverter.App.StartRecordingChecked` | main.py:165-174 | the corrected handler updates the fields as `CheckedStartStep` does |
| `VoiceConverter.App.Click` | main.py:140 | a click calls `start_recording` only while the button is enabled |
| `VoiceConverter.App.TranslateAndPlay` | main.py:176-198 | sets both labels. It translates into `selected_language`, stops the player and releases its media, saves the speech in that language, then points the player at the file and plays it, in that order |
| `VoiceConverter.App.OnRecognitionFinished` | main.py:200-208 | schedules the old thread for deletion, installs a fresh wired thread of the next generation that is not scheduled for deletion, clears the flag and enables the button |
| `VoiceConverter.App.WorkerRuns` | main.py:18-35 | a started worker's run delivers its signals in order, and its `finished` retires it for a fresh thread; a never-started worker does nothing, and its deletion flag is unchanged |
| `VoiceConverter.ClickBeforeChoosing` | main.py:165-174 | on a new window, clicking before choosing a language leaves it recording, with the button disabled, the stored language "", no worker started and no call made. A second click followed by a direct `start_recording` call leaves the whole state as it was |
| `VoiceConverter.OneCycle` | main.py:165-208 | choose a language, click, and a transcript arrives: the labels show both texts, the player holds and plays the audio file, and the window is idle with a fresh worker |

## Left out

- Widget construction, style sheets, layout, the labels' fonts and the fade-in animation (main.py:44-66, 132-138, 152-163): presentation only. The text of the two labels is modelled.
- Thread scheduling: the worker's run and the delivery of its signals are one sequential step. Concurrency between the worker thread and the window's thread is not modelled.
- The microphone, `listen` and `recognize_google` (main.py:20-27): their result is the `Outcome` given to a worker run.
- A run that never returns: `listen` (main.py:22) is called without a timeout or phrase limit, so it can wait forever. In the model this is an event sequence with no `WorkerRuns` event after the click. The window then stays recording with its button disabled, and `StepKeepsInv` still holds for it. Nothing in the model makes a run end.
- `Translator.translate` (main.py:180-181): its reply is an input of the worker-run event. `gTTS(...).save` (main.py:191-192) is recorded as a call and its output is not modelled.
- Exceptions raised by the translator or by gTTS: nothing in `translate_and_play` catches them. The model takes both calls as returning normally.
- Media player internals and audio output: the player is reduced to its current media and whether `play` was its last command.
- The `print` debugging output (main.py:21-35, 177-198): it does not affect control flow.
- `self.translator` and its `to_lang` (main.py:144, 173): nothing reads them, because `translate_and_play` builds its own `Translator`.
- `QThread.start` on a thread that is already running does nothing in Qt. The model only marks the thread started. No reachable state starts a running thread, because the invariant ties a started worker to the recording flag.
- Object identity of worker threads is modelled as a generation number, counted from the thread `init_ui` builds.
- A "download" of the last translation to a user-chosen file and clipboard copies have no code in main.py and are not part of this model.

## Findings

| source | as written | input that shows it | evidently intended | confidence | as-written member | corrected member |
|---|---|---|---|---|---|---|
| main.py:165-174 | `start_recording` sets `recording` and disables the button before it looks at the language. With code "" it starts no worker. Only the worker's `finished` clears the flag (main.py:148, 200-208), so the window stays disabled for good. | A new window, Start clicked while the dropdown still shows its first item, "Select Language" | With no language chosen, the click changes nothing and the window stays idle | high; not executed | `Controller.DefectAtStartup` | `Controller.CheckedNeverStuck` |
