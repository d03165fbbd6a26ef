/** The capture-and-recognize worker, `SpeechRecognitionThread`
    (main.py:11-35). Its `run` opens the microphone, listens for one
    utterance and asks the recognition service for a transcript; the
    microphone, the listener and the service are not part of this model, and
    what they produce is given as an `Outcome`. The signals the thread emits
    are the only channel from the worker to the window. */
module RecognitionWorker {

  /** What the devices and the recognition service deliver to one run. */
  datatype Outcome =
    | Recognized(text: string)        // recognize_google returned a transcript
    | UnknownValue                    // sr.UnknownValueError: no speech understood
    | RequestError(reason: string)    // sr.RequestError: the service could not be reached
    | OtherException(reason: string)  // anything else, raised while capturing or recognizing

  /** The thread's two signals: `recognition_result(str)` (main.py:12) and
      QThread's own `finished`, which follows the return of `run`. */
  datatype Signal = RecognitionResult(text: string) | Finished

  /** The signals the body of `run` emits for an outcome (main.py:18-35):
      only a transcript is emitted; the three failure branches print a
      message and emit nothing. */
  function RunEmits(o: Outcome): (signals: seq<Signal>)
    ensures |signals| <= 1
    ensures signals != [] <==> o.Recognized?
    ensures forall s :: s in signals ==> o.Recognized? && s == RecognitionResult(o.text)
  {
    match o
    case Recognized(text) => [RecognitionResult(text)]
    case UnknownValue => []
    case RequestError(_) => []
    case OtherException(_) => []
  }

  /** Everything one started thread emits, in order: what `run` emits, then
      `finished` once `run` has returned. A run that returns, whatever its
      outcome, is followed by exactly one `finished`, and nothing comes after
      it. */
  function ThreadEmits(o: Outcome): (signals: seq<Signal>)
    ensures |signals| > 0 && signals[|signals| - 1] == Finished
    ensures forall i :: 0 <= i < |signals| - 1 ==> signals[i] != Finished
  {
    RunEmits(o) + [Finished]
  }

  /** How many `recognition_result` emissions a signal sequence holds. */
  function ResultCount(signals: seq<Signal>): nat
  {
    if signals == [] then 0
    else ResultCount(signals[..|signals| - 1]) + (if signals[|signals| - 1].RecognitionResult? then 1 else 0)
  }

  /** A run emits `recognition_result` at most once, exactly when the
      recognition succeeded, and then with the recognized text. */
  lemma {:induction false} AtMostOneResult(o: Outcome)
    ensures ResultCount(ThreadEmits(o)) <= 1
    ensures ResultCount(ThreadEmits(o)) == 1 <==> o.Recognized?
    ensures forall s :: s in ThreadEmits(o) && s.RecognitionResult? ==> o.Recognized? && s.text == o.text
  {
    var signals := ThreadEmits(o);
    assert signals[..|signals| - 1] == RunEmits(o);
    if o.Recognized? {
      assert RunEmits(o)[..0] == [];
      assert ResultCount(RunEmits(o)) == 1;
    } else {
      assert RunEmits(o) == [];
    }
  }
}
