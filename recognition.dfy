/**
 * Voice input: the on/off guard around the recognition session, its
 * announcements, and how a recognized utterance lands in the focused box.
 */
module Recognition {
  import opened Feedback

  const StartedAnnouncement: string := "Uzupełnianie głosowe uruchomione"
  const StoppedAnnouncement: string := "Uzupełnianie głosowe zatrzymane"

  /** The fixed vocabulary handed to the recognizer at start-up. */
  const GrammarWords: seq<string> := [
    "Jakub", "Jerzy", "Krzysztof", "Włodzimierz", "Andrzej",
    "Walczak", "Stanik", "Kononowicz", "Kwiatkowski", "Stasiak",
    "Polska", "Niemcy", "Litwa", "Łotwa", "Estonia",
    "1998", "1907", "1932", "1921", "1960",
    "0", "1", "2", "3", "4", "5", "6", "7", "8", "9"]

  /** The two events of the speech toggle. */
  datatype Request = Check | Uncheck

  /**
   * One toggle event: checking while disabled starts the session and
   * announces it, unchecking while enabled stops it and announces that;
   * any other combination leaves the state alone and emits nothing.
   * The resulting state is always the one requested.
   */
  function Toggle(enabled: bool, req: Request): (r: (bool, seq<Event>))
    ensures r.0 == (req == Check)
    ensures r.1 == [] <==> enabled == (req == Check)
  {
    match req
    case Check =>
      if !enabled then (true, [RecognitionStarted, Spoken(StartedAnnouncement)]) else (true, [])
    case Uncheck =>
      if enabled then (false, [RecognitionStopped, Spoken(StoppedAnnouncement)]) else (false, [])
  }

  /** Repeating a toggle event right after itself changes nothing and says nothing. */
  lemma ToggleIdempotent(enabled: bool, req: Request)
    ensures Toggle(Toggle(enabled, req).0, req) == (Toggle(enabled, req).0, [])
  {
  }

  /** The state and the effects after a series of toggle events. */
  function Run(enabled: bool, reqs: seq<Request>): (bool, seq<Event>)
    decreases |reqs|
  {
    if reqs == [] then (enabled, [])
    else
      var step := Toggle(enabled, reqs[0]);
      var rest := Run(step.0, reqs[1..]);
      (rest.0, step.1 + rest.1)
  }

  /**
   * A well-formed trace of the recognition session, starting from state
   * active and ending in state final: the session alternately starts and
   * stops, and each start or stop is followed by exactly its announcement.
   */
  predicate SessionTrace(active: bool, t: seq<Event>, final: bool)
    decreases |t|
  {
    if t == [] then final == active
    else if !active then
      |t| >= 2 && t[0] == RecognitionStarted && t[1] == Spoken(StartedAnnouncement)
      && SessionTrace(true, t[2..], final)
    else
      |t| >= 2 && t[0] == RecognitionStopped && t[1] == Spoken(StoppedAnnouncement)
      && SessionTrace(false, t[2..], final)
  }

  /**
   * Whatever the toggle events, the session is never started twice without
   * a stop in between (nor stopped twice), each transition is announced
   * exactly once, and the final flag says whether the session is running.
   */
  lemma {:induction false} RunIsSessionTrace(enabled: bool, reqs: seq<Request>)
    ensures SessionTrace(enabled, Run(enabled, reqs).1, Run(enabled, reqs).0)
    decreases |reqs|
  {
    if reqs != [] {
      var step := Toggle(enabled, reqs[0]);
      var rest := Run(step.0, reqs[1..]);
      RunIsSessionTrace(step.0, reqs[1..]);
      if step.1 != [] {
        assert (step.1 + rest.1)[2..] == rest.1;
      } else {
        assert step.1 + rest.1 == rest.1;
      }
    }
  }

  /** Text held by a text box with its selection at [start, start + length). */
  predicate SelectionFits(text: string, start: nat, length: nat)
  {
    start + length <= |text|
  }

  /** Assigning to a text box's selected text: the selection is replaced. */
  function ReplaceSelection(text: string, start: nat, length: nat, replacement: string): (r: string)
    requires SelectionFits(text, start, length)
    ensures |r| == |text| - length + |replacement|
    ensures r[..start] == text[..start] && r[start + |replacement|..] == text[start + length..]
    ensures r[start..start + |replacement|] == replacement
  {
    text[..start] + replacement + text[start + length..]
  }

  /** The selected text of a box. */
  function SelectedText(text: string, start: nat, length: nat): string
    requires SelectionFits(text, start, length)
  {
    text[start..start + length]
  }

  /**
   * Appending an utterance to the selected text of a box whose text is
   * pre + sel + post, with sel selected, leaves pre + sel + utterance + post:
   * the utterance goes in right after the selection and nothing is lost.
   */
  lemma DictationInsertsAfterSelection(pre: string, sel: string, post: string, utterance: string)
    ensures SelectionFits(pre + sel + post, |pre|, |sel|)
    ensures SelectedText(pre + sel + post, |pre|, |sel|) == sel
    ensures ReplaceSelection(pre + sel + post, |pre|, |sel|,
              SelectedText(pre + sel + post, |pre|, |sel|) + utterance)
            == pre + sel + utterance + post
  {
  }
}
