# Registration form with voice input — a verified model

The system is a desktop registration form with five text boxes: first name,
last name, birth year, country and phone number. Pressing **Zapisz** (Save)
checks which boxes are blank. If any are, the form speaks a Polish request
to fill them in ("Uzupełnij pole: …" for one box, "Uzupełnij pola: …, …"
for several) and paints those boxes red. If none are, it speaks a five-line
summary of the form and shows it in a dialog captioned "Zapisano".
**Wyczyść** (Clear) empties every box and removes the red backgrounds. A
toggle starts and stops voice dictation, announcing each change. Every
recognized utterance is added to the focused text box, right after its
selection.

The model is in six modules, one per concern of `MainWindow.xaml.cs`:

- `Wrappers` (`wrappers.dfy`): an `Option` type.
- `Fields` (`fields.dfy`): the five boxes, their labels (Imię, Nazwisko, Rok
  urodzenia, Kraj, Numer telefonu), the label-to-box dispatch of
  `HighlightField`, and `FormData`, a snapshot of the five texts.
- `Validation` (`validation.dfy`): `string.IsNullOrWhiteSpace`, with the
  white-space characters of `char.IsWhiteSpace` written out, and the
  validator's report as a function `UnfilledLabels`.
- `Feedback` (`feedback.dfy`): the output events that stand in for the speech
  engines and the message box, `string.Join(", ", …)`, the fill-in
  message, the summary, and the events the Save button produces.
- `Recognition` (`recognition.dfy`): the on/off guard of the speech toggle as
  a transition function, the trace invariant it keeps, and the effect of
  `SelectedText += text` on a text box.
- `MainWindow` (`mainwindow.dfy`): class `RegistrationForm`. It holds the five
  texts, the five highlight flags, `isSpeechRecognitionEnabled`, the focused
  box with its selection, and an append-only `log` of events. It has one
  method per handler or helper of the window, and each method's
  postcondition ties the new state to the functions above.

The window's audio and dialog output is the `log` field. Each entry is one of
`RecognitionStarted`, `RecognitionStopped`, `Spoken(text)` or
`MessageBoxShown(text, caption)`, in call order.

The source implements only the itemized feedback: each blank box is named
and marked. It has no variant with one generic "fill in all fields" message,
so the model has none either.

## Model

| member | source | states |
|---|---|---|
| `Fields.FieldOfLabel` | MainWindow.xaml.cs:147-167 | the highlighting switch sends a string to a box only if that box's label is that string; a string that is no label reaches no box |
| `Fields.LabelBijection` | MainWindow.xaml.cs:147-167 | the switch finds every box from its own label, and no two boxes share a label, so the label-to-box mapping is a bijection on the five labels |
| `Fields.FieldOfLabelIff` | MainWindow.xaml.cs:147-167 | a string reaches a box through the switch exactly when it is that box's label |
| `Validation.TrimEmptyIffBlank` | MainWindow.xaml.cs:129-142 | a text is empty or white space only exactly when trimming it leaves nothing, so the white-space test and a trimmed-is-empty test agree |
| `Validation.UnfilledLabelsSpec` | MainWindow.xaml.cs:125-145 | the report contains a box's label exactly when that box is empty or white space only; every entry names a blank box; entries come in declaration order |
| `Validation.UnfilledLabelsDistinct` | MainWindow.xaml.cs:125-145 | the report has at most five entries and no label twice |
| `Validation.CompleteIffNoneUnfilled` | MainWindow.xaml.cs:85-87 | the report is empty exactly when no box is blank, which is when Save takes the summary branch |
| `Validation.UnfilledLabelsUnfold` | MainWindow.xaml.cs:127-144 | the report is the five checks' contributions concatenated in order: first name, last name, birth year, country, phone |
| `Validation.EmptyFormAllUnfilled` | MainWindow.xaml.cs:178-186 | after Clear empties every box, the validator reports all five labels in declaration order |
| `Feedback.SplitJoin` | MainWindow.xaml.cs:100 | labels joined with ", " are recovered by cutting at ", " when none of them contains a comma, so the joined text determines the list |
| `Feedback.MissingFieldsMessageRoundTrip` | MainWindow.xaml.cs:94-101 | the fill-in message names exactly the reported labels, in order; it uses the singular "Uzupełnij pole: " prefix exactly when there is one label, and the plural "Uzupełnij pola: " prefix otherwise |
| `Feedback.UnfilledLabelsCommaFree` | MainWindow.xaml.cs:129-142 | no label the validator reports contains a comma |
| `Feedback.FormSummaryLines` | MainWindow.xaml.cs:114-119 | the summary is one "Label: value" line per box, in declaration order, with the validator's labels, followed by the fixed trailer |
| `Feedback.SaveFeedbackSpec` | MainWindow.xaml.cs:82-123 | Save on a complete form speaks the summary once and shows it once in one dialog captioned "Zapisano"; on an incomplete form it speaks one message that names exactly the blank boxes and shows no dialog |
| `Feedback.TwoBlankFieldsScenario` | MainWindow.xaml.cs:94-103 | with only the last name and the phone blank, the report is those two labels and the spoken message is "Uzupełnij pola: Nazwisko, Numer telefonu" |
| `Recognition.Toggle` | MainWindow.xaml.cs:62-80 | after a toggle event the flag is what was requested; an event emits something exactly when the flag changes |
| `Recognition.ToggleIdempotent` | MainWindow.xaml.cs:62-80 | checking twice, or unchecking twice, acts and announces only once |
| `Recognition.RunIsSessionTrace` | MainWindow.xaml.cs:62-80 | over any series of toggle events, starts and stops strictly alternate, each is followed by exactly its announcement, and the final flag says whether recognition runs |
| `Recognition.ReplaceSelection` | MainWindow.xaml.cs:58 | assigning the selected text puts the replacement where the selection was and keeps the text before and after it unchanged |
| `Recognition.DictationInsertsAfterSelection` | MainWindow.xaml.cs:52-60 | in a box holding pre + sel + post with sel selected, `SelectedText += u` leaves pre + sel + u + post |
| `MainWindow.RegistrationForm.constructor` | MainWindow.xaml.cs:15-22 | the window opens with empty boxes, no red backgrounds, voice input off, no focused box and an empty log |
| `MainWindow.RegistrationForm.GetUnfilledFields` | MainWindow.xaml.cs:125-145 | the five successive checks build exactly the validator's report on the current texts |
| `MainWindow.RegistrationForm.HighlightField` | MainWindow.xaml.cs:147-167 | the box the label names turns red, the other marks are kept, and a string naming no box changes nothing |
| `MainWindow.RegistrationForm.ClearBackgroundProperty` | MainWindow.xaml.cs:169-176 | every mark is removed and nothing else changes |
| `MainWindow.RegistrationForm.ShowMessageBoxWithFormData` | MainWindow.xaml.cs:112-123 | the marks are removed, then the summary of the current texts is spoken and shown in the "Zapisano" dialog; texts and voice state are unchanged |
| `MainWindow.RegistrationForm.SaveButtonClick` | MainWindow.xaml.cs:82-110 | afterwards a box is red exactly when it is blank, for complete forms too because earlier marks are cleared first; the log grows by the Save feedback of the texts; no text changes |
| `MainWindow.RegistrationForm.ClearButtonClick` | MainWindow.xaml.cs:178-186 | every box is empty and every mark is removed; the log and the voice state are unchanged |
| `MainWindow.RegistrationForm.SpeechRecognitionToggleChecked` | MainWindow.xaml.cs:62-70 | when disabled: start recognition, announce "Uzupełnianie głosowe uruchomione", set enabled; when enabled: nothing; texts, marks and focus unchanged |
| `MainWindow.RegistrationForm.SpeechRecognitionToggleUnchecked` | MainWindow.xaml.cs:72-80 | when enabled: stop recognition, announce "Uzupełnianie głosowe zatrzymane", set disabled; when disabled: nothing; texts, marks and focus unchanged |
| `MainWindow.RegistrationForm.SpeechRecognized` | MainWindow.xaml.cs:52-60 | with a focused box the utterance is inserted right after its selection and no other box changes; with no focused text box nothing changes |

## Left out

- Speech engines: constructing them, `LoadGrammar`, `SetInputToDefaultAudioDevice` and the audio itself (MainWindow.xaml.cs:24-37) are calls into a platform library. Starting and stopping recognition (lines 66 and 76) are the log events `RecognitionStarted` and `RecognitionStopped`.
- `CreateGrammarFromWords` (lines 39-50) only hands a fixed word list to the recognizer. Its words are the constant `Recognition.GrammarWords`, and no behaviour depends on them.
- `Speak` and `SpeakAsync` are not told apart. Blocking versus queued playback is a timing concern, so every utterance is a `Spoken` entry in call order.
- The recognizer's callback thread is not modelled. Recognized utterances are handled one at a time, in order.
- WPF rendering, `Brushes.Red`, `ClearValue(BackgroundProperty)` and `MessageBox.Show` become the highlight flags and a `MessageBoxShown` log entry. The dialog's icon and button are not modelled.
- Typing and moving focus are done by the toolkit, not by this code, so no method models them. Every handler is proved for every valid state: any texts, marks, flag, focus and selection.
- `Keyboard.FocusedElement` becomes an optional box with its selection. A focus on anything that is not one of the five text boxes is `None`.
- The window layout file is not part of this model. The constructor assumes the five boxes start empty and unfocused.
- White space follows the current Unicode definition of `char.IsWhiteSpace`. Older runtimes also count U+180E, and that difference is not modelled. Text-box texts are never null, so the null half of `IsNullOrWhiteSpace` has no counterpart.
- MainWindow.RegistrationForm.ClearButtonClick: the model says an emptied focused box keeps focus with an empty selection at position 0; the source relies on the toolkit for this and does not state it.
- MainWindow.RegistrationForm.SpeechRecognized: the model says the selection afterwards covers the old selection plus the utterance, which is how the toolkit treats an assignment to `SelectedText`; the source does not state this.
