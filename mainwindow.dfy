/**
 * The registration window: five text boxes with their highlight state,
 * the speech toggle flag, the focused box, and the log of everything the
 * window says or shows, with one method per event handler.
 */
module MainWindow {
  import opened Wrappers
  import opened Fields
  import opened Validation
  import opened Feedback
  import opened Recognition

  /** The text box holding keyboard focus, with its selection [start, start + length). */
  datatype Focus = Focus(field: Field, selectionStart: nat, selectionLength: nat)

  /** Which boxes have the red background. */
  datatype Highlights = Highlights(firstName: bool, lastName: bool, birthYear: bool,
                                   country: bool, phoneNumber: bool)
  {
    function Get(f: Field): bool
    {
      match f
      case FirstName => firstName
      case LastName => lastName
      case BirthYear => birthYear
      case Country => country
      case PhoneNumber => phoneNumber
    }
  }

  const NoHighlights: Highlights := Highlights(false, false, false, false, false)

  class RegistrationForm {
    var firstNameText: string
    var lastNameText: string
    var birthYearText: string
    var countryText: string
    var phoneNumberText: string

    var firstNameHighlighted: bool
    var lastNameHighlighted: bool
    var birthYearHighlighted: bool
    var countryHighlighted: bool
    var phoneNumberHighlighted: bool

    var isSpeechRecognitionEnabled: bool
    /** None when focus is on no text box (a button, the toggle, or nothing). */
    var focus: Option<Focus>
    /** What the engines, the synthesizer and the message box were asked to do, in order. */
    var log: seq<Event>

    /** The texts of the five boxes. */
    function Data(): FormData
      reads this
    {
      FormData(firstNameText, lastNameText, birthYearText, countryText, phoneNumberText)
    }

    function Marks(): Highlights
      reads this
    {
      Highlights(firstNameHighlighted, lastNameHighlighted, birthYearHighlighted,
                 countryHighlighted, phoneNumberHighlighted)
    }

    /** The focused box's selection lies within its text. */
    ghost predicate Valid()
      reads this
    {
      focus.Some? ==>
        SelectionFits(Data().Get(focus.value.field), focus.value.selectionStart, focus.value.selectionLength)
    }

    /** The window as it opens: empty boxes, no marks, voice input off, nothing said. */
    constructor ()
      ensures Valid()
      ensures Data() == EmptyForm && Marks() == NoHighlights
      ensures !isSpeechRecognitionEnabled && focus == None && log == []
    {
      firstNameText, lastNameText, birthYearText, countryText, phoneNumberText := "", "", "", "", "";
      firstNameHighlighted, lastNameHighlighted, birthYearHighlighted := false, false, false;
      countryHighlighted, phoneNumberHighlighted := false, false;
      isSpeechRecognitionEnabled := false;
      focus := None;
      log := [];
    }

    /** The labels of the blank boxes, checked one after another in declaration order. */
    method GetUnfilledFields() returns (unfilled: seq<string>)
      ensures unfilled == UnfilledLabels(Data())
    {
      unfilled := [];
      if IsNullOrWhiteSpace(firstNameText) {
        unfilled := unfilled + ["Imię"];
      }
      assert unfilled == Entry(Data(), FirstName);
      if IsNullOrWhiteSpace(lastNameText) {
        unfilled := unfilled + ["Nazwisko"];
      }
      assert unfilled == Entry(Data(), FirstName) + Entry(Data(), LastName);
      if IsNullOrWhiteSpace(birthYearText) {
        unfilled := unfilled + ["Rok urodzenia"];
      }
      assert unfilled == Entry(Data(), FirstName) + Entry(Data(), LastName) + Entry(Data(), BirthYear);
      if IsNullOrWhiteSpace(countryText) {
        unfilled := unfilled + ["Kraj"];
      }
      assert unfilled == Entry(Data(), FirstName) + Entry(Data(), LastName) + Entry(Data(), BirthYear)
                         + Entry(Data(), Country);
      if IsNullOrWhiteSpace(phoneNumberText) {
        unfilled := unfilled + ["Numer telefonu"];
      }
      UnfilledLabelsUnfold(Data());
    }

    /** Mark the box a label names; a string that names no box marks nothing. */
    method HighlightField(fieldName: string)
      requires Valid()
      modifies this
      ensures Valid()
      ensures forall f :: Marks().Get(f) == (old(Marks().Get(f)) || FieldOfLabel(fieldName) == Some(f))
      ensures Data() == old(Data()) && focus == old(focus) && log == old(log)
      ensures isSpeechRecognitionEnabled == old(isSpeechRecognitionEnabled)
    {
      if fieldName == "Imię" {
        firstNameHighlighted := true;
      } else if fieldName == "Nazwisko" {
        lastNameHighlighted := true;
      } else if fieldName == "Rok urodzenia" {
        birthYearHighlighted := true;
      } else if fieldName == "Kraj" {
        countryHighlighted := true;
      } else if fieldName == "Numer telefonu" {
        phoneNumberHighlighted := true;
      }
    }

    /** Remove every red background. */
    method ClearBackgroundProperty()
      requires Valid()
      modifies this
      ensures Valid()
      ensures Marks() == NoHighlights
      ensures Data() == old(Data()) && focus == old(focus) && log == old(log)
      ensures isSpeechRecognitionEnabled == old(isSpeechRecognitionEnabled)
    {
      firstNameHighlighted := false;
      lastNameHighlighted := false;
      birthYearHighlighted := false;
      countryHighlighted := false;
      phoneNumberHighlighted := false;
    }

    /** Speak the summary of the form, then show it in the "Zapisano" dialog. */
    method ShowMessageBoxWithFormData()
      requires Valid()
      modifies this
      ensures Valid()
      ensures Marks() == NoHighlights
      ensures log == old(log) + [Spoken(FormSummary(old(Data()))), MessageBoxShown(FormSummary(old(Data())), SavedCaption)]
      ensures Data() == old(Data()) && focus == old(focus)
      ensures isSpeechRecognitionEnabled == old(isSpeechRecognitionEnabled)
    {
      var message := FormSummary(Data());
      ClearBackgroundProperty();
      log := log + [Spoken(message)];
      log := log + [MessageBoxShown(message, SavedCaption)];
    }

    /**
     * The Save button: clear the marks, then either confirm a complete form
     * or ask for the blank fields and mark exactly those.
     */
    method SaveButtonClick()
      requires Valid()
      modifies this
      ensures Valid()
      ensures forall f :: Marks().Get(f) <==> IsUnfilled(Data(), f)
      ensures log == old(log) + SaveFeedback(old(Data()))
      ensures Data() == old(Data()) && focus == old(focus)
      ensures isSpeechRecognitionEnabled == old(isSpeechRecognitionEnabled)
    {
      ClearBackgroundProperty();
      var unfilled := GetUnfilledFields();
      if |unfilled| == 0 {
        ShowMessageBoxWithFormData();
        CompleteIffNoneUnfilled(Data());
      } else {
        var message := MissingFieldsMessage(unfilled);
        log := log + [Spoken(message)];
        for i := 0 to |unfilled|
          invariant Valid()
          invariant forall f :: Marks().Get(f) <==> Label(f) in unfilled[..i]
          invariant Data() == old(Data()) && focus == old(focus)
          invariant log == old(log) + [Spoken(message)]
          invariant isSpeechRecognitionEnabled == old(isSpeechRecognitionEnabled)
        {
          HighlightField(unfilled[i]);
          FieldOfLabelIff(unfilled[i]);
          assert unfilled[..i + 1] == unfilled[..i] + [unfilled[i]];
        }
        assert unfilled[..|unfilled|] == unfilled;
        UnfilledLabelsSpec(Data());
      }
    }

    /** The Clear button: empty every box and remove every mark. */
    method ClearButtonClick()
      requires Valid()
      modifies this
      ensures Valid()
      ensures Data() == EmptyForm && Marks() == NoHighlights
      ensures focus == if old(focus).Some? then Some(Focus(old(focus).value.field, 0, 0)) else None
      ensures log == old(log) && isSpeechRecognitionEnabled == old(isSpeechRecognitionEnabled)
    {
      ClearBackgroundProperty();
      firstNameText := "";
      lastNameText := "";
      birthYearText := "";
      countryText := "";
      phoneNumberText := "";
      // An emptied box keeps focus, with the caret at its start.
      if focus.Some? {
        focus := Some(Focus(focus.value.field, 0, 0));
      }
    }

    /** Checking the speech toggle. */
    method SpeechRecognitionToggleChecked()
      requires Valid()
      modifies this
      ensures Valid()
      ensures isSpeechRecognitionEnabled == Toggle(old(isSpeechRecognitionEnabled), Check).0
      ensures log == old(log) + Toggle(old(isSpeechRecognitionEnabled), Check).1
      ensures Data() == old(Data()) && Marks() == old(Marks()) && focus == old(focus)
    {
      if !isSpeechRecognitionEnabled {
        log := log + [RecognitionStarted];
        log := log + [Spoken(StartedAnnouncement)];
        isSpeechRecognitionEnabled := true;
      }
    }

    /** Unchecking the speech toggle. */
    method SpeechRecognitionToggleUnchecked()
      requires Valid()
      modifies this
      ensures Valid()
      ensures isSpeechRecognitionEnabled == Toggle(old(isSpeechRecognitionEnabled), Uncheck).0
      ensures log == old(log) + Toggle(old(isSpeechRecognitionEnabled), Uncheck).1
      ensures Data() == old(Data()) && Marks() == old(Marks()) && focus == old(focus)
    {
      if isSpeechRecognitionEnabled {
        log := log + [RecognitionStopped];
        log := log + [Spoken(StoppedAnnouncement)];
        isSpeechRecognitionEnabled := false;
      }
    }

    /** Overwrite the text of one box. */
    method SetText(f: Field, text: string)
      modifies this
      ensures forall g :: Data().Get(g) == if g == f then text else old(Data().Get(g))
      ensures Marks() == old(Marks()) && focus == old(focus) && log == old(log)
      ensures isSpeechRecognitionEnabled == old(isSpeechRecognitionEnabled)
    {
      match f
      case FirstName => firstNameText := text;
      case LastName => lastNameText := text;
      case BirthYear => birthYearText := text;
      case Country => countryText := text;
      case PhoneNumber => phoneNumberText := text;
    }

    /**
     * A recognized utterance: the focused box's selected text gets the
     * utterance appended, so the utterance lands right after the selection,
     * which then spans the old selection and the utterance. With no focused
     * text box nothing changes.
     */
    method SpeechRecognized(recognizedText: string)
      requires Valid()
      modifies this
      ensures Valid()
      ensures old(focus).None? ==> Data() == old(Data()) && focus == old(focus)
      ensures old(focus).Some? ==>
        var fc := old(focus).value;
        var end := fc.selectionStart + fc.selectionLength;
        && (forall g :: Data().Get(g) ==
              if g == fc.field then old(Data().Get(g))[..end] + recognizedText + old(Data().Get(g))[end..]
              else old(Data().Get(g)))
        && focus == Some(Focus(fc.field, fc.selectionStart, fc.selectionLength + |recognizedText|))
      ensures Marks() == old(Marks()) && log == old(log)
      ensures isSpeechRecognitionEnabled == old(isSpeechRecognitionEnabled)
    {
      match focus
      case None =>
      case Some(fc) =>
        var text := Data().Get(fc.field);
        var selected := SelectedText(text, fc.selectionStart, fc.selectionLength);
        var pre, post := text[..fc.selectionStart], text[fc.selectionStart + fc.selectionLength..];
        assert text == pre + selected + post;
        DictationInsertsAfterSelection(pre, selected, post, recognizedText);
        var edited := ReplaceSelection(text, fc.selectionStart, fc.selectionLength, selected + recognizedText);
        SetText(fc.field, edited);
        focus := Some(Focus(fc.field, fc.selectionStart, fc.selectionLength + |recognizedText|));
        assert edited[..fc.selectionStart + fc.selectionLength] == pre + selected;
    }
  }
}
