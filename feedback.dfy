/**
 * What the form says and shows: the output events that stand in for the
 * speech synthesizer and the message box, the "fill in" message built from
 * the validator's report, and the summary of a complete form.
 */
module Feedback {
  import opened Wrappers
  import opened Fields
  import opened Validation

  /** One observable effect, in the order the window performs them. */
  datatype Event =
    | RecognitionStarted
    | RecognitionStopped
    | Spoken(text: string)
    | MessageBoxShown(text: string, caption: string)

  const Separator: string := ", "
  const SingleFieldPrefix: string := "Uzupełnij pole: "
  const ManyFieldsPrefix: string := "Uzupełnij pola: "
  const SavedCaption: string := "Zapisano"
  const SummaryTrailer: string :=
    "Jeśli chcesz poprawić formularz wciśnij okej, kliknij przycisk WYCZYŚĆ i wypełnij ponownie."

  /** string.Join(", ", items). */
  function Join(items: seq<string>): string
  {
    if |items| == 0 then ""
    else if |items| == 1 then items[0]
    else items[0] + Separator + Join(items[1..])
  }

  /** Index of the first ", " in s, or |s| when there is none. */
  function SeparatorIndex(s: string): (i: nat)
    ensures i <= |s|
    ensures i < |s| ==> i + 1 < |s| && s[i] == ',' && s[i + 1] == ' '
  {
    if |s| < 2 then |s|
    else if s[0] == ',' && s[1] == ' ' then 0
    else 1 + SeparatorIndex(s[1..])
  }

  /** Cut s at every ", ": the inverse of Join on comma-free items. */
  function Split(s: string): (r: seq<string>)
    ensures |r| >= 1
    decreases |s|
  {
    var i := SeparatorIndex(s);
    if i == |s| then [s] else [s[..i]] + Split(s[i + 2..])
  }

  predicate NoComma(s: string)
  {
    forall k | 0 <= k < |s| :: s[k] != ','
  }

  lemma {:induction false} SeparatorIndexAfter(x: string, rest: string)
    requires NoComma(x)
    ensures SeparatorIndex(x + Separator + rest) == |x|
  {
    if x != [] {
      assert (x + Separator + rest)[1..] == x[1..] + Separator + rest;
      SeparatorIndexAfter(x[1..], rest);
    }
  }

  lemma SeparatorIndexNone(x: string)
    requires NoComma(x)
    ensures SeparatorIndex(x) == |x|
  {
  }

  /** Joined items are recovered by splitting, and so Join is injective on them. */
  lemma {:induction false} SplitJoin(items: seq<string>)
    requires |items| >= 1
    requires forall k | 0 <= k < |items| :: NoComma(items[k])
    ensures Split(Join(items)) == items
  {
    if |items| == 1 {
      SeparatorIndexNone(items[0]);
    } else {
      var s := Join(items);
      assert s == items[0] + Separator + Join(items[1..]);
      SeparatorIndexAfter(items[0], Join(items[1..]));
      assert s[..|items[0]|] == items[0];
      assert s[|items[0]| + 2..] == Join(items[1..]);
      SplitJoin(items[1..]);
    }
  }

  /**
   * The spoken request to fill in the reported fields: the singular form
   * for one label, otherwise the plural form with the labels joined by ", ".
   */
  function MissingFieldsMessage(unfilled: seq<string>): string
  {
    if |unfilled| == 1 then SingleFieldPrefix + unfilled[0]
    else ManyFieldsPrefix + Join(unfilled)
  }

  /** Read back the list of labels from a "fill in" message. */
  function ParseMissingFieldsMessage(m: string): Option<seq<string>>
  {
    var n := |SingleFieldPrefix|;
    if |m| >= n && m[..n] == SingleFieldPrefix then Some([m[n..]])
    else if |m| >= n && m[..n] == ManyFieldsPrefix then Some(Split(m[n..]))
    else None
  }

  /**
   * A message built from a non-empty list of comma-free labels names exactly
   * that list, in that order; in particular the singular form is used
   * exactly when one label is reported.
   */
  lemma MissingFieldsMessageRoundTrip(unfilled: seq<string>)
    requires |unfilled| >= 1
    requires forall k | 0 <= k < |unfilled| :: NoComma(unfilled[k])
    ensures ParseMissingFieldsMessage(MissingFieldsMessage(unfilled)) == Some(unfilled)
    ensures |unfilled| == 1 <==> MissingFieldsMessage(unfilled)[..|SingleFieldPrefix|] == SingleFieldPrefix
  {
    var m := MissingFieldsMessage(unfilled);
    var n := |SingleFieldPrefix|;
    assert SingleFieldPrefix != ManyFieldsPrefix by {
      assert SingleFieldPrefix[13] != ManyFieldsPrefix[13];
    }
    if |unfilled| == 1 {
      assert m[..n] == SingleFieldPrefix && m[n..] == unfilled[0];
      assert [unfilled[0]] == unfilled;
    } else {
      assert m[..n] == ManyFieldsPrefix && m[n..] == Join(unfilled);
      SplitJoin(unfilled);
    }
  }

  /** The validator's labels contain no comma. */
  lemma UnfilledLabelsCommaFree(d: FormData)
    ensures forall k | 0 <= k < |UnfilledLabels(d)| :: NoComma(UnfilledLabels(d)[k])
  {
    UnfilledLabelsSpec(d);
    forall k | 0 <= k < |UnfilledLabels(d)| ensures NoComma(UnfilledLabels(d)[k]) {
      var f := FieldOfLabel(UnfilledLabels(d)[k]).value;
      assert Label(f) == UnfilledLabels(d)[k];
      match f
      case FirstName =>
      case LastName =>
      case BirthYear =>
      case Country =>
      case PhoneNumber =>
    }
  }

  /** The dialog text for a complete form: five "Label: value" lines and a trailer. */
  function FormSummary(d: FormData): string
  {
    ("Imię: " + d.firstName + "\n")
    + ("Nazwisko: " + d.lastName + "\n")
    + ("Rok urodzenia: " + d.birthYear + "\n")
    + ("Kraj: " + d.country + "\n")
    + ("Numer telefonu: " + d.phoneNumber + "\n")
    + SummaryTrailer
  }

  /** The summary line of one field. */
  function SummaryLine(f: Field, d: FormData): string
  {
    Label(f) + ": " + d.Get(f) + "\n"
  }

  /** One summary line per field of fs, in the order of fs. */
  function SummaryLines(fs: seq<Field>, d: FormData): string
  {
    if fs == [] then "" else SummaryLine(fs[0], d) + SummaryLines(fs[1..], d)
  }

  lemma SummaryLinesAll(d: FormData)
    ensures SummaryLines(AllFields, d) ==
      SummaryLine(FirstName, d) + (SummaryLine(LastName, d) + (SummaryLine(BirthYear, d)
      + (SummaryLine(Country, d) + (SummaryLine(PhoneNumber, d) + ""))))
  {
    assert SummaryLines([PhoneNumber], d) == SummaryLine(PhoneNumber, d) + "" by {
      assert [PhoneNumber][1..] == [];
    }
    assert SummaryLines([Country, PhoneNumber], d) == SummaryLine(Country, d) + SummaryLines([PhoneNumber], d) by {
      assert [Country, PhoneNumber][1..] == [PhoneNumber];
    }
    assert SummaryLines([BirthYear, Country, PhoneNumber], d)
        == SummaryLine(BirthYear, d) + SummaryLines([Country, PhoneNumber], d) by {
      assert [BirthYear, Country, PhoneNumber][1..] == [Country, PhoneNumber];
    }
    assert SummaryLines([LastName, BirthYear, Country, PhoneNumber], d)
        == SummaryLine(LastName, d) + SummaryLines([BirthYear, Country, PhoneNumber], d) by {
      assert [LastName, BirthYear, Country, PhoneNumber][1..] == [BirthYear, Country, PhoneNumber];
    }
    assert AllFields[1..] == [LastName, BirthYear, Country, PhoneNumber];
  }

  lemma SummaryLineLiterals(d: FormData)
    ensures SummaryLine(FirstName, d) == "Imię: " + d.firstName + "\n"
    ensures SummaryLine(LastName, d) == "Nazwisko: " + d.lastName + "\n"
    ensures SummaryLine(BirthYear, d) == "Rok urodzenia: " + d.birthYear + "\n"
    ensures SummaryLine(Country, d) == "Kraj: " + d.country + "\n"
    ensures SummaryLine(PhoneNumber, d) == "Numer telefonu: " + d.phoneNumber + "\n"
  {
  }

  lemma Regroup(a: string, b: string, c: string, e: string, f: string, t: string)
    ensures a + (b + (c + (e + (f + "")))) + t == a + b + c + e + f + t
  {
  }

  /**
   * The summary lists every field under the same label the validator uses,
   * in declaration order, each on its own line, followed by the trailer.
   */
  lemma FormSummaryLines(d: FormData)
    ensures FormSummary(d) == SummaryLines(AllFields, d) + SummaryTrailer
  {
    SummaryLinesAll(d);
    SummaryLineLiterals(d);
    Regroup(SummaryLine(FirstName, d), SummaryLine(LastName, d), SummaryLine(BirthYear, d),
            SummaryLine(Country, d), SummaryLine(PhoneNumber, d), SummaryTrailer);
  }

  /**
   * The effects of pressing Save on a form with texts d: a summary that is
   * both spoken and shown in a dialog captioned "Zapisano" when nothing is
   * blank, and one spoken "fill in" message otherwise.
   */
  function SaveFeedback(d: FormData): seq<Event>
  {
    var unfilled := UnfilledLabels(d);
    if |unfilled| == 0 then [Spoken(FormSummary(d)), MessageBoxShown(FormSummary(d), SavedCaption)]
    else [Spoken(MissingFieldsMessage(unfilled))]
  }

  /**
   * A complete form yields exactly one dialog and one spoken message, both
   * the summary; an incomplete one yields exactly one spoken message,
   * from which the validator's report is read back unchanged, and no dialog.
   */
  lemma SaveFeedbackSpec(d: FormData)
    ensures (forall f :: !IsUnfilled(d, f)) ==>
      SaveFeedback(d) == [Spoken(FormSummary(d)), MessageBoxShown(FormSummary(d), SavedCaption)]
    ensures (exists f :: IsUnfilled(d, f)) ==>
      |SaveFeedback(d)| == 1 && SaveFeedback(d)[0].Spoken? &&
      ParseMissingFieldsMessage(SaveFeedback(d)[0].text) == Some(UnfilledLabels(d))
  {
    CompleteIffNoneUnfilled(d);
    if |UnfilledLabels(d)| > 0 {
      UnfilledLabelsCommaFree(d);
      MissingFieldsMessageRoundTrip(UnfilledLabels(d));
    }
  }

  /**
   * A form with the surname and the phone number left blank reports those
   * two labels in that order and asks for them in the plural form.
   */
  lemma TwoBlankFieldsScenario()
    ensures UnfilledLabels(FormData("Jakub", "", "1998", "Polska", "")) == ["Nazwisko", "Numer telefonu"]
    ensures SaveFeedback(FormData("Jakub", "", "1998", "Polska", ""))
            == [Spoken(ManyFieldsPrefix + "Nazwisko" + Separator + "Numer telefonu")]
  {
    var d := FormData("Jakub", "", "1998", "Polska", "");
    UnfilledLabelsUnfold(d);
    assert !IsUnfilled(d, FirstName) by {
      assert d.firstName[0] == 'J';
    }
    assert !IsUnfilled(d, BirthYear) by {
      assert d.birthYear[0] == '1';
    }
    assert !IsUnfilled(d, Country) by {
      assert d.country[0] == 'P';
    }
    assert UnfilledLabels(d) == ["Nazwisko", "Numer telefonu"];
    PluralMessageOfTwo("Nazwisko", "Numer telefonu");
  }

  lemma PluralMessageOfTwo(a: string, b: string)
    ensures MissingFieldsMessage([a, b]) == ManyFieldsPrefix + a + Separator + b
  {
    assert [a, b][1..] == [b];
    assert Join([a, b]) == a + Separator + b;
  }
}
