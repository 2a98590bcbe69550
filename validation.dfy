/**
 * The form validator: which of the five boxes is blank, reported by label
 * in declaration order.
 */
module Validation {
  import opened Fields

  /**
   * The characters the platform's char.IsWhiteSpace accepts: the Unicode
   * space, line and paragraph separators, and the controls U+0009 to U+000D
   * and U+0085.
   */
  predicate IsWhiteSpace(c: char)
  {
    || ('\t' <= c <= '\r')
    || c == ' '
    || c == '\U{85}'
    || c == '\U{A0}'
    || c == '\U{1680}'
    || ('\U{2000}' <= c <= '\U{200A}')
    || c == '\U{2028}'
    || c == '\U{2029}'
    || c == '\U{202F}'
    || c == '\U{205F}'
    || c == '\U{3000}'
  }

  /** string.IsNullOrWhiteSpace on a text-box text (which is never null). */
  predicate IsNullOrWhiteSpace(s: string)
  {
    forall i | 0 <= i < |s| :: IsWhiteSpace(s[i])
  }

  /** string.TrimStart(): drop leading white space. */
  function TrimStart(s: string): (r: string)
    ensures r != "" ==> !IsWhiteSpace(r[0])
  {
    if s == "" then ""
    else if IsWhiteSpace(s[0]) then TrimStart(s[1..])
    else s
  }

  /** string.TrimEnd(): drop trailing white space. */
  function TrimEnd(s: string): (r: string)
    ensures r != "" ==> !IsWhiteSpace(r[|r| - 1])
  {
    if s == "" then ""
    else if IsWhiteSpace(s[|s| - 1]) then TrimEnd(s[..|s| - 1])
    else s
  }

  /** string.Trim(). */
  function Trim(s: string): string
  {
    TrimEnd(TrimStart(s))
  }

  lemma {:induction false} TrimStartEmpty(s: string)
    ensures TrimStart(s) == "" <==> IsNullOrWhiteSpace(s)
  {
    if s != "" && IsWhiteSpace(s[0]) {
      TrimStartEmpty(s[1..]);
      assert forall i | 1 <= i < |s| :: s[i] == s[1..][i - 1];
    }
  }

  lemma {:induction false} TrimEndEmpty(s: string)
    ensures TrimEnd(s) == "" <==> IsNullOrWhiteSpace(s)
  {
    if s != "" && IsWhiteSpace(s[|s| - 1]) {
      TrimEndEmpty(s[..|s| - 1]);
      assert forall i | 0 <= i < |s| - 1 :: s[i] == s[..|s| - 1][i];
    }
  }

  /**
   * A text counts as blank exactly when trimming it leaves nothing: the
   * white-space test of the validator and the trimmed-is-empty reading of
   * "unfilled" agree.
   */
  lemma TrimEmptyIffBlank(s: string)
    ensures Trim(s) == "" <==> IsNullOrWhiteSpace(s)
  {
    var t := TrimStart(s);
    TrimStartEmpty(s);
    TrimEndEmpty(t);
  }

  /** A field is unfilled when its text is empty or only white space. */
  predicate IsUnfilled(d: FormData, f: Field)
  {
    IsNullOrWhiteSpace(d.Get(f))
  }

  /** What one field contributes to the report: its label when it is unfilled. */
  function Entry(d: FormData, f: Field): seq<string>
  {
    if IsUnfilled(d, f) then [Label(f)] else []
  }

  /** The labels of the unfilled fields among fs, in the order of fs. */
  function UnfilledFrom(fs: seq<Field>, d: FormData): seq<string>
  {
    if fs == [] then [] else Entry(d, fs[0]) + UnfilledFrom(fs[1..], d)
  }

  /** The validator's report for a whole form. */
  function UnfilledLabels(d: FormData): seq<string>
  {
    UnfilledFrom(AllFields, d)
  }

  /** The report written out field by field, as the validator's five checks build it. */
  lemma UnfilledLabelsUnfold(d: FormData)
    ensures UnfilledLabels(d) ==
      Entry(d, FirstName) + Entry(d, LastName) + Entry(d, BirthYear) + Entry(d, Country) + Entry(d, PhoneNumber)
  {
    var e0, e1, e2, e3, e4 := Entry(d, FirstName), Entry(d, LastName), Entry(d, BirthYear),
                              Entry(d, Country), Entry(d, PhoneNumber);
    assert UnfilledFrom([PhoneNumber], d) == e4 by {
      assert [PhoneNumber][1..] == [];
    }
    assert UnfilledFrom([Country, PhoneNumber], d) == e3 + e4 by {
      assert [Country, PhoneNumber][1..] == [PhoneNumber];
    }
    assert UnfilledFrom([BirthYear, Country, PhoneNumber], d) == e2 + (e3 + e4) by {
      assert [BirthYear, Country, PhoneNumber][1..] == [Country, PhoneNumber];
    }
    assert UnfilledFrom([LastName, BirthYear, Country, PhoneNumber], d) == e1 + (e2 + (e3 + e4)) by {
      assert [LastName, BirthYear, Country, PhoneNumber][1..] == [BirthYear, Country, PhoneNumber];
    }
    assert AllFields[1..] == [LastName, BirthYear, Country, PhoneNumber];
    assert UnfilledLabels(d) == e0 + (e1 + (e2 + (e3 + e4)));
  }

  /** A sequence of fields listed in strictly increasing declaration order. */
  predicate InOrder(fs: seq<Field>)
  {
    forall i, j | 0 <= i < j < |fs| :: Rank(fs[i]) < Rank(fs[j])
  }

  /** Every entry of a report is the label of an unfilled field of fs. */
  predicate LabelsUnfilledIn(r: seq<string>, fs: seq<Field>, d: FormData)
  {
    forall i | 0 <= i < |r| ::
      FieldOfLabel(r[i]).Some? && FieldOfLabel(r[i]).value in fs && IsUnfilled(d, FieldOfLabel(r[i]).value)
  }

  /** The fields a report names come in strictly increasing declaration order. */
  predicate LabelsInOrder(r: seq<string>)
  {
    forall i, j | 0 <= i < j < |r| ::
      FieldOfLabel(r[i]).Some? && FieldOfLabel(r[j]).Some? &&
      Rank(FieldOfLabel(r[i]).value) < Rank(FieldOfLabel(r[j]).value)
  }

  lemma {:induction false} UnfilledFromMembership(fs: seq<Field>, d: FormData)
    ensures forall f :: Label(f) in UnfilledFrom(fs, d) <==> f in fs && IsUnfilled(d, f)
  {
    if fs != [] {
      UnfilledFromMembership(fs[1..], d);
      var head := Entry(d, fs[0]);
      assert UnfilledFrom(fs, d) == head + UnfilledFrom(fs[1..], d);
      forall f ensures Label(f) in head <==> f == fs[0] && IsUnfilled(d, f) {
        LabelBijection(f, fs[0]);
      }
      assert forall f :: f in fs <==> f == fs[0] || f in fs[1..];
    }
  }

  lemma {:induction false} UnfilledFromNamesFields(fs: seq<Field>, d: FormData)
    ensures LabelsUnfilledIn(UnfilledFrom(fs, d), fs, d)
  {
    if fs != [] {
      UnfilledFromNamesFields(fs[1..], d);
      LabelBijection(fs[0], fs[0]);
      var head := Entry(d, fs[0]);
      var tail := UnfilledFrom(fs[1..], d);
      assert UnfilledFrom(fs, d) == head + tail;
      assert forall g :: g in fs[1..] ==> g in fs;
    }
  }

  lemma {:induction false} UnfilledFromOrdered(fs: seq<Field>, d: FormData)
    requires InOrder(fs)
    ensures LabelsInOrder(UnfilledFrom(fs, d))
  {
    if fs != [] {
      var rest := fs[1..];
      assert InOrder(rest) by {
        forall i, j | 0 <= i < j < |rest| ensures Rank(rest[i]) < Rank(rest[j]) {
          assert rest[i] == fs[i + 1] && rest[j] == fs[j + 1];
        }
      }
      UnfilledFromOrdered(rest, d);
      UnfilledFromNamesFields(rest, d);
      LabelBijection(fs[0], fs[0]);
      var head := Entry(d, fs[0]);
      var tail := UnfilledFrom(rest, d);
      assert UnfilledFrom(fs, d) == head + tail;
      // Every field named in the tail comes after fs[0].
      forall i | 0 <= i < |tail| ensures Rank(fs[0]) < Rank(FieldOfLabel(tail[i]).value) {
        var g := FieldOfLabel(tail[i]).value;
        var k :| 0 <= k < |rest| && rest[k] == g;
        assert fs[k + 1] == g;
      }
    }
  }

  /**
   * The validator reports a field's label exactly when that field is blank,
   * every entry names a blank field, and the entries follow declaration order.
   */
  lemma UnfilledLabelsSpec(d: FormData)
    ensures forall f :: Label(f) in UnfilledLabels(d) <==> IsUnfilled(d, f)
    ensures LabelsUnfilledIn(UnfilledLabels(d), AllFields, d)
    ensures LabelsInOrder(UnfilledLabels(d))
  {
    assert InOrder(AllFields);
    UnfilledFromMembership(AllFields, d);
    UnfilledFromNamesFields(AllFields, d);
    UnfilledFromOrdered(AllFields, d);
    forall f ensures f in AllFields {
      assert AllFields[Rank(f)] == f;
    }
  }

  /** A report holds no label twice and at most one label per field. */
  lemma UnfilledLabelsDistinct(d: FormData)
    ensures |UnfilledLabels(d)| <= |AllFields|
    ensures forall i, j | 0 <= i < j < |UnfilledLabels(d)| :: UnfilledLabels(d)[i] != UnfilledLabels(d)[j]
  {
    var r := UnfilledLabels(d);
    UnfilledLabelsSpec(d);
    // Ranks strictly increase along r, so the rank of the last entry is at least |r| - 1.
    if |r| > 0 {
      RankGrows(r, |r| - 1);
    }
  }

  lemma {:induction false} RankGrows(r: seq<string>, k: nat)
    requires LabelsInOrder(r) && k < |r|
    requires forall i | 0 <= i < |r| :: FieldOfLabel(r[i]).Some?
    ensures k <= Rank(FieldOfLabel(r[k]).value)
  {
    if k > 0 {
      RankGrows(r, k - 1);
    }
  }

  /** The report is empty exactly when every field holds a non-blank text. */
  lemma CompleteIffNoneUnfilled(d: FormData)
    ensures UnfilledLabels(d) == [] <==> forall f :: !IsUnfilled(d, f)
  {
    UnfilledLabelsSpec(d);
    if UnfilledLabels(d) != [] {
      assert UnfilledLabels(d)[0] in UnfilledLabels(d);
    }
  }

  /** A cleared form reports all five labels, in declaration order. */
  lemma EmptyFormAllUnfilled()
    ensures UnfilledLabels(EmptyForm) == ["Imię", "Nazwisko", "Rok urodzenia", "Kraj", "Numer telefonu"]
  {
  }
}
