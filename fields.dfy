/**
 * The five text boxes of the registration form, the Polish labels under
 * which the form reports them, and a snapshot of their texts.
 */
module Fields {
  import opened Wrappers

  /** The form's text boxes, in the order the window declares and checks them. */
  datatype Field = FirstName | LastName | BirthYear | Country | PhoneNumber

  const AllFields: seq<Field> := [FirstName, LastName, BirthYear, Country, PhoneNumber]

  /** The label used in validation messages and in the saved-form summary. */
  function Label(f: Field): string
  {
    match f
    case FirstName => "Imię"
    case LastName => "Nazwisko"
    case BirthYear => "Rok urodzenia"
    case Country => "Kraj"
    case PhoneNumber => "Numer telefonu"
  }

  /** Position of a field in declaration order. */
  function Rank(f: Field): (r: nat)
    ensures r < |AllFields| && AllFields[r] == f
  {
    match f
    case FirstName => 0
    case LastName => 1
    case BirthYear => 2
    case Country => 3
    case PhoneNumber => 4
  }

  /**
   * The label-to-text-box dispatch of the highlighting switch: a label names
   * at most one field, and any other string names none.
   */
  function FieldOfLabel(name: string): (r: Option<Field>)
    ensures r.Some? ==> Label(r.value) == name
    ensures r.None? ==> forall f :: Label(f) != name
  {
    if name == "Imię" then Some(FirstName)
    else if name == "Nazwisko" then Some(LastName)
    else if name == "Rok urodzenia" then Some(BirthYear)
    else if name == "Kraj" then Some(Country)
    else if name == "Numer telefonu" then Some(PhoneNumber)
    else None
  }

  /** The dispatch finds every field from its own label, so Label is injective. */
  lemma LabelBijection(f: Field, g: Field)
    ensures FieldOfLabel(Label(f)) == Some(f)
    ensures Label(f) == Label(g) <==> f == g
  {
  }

  /** A string names, through the dispatch, exactly the field it is the label of. */
  lemma FieldOfLabelIff(name: string)
    ensures forall f :: FieldOfLabel(name) == Some(f) <==> Label(f) == name
  {
  }

  /** The texts of the five boxes at one moment. */
  datatype FormData = FormData(firstName: string, lastName: string, birthYear: string,
                               country: string, phoneNumber: string)
  {
    function Get(f: Field): string
    {
      match f
      case FirstName => firstName
      case LastName => lastName
      case BirthYear => birthYear
      case Country => country
      case PhoneNumber => phoneNumber
    }
  }

  /** Every box empty: the state after clearing the form. */
  const EmptyForm: FormData := FormData("", "", "", "", "")
}
