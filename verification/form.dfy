/** The invoice form's draft state and its change handler
    (src/app/page.js: the `formData` state, `handleInputChange`, Clear). */
module Form {

  /** The draft invoice the form edits. Session length and rate are the
      numbers the form holds (JavaScript numbers, modelled as reals). */
  datatype FormData = FormData(
    clientName: string,
    clientEmail: string,
    ferretName: string,
    playSessionLength: real,
    playSessionRate: real,
    additionalServices: seq<string>,
    notes: string)

  /** The free-text inputs of the form, each named after the field it edits. */
  datatype TextField = ClientName | ClientEmail | FerretName | Notes

  /** The numeric inputs of the form: the length select and the rate input. */
  datatype NumberField = PlaySessionLength | PlaySessionRate

  /** One change event from an input of the form. A checkbox is named by the
      service id it toggles. */
  datatype InputChange =
    | Checkbox(name: string, checked: bool)
    | TextInput(field: TextField, text: string)
    | NumberInput(numberField: NumberField, value: real)

  function TextOf(f: FormData, field: TextField): string
  {
    match field
    case ClientName => f.clientName
    case ClientEmail => f.clientEmail
    case FerretName => f.ferretName
    case Notes => f.notes
  }

  function NumberOf(f: FormData, field: NumberField): real
  {
    match field
    case PlaySessionLength => f.playSessionLength
    case PlaySessionRate => f.playSessionRate
  }

  /** The two forms agree on every field except possibly the service list. */
  predicate SameExceptServices(f: FormData, g: FormData)
  {
    && (forall t :: TextOf(f, t) == TextOf(g, t))
    && (forall n :: NumberOf(f, n) == NumberOf(g, n))
  }

  /** The state the form starts with when the page mounts. */
  function InitialForm(): (r: FormData)
    ensures forall t :: TextOf(r, t) == ""
    ensures r.playSessionLength == 30.0 && r.playSessionRate == 25.0
    ensures r.additionalServices == []
  {
    FormData("", "", "", 30.0, 25.0, [], "")
  }

  /** The Clear button: replaces the whole draft, whatever it held, by a
      literal of its own. */
  function Clear(f: FormData): (r: FormData)
    ensures r == InitialForm()
    ensures r.additionalServices == [] && r.playSessionLength == 30.0 && r.playSessionRate == 25.0
    ensures forall t :: TextOf(r, t) == ""
  {
    FormData("", "", "", 30.0, 25.0, [], "")
  }

  /** The service list with every occurrence of `x` removed, the rest kept in
      order (JavaScript's `filter(service => service !== x)`). */
  function Without(s: seq<string>, x: string): (r: seq<string>)
    ensures x !in r
    ensures multiset(r) == multiset(s)[x := 0]
  {
    if |s| == 0 then []
    else
      assert s == [s[0]] + s[1..];
      (if s[0] == x then [] else [s[0]]) + Without(s[1..], x)
  }

  /** Filtering works element by element, so it keeps the relative order of
      the ids it leaves. */
  lemma {:induction false} WithoutDistributes(a: seq<string>, b: seq<string>, x: string)
    ensures Without(a + b, x) == Without(a, x) + Without(b, x)
  {
    if |a| > 0 {
      assert (a + b)[1..] == a[1..] + b;
      WithoutDistributes(a[1..], b, x);
    } else {
      assert a + b == b;
    }
  }

  /** Filtering out an id that is not there changes nothing. */
  lemma {:induction false} WithoutAbsent(s: seq<string>, x: string)
    requires x !in s
    ensures Without(s, x) == s
  {
    if |s| > 0 {
      WithoutAbsent(s[1..], x);
      assert s == [s[0]] + s[1..];
    }
  }

  /** The change handler. A checkbox appends its id when checked and removes
      every occurrence when unchecked; any other input overwrites the one
      field it names. */
  function HandleInputChange(f: FormData, e: InputChange): (r: FormData)
    ensures e.Checkbox? ==> SameExceptServices(f, r)
    ensures e.Checkbox? && e.checked ==> r.additionalServices == f.additionalServices + [e.name]
    ensures e.Checkbox? && !e.checked ==>
              && e.name !in r.additionalServices
              && multiset(r.additionalServices) == multiset(f.additionalServices)[e.name := 0]
    ensures e.TextInput? ==>
              && TextOf(r, e.field) == e.text
              && (forall t :: t != e.field ==> TextOf(r, t) == TextOf(f, t))
              && (forall n :: NumberOf(r, n) == NumberOf(f, n))
              && r.additionalServices == f.additionalServices
    ensures e.NumberInput? ==>
              && NumberOf(r, e.numberField) == e.value
              && (forall n :: n != e.numberField ==> NumberOf(r, n) == NumberOf(f, n))
              && (forall t :: TextOf(r, t) == TextOf(f, t))
              && r.additionalServices == f.additionalServices
  {
    match e
    case Checkbox(name, checked) =>
      var updated := if checked then f.additionalServices + [name]
                     else Without(f.additionalServices, name);
      f.(additionalServices := updated)
    case TextInput(field, text) =>
      (match field
       case ClientName => f.(clientName := text)
       case ClientEmail => f.(clientEmail := text)
       case FerretName => f.(ferretName := text)
       case Notes => f.(notes := text))
    case NumberInput(field, value) =>
      match field
      case PlaySessionLength => f.(playSessionLength := value)
      case PlaySessionRate => f.(playSessionRate := value)
  }

  /** Checking a box that was not checked and then unchecking it gives back
      the form exactly as it was. */
  lemma CheckThenUncheck(f: FormData, x: string)
    requires x !in f.additionalServices
    ensures HandleInputChange(HandleInputChange(f, Checkbox(x, true)), Checkbox(x, false)) == f
  {
    var s := f.additionalServices;
    WithoutDistributes(s, [x], x);
    WithoutAbsent(s, x);
    WithoutSelf(x);
  }

  /** Removing the one occurrence of `x` leaves the ids around it in order. */
  lemma WithoutSingle(a: seq<string>, b: seq<string>, x: string)
    requires x !in a && x !in b
    ensures Without(a + [x] + b, x) == a + b
  {
    var ax := a + [x];
    assert Without(ax + b, x) == Without(ax, x) + Without(b, x) by {
      WithoutDistributes(ax, b, x);
    }
    assert Without(ax, x) == a by {
      WithoutDistributes(a, [x], x);
      WithoutAbsent(a, x);
      WithoutSelf(x);
    }
    assert Without(b, x) == b by {
      WithoutAbsent(b, x);
    }
  }

  /** Unchecking is the order-preserving filter: the ids left are exactly the
      old ones other than `x`, in the old order. */
  lemma UncheckKeepsOrder(f: FormData, a: seq<string>, b: seq<string>, x: string)
    requires f.additionalServices == a + [x] + b
    requires x !in a && x !in b
    ensures HandleInputChange(f, Checkbox(x, false)).additionalServices == a + b
  {
    WithoutSingle(a, b, x);
  }

  lemma WithoutSelf(x: string)
    ensures Without([x], x) == []
  {
    assert [x][1..] == [];
  }

  /** Two edits of the same field: the last one wins. */
  lemma LastEditWins(f: FormData, field: TextField, first: string, second: string)
    ensures HandleInputChange(HandleInputChange(f, TextInput(field, first)), TextInput(field, second))
            == HandleInputChange(f, TextInput(field, second))
  {
  }
}
