/**
 * The pure parts of CountryEditComponent: the ISO code patterns, the required
 * controls and the per-control isDupeField request.
 */
module CountryEdit {
  import opened Wrappers
  import opened Text
  import opened Forms
  import CityEdit

  /** `^[a-zA-Z]{n}$`: exactly n ASCII letters. */
  predicate IsIsoCode(s: string, n: nat) {
    |s| == n && forall i :: 0 <= i < |s| ==> IsAsciiLetter(s[i])
  }

  /** The three controls; each is validated, and checked for duplicates, on its own. */
  datatype CountryControl = Name | Iso2 | Iso3

  /** The field name each control's isDupeField validator is created with. */
  function FieldName(control: CountryControl): string {
    match control
    case Name => "name"
    case Iso2 => "iso2"
    case Iso3 => "iso3"
  }

  /** The control a field name designates, if any. */
  function ParseFieldName(fieldName: string): Option<CountryControl> {
    if fieldName == "name" then Some(Name)
    else if fieldName == "iso2" then Some(Iso2)
    else if fieldName == "iso3" then Some(Iso3)
    else None
  }

  /** Each control asks about its own field: the names are distinct and read back. */
  lemma FieldNameRoundTrip(control: CountryControl, fieldName: string)
    ensures ParseFieldName(FieldName(control)) == Some(control)
    ensures ParseFieldName(fieldName) == Some(control) ==> FieldName(control) == fieldName
    ensures forall other :: FieldName(other) == FieldName(control) ==> other == control
  {
    assert "name" != "iso2" by { assert "name"[0] != "iso2"[0]; }
    assert "name" != "iso3" by { assert "name"[0] != "iso3"[0]; }
    assert "iso2" != "iso3" by { assert "iso2"[3] != "iso3"[3]; }
  }

  /** The synchronous validators of each control. */
  function SyncErrors(control: CountryControl, value: string): Errors {
    match control
    case Name => Required(value)
    case Iso2 => Required(value) + Pattern(value, IsIsoCode(value, 2))
    case Iso3 => Required(value) + Pattern(value, IsIsoCode(value, 3))
  }

  /**
   * An ISO control passes its synchronous validators exactly when it holds
   * two (iso2) or three (iso3) ASCII letters; the name control exactly when
   * it is not empty. Empty text reports only "required".
   */
  lemma SyncErrorsExact(control: CountryControl, value: string)
    ensures control == Name ==> (SyncErrors(control, value) == {} <==> value != "")
    ensures control == Iso2 ==> (SyncErrors(control, value) == {} <==> IsIsoCode(value, 2))
    ensures control == Iso3 ==> (SyncErrors(control, value) == {} <==> IsIsoCode(value, 3))
    ensures value == "" ==> SyncErrors(control, value) == {"required"}
    ensures value != "" && control != Name && SyncErrors(control, value) != {} ==> SyncErrors(control, value) == {"pattern"}
  {
  }

  /** `this.id ?? 0`, where None is an id not yet assigned. */
  function ExcludeId(id: Option<int>): int {
    match id
    case None => 0
    case Some(n) => n
  }

  /**
   * On an integer id the city form's `(this.id) ? this.id : 0` and the
   * country form's `this.id ?? 0` send the same exclude id.
   */
  lemma ExcludeIdsAgree(id: Option<int>)
    ensures ExcludeId(id) == CityEdit.ExcludeId(id)
    ensures ExcludeId(id) == 0 <==> id.None? || id == Some(0)
  {
  }

  /** The arguments of countryService.isDupeField. */
  datatype DupeFieldQuery = DupeFieldQuery(id: int, fieldName: string, value: string)

  /**
   * A control's asynchronous validator: Angular runs it only when the
   * control's synchronous validators pass, and it then asks about that
   * control's field and value.
   */
  function IsDupeFieldRequest(id: Option<int>, control: CountryControl, value: string): Option<DupeFieldQuery> {
    if SyncErrors(control, value) == {} then Some(DupeFieldQuery(ExcludeId(id), FieldName(control), value))
    else None
  }

  /**
   * After the route is read, a control asks exactly when its value passes its
   * synchronous validators; the request names the control's own field,
   * carries its value, and excludes the edited country's id, or 0 when
   * creating.
   */
  lemma DupeFieldRequestShape(idParam: Option<int>, control: CountryControl, value: string)
    ensures
      var r := IsDupeFieldRequest(Some(RouteId(idParam)), control, value);
      && (r.Some? <==> SyncErrors(control, value) == {})
      && (r.Some? ==>
          && r.value.id == (if idParam.Some? then idParam.value else 0)
          && ParseFieldName(r.value.fieldName) == Some(control)
          && r.value.value == value)
  {
    FieldNameRoundTrip(control, FieldName(control));
  }

  /**
   * The errors a control settles on: its synchronous ones, or else
   * `{isDupeField: true}` when the server answers true and null when it
   * answers false.
   */
  function ControlErrors(control: CountryControl, value: string, answer: bool): Errors {
    Settled(SyncErrors(control, value), answer, "isDupeField")
  }

  /** The three controls of the form, as the text each holds. */
  datatype CountryForm = CountryForm(name: string, iso2: string, iso3: string)

  function Value(form: CountryForm, control: CountryControl): string {
    match control
    case Name => form.name
    case Iso2 => form.iso2
    case Iso3 => form.iso3
  }

  /**
   * The whole form is valid exactly when the name is filled in, the codes
   * have the ISO shapes and no control's duplicate check answers true.
   */
  lemma CountryFormValid(form: CountryForm, answers: CountryControl -> bool)
    ensures (forall control :: ControlErrors(control, Value(form, control), answers(control)) == {}) <==>
      && form.name != "" && IsIsoCode(form.iso2, 2) && IsIsoCode(form.iso3, 3)
      && !answers(Name) && !answers(Iso2) && !answers(Iso3)
  {
    forall control
      ensures ControlErrors(control, Value(form, control), answers(control)) == {} <==>
        SyncErrors(control, Value(form, control)) == {} && !answers(control)
    {
      SettledValid(SyncErrors(control, Value(form, control)), answers(control), "isDupeField");
    }
    SyncErrorsExact(Name, form.name);
    SyncErrorsExact(Iso2, form.iso2);
    SyncErrorsExact(Iso3, form.iso3);
    assert Value(form, Name) == form.name && Value(form, Iso2) == form.iso2 && Value(form, Iso3) == form.iso3;
  }
}
