/**
 * The pure parts of CityEditComponent: the coordinate pattern, the required
 * controls and the request the form-group level isDupeCity validator sends.
 */
module CityEdit {
  import opened Wrappers
  import opened Text
  import opened Forms

  predicate AllDigits(s: string) {
    forall i :: 0 <= i < |s| ==> IsAsciiDigit(s[i])
  }

  /** The optional tail `(\.[0-9]{1,4})?`: nothing, or '.' and one to four digits. */
  predicate IsFraction(f: string) {
    f == [] || (f[0] == '.' && 2 <= |f| <= 5 && AllDigits(f[1..]))
  }

  /**
   * `^[-]?[0-9]+(\.[0-9]{1,4})?$` read as a grammar: the whole text splits into
   * an optional minus sign, one or more digits and an optional fraction.
   */
  ghost predicate MatchesCoordinatePattern(s: string) {
    exists sign: string, whole: string, fraction: string ::
      && s == sign + whole + fraction
      && (sign == [] || sign == ['-'])
      && |whole| >= 1 && AllDigits(whole)
      && IsFraction(fraction)
  }

  /** The length of the run of digits that starts the text. */
  function LeadingDigits(s: string): (n: nat)
    ensures n <= |s|
    ensures forall i :: 0 <= i < n ==> IsAsciiDigit(s[i])
    ensures n < |s| ==> !IsAsciiDigit(s[n])
  {
    if s == [] || !IsAsciiDigit(s[0]) then 0 else 1 + LeadingDigits(s[1..])
  }

  /** The same pattern matched left to right, the way the regular expression engine reads it. */
  predicate IsCoordinate(s: string) {
    var body := Unsigned(s);
    var n := LeadingDigits(body);
    n >= 1 && IsFraction(body[n..])
  }

  /** The text after an optional leading minus sign. */
  function Unsigned(s: string): (body: string)
    ensures |body| <= |s|
  {
    if |s| > 0 && s[0] == '-' then s[1..] else s
  }

  /** Digits followed by nothing or by a '.' are read as a run of exactly that length. */
  lemma LeadingDigitsOfSplit(whole: string, fraction: string)
    requires AllDigits(whole)
    requires fraction == [] || fraction[0] == '.'
    ensures LeadingDigits(whole + fraction) == |whole|
  {
    var body := whole + fraction;
    var n := LeadingDigits(body);
    assert forall i :: 0 <= i < |whole| ==> body[i] == whole[i];
    assert |whole| < |body| ==> body[|whole|] == '.';
  }

  lemma CoordinateMatchesPattern(s: string)
    requires IsCoordinate(s)
    ensures MatchesCoordinatePattern(s)
  {
    var body := Unsigned(s);
    var sign := s[..|s| - |body|];
    var n := LeadingDigits(body);
    var whole, fraction := body[..n], body[n..];
    assert s == sign + whole + fraction;
    assert AllDigits(whole);
  }

  lemma PatternIsCoordinate(s: string, sign: string, whole: string, fraction: string)
    requires s == sign + whole + fraction
    requires sign == [] || sign == ['-']
    requires |whole| >= 1 && AllDigits(whole)
    requires IsFraction(fraction)
    ensures IsCoordinate(s)
  {
    var body := whole + fraction;
    assert s == sign + body;
    assert body[0] == whole[0];
    assert Unsigned(s) == body;
    LeadingDigitsOfSplit(whole, fraction);
    assert body[|whole|..] == fraction;
  }

  /** The matcher accepts exactly the texts the pattern describes. */
  lemma CoordinatePatternExact(s: string)
    ensures IsCoordinate(s) <==> MatchesCoordinatePattern(s)
  {
    if IsCoordinate(s) {
      CoordinateMatchesPattern(s);
    }
    if MatchesCoordinatePattern(s) {
      var sign: string, whole: string, fraction: string :|
        && s == sign + whole + fraction
        && (sign == [] || sign == ['-'])
        && |whole| >= 1 && AllDigits(whole)
        && IsFraction(fraction);
      PatternIsCoordinate(s, sign, whole, fraction);
    }
  }

  /** The optional fraction: a '.' first, then one to four digits. */
  lemma FractionShape(f: string)
    requires IsFraction(f)
    ensures |f| <= 5 && (f != [] ==> f[0] == '.' && |f| >= 2)
    ensures forall j :: 1 <= j < |f| ==> IsAsciiDigit(f[j])
  {
    if f != [] {
      assert forall j :: 1 <= j < |f| ==> f[j] == f[1..][j - 1];
    }
  }

  /** The text after the sign: digits first and last, a '.' only before one to four digits. */
  lemma UnsignedShape(body: string)
    requires LeadingDigits(body) >= 1 && IsFraction(body[LeadingDigits(body)..])
    ensures |body| >= 1 && IsAsciiDigit(body[0]) && IsAsciiDigit(body[|body| - 1])
    ensures forall i :: 0 <= i < |body| ==> IsAsciiDigit(body[i]) || body[i] == '.'
    ensures forall i :: 0 <= i < |body| && body[i] == '.' ==> 1 <= |body| - 1 - i <= 4
  {
    var n := LeadingDigits(body);
    var fraction := body[n..];
    FractionShape(fraction);
    forall i | n <= i < |body|
      ensures body[i] == fraction[i - n]
      ensures IsAsciiDigit(body[i]) || (i == n && body[i] == '.' && |body| - 1 - i == |fraction| - 1)
    {
    }
  }

  /**
   * What an accepted coordinate looks like: it starts with '-' or a digit (so
   * a leading '+' is rejected), it ends with a digit (so a trailing '.' is
   * rejected), a '-' can only come first, and a '.' has one to four
   * characters after it (so five or more fraction digits are rejected).
   */
  lemma CoordinateShape(s: string)
    requires IsCoordinate(s)
    ensures |s| >= 1 && (s[0] == '-' || IsAsciiDigit(s[0]))
    ensures IsAsciiDigit(s[|s| - 1])
    ensures forall i :: 0 < i < |s| ==> s[i] != '-'
    ensures forall i :: 0 <= i < |s| && s[i] == '.' ==> 1 <= |s| - 1 - i <= 4
    ensures forall i :: 0 <= i < |s| ==> IsAsciiDigit(s[i]) || s[i] == '.' || s[i] == '-'
  {
    var body := Unsigned(s);
    var k := |s| - |body|;
    UnsignedShape(body);
    assert forall i :: k <= i < |s| ==> s[i] == body[i - k];
  }

  /** The two coordinate controls: required plus the pattern. */
  function CoordinateErrors(value: string): Errors {
    Required(value) + Pattern(value, IsCoordinate(value))
  }

  /**
   * A coordinate control is valid exactly when its text matches the pattern;
   * empty text reports only "required", other non-matching text only "pattern".
   */
  lemma CoordinateControl(value: string)
    ensures CoordinateErrors(value) == {} <==> MatchesCoordinatePattern(value)
    ensures value == "" ==> CoordinateErrors(value) == {"required"}
    ensures value != "" && !MatchesCoordinatePattern(value) ==> CoordinateErrors(value) == {"pattern"}
  {
    CoordinatePatternExact(value);
    if value == "" {
      assert LeadingDigits(value) == 0;
    }
  }

  /** The four controls of the form, as the text each holds. */
  datatype CityForm = CityForm(name: string, lat: string, lon: string, countryId: string)

  datatype CityControl = Name | Lat | Lon | CountryId

  function ControlErrors(form: CityForm, control: CityControl): Errors {
    match control
    case Name => Required(form.name)
    case Lat => CoordinateErrors(form.lat)
    case Lon => CoordinateErrors(form.lon)
    case CountryId => Required(form.countryId)
  }

  predicate ControlsValid(form: CityForm) {
    forall control :: ControlErrors(form, control) == {}
  }

  /**
   * Every control passes exactly when the name and the country are filled in
   * and both coordinates match the pattern.
   */
  lemma CityFormValid(form: CityForm)
    ensures ControlsValid(form) <==>
      && form.name != "" && form.countryId != ""
      && MatchesCoordinatePattern(form.lat) && MatchesCoordinatePattern(form.lon)
  {
    CoordinateControl(form.lat);
    CoordinateControl(form.lon);
    assert ControlErrors(form, Name) == Required(form.name);
    assert ControlErrors(form, Lat) == CoordinateErrors(form.lat);
    assert ControlErrors(form, Lon) == CoordinateErrors(form.lon);
    assert ControlErrors(form, CountryId) == Required(form.countryId);
  }

  /**
   * The city sent to isDupeCity. The coordinates and the country are carried
   * as the texts the controls hold; the numeric conversion is not modelled.
   */
  datatype CityCandidate = CityCandidate(id: int, name: string, lat: string, lon: string, countryId: string)

  /** `(this.id) ? this.id : 0`, where None is an id not yet assigned. */
  function ExcludeId(id: Option<int>): int {
    match id
    case None => 0
    case Some(n) => if n != 0 then n else 0
  }

  /**
   * The form-group validator: Angular runs it only when every control is
   * valid, and it then sends the candidate built from the form.
   */
  function IsDupeCityRequest(id: Option<int>, form: CityForm): Option<CityCandidate> {
    if ControlsValid(form) then Some(CityCandidate(ExcludeId(id), form.name, form.lat, form.lon, form.countryId))
    else None
  }

  /**
   * After the route is read, the request is sent exactly when the controls
   * are valid; it excludes the edited city's id, or 0 when creating, and
   * carries the four natural-key fields of the form.
   */
  lemma DupeCityCandidate(idParam: Option<int>, form: CityForm)
    ensures
      var r := IsDupeCityRequest(Some(RouteId(idParam)), form);
      && (r.Some? <==>
          form.name != "" && form.countryId != ""
          && MatchesCoordinatePattern(form.lat) && MatchesCoordinatePattern(form.lon))
      && (r.Some? ==>
          && r.value.id == (if idParam.Some? then idParam.value else 0)
          && r.value.name == form.name && r.value.lat == form.lat
          && r.value.lon == form.lon && r.value.countryId == form.countryId)
  {
    CityFormValid(form);
  }

  /** The group's own errors: `{isDupeCity: true}` on a true answer, null otherwise. */
  function GroupErrors(answer: bool): Errors {
    DupeErrors(answer, "isDupeCity")
  }

  /**
   * The form settles valid exactly when every control passes and the
   * group-level duplicate check, which runs only then, answers false: the name
   * and the country are filled in, both coordinates match the pattern, and the
   * server finds no such city. A true answer leaves only "isDupeCity".
   */
  lemma CityFormSettledValid(form: CityForm, answer: bool)
    ensures ControlsValid(form) && GroupErrors(answer) == {} <==>
      && form.name != "" && form.countryId != ""
      && MatchesCoordinatePattern(form.lat) && MatchesCoordinatePattern(form.lon)
      && !answer
    ensures ControlsValid(form) && answer ==> GroupErrors(answer) == {"isDupeCity"}
  {
    CityFormValid(form);
  }
}
