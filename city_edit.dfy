/**
 * The client's city edit form: the latitude/longitude text validator, the
 * choice between add and edit mode from the route, the candidate city sent to
 * the duplicate check and the submit that issues a put or a post.
 */
module CityEdit {
  import opened Wrappers

  predicate IsDigit(c: char) {
    '0' <= c <= '9'
  }

  predicate AllDigits(s: string) {
    forall i :: 0 <= i < |s| ==> IsDigit(s[i])
  }

  // ---------------------------------------------------------------------------
  // The lat/lon pattern ^[-]?[0-9]+(\.[0-9]{1,4})?$

  /** The optional group `(\.[0-9]{1,4})?`: empty, or a point and one to four digits. */
  ghost predicate FractionPart(f: string) {
    f == [] || (f[0] == '.' && 2 <= |f| <= 5 && AllDigits(f[1..]))
  }

  /** `[0-9]+` followed by the optional fraction. */
  ghost predicate UnsignedText(u: string) {
    exists j :: 1 <= j <= |u| && AllDigits(u[..j]) && FractionPart(u[j..])
  }

  /** The language of the pattern: an optional leading minus, then an unsigned number. */
  ghost predicate CoordinateText(s: string) {
    UnsignedText(s) || (|s| >= 1 && s[0] == '-' && UnsignedText(s[1..]))
  }

  /**
   * The pattern as a matcher reads it, one character at a time: before the
   * sign, after the sign, inside the integer digits, right after the point,
   * and after `digits` fractional digits; a character that fits nowhere
   * rejects the input for good.
   */
  datatype PatternState = Start | Signed | Whole | Point | Fraction(digits: nat) | Reject

  function Step(q: PatternState, c: char): PatternState {
    match q
    case Start => if c == '-' then Signed else if IsDigit(c) then Whole else Reject
    case Signed => if IsDigit(c) then Whole else Reject
    case Whole => if IsDigit(c) then Whole else if c == '.' then Point else Reject
    case Point => if IsDigit(c) then Fraction(1) else Reject
    case Fraction(n) => if IsDigit(c) && n < 4 then Fraction(n + 1) else Reject
    case Reject => Reject
  }

  function Run(q: PatternState, s: string): PatternState
    decreases |s|
  {
    if s == [] then q else Run(Step(q, s[0]), s[1..])
  }

  predicate Accepting(q: PatternState) {
    q == Whole || (q.Fraction? && 1 <= q.digits <= 4)
  }

  /** Whether the lat/lon text matches the pattern. */
  predicate MatchesCoordinate(s: string): (b: bool)
    ensures b ==> s != [] && (s[0] == '-' || IsDigit(s[0]))
  {
    if s != [] && s[0] != '-' && !IsDigit(s[0]) then
      RunFromReject(s[1..]);
      false
    else Accepting(Run(Start, s))
  }

  /** Digits, then the optional fraction (the integer part with its first digit taken off). */
  ghost predicate DigitsThenFraction(u: string) {
    exists j :: 0 <= j <= |u| && AllDigits(u[..j]) && FractionPart(u[j..])
  }

  lemma {:induction false} RunFromReject(s: string)
    ensures Run(Reject, s) == Reject
    decreases |s|
  {
    if s != [] {
      RunFromReject(s[1..]);
    }
  }

  lemma {:induction false} RunFromFraction(n: nat, s: string)
    requires 1 <= n <= 4
    ensures Accepting(Run(Fraction(n), s)) <==> AllDigits(s) && n + |s| <= 4
    decreases |s|
  {
    if s != [] {
      assert AllDigits(s) <==> IsDigit(s[0]) && AllDigits(s[1..]) by {
        if IsDigit(s[0]) && AllDigits(s[1..]) {
          forall i | 0 <= i < |s| ensures IsDigit(s[i]) {
            if i > 0 { assert s[i] == s[1..][i - 1]; }
          }
        }
      }
      if IsDigit(s[0]) && n < 4 {
        RunFromFraction(n + 1, s[1..]);
      } else {
        RunFromReject(s[1..]);
      }
    }
  }

  lemma RunFromPoint(s: string)
    ensures Accepting(Run(Point, s)) <==> 1 <= |s| <= 4 && AllDigits(s)
  {
    if s != [] {
      if IsDigit(s[0]) {
        RunFromFraction(1, s[1..]);
        assert AllDigits(s) <==> AllDigits(s[1..]) by {
          if AllDigits(s[1..]) {
            forall i | 0 <= i < |s| ensures IsDigit(s[i]) {
              if i > 0 { assert s[i] == s[1..][i - 1]; }
            }
          }
        }
      } else {
        RunFromReject(s[1..]);
      }
    }
  }

  /** A split of `u` into digits and a fraction cannot start at 0 unless `u` is empty or starts with a point. */
  lemma FractionAtStart(u: string)
    requires u != [] && u[0] != '.'
    ensures DigitsThenFraction(u) <==> DigitsThenFraction(u[1..]) && IsDigit(u[0])
  {
    if DigitsThenFraction(u) {
      var j :| 0 <= j <= |u| && AllDigits(u[..j]) && FractionPart(u[j..]);
      assert j != 0 by { assert u[0..] == u; }
      assert IsDigit(u[..j][0]);
      assert u[1..][..j - 1] == u[1..j];
      var digits := u[1..][..j - 1];
      assert AllDigits(digits) by {
        forall i | 0 <= i < |digits| ensures IsDigit(digits[i]) {
          assert digits[i] == u[..j][i + 1];
        }
      }
      assert u[1..][j - 1..] == u[j..];
    }
    if DigitsThenFraction(u[1..]) && IsDigit(u[0]) {
      var j :| 0 <= j <= |u[1..]| && AllDigits(u[1..][..j]) && FractionPart(u[1..][j..]);
      var digits := u[..j + 1];
      assert AllDigits(digits) by {
        forall i | 0 <= i < |digits| ensures IsDigit(digits[i]) {
          if i > 0 { assert digits[i] == u[1..][..j][i - 1]; }
        }
      }
      assert u[j + 1..] == u[1..][j..];
    }
  }

  lemma {:induction false} RunFromWhole(u: string)
    ensures Accepting(Run(Whole, u)) <==> DigitsThenFraction(u)
    decreases |u|
  {
    if u == [] {
      assert AllDigits(u[..0]) && FractionPart(u[0..]);
    } else if IsDigit(u[0]) {
      RunFromWhole(u[1..]);
      FractionAtStart(u);
    } else if u[0] == '.' {
      RunFromPoint(u[1..]);
      // Only the split at 0 can work, and there the whole of u is the fraction.
      forall j | 1 <= j <= |u| ensures !AllDigits(u[..j]) {
        assert u[..j][0] == '.';
      }
      assert DigitsThenFraction(u) <==> FractionPart(u) by {
        if FractionPart(u) {
          assert AllDigits(u[..0]) && u[0..] == u;
        }
        if DigitsThenFraction(u) {
          var j :| 0 <= j <= |u| && AllDigits(u[..j]) && FractionPart(u[j..]);
          assert j == 0;
          assert u[j..] == u;
        }
      }
    } else {
      RunFromReject(u[1..]);
      FractionAtStart(u);
    }
  }

  /** `[0-9]+` is a first digit followed by `[0-9]*`. */
  lemma UnsignedSplit(u: string)
    ensures UnsignedText(u) <==> u != [] && IsDigit(u[0]) && DigitsThenFraction(u[1..])
  {
    if UnsignedText(u) {
      var j :| 1 <= j <= |u| && AllDigits(u[..j]) && FractionPart(u[j..]);
      assert IsDigit(u[..j][0]);
      var digits := u[1..][..j - 1];
      assert AllDigits(digits) by {
        forall i | 0 <= i < |digits| ensures IsDigit(digits[i]) {
          assert digits[i] == u[..j][i + 1];
        }
      }
      assert u[1..][j - 1..] == u[j..];
    }
    if u != [] && IsDigit(u[0]) && DigitsThenFraction(u[1..]) {
      var j :| 0 <= j <= |u[1..]| && AllDigits(u[1..][..j]) && FractionPart(u[1..][j..]);
      var digits := u[..j + 1];
      assert AllDigits(digits) by {
        forall i | 0 <= i < |digits| ensures IsDigit(digits[i]) {
          if i > 0 { assert digits[i] == u[1..][..j][i - 1]; }
        }
      }
      assert u[j + 1..] == u[1..][j..];
    }
  }

  /** The matcher accepts exactly the language of the pattern. */
  lemma MatchesCoordinateIff(s: string)
    ensures MatchesCoordinate(s) <==> CoordinateText(s)
  {
    UnsignedSplit(s);
    if s != [] {
      var t := s[1..];
      if s[0] == '-' {
        UnsignedSplit(t);
        assert Run(Start, s) == Run(Signed, t);
        if t != [] {
          assert Run(Signed, t) == Run(Step(Signed, t[0]), t[1..]);
          if IsDigit(t[0]) {
            RunFromWhole(t[1..]);
          } else {
            RunFromReject(t[1..]);
          }
        }
      } else if IsDigit(s[0]) {
        RunFromWhole(t);
      } else {
        RunFromReject(t);
      }
    }
  }

  /** A trailing point with no digits after it is rejected. */
  lemma RejectsTrailingPoint(w: string)
    ensures !MatchesCoordinate(w + ".")
  {
    var s := w + ".";
    MatchesCoordinateIff(s);
    NoUnsignedEndsInPoint(s);
    if |s| >= 2 {
      assert s[1..][|s[1..]| - 1] == '.';
      NoUnsignedEndsInPoint(s[1..]);
    }
  }

  lemma NoUnsignedEndsInPoint(u: string)
    requires u != [] && u[|u| - 1] == '.'
    ensures !UnsignedText(u)
  {
  }

  /** More than four fractional digits are rejected, signed or not. */
  lemma RejectsLongFraction(w: string, f: string)
    requires AllDigits(w) && AllDigits(f) && |f| > 4
    ensures !MatchesCoordinate(w + "." + f)
    ensures !MatchesCoordinate("-" + w + "." + f)
  {
    var u := w + "." + f;
    NoUnsignedLongFraction(w, f);
    MatchesCoordinateIff(u);
    if w != [] {
      assert u[0] == w[0];
    } else {
      assert u[0] == '.';
    }
    var v := "-" + u;
    assert v == "-" + w + "." + f;
    assert v[1..] == u;
    MatchesCoordinateIff(v);
    UnsignedSplit(v);
  }

  lemma NoUnsignedLongFraction(w: string, f: string)
    requires AllDigits(w) && AllDigits(f) && |f| > 4
    ensures !UnsignedText(w + "." + f)
  {
    var u := w + "." + f;
    forall j | 1 <= j <= |u| ensures !(AllDigits(u[..j]) && FractionPart(u[j..])) {
      if j > |w| {
        assert u[..j][|w|] == '.';
      } else if j < |w| {
        assert u[j..][0] == w[j];
      } else {
        assert |u[j..]| == 1 + |f|;
      }
    }
  }

  /** A leading plus sign is rejected. */
  lemma RejectsLeadingPlus(s: string)
    ensures !MatchesCoordinate("+" + s)
  {
    var p := "+" + s;
    assert p[1..] == s;
    RunFromReject(s);
  }

  /** Integer parts of any length, optionally signed, with up to four fractional digits are accepted. */
  lemma AcceptsDecimal(w: string, f: string)
    requires w != [] && AllDigits(w) && AllDigits(f) && |f| <= 4
    ensures MatchesCoordinate(w)
    ensures f != [] ==> MatchesCoordinate(w + "." + f) && MatchesCoordinate("-" + w + "." + f)
  {
    assert w[..|w|] == w && w[|w|..] == [];
    MatchesCoordinateIff(w);
    if f != [] {
      var u := w + "." + f;
      assert u[..|w|] == w;
      assert u[|w|..] == "." + f && ("." + f)[1..] == f;
      assert UnsignedText(u);
      MatchesCoordinateIff(u);
      var v := "-" + u;
      assert v == "-" + w + "." + f;
      assert v[1..] == u;
      MatchesCoordinateIff(v);
    }
  }

  // ---------------------------------------------------------------------------
  // The lat and lon controls: Validators.required, then Validators.pattern,
  // which lets an empty value through and leaves it to required.

  datatype ControlErrors = ControlErrors(required: bool, pattern: bool)

  function CoordinateControlErrors(s: string): (e: ControlErrors)
    ensures e.required <==> s == []
    ensures e.pattern <==> s != [] && !CoordinateText(s)
  {
    MatchesCoordinateIff(s);
    ControlErrors(s == [], s != [] && !MatchesCoordinate(s))
  }

  /** A lat or lon control is valid exactly when its text is in the pattern's language. */
  lemma CoordinateControlValid(s: string)
    ensures CoordinateControlErrors(s) == ControlErrors(false, false) <==> CoordinateText(s)
  {
    if s == [] {
      assert !UnsignedText(s);
    }
  }

  // ---------------------------------------------------------------------------
  // The route id and the mode.

  /** The value of a string of decimal digits. */
  function DecimalValue(s: string): nat
    requires AllDigits(s)
    decreases |s|
  {
    if s == [] then 0 else 10 * DecimalValue(s[..|s| - 1]) + (s[|s| - 1] as int - '0' as int)
  }

  lemma {:induction false} DecimalValueZero(s: string)
    requires AllDigits(s)
    ensures DecimalValue(s) == 0 <==> forall i :: 0 <= i < |s| ==> s[i] == '0'
    decreases |s|
  {
    if s != [] {
      var init := s[..|s| - 1];
      DecimalValueZero(init);
      if forall i :: 0 <= i < |s| ==> s[i] == '0' {
        assert forall i :: 0 <= i < |init| ==> init[i] == '0';
      }
      if DecimalValue(s) == 0 {
        forall i | 0 <= i < |s| ensures s[i] == '0' {
          if i < |init| { assert s[i] == init[i]; }
        }
      }
    }
  }

  /** The decimal text of `n`, as a link to a city's edit route spells its id. */
  function NatToDecimal(n: nat): (s: string)
    ensures s != [] && AllDigits(s)
    decreases n
  {
    var last := [('0' as int + n % 10) as char];
    if n < 10 then last else NatToDecimal(n / 10) + last
  }

  /** Reading a decimal text back gives the number it spells. */
  lemma {:induction false} DecimalValueOfNatToDecimal(n: nat)
    ensures DecimalValue(NatToDecimal(n)) == n
    decreases n
  {
    var s := NatToDecimal(n);
    if n >= 10 {
      DecimalValueOfNatToDecimal(n / 10);
      assert s[..|s| - 1] == NatToDecimal(n / 10);
    } else {
      assert s[..|s| - 1] == [];
    }
  }

  /**
   * Unary `+` on the route parameter, for texts made of decimal digits; any
   * other text is taken to be NaN, written None.
   */
  function ToNumber(s: string): (r: Option<int>)
    ensures r.Some? <==> AllDigits(s)
    ensures r.Some? ==> r.value >= 0
  {
    if AllDigits(s) then Some(DecimalValue(s)) else None
  }

  /**
   * `idParam ? +idParam : 0`. The component's id is None when it holds no
   * number: before the route is read, or when the conversion gives NaN.
   */
  function RouteId(idParam: Option<string>): (id: Option<int>)
    ensures idParam.None? || idParam == Some("") ==> id == Some(0)
  {
    if idParam.None? || idParam.value == "" then Some(0) else ToNumber(idParam.value)
  }

  /** A route that spells an id in decimal gives back that id. */
  lemma RouteIdOfDecimal(n: nat)
    ensures ToNumber(NatToDecimal(n)) == Some(n)
    ensures RouteId(Some(NatToDecimal(n))) == Some(n)
    ensures IsEditMode(RouteId(Some(NatToDecimal(n)))) <==> n != 0
  {
    DecimalValueOfNatToDecimal(n);
  }

  /** The id is truthy: it is not undefined, NaN or 0. */
  predicate IsEditMode(id: Option<int>) {
    id.Some? && id.value != 0
  }

  /** Edit mode is chosen exactly when the route carries digits that are not all zero. */
  lemma EditModeIff(idParam: Option<string>)
    ensures IsEditMode(RouteId(idParam)) <==>
              idParam.Some? && AllDigits(idParam.value)
              && exists i :: 0 <= i < |idParam.value| && idParam.value[i] != '0'
  {
    if idParam.Some? && AllDigits(idParam.value) {
      DecimalValueZero(idParam.value);
    }
  }

  const AddTitle: string := "Create a new City"

  function EditTitle(name: string): (t: string)
    ensures |t| == 7 + |name| && t[..7] == "Edit - " && t[7..] == name
  {
    "Edit - " + name
  }

  /** The title tells the two modes apart, and the edit title gives back the city's name. */
  lemma TitleTellsMode(name: string, other: string)
    ensures EditTitle(name) != AddTitle
    ensures EditTitle(name) == EditTitle(other) ==> name == other
  {
    assert EditTitle(name)[0] == 'E' != AddTitle[0];
    if EditTitle(name) == EditTitle(other) {
      assert name == EditTitle(name)[7..] == EditTitle(other)[7..] == other;
    }
  }

  // ---------------------------------------------------------------------------
  // The city, the form model, the duplicate check and the submit.

  /** A city as the client sends and receives it; lat and lon are kept as the text the form holds. */
  datatype City = City(id: int, name: string, lat: string, lon: string, countryId: int)

  /** The form's controls: name, lat, lon, and the selected country id (None while nothing is selected). */
  datatype CityForm = CityForm(name: string, lat: string, lon: string, countryId: Option<int>)

  const EmptyForm: CityForm := CityForm("", "", "", None)

  /** A city object built from `<City>{}`: an id that was never set reaches the server as 0. */
  const BlankCity: City := City(0, "", "", "", 0)

  /** `+` on the country control: the empty initial value gives 0. */
  function CountryIdNumber(v: Option<int>): (n: int)
    ensures v.Some? ==> n == v.value
    ensures v.None? ==> n == 0
  {
    match v
    case None => 0
    case Some(n) => n
  }

  /** The city carries the form's four values. */
  predicate Carries(c: City, form: CityForm) {
    && c.name == form.name
    && c.lat == form.lat
    && c.lon == form.lon
    && c.countryId == CountryIdNumber(form.countryId)
  }

  /** The city the duplicate check is asked about. */
  function DupeCandidate(id: Option<int>, form: CityForm): (c: City)
    ensures Carries(c, form)
    ensures c.id != 0 <==> IsEditMode(id)
    ensures c.id != 0 ==> id == Some(c.id)
  {
    City(if IsEditMode(id) then id.value else 0,
         form.name, form.lat, form.lon, CountryIdNumber(form.countryId))
  }

  /** The form-level error object `{ isDupeCity: true }`. */
  datatype ValidationErrors = ValidationErrors(isDupeCity: bool)

  /** The async validator's answer for the server's result: an error on a duplicate, none otherwise. */
  function DupeErrors(isDupe: bool): (e: Option<ValidationErrors>)
    ensures e.Some? <==> isDupe
    ensures e.Some? ==> e.value.isDupeCity
  {
    if isDupe then Some(ValidationErrors(true)) else None
  }

  /** The request the submit sends. */
  datatype SubmitRequest = Put(city: City) | Post(city: City) | NothingSent

  /** `base` with the form's four values written over it. */
  function WithFormValues(base: City, form: CityForm): (c: City)
    ensures Carries(c, form) && c.id == base.id
  {
    base.(name := form.name, lat := form.lat, lon := form.lon,
          countryId := CountryIdNumber(form.countryId))
  }

  /** What the submit sends from a given component state. */
  function Submission(id: Option<int>, loaded: Option<City>, form: CityForm): (r: SubmitRequest)
    ensures r.Put? <==> IsEditMode(id) && loaded.Some?
    ensures r.Post? <==> !IsEditMode(id)
    ensures r.Put? ==> r.city.id == loaded.value.id
    ensures r.Post? ==> r.city == City(0, form.name, form.lat, form.lon, CountryIdNumber(form.countryId))
    ensures !r.NothingSent? ==> Carries(r.city, form)
  {
    if !IsEditMode(id) then Post(WithFormValues(BlankCity, form))
    else match loaded
      case None => NothingSent
      case Some(c) => Put(WithFormValues(c, form))
  }

  /**
   * The duplicate check is asked about exactly the city that is submitted,
   * once the loaded city is the one the route named.
   */
  lemma CandidateIsSubmitted(id: Option<int>, loaded: Option<City>, form: CityForm)
    requires IsEditMode(id) && loaded.Some? ==> Some(loaded.value.id) == id
    ensures var r := Submission(id, loaded, form);
            !r.NothingSent? ==> DupeCandidate(id, form) == r.city
  {
  }

  /** The component's fields that the model follows. */
  class CityEditComponent {
    var title: Option<string>
    var city: Option<City>
    var id: Option<int>
    var form: CityForm

    /** The component as ngOnInit leaves it before loadData: an empty form and nothing loaded. */
    constructor ()
      ensures title == None && city == None && id == None && form == EmptyForm
    {
      title := None;
      city := None;
      id := None;
      form := EmptyForm;
    }

    /**
     * loadData: reads the id from the route; in add mode sets the title, in
     * edit mode returns the id of the city to fetch (see OnCityFetched).
     */
    method LoadData(idParam: Option<string>) returns (fetch: Option<int>)
      modifies this
      ensures id == RouteId(idParam)
      ensures fetch.Some? <==> IsEditMode(id)
      ensures fetch.Some? ==> id == fetch
      ensures IsEditMode(id) ==> title == old(title)
      ensures !IsEditMode(id) ==> title == Some(AddTitle)
      ensures city == old(city) && form == old(form)
    {
      id := RouteId(idParam);
      if IsEditMode(id) {
        fetch := id;
      } else {
        fetch := None;
        title := Some(AddTitle);
      }
    }

    /** The fetched city arrives: it is stored, titles the view and is patched into the form. */
    method OnCityFetched(result: City)
      modifies this
      ensures city == Some(result) && title == Some(EditTitle(result.name))
      ensures form == CityForm(result.name, result.lat, result.lon, Some(result.countryId))
      ensures id == old(id)
    {
      city := Some(result);
      title := Some(EditTitle(result.name));
      form := CityForm(result.name, result.lat, result.lon, Some(result.countryId));
    }

    /**
     * onSubmit: in edit mode the loaded city object itself is overwritten with
     * the form's values and put; in add mode a new object is posted; in edit
     * mode before the city has arrived nothing is sent.
     */
    method OnSubmit() returns (req: SubmitRequest)
      modifies this
      ensures req == Submission(old(id), old(city), old(form))
      ensures req.Put? ==> city == Some(req.city)
      ensures !req.Put? ==> city == old(city)
      ensures id == old(id) && title == old(title) && form == old(form)
    {
      var target := if IsEditMode(id) then city else Some(BlankCity);
      if target.None? {
        return NothingSent;
      }
      var c := target.value;
      c := c.(name := form.name);
      c := c.(lat := form.lat);
      c := c.(lon := form.lon);
      c := c.(countryId := CountryIdNumber(form.countryId));
      if IsEditMode(id) {
        city := Some(c);
        req := Put(c);
      } else {
        req := Post(c);
      }
    }

  }
}
