/**
 * The filter bar: which of the seven filters count as active, whether the
 * "Clear filters" button is offered, and how each select encodes the current
 * filter value and decodes the option the user picks ("All" is `""`, which
 * means unset).
 */
module FilterBar {
  import opened Wrappers
  import opened JsText

  /** The filter state; `None` is an unset (`null`) field. */
  datatype Filters = Filters(
    year: Option<JsNumber>,
    make: Option<string>,
    model: Option<string>,
    vehicleType: Option<string>,
    county: Option<string>,
    city: Option<string>,
    state: Option<string>)

  /** The six text-valued filters. */
  datatype TextKey = Make | Model | VehicleType | County | City | State

  /** One select of the bar: the year select or the select of a text filter. */
  datatype Select = YearSelect | TextSelect(key: TextKey)

  /** A call `onFilterChange(key, value)`. */
  datatype Change = SetYear(year: Option<JsNumber>) | SetText(key: TextKey, text: Option<string>)

  const NoFilters: Filters := Filters(None, None, None, None, None, None, None)

  function TextField(f: Filters, k: TextKey): Option<string> {
    match k
    case Make => f.make
    case Model => f.model
    case VehicleType => f.vehicleType
    case County => f.county
    case City => f.city
    case State => f.state
  }

  /** A text filter counts as active when it is set to a non-empty string. */
  predicate TextActive(v: Option<string>) {
    v.Some? && v.value != ""
  }

  /** The seven flags of `hasActive`, in the order the bar lists them. */
  function ActiveFlags(f: Filters): seq<bool> {
    [ f.year.Some?,
      TextActive(f.make), TextActive(f.model), TextActive(f.vehicleType),
      TextActive(f.county), TextActive(f.city), TextActive(f.state) ]
  }

  /** `Array.prototype.some(Boolean)` over a list of flags. */
  predicate AnyTrue(flags: seq<bool>) {
    flags != [] && (flags[0] || AnyTrue(flags[1..]))
  }

  lemma {:induction false} AnyTrueIff(flags: seq<bool>)
    ensures AnyTrue(flags) <==> exists i :: 0 <= i < |flags| && flags[i]
  {
    if flags != [] {
      AnyTrueIff(flags[1..]);
      if exists i :: 0 <= i < |flags| && flags[i] {
        var i :| 0 <= i < |flags| && flags[i];
        assert i == 0 || flags[1..][i - 1];
      }
    }
  }

  predicate HasActive(f: Filters)
    ensures HasActive(f) <==> exists i :: 0 <= i < 7 && ActiveFlags(f)[i]
    ensures f.year.Some? ==> HasActive(f)
  {
    AnyTrueIff(ActiveFlags(f));
    AnyTrue(ActiveFlags(f))
  }

  /**
   * `hasActive` holds exactly when the year is set (whatever its value) or
   * some text filter is set to a non-empty string.
   */
  lemma HasActiveIff(f: Filters)
    ensures HasActive(f) <==> f.year.Some? || exists k :: TextActive(TextField(f, k))
  {
    var flags := ActiveFlags(f);
    AnyTrueIff(flags);
    if exists k :: TextActive(TextField(f, k)) {
      var k :| TextActive(TextField(f, k));
      match k
      case Make => assert flags[1];
      case Model => assert flags[2];
      case VehicleType => assert flags[3];
      case County => assert flags[4];
      case City => assert flags[5];
      case State => assert flags[6];
    }
    if HasActive(f) && !f.year.Some? {
      var i :| 0 <= i < |flags| && flags[i];
      if i == 1 { assert TextActive(TextField(f, Make)); }
      else if i == 2 { assert TextActive(TextField(f, Model)); }
      else if i == 3 { assert TextActive(TextField(f, VehicleType)); }
      else if i == 4 { assert TextActive(TextField(f, County)); }
      else if i == 5 { assert TextActive(TextField(f, City)); }
      else if i == 6 { assert TextActive(TextField(f, State)); }
    }
  }

  /** With every filter unset nothing is active. */
  lemma NoFiltersInactive()
    ensures !HasActive(NoFilters)
  {
    HasActiveIff(NoFilters);
  }

  /** A set year is active whatever its value, even NaN or 0. */
  lemma YearAlwaysActive(f: Filters)
    requires f.year.Some?
    ensures HasActive(f)
  {
    HasActiveIff(f);
  }

  /** Text filters set to `""` do not make the bar active. */
  lemma EmptyTextInactive(f: Filters)
    requires f.year == None
    requires forall k :: TextField(f, k) == None || TextField(f, k) == Some("")
    ensures !HasActive(f)
  {
    HasActiveIff(f);
  }

  /** "Clear filters" is offered when the bar is enabled and some filter is active. */
  predicate ClearButtonShown(f: Filters, disabled: bool)
    ensures disabled ==> !ClearButtonShown(f, disabled)
    ensures ClearButtonShown(f, disabled) ==> HasActive(f)
  {
    !disabled && HasActive(f)
  }

  /**
   * The button is offered exactly when the bar is enabled and the year is set
   * or some text filter holds a non-empty string.
   */
  lemma ClearButtonOffered(f: Filters, disabled: bool)
    ensures ClearButtonShown(f, disabled) <==>
      !disabled && (f.year.Some? || exists k :: TextActive(TextField(f, k)))
  {
    HasActiveIff(f);
  }

  // ---------------------------------------------------------------------------
  // Select encoding and decoding

  /** The `value` of the year select: `String(year)`, or `""` when unset. */
  function YearSelectValue(year: Option<JsNumber>): (v: string)
    ensures v == "" <==> year == None
  {
    match year
    case None => ""
    case Some(x) => NumberToString(x)
  }

  /** The `value` of a text select: `filter ?? ""`. */
  function TextSelectValue(text: Option<string>): (v: string)
    ensures text == None ==> v == ""
    ensures text.Some? ==> v == text.value
  {
    match text
    case None => ""
    case Some(s) => s
  }

  /** The value a select shows; "All" (`""`) exactly when its filter is not active (or, for the year, unset). */
  function SelectValue(f: Filters, sel: Select): (v: string)
    ensures sel == YearSelect ==> (v == "" <==> f.year == None)
    ensures sel.TextSelect? ==> (v == "" <==> !TextActive(TextField(f, sel.key)))
  {
    match sel
    case YearSelect => YearSelectValue(f.year)
    case TextSelect(k) => TextSelectValue(TextField(f, k))
  }

  /** The year select's `onChange`: "All" unsets the year, any other option is `Number(value)`. */
  function DecodeYear(value: string): (year: Option<JsNumber>)
    ensures year == None <==> value == ""
  {
    if value == "" then None else Some(Number(value))
  }

  /** A text select's `onChange`: "All" unsets the field, any other option is kept as it is. */
  function DecodeText(value: string): (text: Option<string>)
    ensures text == None <==> value == ""
    ensures value != "" ==> text == Some(value)
  {
    if value == "" then None else Some(value)
  }

  /** The `onFilterChange` call a select makes when option `value` is picked. */
  function OnSelect(sel: Select, value: string): (c: Change)
    ensures sel == YearSelect <==> c.SetYear?
    ensures c.SetYear? ==> (c.year == None <==> value == "")
    ensures sel.TextSelect? ==> c.SetText? && c.key == sel.key && c.text == (if value == "" then None else Some(value))
  {
    match sel
    case YearSelect => SetYear(DecodeYear(value))
    case TextSelect(k) => SetText(k, DecodeText(value))
  }

  /** The keyed update `{ ...filters, [key]: value }` an `onFilterChange` call asks for. */
  function Apply(f: Filters, c: Change): (g: Filters)
    ensures c.SetYear? ==> g.year == c.year && forall k :: TextField(g, k) == TextField(f, k)
    ensures c.SetText? ==> && TextField(g, c.key) == c.text && g.year == f.year
                           && forall k :: k != c.key ==> TextField(g, k) == TextField(f, k)
  {
    match c
    case SetYear(y) => f.(year := y)
    case SetText(Make, v) => f.(make := v)
    case SetText(Model, v) => f.(model := v)
    case SetText(VehicleType, v) => f.(vehicleType := v)
    case SetText(County, v) => f.(county := v)
    case SetText(City, v) => f.(city := v)
    case SetText(State, v) => f.(state := v)
  }

  /** Picking "All" in any select unsets that select's field. */
  lemma AllUnsets(f: Filters, sel: Select)
    ensures var g := Apply(f, OnSelect(sel, ""));
      match sel
      case YearSelect => g.year == None
      case TextSelect(k) => TextField(g, k) == None
  {
  }

  /**
   * Picking a non-empty text option sets that exact string under the select's
   * key and leaves every other filter as it was.
   */
  lemma TextOptionSetsOnlyItsKey(f: Filters, k: TextKey, value: string)
    requires value != ""
    ensures var g := Apply(f, OnSelect(TextSelect(k), value));
      && TextField(g, k) == Some(value)
      && g.year == f.year
      && forall other :: other != k ==> TextField(g, other) == TextField(f, other)
  {
  }

  /** Picking the year option `String(y)` sets the year to exactly `y` and nothing else. */
  lemma YearOptionRoundTrip(f: Filters, y: int)
    ensures var g := Apply(f, OnSelect(YearSelect, IntToString(y)));
      g == f.(year := Some(Finite(y)))
  {
    NumberOfNumberToString(Finite(y));
  }

  /** Every option the year select offers decodes to "unset" or to one of `years`. */
  lemma YearOptionsDecodeToYears(years: seq<int>, value: string)
    requires value == "" || exists y :: y in years && value == IntToString(y)
    ensures DecodeYear(value) == None || exists y :: y in years && DecodeYear(value) == Some(Finite(y))
  {
    if value != "" {
      var y :| y in years && value == IntToString(y);
      NumberOfNumberToString(Finite(y));
    }
  }

  /**
   * Re-picking the option a select currently shows changes nothing, except
   * that a text filter set to `""` comes back unset.
   */
  lemma ReselectRoundTrip(f: Filters, sel: Select)
    ensures var g := Apply(f, OnSelect(sel, SelectValue(f, sel)));
      match sel
      case YearSelect => g == f
      case TextSelect(k) => g == (if TextField(f, k) == Some("") then Apply(f, SetText(k, None)) else f)
  {
    if sel == YearSelect && f.year.Some? {
      NumberOfNumberToString(f.year.value);
    }
  }

  /** The value a select shows for an unset field is "All" (`""`). */
  lemma UnsetShowsAll(sel: Select)
    ensures SelectValue(NoFilters, sel) == ""
  {
  }

  /** After "Clear filters" the bar is inactive and every select shows "All". */
  lemma ClearedBar(disabled: bool, sel: Select)
    ensures !ClearButtonShown(NoFilters, disabled)
    ensures SelectValue(NoFilters, sel) == ""
  {
    NoFiltersInactive();
  }
}
