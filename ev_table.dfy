/**
 * The vehicle table's view-model: a case-insensitive, per-column search over
 * eight fixed columns, zero-based pagination by slicing, the table's UI state
 * (page, rows per page, search text) with its three change handlers, and the
 * two cell transforms (type abbreviation, range or dash).
 */
module EvTable {
  import opened JsText
  import TypeLabels

  /** One registered vehicle, restricted to the eight columns the table shows. */
  datatype Record = Record(
    county: string,
    city: string,
    state: string,
    modelYear: int,
    make: string,
    model: string,
    electricVehicleType: string,
    electricRange: int)

  datatype Column = County | City | State | ModelYear | Make | Model | ElectricVehicleType | ElectricRange

  /** The table's columns, in display order. */
  const Columns: seq<Column> := [County, City, State, ModelYear, Make, Model, ElectricVehicleType, ElectricRange]

  /** A column value as the search sees it: `null`/`undefined`, a string or a number. */
  datatype Cell = Absent | Str(text: string) | Num(number: int)

  function ColumnValue(row: Record, c: Column): Cell {
    match c
    case County => Str(row.county)
    case City => Str(row.city)
    case State => Str(row.state)
    case ModelYear => Num(row.modelYear)
    case Make => Str(row.make)
    case Model => Str(row.model)
    case ElectricVehicleType => Str(row.electricVehicleType)
    case ElectricRange => Num(row.electricRange)
  }

  /** The text a cell is searched as: `""` for an absent value, `String(value)` otherwise. */
  function CellText(v: Cell): string {
    match v
    case Absent => ""
    case Str(s) => s
    case Num(n) => IntToString(n)
  }

  /** An absent value never matches a non-empty term. */
  lemma AbsentNeverMatches(lower: string)
    requires lower != ""
    ensures !Includes(ToLowerCase(CellText(Absent)), lower)
  {
  }

  /** Column `c` of `row`, lowercased, contains the lowercased term `lower`. */
  predicate ColumnMatches(row: Record, c: Column, lower: string) {
    Includes(ToLowerCase(CellText(ColumnValue(row, c))), lower)
  }

  /** The search predicate: a blank term matches every row, otherwise some column must contain it. */
  predicate RowMatches(row: Record, searchTrim: string, columns: seq<Column>)
    ensures searchTrim == "" ==> RowMatches(row, searchTrim, columns)
    ensures searchTrim != "" ==>
      (RowMatches(row, searchTrim, columns) <==> exists c :: c in columns && ColumnMatches(row, c, ToLowerCase(searchTrim)))
  {
    searchTrim == "" || exists i :: 0 <= i < |columns| && ColumnMatches(row, columns[i], ToLowerCase(searchTrim))
  }

  /** The search ignores the case of the term: lowercasing it first changes no answer. */
  lemma SearchIsCaseInsensitive(row: Record, searchTrim: string, columns: seq<Column>)
    ensures RowMatches(row, searchTrim, columns) == RowMatches(row, ToLowerCase(searchTrim), columns)
  {
    ToLowerCaseIdempotent(searchTrim);
    assert searchTrim == "" <==> ToLowerCase(searchTrim) == "";
  }

  /** `rowMatchesSearch`: scans the columns in order and stops at the first that matches. */
  method RowMatchesSearch(row: Record, searchTrim: string, columns: seq<Column>) returns (matches: bool)
    ensures matches == RowMatches(row, searchTrim, columns)
  {
    if searchTrim == "" {
      return true;
    }
    var lower := ToLowerCase(searchTrim);
    for i := 0 to |columns|
      invariant forall j :: 0 <= j < i ==> !ColumnMatches(row, columns[j], lower)
    {
      var str := CellText(ColumnValue(row, columns[i]));
      if Includes(ToLowerCase(str), lower) {
        return true;
      }
    }
    return false;
  }

  /** Matching is per column: a term spanning two adjacent columns does not match. */
  lemma PerColumnNotConcatenation()
    ensures var row := Record("", "ab", "cd", 0, "", "", "", 0);
      && Includes(row.county + row.city + row.state, "bc")
      && !RowMatches(row, "bc", Columns)
  {
    var row := Record("", "ab", "cd", 0, "", "", "", 0);
    assert OccursAt(row.county + row.city + row.state, "bc", 1);
    IncludesIff(row.county + row.city + row.state, "bc");
    var lower := ToLowerCase("bc");
    assert lower == "bc";
    forall i | 0 <= i < |Columns|
      ensures !ColumnMatches(row, Columns[i], lower)
    {
      var text := ToLowerCase(CellText(ColumnValue(row, Columns[i])));
      if Columns[i] == ModelYear || Columns[i] == ElectricRange {
        assert AllDigits(IntToString(0));
        assert 'b' !in text;
        MissingFirstChar(text, lower);
      } else if Columns[i] == City {
        assert text == "ab";
        assert text[..2] != lower by { assert text[0] == 'a' && lower[0] == 'b'; }
        assert text[1..] == "b";
        assert !StartsWith(text[1..], lower) && !Includes(text[1..][1..], lower);
      } else if Columns[i] == State {
        assert text == "cd";
        MissingFirstChar(text, lower);
      } else {
        assert text == "";
      }
    }
  }

  /** `s` holds no letter x in either case. */
  predicate HasNoX(s: string) {
    forall j :: 0 <= j < |s| ==> s[j] != 'x' && s[j] != 'X'
  }

  /** A value without any letter x cannot contain the term "xyz123". */
  lemma NoXNoMatch(raw: string)
    requires HasNoX(raw)
    ensures !Includes(ToLowerCase(raw), "xyz123")
  {
    MissingFirstChar(ToLowerCase(raw), "xyz123");
  }

  /** `String(n)` of a natural number is digits only, so it holds no letter x. */
  lemma NumberHasNoX(n: int)
    requires n >= 0
    ensures HasNoX(IntToString(n))
  {
    assert AllDigits(IntToString(n));
  }

  /** The row of the search scenario: a Tesla registered in Seattle. */
  function SeattleRow(): Record {
    Record("King", "Seattle", "WA", 2020, "TESLA", "MODEL 3", "Battery Electric Vehicle (BEV)", 250)
  }

  /** "seattle" finds the row in Seattle, whatever the case of the stored city. */
  lemma SeattleMatches()
    ensures RowMatches(SeattleRow(), "seattle", Columns)
  {
    var city := ToLowerCase(SeattleRow().city);
    assert city == "seattle";
    assert StartsWith(city, "seattle");
    assert ColumnMatches(SeattleRow(), Columns[1], ToLowerCase("seattle"));
  }

  /** No place name of that row holds a letter x. */
  lemma SeattlePlaceHasNoX()
    ensures HasNoX(SeattleRow().county) && HasNoX(SeattleRow().city) && HasNoX(SeattleRow().state)
  {
  }

  /** No vehicle text of that row holds a letter x. */
  lemma SeattleVehicleHasNoX()
    ensures HasNoX(SeattleRow().make) && HasNoX(SeattleRow().model) && HasNoX(SeattleRow().electricVehicleType)
  {
  }

  /** "xyz123" finds nothing in the same row. */
  lemma XyzDoesNotMatch()
    ensures !RowMatches(SeattleRow(), "xyz123", Columns)
  {
    var row := SeattleRow();
    var lower := ToLowerCase("xyz123");
    assert lower == "xyz123";
    SeattlePlaceHasNoX();
    SeattleVehicleHasNoX();
    NumberHasNoX(row.modelYear);
    NumberHasNoX(row.electricRange);
    NoXNoMatch(row.county);
    NoXNoMatch(row.city);
    NoXNoMatch(row.state);
    NoXNoMatch(IntToString(row.modelYear));
    NoXNoMatch(row.make);
    NoXNoMatch(row.model);
    NoXNoMatch(row.electricVehicleType);
    NoXNoMatch(IntToString(row.electricRange));
    forall c: Column
      ensures !ColumnMatches(row, c, lower)
    {
      match c
      case County =>
      case City =>
      case State =>
      case ModelYear =>
      case Make =>
      case Model =>
      case ElectricVehicleType =>
      case ElectricRange =>
    }
  }

  // ---------------------------------------------------------------------------
  // Search over the rows

  /** `data.filter(row => rowMatchesSearch(row, searchTrim, COLUMNS))`. */
  function Filter(data: seq<Record>, searchTrim: string): (r: seq<Record>)
    ensures |r| <= |data|
    ensures forall x :: x in r ==> x in data && RowMatches(x, searchTrim, Columns)
  {
    if data == [] then []
    else (if RowMatches(data[0], searchTrim, Columns) then [data[0]] else []) + Filter(data[1..], searchTrim)
  }

  /** `searchFiltered`: the rows matching the trimmed search text, or all rows when it is blank. */
  function SearchFiltered(data: seq<Record>, search: string): (r: seq<Record>)
    ensures |r| <= |data|
    ensures AllWhitespace(search) ==> r == data
    ensures forall x :: x in r ==> x in data && RowMatches(x, Trim(search), Columns)
  {
    var trim := Trim(search);
    if trim == "" then data else Filter(data, trim)
  }

  /** `a` is `b` with some elements left out, the rest kept in order. */
  predicate IsSubsequence<T(==)>(a: seq<T>, b: seq<T>)
    decreases |b|
  {
    a == [] || (b != [] && ((a[0] == b[0] && IsSubsequence(a[1..], b[1..])) || IsSubsequence(a, b[1..])))
  }

  lemma {:induction false} FilterIsSubsequence(data: seq<Record>, searchTrim: string)
    ensures IsSubsequence(Filter(data, searchTrim), data)
  {
    if data != [] {
      FilterIsSubsequence(data[1..], searchTrim);
      var r := Filter(data, searchTrim);
      if RowMatches(data[0], searchTrim, Columns) {
        assert r[0] == data[0] && r[1..] == Filter(data[1..], searchTrim);
      } else {
        assert r == Filter(data[1..], searchTrim);
      }
    }
  }

  /** Filtering a concatenation filters each part. */
  lemma {:induction false} FilterAppend(a: seq<Record>, b: seq<Record>, searchTrim: string)
    ensures Filter(a + b, searchTrim) == Filter(a, searchTrim) + Filter(b, searchTrim)
  {
    if a == [] {
      assert a + b == b;
    } else {
      assert (a + b)[0] == a[0] && (a + b)[1..] == a[1..] + b;
      FilterAppend(a[1..], b, searchTrim);
    }
  }

  /** Every matching row of `data` survives the filter. */
  lemma {:induction false} FilterKeepsMatches(data: seq<Record>, searchTrim: string, x: Record)
    requires x in data && RowMatches(x, searchTrim, Columns)
    ensures x in Filter(data, searchTrim)
  {
    if data[0] != x {
      FilterKeepsMatches(data[1..], searchTrim, x);
    }
  }

  /** A blank (empty or whitespace-only) search text leaves the rows as they are. */
  lemma BlankSearchIsIdentity(data: seq<Record>, search: string)
    requires AllWhitespace(search)
    ensures SearchFiltered(data, search) == data
  {
  }

  /**
   * The searched rows are an order-preserving selection of `data` holding
   * exactly the rows that match the trimmed text.
   */
  lemma SearchFilteredSpec(data: seq<Record>, search: string)
    ensures IsSubsequence(SearchFiltered(data, search), data)
    ensures forall x :: x in SearchFiltered(data, search) <==> x in data && RowMatches(x, Trim(search), Columns)
  {
    var trim := Trim(search);
    if trim == "" {
      assert IsSubsequence(data, data) by { SubsequenceReflexive(data); }
    } else {
      FilterIsSubsequence(data, trim);
      forall x | x in data && RowMatches(x, trim, Columns)
        ensures x in Filter(data, trim)
      {
        FilterKeepsMatches(data, trim, x);
      }
    }
  }

  lemma {:induction false} SubsequenceReflexive<T>(s: seq<T>)
    ensures IsSubsequence(s, s)
  {
    if s != [] {
      SubsequenceReflexive(s[1..]);
    }
  }

  // ---------------------------------------------------------------------------
  // Pagination

  /** `sliced`: page `page` (zero-based) of `rowsPerPage` rows. */
  function Sliced<T>(xs: seq<T>, page: nat, rowsPerPage: int): (r: seq<T>)
    ensures forall x :: x in r ==> x in xs
    ensures rowsPerPage >= 0 ==> |r| <= rowsPerPage
    ensures rowsPerPage >= 0 && page * rowsPerPage >= |xs| ==> r == []
  {
    var start := page * rowsPerPage;
    Slice(xs, start, start + rowsPerPage)
  }

  /** The window of `n` rows at `start`, clipped to the sequence. */
  lemma WindowAt<T>(xs: seq<T>, start: nat, n: nat)
    ensures var r := Slice(xs, start, start + n);
      && |r| <= n
      && (start >= |xs| ==> r == [])
      && (start < |xs| ==> r == xs[start..Min(|xs|, start + n)])
  {
    assert Slice(xs, start, start + n) == xs[Min(start, |xs|)..Min(start + n, |xs|)];
  }

  /** A page is the clipped window `[page * rowsPerPage, page * rowsPerPage + rowsPerPage)`. */
  lemma SlicedWindow<T>(xs: seq<T>, page: nat, rowsPerPage: nat)
    ensures var start, r := page * rowsPerPage, Sliced(xs, page, rowsPerPage);
      && |r| <= rowsPerPage
      && (start >= |xs| ==> r == [])
      && (start < |xs| ==> r == xs[start..Min(|xs|, start + rowsPerPage)])
  {
    WindowAt(xs, page * rowsPerPage, rowsPerPage);
  }

  /** The first page is the first `rowsPerPage` rows. */
  lemma FirstPage<T>(xs: seq<T>, rowsPerPage: nat)
    ensures Sliced(xs, 0, rowsPerPage) == xs[..Min(|xs|, rowsPerPage)]
  {
  }

  /** 25 matching rows, 10 per page: the third page holds rows 20 to 24. */
  lemma ThirdOfTwentyFive<T>(xs: seq<T>)
    requires |xs| == 25
    ensures Sliced(xs, 2, 10) == xs[20..25]
  {
    SlicedWindow(xs, 2, 10);
  }

  /** Pages `0 .. k - 1`, one after another. */
  function Pages<T>(xs: seq<T>, rowsPerPage: nat, k: nat): seq<T> {
    if k == 0 then [] else Pages(xs, rowsPerPage, k - 1) + Sliced(xs, k - 1, rowsPerPage)
  }

  /** The rows before `start` followed by the window at `start` are the rows before `end`. */
  lemma WindowExtendsPrefix<T>(xs: seq<T>, before: seq<T>, window: seq<T>, start: nat, n: nat, end: nat)
    requires before == xs[..Min(|xs|, start)] && window == Slice(xs, start, start + n)
    requires end == start + n
    ensures before + window == xs[..Min(|xs|, end)]
  {
    if start < |xs| {
      assert xs[..start] + xs[start..Min(|xs|, end)] == xs[..Min(|xs|, end)];
    }
  }

  /** Page `k` starts where page `k - 1` ends. */
  lemma NextPageStart(k: nat, rowsPerPage: nat)
    requires k > 0
    ensures 0 <= (k - 1) * rowsPerPage
    ensures k * rowsPerPage == (k - 1) * rowsPerPage + rowsPerPage
  {
  }

  /** The first `k` pages, in order, are the first `k * rowsPerPage` rows. */
  lemma {:induction false} PagesArePrefix<T>(xs: seq<T>, rowsPerPage: nat, k: nat)
    ensures Pages(xs, rowsPerPage, k) == xs[..Min(|xs|, k * rowsPerPage)]
  {
    if k > 0 {
      PagesArePrefix(xs, rowsPerPage, k - 1);
      NextPageStart(k, rowsPerPage);
      WindowExtendsPrefix(xs, Pages(xs, rowsPerPage, k - 1), Sliced(xs, k - 1, rowsPerPage),
                          (k - 1) * rowsPerPage, rowsPerPage, k * rowsPerPage);
    }
  }

  /** Enough pages, concatenated in order, give back all the rows. */
  lemma PagesReconstruct<T>(xs: seq<T>, rowsPerPage: nat, k: nat)
    requires k * rowsPerPage >= |xs|
    ensures Pages(xs, rowsPerPage, k) == xs
  {
    PagesArePrefix(xs, rowsPerPage, k);
  }

  // ---------------------------------------------------------------------------
  // Cell transforms

  /** `typeShort`: "BEV", "PHEV", or at most the first 15 characters of the type. */
  function TypeShort(vehicleType: string): (r: string)
    ensures |r| <= 15
    ensures TypeLabels.IsBev(vehicleType) ==> r == "BEV"
    ensures !TypeLabels.IsBev(vehicleType) && TypeLabels.IsPhev(vehicleType) ==> r == "PHEV"
    ensures !TypeLabels.IsBev(vehicleType) && !TypeLabels.IsPhev(vehicleType) ==>
      r == vehicleType[..Min(15, |vehicleType|)]
  {
    TypeLabels.AbbreviateCases(vehicleType, 15);
    TypeLabels.Abbreviate(vehicleType, 15)
  }

  /** The range cell: the mileage when it is reported (positive), a dash otherwise. */
  function RangeCell(row: Record): (r: string)
    ensures r == Dash <==> row.electricRange <= 0
    ensures row.electricRange > 0 ==> Number(r) == Finite(row.electricRange)
  {
    if row.electricRange > 0 then
      NumberOfNumberToString(Finite(row.electricRange));
      IntToString(row.electricRange)
    else Dash
  }

  // ---------------------------------------------------------------------------
  // The table's UI state

  class TableState {
    var page: nat
    var rowsPerPage: int
    var search: string

    /** Initial state: first page, the `pageSize` prop (10 by default), no search text. */
    constructor (pageSize: int := 10)
      ensures page == 0 && rowsPerPage == pageSize && search == ""
    {
      page := 0;
      rowsPerPage := pageSize;
      search := "";
    }

    /** The rows left after the search, before slicing. */
    function Filtered(data: seq<Record>): seq<Record>
      reads this
    {
      SearchFiltered(data, search)
    }

    /** The rows shown on the current page. */
    function Visible(data: seq<Record>): (r: seq<Record>)
      reads this
      ensures forall x :: x in r ==> x in data && RowMatches(x, Trim(search), Columns)
      ensures rowsPerPage >= 0 ==> |r| <= rowsPerPage
    {
      Sliced(Filtered(data), page, rowsPerPage)
    }

    /** The count handed to the paginator: matches after the search, before slicing. */
    function Total(data: seq<Record>): (n: nat)
      reads this
      ensures n <= |data|
      ensures rowsPerPage >= 0 ==> |Visible(data)| <= n
    {
      SearchFilteredSpec(data, search);
      |Filtered(data)|
    }

    /** The table body reads "No data" exactly when the current page is empty. */
    predicate ShowsNoData(data: seq<Record>)
      reads this
      ensures Total(data) == 0 ==> ShowsNoData(data)
      ensures rowsPerPage >= 0 && page * rowsPerPage >= Total(data) ==> ShowsNoData(data)
    {
      Visible(data) == []
    }

    /** `handleChangePage`: only the page changes. */
    method ChangePage(newPage: nat)
      modifies this
      ensures page == newPage && rowsPerPage == old(rowsPerPage) && search == old(search)
    {
      page := newPage;
    }

    /** `handleChangeRowsPerPage`: new page size, back to the first page. */
    method ChangeRowsPerPage(value: int)
      modifies this
      ensures rowsPerPage == value && page == 0 && search == old(search)
      ensures value >= 0 ==> forall data :: Visible(data) == Filtered(data)[..Min(|Filtered(data)|, value)]
    {
      rowsPerPage := value;
      page := 0;
      if value >= 0 {
        forall data: seq<Record> {
          FirstPage(Filtered(data), value);
        }
      }
    }

    /** `handleSearchChange`: new search text, back to the first page. */
    method ChangeSearch(value: string)
      modifies this
      ensures search == value && page == 0 && rowsPerPage == old(rowsPerPage)
      ensures rowsPerPage >= 0 ==> forall data :: Visible(data) == Filtered(data)[..Min(|Filtered(data)|, rowsPerPage)]
    {
      search := value;
      page := 0;
      if rowsPerPage >= 0 {
        forall data: seq<Record> {
          FirstPage(Filtered(data), rowsPerPage);
        }
      }
    }
  }

  /** On the first page with a positive page size, "No data" means no row matched. */
  lemma NoDataOnFirstPage(t: TableState, data: seq<Record>)
    requires t.page == 0 && t.rowsPerPage > 0
    ensures t.ShowsNoData(data) <==> t.Total(data) == 0
  {
    FirstPage(t.Filtered(data), t.rowsPerPage);
  }
}
