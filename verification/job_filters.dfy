/**
 * The filter-state helpers of the filter panel
 * (components/JobApplicationFilters.tsx). Each callback that hands a new
 * filter value to `onFiltersChange` is a function returning that value;
 * the date library's `parseDate`, `CalendarDate.toString` and the locale
 * date formatting are parameters.
 */
module JobFilters {
  import opened Wrappers
  import JobRecord

  /** The filter record the panel edits. */
  datatype Filters = Filters(
    searchText: string,
    location: string,
    status: string,
    dateFrom: string,
    dateTo: string)

  /** The keys `updateFilter` accepts: `keyof JobApplicationFilters`. */
  datatype FilterKey = SearchText | Location | Status | DateFrom | DateTo

  /** The value stored under a key. */
  function Field(f: Filters, key: FilterKey): string
  {
    match key
    case SearchText => f.searchText
    case Location => f.location
    case Status => f.status
    case DateFrom => f.dateFrom
    case DateTo => f.dateTo
  }

  /** A select filter constrains only when set to something other than "all". */
  predicate Constrains(value: string)
  {
    value != "" && value != "all"
  }

  /**
   * A value restricts the listing under its key: any non-empty text, and on
   * the two selects anything other than "all".
   */
  predicate Restricts(key: FilterKey, value: string)
  {
    value != "" && ((key == Location || key == Status) ==> value != "all")
  }

  /**
   * `hasActiveFilters`: the truthiness of the five-way `||`, which holds
   * exactly when some key holds a value that restricts.
   */
  function HasActiveFilters(f: Filters): (r: bool)
    ensures r <==> exists key :: Restricts(key, Field(f, key))
  {
    assert Restricts(SearchText, Field(f, SearchText)) <== f.searchText != "";
    assert Restricts(Location, Field(f, Location)) <== Constrains(f.location);
    assert Restricts(Status, Field(f, Status)) <== Constrains(f.status);
    assert Restricts(DateFrom, Field(f, DateFrom)) <== f.dateFrom != "";
    assert Restricts(DateTo, Field(f, DateTo)) <== f.dateTo != "";
    || f.searchText != ""
    || Constrains(f.location)
    || Constrains(f.status)
    || f.dateFrom != ""
    || f.dateTo != ""
  }

  /**
   * Starting from cleared filters, one change makes the filters active
   * exactly when it sets a non-empty value, other than "all" on the two selects.
   */
  lemma ActiveAfterOneChange(key: FilterKey, value: string)
    ensures HasActiveFilters(UpdateFilter(ClearAllFilters(), key, value)) <==> Restricts(key, value)
  {
  }

  /** `clearAllFilters`: the value it passes to `onFiltersChange`. */
  function ClearAllFilters(): (r: Filters)
    ensures !HasActiveFilters(r)
    ensures r.location == "all" && r.status == "all"
    ensures r.searchText == "" && r.dateFrom == "" && r.dateTo == ""
  {
    Filters("", "all", "all", "", "")
  }

  /** `updateFilter(key, value)`: `{...filters, [key]: value}`. */
  function UpdateFilter(f: Filters, key: FilterKey, value: string): (r: Filters)
    ensures Field(r, key) == value
    ensures forall k :: k != key ==> Field(r, k) == Field(f, k)
  {
    match key
    case SearchText => f.(searchText := value)
    case Location => f.(location := value)
    case Status => f.(status := value)
    case DateFrom => f.(dateFrom := value)
    case DateTo => f.(dateTo := value)
  }

  /** Two filter values that agree on every key are equal. */
  lemma FiltersByField(f: Filters, g: Filters)
    requires forall k :: Field(f, k) == Field(g, k)
    ensures f == g
  {
    assert Field(f, SearchText) == Field(g, SearchText);
    assert Field(f, Location) == Field(g, Location);
    assert Field(f, Status) == Field(g, Status);
    assert Field(f, DateFrom) == Field(g, DateFrom);
    assert Field(f, DateTo) == Field(g, DateTo);
  }

  /** Setting a key to the value it already has changes nothing; setting it twice keeps the last. */
  lemma UpdateFilterLaws(f: Filters, key: FilterKey, v: string, w: string)
    ensures UpdateFilter(f, key, Field(f, key)) == f
    ensures UpdateFilter(UpdateFilter(f, key, v), key, w) == UpdateFilter(f, key, w)
  {
    FiltersByField(UpdateFilter(f, key, Field(f, key)), f);
    FiltersByField(UpdateFilter(UpdateFilter(f, key, v), key, w), UpdateFilter(f, key, w));
  }

  /** A date range picked in the calendar. */
  datatype DateRange<D> = DateRange(start: D, end: D)

  /**
   * `getDateRange`: both dates parsed, when both are set and `parse`
   * (`parseDate`, `None` where it throws) accepts both; otherwise no range.
   */
  function GetDateRange<D>(f: Filters, parse: string -> Option<D>): (r: Option<DateRange<D>>)
    ensures r.Some? <==>
      f.dateFrom != "" && f.dateTo != "" && parse(f.dateFrom).Some? && parse(f.dateTo).Some?
    ensures r.Some? ==> r.value == DateRange(parse(f.dateFrom).value, parse(f.dateTo).value)
  {
    var start := if f.dateFrom != "" then parse(f.dateFrom) else None;
    if start.None? then None
    else
      var end := if f.dateTo != "" then parse(f.dateTo) else None;
      if end.None? then None else Some(DateRange(start.value, end.value))
  }

  /**
   * `handleDateRangeChange`: a picked range stores both ends as strings
   * (`show` stands for `CalendarDate.toString`); no range clears both.
   */
  function HandleDateRangeChange<D>(f: Filters, range: Option<DateRange<D>>, show: D -> string): (r: Filters)
    ensures r.searchText == f.searchText && r.location == f.location && r.status == f.status
    ensures range.None? ==> r.dateFrom == "" && r.dateTo == ""
    ensures range.Some? ==> r.dateFrom == show(range.value.start) && r.dateTo == show(range.value.end)
  {
    match range
    case Some(rg) => f.(dateFrom := show(rg.start), dateTo := show(rg.end))
    case None => f.(dateFrom := "", dateTo := "")
  }

  /**
   * Storing a picked range and reading it back gives the same range, when
   * dates print as non-empty strings that parse back to themselves; a
   * cleared range reads back as none.
   */
  lemma DateRangeRoundTrip<D>(f: Filters, rg: DateRange<D>, parse: string -> Option<D>, show: D -> string)
    requires show(rg.start) != "" && parse(show(rg.start)) == Some(rg.start)
    requires show(rg.end) != "" && parse(show(rg.end)) == Some(rg.end)
    ensures GetDateRange(HandleDateRangeChange(f, Some(rg), show), parse) == Some(rg)
    ensures GetDateRange(HandleDateRangeChange(f, None, show), parse) == None
  {
  }

  /** Clearing the dates leaves the filters active exactly when the other three make them so. */
  lemma ClearedDatesActivity<D>(f: Filters, show: D -> string)
    ensures HasActiveFilters(HandleDateRangeChange(f, None, show)) <==>
      f.searchText != "" || Constrains(f.location) || Constrains(f.status)
  {
  }

  /** `formatDateRange`: the label of the date button; `format` is the locale date formatting. */
  function FormatDateRange(f: Filters, format: string -> string): (r: string)
    ensures f.dateFrom == "" && f.dateTo == "" ==> r == "Select date range"
    ensures f.dateFrom != "" && f.dateTo == "" ==> r == "From " + format(f.dateFrom)
    ensures f.dateFrom == "" && f.dateTo != "" ==> r == "Until " + format(f.dateTo)
    ensures f.dateFrom != "" && f.dateTo != "" ==>
      r == format(f.dateFrom) + " to " + format(f.dateTo)
  {
    if f.dateFrom != "" && f.dateTo != "" then format(f.dateFrom) + " to " + format(f.dateTo)
    else if f.dateFrom != "" then "From " + format(f.dateFrom)
    else if f.dateTo != "" then "Until " + format(f.dateTo)
    else "Select date range"
  }

  /** One entry of the status select. */
  datatype StatusOption = StatusOption(value: string, caption: string)

  const StatusOptions: seq<StatusOption> := [
    StatusOption("all", "All Statuses"),
    StatusOption("waiting", "Waiting"),
    StatusOption("interviewed", "Interviewed"),
    StatusOption("rejected", "Rejected"),
    StatusOption("accepted", "Accepted")
  ]

  /** The status options are "all" followed by the four record statuses, in order. */
  lemma StatusOptionsCoverStatuses()
    ensures |StatusOptions| == 5 && StatusOptions[0].value == "all"
    ensures forall i :: 1 <= i < |StatusOptions| ==> StatusOptions[i].value == JobRecord.StatusNames[i - 1]
    ensures forall s: JobRecord.Status :: StatusOption(JobRecord.StatusName(s), OptionLabel(s)) in StatusOptions
  {
  }

  /** The label shown for a status. */
  function OptionLabel(s: JobRecord.Status): string
  {
    match s
    case Waiting => "Waiting"
    case Interviewed => "Interviewed"
    case Rejected => "Rejected"
    case Accepted => "Accepted"
  }
}
