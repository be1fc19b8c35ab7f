/**
 * The client's countries grid: the request parameters it derives from the
 * paginator event, the sort header and the filter text, and the state it
 * takes over from the server's page payload.
 */
module CountriesGrid {
  import opened Wrappers

  const DefaultPageIndex: int := 0
  const DefaultPageSize: int := 10
  const DefaultSortColumn: string := "name"
  const DefaultSortOrder: string := "asc"
  const DefaultFilterColumn: string := "name"

  /** The sort header's state: the active column and the direction ("asc", "desc" or ""). */
  datatype Sort = Sort(active: string, direction: string)

  datatype PageEvent = PageEvent(pageIndex: int, pageSize: int)

  /** The six arguments passed to the country service; None stands for null. */
  datatype DataRequest = DataRequest(
    pageIndex: int,
    pageSize: int,
    sortColumn: string,
    sortOrder: string,
    filterColumn: Option<string>,
    filterQuery: Option<string>)

  /** A country row as the grid shows it. */
  datatype CountryRow = CountryRow(id: int, name: string, iso2: string, iso3: string, totCities: int)

  /** The page payload the server answers with. */
  datatype ApiResult = ApiResult(data: seq<CountryRow>, pageIndex: int, pageSize: int, totalCount: int)

  /** The filter text is truthy: defined and not empty. */
  predicate HasQuery(q: Option<string>) {
    q.Some? && q.value != []
  }

  /**
   * getData's parameters: the sort header's column and direction when the
   * header exists, the defaults otherwise; the filter column and text only
   * when there is a filter text.
   */
  function GetData(event: PageEvent, sort: Option<Sort>, filterQuery: Option<string>): (r: DataRequest)
    ensures r.pageIndex == event.pageIndex && r.pageSize == event.pageSize
    ensures sort.Some? ==> r.sortColumn == sort.value.active && r.sortOrder == sort.value.direction
    ensures sort.None? ==> r.sortColumn == "name" && r.sortOrder == "asc"
    ensures r.filterColumn.Some? <==> HasQuery(filterQuery)
    ensures r.filterColumn.Some? ==> r.filterColumn.value == "name"
    ensures r.filterQuery.Some? <==> HasQuery(filterQuery)
    ensures r.filterQuery.Some? ==> r.filterQuery == filterQuery
  {
    var sortColumn := if sort.Some? then sort.value.active else DefaultSortColumn;
    var sortOrder := if sort.Some? then sort.value.direction else DefaultSortOrder;
    var filterColumn := if HasQuery(filterQuery) then Some(DefaultFilterColumn) else None;
    var query := if HasQuery(filterQuery) then filterQuery else None;
    DataRequest(event.pageIndex, event.pageSize, sortColumn, sortOrder, filterColumn, query)
  }

  /** A request never names a filter column without a non-empty filter text, nor the reverse. */
  lemma FilterArgumentsPaired(event: PageEvent, sort: Option<Sort>, filterQuery: Option<string>)
    ensures var r := GetData(event, sort, filterQuery);
            (r.filterColumn.Some? <==> r.filterQuery.Some?) && (r.filterQuery.Some? ==> r.filterQuery.value != [])
  {
  }

  // ---------------------------------------------------------------------------
  // getData1, the file's earlier variant, builds the query string itself and
  // sets filterColumn and filterQuery only when there is a filter text.

  /** A query-string value: `toString()` of a number, or a text. */
  datatype ParamValue = Number(n: int) | Text(s: string)

  function GetData1Params(event: PageEvent, sort: Option<Sort>, filterQuery: Option<string>): (p: map<string, ParamValue>)
    ensures p.Keys == {"pageIndex", "pageSize", "sortColumn", "sortOrder"}
                      + (if HasQuery(filterQuery) then {"filterColumn", "filterQuery"} else {})
  {
    var base := map[
      "pageIndex" := Number(event.pageIndex),
      "pageSize" := Number(event.pageSize),
      "sortColumn" := Text(if sort.Some? then sort.value.active else DefaultSortColumn),
      "sortOrder" := Text(if sort.Some? then sort.value.direction else DefaultSortOrder)];
    if HasQuery(filterQuery) then
      base["filterColumn" := Text(DefaultFilterColumn)]["filterQuery" := Text(filterQuery.value)]
    else base
  }

  /** The six arguments as a query string, with the null ones left out. */
  function QueryString(r: DataRequest): (p: map<string, ParamValue>)
    ensures "filterColumn" in p <==> r.filterColumn.Some?
    ensures "filterQuery" in p <==> r.filterQuery.Some?
  {
    var base := map[
      "pageIndex" := Number(r.pageIndex),
      "pageSize" := Number(r.pageSize),
      "sortColumn" := Text(r.sortColumn),
      "sortOrder" := Text(r.sortOrder)];
    var withColumn := if r.filterColumn.Some? then base["filterColumn" := Text(r.filterColumn.value)] else base;
    if r.filterQuery.Some? then withColumn["filterQuery" := Text(r.filterQuery.value)] else withColumn
  }

  /** The two variants ask the server the same question. */
  lemma GetDataAgreesWithGetData1(event: PageEvent, sort: Option<Sort>, filterQuery: Option<string>)
    ensures QueryString(GetData(event, sort, filterQuery)) == GetData1Params(event, sort, filterQuery)
  {
  }

  // ---------------------------------------------------------------------------

  /** The paginator's three numeric fields. */
  class Paginator {
    var length: int
    var pageIndex: int
    var pageSize: int

    constructor (length: int, pageIndex: int, pageSize: int)
      ensures this.length == length && this.pageIndex == pageIndex && this.pageSize == pageSize
    {
      this.length := length;
      this.pageIndex := pageIndex;
      this.pageSize := pageSize;
    }
  }

  class CountriesComponent {
    /** The current filter text; undefined until loadData is called. */
    var filterQuery: Option<string>
    /** The sort header, when the view has one. */
    var sort: Option<Sort>
    const paginator: Paginator
    /** The rows of the table's data source; none before the first answer. */
    var countries: Option<seq<CountryRow>>

    constructor (sort: Option<Sort>, paginator: Paginator)
      ensures this.sort == sort && this.paginator == paginator
      ensures filterQuery == None && countries == None
    {
      this.sort := sort;
      this.paginator := paginator;
      filterQuery := None;
      countries := None;
    }

    /** loadData: stores the filter text and requests the first page of ten rows. */
    method LoadData(query: Option<string>) returns (req: DataRequest)
      modifies this
      ensures filterQuery == query
      ensures req == GetData(PageEvent(DefaultPageIndex, DefaultPageSize), sort, query)
      ensures req.pageIndex == 0 && req.pageSize == 10
      ensures sort == old(sort) && countries == old(countries)
    {
      var pageEvent := PageEvent(DefaultPageIndex, DefaultPageSize);
      filterQuery := query;
      req := GetData(pageEvent, sort, filterQuery);
    }

    /** The success handler: the paginator and the table take over the payload. */
    method OnData(result: ApiResult)
      modifies paginator, this`countries
      ensures paginator.length == result.totalCount
      ensures paginator.pageIndex == result.pageIndex
      ensures paginator.pageSize == result.pageSize
      ensures countries == Some(result.data)
      ensures filterQuery == old(filterQuery) && sort == old(sort)
    {
      paginator.length := result.totalCount;
      paginator.pageIndex := result.pageIndex;
      paginator.pageSize := result.pageSize;
      countries := Some(result.data);
    }
  }
}
