/**
 * The view state the table pages share: the sort configuration and its
 * toggle rule, the field-type metadata sent by the backend, the filter inputs,
 * the selection of visible columns and the running serial number of a row.
 */
module ViewState {
  import opened JsValues

  datatype Direction = Asc | Desc

  datatype SortConfig = SortConfig(field: string, direction: Direction)

  /** `{ field: 'SL No', direction: 'asc' }`, the initial and the reset sort. */
  const DefaultSort: SortConfig := SortConfig("SL No", Asc)

  /**
   * The backend's `fieldTypes` object: a list of field names per category
   * (`numeric`, `date`, `text`, `range`, `number`, `yearDropdown`, `yesNo`).
   */
  type FieldTypes = map<string, seq<string>>

  /** `fieldTypes[category]?.includes(field)`: a missing category includes nothing. */
  predicate InCategory(ft: FieldTypes, category: string, field: string)
  {
    category in ft && field in ft[category]
  }

  /**
   * The sort after clicking a column header: the same field while ascending
   * turns descending, anything else sorts the clicked field ascending.
   */
  function NextSort(prev: Option<SortConfig>, field: string): (s: SortConfig)
    ensures s.field == field
    ensures s.direction == Desc <==> prev == Some(SortConfig(field, Asc))
  {
    var isAsc := prev.Some? && prev.value.field == field && prev.value.direction == Asc;
    SortConfig(field, if isAsc then Desc else Asc)
  }

  /**
   * Two clicks on the same header end ascending when that field was already
   * sorted ascending, and descending otherwise.
   */
  lemma NextSortTwice(prev: Option<SortConfig>, field: string)
    ensures NextSort(Some(NextSort(prev, field)), field) ==
      if prev == Some(SortConfig(field, Asc)) then SortConfig(field, Asc) else SortConfig(field, Desc)
  {
  }

  /** `headers.filter(h => selectedFields.includes(h))`: header order, not selection order. */
  function VisibleHeaders(headers: seq<string>, selected: seq<string>): (r: seq<string>)
    ensures |r| <= |headers|
    ensures forall h :: h in r <==> h in headers && h in selected
    ensures forall h :: multiset(r)[h] == if h in selected then multiset(headers)[h] else 0
  {
    if headers == [] then []
    else
      assert headers == [headers[0]] + headers[1..];
      (if headers[0] in selected then [headers[0]] else []) + VisibleHeaders(headers[1..], selected)
  }

  /** `VisibleHeaders` is a subsequence of `headers`: it keeps their relative order. */
  lemma {:induction false} VisibleHeadersKeepOrder(headers: seq<string>, selected: seq<string>)
    ensures IsSubsequence(VisibleHeaders(headers, selected), headers)
  {
    if headers != [] {
      var rest := VisibleHeaders(headers[1..], selected);
      VisibleHeadersKeepOrder(headers[1..], selected);
      SubsequenceCons(rest, headers[0], headers[1..]);
      assert [headers[0]] + headers[1..] == headers;
      if headers[0] in selected {
        assert VisibleHeaders(headers, selected) == [headers[0]] + rest;
      } else {
        assert VisibleHeaders(headers, selected) == rest;
      }
    }
  }

  /** `a` can be obtained from `b` by deleting elements. */
  predicate IsSubsequence(a: seq<string>, b: seq<string>)
    decreases |b|
  {
    if a == [] then true
    else if b == [] then false
    else if a[0] == b[0] then IsSubsequence(a[1..], b[1..])
    else IsSubsequence(a, b[1..])
  }

  lemma {:induction false} SubsequenceCons(a: seq<string>, x: string, b: seq<string>)
    requires IsSubsequence(a, b)
    ensures IsSubsequence([x] + a, [x] + b)
    ensures x !in a ==> IsSubsequence(a, [x] + b)
  {
    assert ([x] + a)[1..] == a;
    assert ([x] + b)[1..] == b;
  }

  /** `(currentPage - 1) * rowsPerPage + rowIndex + 1` */
  function SerialNumber(currentPage: int, rowsPerPage: int, rowIndex: int): int
  {
    (currentPage - 1) * rowsPerPage + rowIndex + 1
  }

  /**
   * With a positive page size, the rows of page `p` are numbered
   * `(p-1)*size + 1 .. p*size`, so no two (page, row) slots share a number.
   */
  lemma SerialNumbersDistinct(size: int, p1: int, i1: int, p2: int, i2: int)
    requires size >= 1 && p1 >= 1 && p2 >= 1
    requires 0 <= i1 < size && 0 <= i2 < size
    requires SerialNumber(p1, size, i1) == SerialNumber(p2, size, i2)
    ensures p1 == p2 && i1 == i2
  {
    if p1 < p2 {
      LaterPageStartsAfter(size, p1 - 1, p2 - 1);
    } else if p2 < p1 {
      LaterPageStartsAfter(size, p2 - 1, p1 - 1);
    }
  }

  /** Each later page starts at least one page size further on. */
  lemma {:induction false} LaterPageStartsAfter(size: int, a: nat, b: nat)
    requires size >= 1 && a < b
    ensures b * size >= a * size + size
    decreases b - a
  {
    if b > a + 1 {
      LaterPageStartsAfter(size, a, b - 1);
    }
    assert b * size == (b - 1) * size + size;
  }

  lemma SerialNumberRange(size: int, page: int, i: int)
    requires size >= 1 && page >= 1 && 0 <= i < size
    ensures (page - 1) * size + 1 <= SerialNumber(page, size, i) <= page * size
  {
  }

  /** The filter inputs of a table page. Range bounds hold `""`, a number, or a raw year string. */
  datatype FilterInputs = FilterInputs(
    filterField: string,
    filterValue: string,
    rangeMin: JsValue,
    rangeMax: JsValue,
    dateFrom: string,
    dateTo: string)

  /** `filterField`, `filterValue`, `rangeValues` and `dateRange` all back to empty. */
  const ClearedInputs: FilterInputs := FilterInputs("", "", Str(""), Str(""), "", "")
}
