/**
 * The newer contracts page (`pages/management-info-system/MIS.jsx`): the
 * filters it sends (empty bounds left out, dates converted to `yyyy-mm-dd`),
 * the reset of all filter state, what a finished fetch does to the page,
 * header and selection state, and the rows it hands to the editor.
 */
module MisPage {
  import opened JsValues
  import opened ViewState
  import opened Dates
  import opened PageCommon
  import CombinedPanel

  /** `dynamicFieldTypes.numeric?.includes(field)`: a missing category counts as no. */
  predicate IsNumeric(ft: FieldTypes, field: string)
  {
    InCategory(ft, "numeric", field)
  }

  predicate IsDate(ft: FieldTypes, field: string)
  {
    InCategory(ft, "date", field)
  }

  /**
   * Whether `handleFilterApply` puts key `k` in the filters: nothing without a
   * field; numeric fields send each truthy bound, date fields each date that
   * converts, other fields a non-empty value.
   */
  predicate Sends(inputs: FilterInputs, ft: FieldTypes, k: string)
  {
    var f := inputs.filterField;
    f != "" &&
    (k == "filterField"
     || (IsNumeric(ft, f) && ((k == "minRange" && Truthy(inputs.rangeMin)) || (k == "maxRange" && Truthy(inputs.rangeMax))))
     || (!IsNumeric(ft, f) && IsDate(ft, f) &&
         ((k == "fromDate" && FormatDateForApi(Str(inputs.dateFrom)) != "")
          || (k == "toDate" && FormatDateForApi(Str(inputs.dateTo)) != "")))
     || (!IsNumeric(ft, f) && !IsDate(ft, f) && k == "filterValue" && inputs.filterValue != ""))
  }

  /** The value sent under key `k`. */
  function SentValue(inputs: FilterInputs, k: string): JsValue
  {
    if k == "filterField" then Str(inputs.filterField)
    else if k == "minRange" then inputs.rangeMin
    else if k == "maxRange" then inputs.rangeMax
    else if k == "fromDate" then Str(FormatDateForApi(Str(inputs.dateFrom)))
    else if k == "toDate" then Str(FormatDateForApi(Str(inputs.dateTo)))
    else Str(inputs.filterValue)
  }

  /** The filter object `handleFilterApply` builds, key by key. */
  function Filters(inputs: FilterInputs, ft: FieldTypes): (r: Object)
    ensures forall k :: k in r <==> Sends(inputs, ft, k)
    ensures forall k :: k in r ==> r[k] == SentValue(inputs, k)
  {
    map k | k in FilterKeys && Sends(inputs, ft, k) :: SentValue(inputs, k)
  }

  /** No field chosen: no filters at all. */
  lemma NoFieldNoFilters(inputs: FilterInputs, ft: FieldTypes)
    requires inputs.filterField == ""
    ensures Filters(inputs, ft) == map[]
  {
    assert forall k :: k !in Filters(inputs, ft);
  }

  /** Every value sent is truthy: empty bounds, dates and texts are left out. */
  lemma FiltersAllTruthy(inputs: FilterInputs, ft: FieldTypes)
    ensures forall k :: k in Filters(inputs, ft) ==> Truthy(Filters(inputs, ft)[k])
  {
  }

  /** Hence cleaning, as the export panel does, leaves the filters as they are. */
  lemma FiltersSurviveCleaning(inputs: FilterInputs, ft: FieldTypes)
    ensures CombinedPanel.CleanFilters(Filters(inputs, ft)) == Filters(inputs, ft)
  {
    FiltersAllTruthy(inputs, ft);
  }

  /** A date field also listed as numeric is filtered as a range: numeric is tested first. */
  lemma NumericBeforeDate(inputs: FilterInputs, ft: FieldTypes)
    requires inputs.filterField != "" && IsNumeric(ft, inputs.filterField) && IsDate(ft, inputs.filterField)
    ensures "fromDate" !in Filters(inputs, ft) && "toDate" !in Filters(inputs, ft)
    ensures "minRange" in Filters(inputs, ft) <==> Truthy(inputs.rangeMin)
  {
  }

  /** A date typed `dd-mm-yyyy` or `dd/mm/yyyy` is sent as `yyyy-mm-dd`. */
  lemma DateSentReordered(inputs: FilterInputs, ft: FieldTypes,
                           day: string, c1: char, month: string, c2: char, year: string)
    requires inputs.filterField != "" && !IsNumeric(ft, inputs.filterField) && IsDate(ft, inputs.filterField)
    requires NoSeparator(day) && NoSeparator(month) && NoSeparator(year) && |year| == 4
    requires IsSeparator(c1) && IsSeparator(c2)
    requires inputs.dateFrom == day + [c1] + month + [c2] + year
    ensures "fromDate" in Filters(inputs, ft)
    ensures Filters(inputs, ft)["fromDate"] == Str(year + "-" + month + "-" + day)
  {
    FormatDayMonthYear(day, c1, month, c2, year);
  }

  /** `handleFilterApply`'s object, filled one key at a time. */
  method BuildFilters(inputs: FilterInputs, ft: FieldTypes) returns (newFilters: Object)
    ensures newFilters == Filters(inputs, ft)
  {
    newFilters := map[];
    var field := inputs.filterField;
    if field != "" {
      newFilters := newFilters["filterField" := Str(field)];
      if "numeric" in ft && field in ft["numeric"] {
        assert IsNumeric(ft, field);
        if Truthy(inputs.rangeMin) {
          newFilters := newFilters["minRange" := inputs.rangeMin];
        }
        if Truthy(inputs.rangeMax) {
          newFilters := newFilters["maxRange" := inputs.rangeMax];
        }
        assert forall k :: k in newFilters <==> Sends(inputs, ft, k);
      } else if "date" in ft && field in ft["date"] {
        assert !IsNumeric(ft, field) && IsDate(ft, field);
        var fromDate := FormatDateForApi(Str(inputs.dateFrom));
        var toDate := FormatDateForApi(Str(inputs.dateTo));
        if fromDate != "" {
          newFilters := newFilters["fromDate" := Str(fromDate)];
        }
        if toDate != "" {
          newFilters := newFilters["toDate" := Str(toDate)];
        }
        assert forall k :: k in newFilters <==> Sends(inputs, ft, k);
      } else {
        assert !IsNumeric(ft, field) && !IsDate(ft, field);
        if inputs.filterValue != "" {
          newFilters := newFilters["filterValue" := Str(inputs.filterValue)];
        }
        assert forall k :: k in newFilters <==> Sends(inputs, ft, k);
      }
      SameFilters(inputs, ft, newFilters);
    } else {
      NoFieldNoFilters(inputs, ft);
    }
  }

  /** A map with exactly the keys sent, each with the value sent, is the filter object. */
  lemma SameFilters(inputs: FilterInputs, ft: FieldTypes, m: Object)
    requires forall k :: k in m <==> Sends(inputs, ft, k)
    requires forall k :: k in m ==> m[k] == SentValue(inputs, k)
    ensures m == Filters(inputs, ft)
  {
    var f := Filters(inputs, ft);
    assert m.Keys == f.Keys;
  }

  const MissingMetadata: string := "Backend did not provide required metadata (headers, fieldTypes)."
  const FetchFailed: string := "Failed to fetch data. Check backend server status."

  /** The page's state, one field per `useState` that the modelled handlers touch. */
  datatype State = State(
    inputs: FilterInputs,
    activeFilters: Object,
    currentPage: int,
    totalPages: int,
    sortConfig: SortConfig,
    currentData: seq<Object>,
    headers: seq<string>,
    fieldTypes: FieldTypes,
    selectedFields: seq<string>,
    editingRow: Option<Object>,
    view: View,
    error: Option<string>,
    loggedOut: bool)

  const InitialFieldTypes: FieldTypes := map["numeric" := [], "date" := [], "text" := []]

  const Initial: State := State(ClearedInputs, map[], 1, 0, DefaultSort, [], [], InitialFieldTypes, [], None, DataView, None, false)

  /** `handleFilterApply` */
  function ApplyFilters(s: State): State
  {
    s.(activeFilters := Filters(s.inputs, s.fieldTypes), currentPage := 1)
  }

  /** `handleClearFilters` */
  function ClearFilters(s: State): State
  {
    s.(inputs := ClearedInputs, activeFilters := map[], currentPage := 1, sortConfig := DefaultSort)
  }

  /**
   * Apply replaces the active filters by the ones built from the inputs, goes
   * back to page 1 and changes nothing else; right after a clear it is a no-op.
   */
  lemma ApplyStartsOnFirstPage(s: State)
    ensures ApplyFilters(s).currentPage == 1
    ensures ApplyFilters(s).activeFilters == Filters(s.inputs, s.fieldTypes)
    ensures ApplyFilters(s).(activeFilters := s.activeFilters, currentPage := s.currentPage) == s
    ensures ApplyFilters(ClearFilters(s)) == ClearFilters(s)
  {
    NoFieldNoFilters(ClearedInputs, s.fieldTypes);
  }

  /** Clearing leaves no filter and nothing to clear again. */
  lemma ClearFiltersResets(s: State)
    ensures var c := ClearFilters(s);
      c.activeFilters == map[] && c.currentPage == 1 && c.sortConfig == DefaultSort
      && Filters(c.inputs, c.fieldTypes) == map[]
      && ClearFilters(c) == c
  {
    NoFieldNoFilters(ClearedInputs, s.fieldTypes);
  }

  /** `err.response?.data?.error || "Failed to fetch data. ..."` */
  function ErrorText(serverError: Option<string>): string
  {
    if serverError.Some? && serverError.value != "" then serverError.value else FetchFailed
  }

  /**
   * What a finished `fetchData(reset)` leaves. The clamp compares with the
   * total as received, so a missing total never clamps; missing metadata
   * keeps the old headers and selection and reports an error; a 401 logs out.
   */
  function AfterFetch(s: State, outcome: FetchOutcome, reset: bool): State
  {
    var s0 := s.(error := None);
    match outcome
    case Response(d, tp, h, ft) => AfterResponse(s0, d, tp, h, ft, reset)
    case HttpError(status, serverError, _) =>
      if status == 401 then s0.(loggedOut := true) else s0.(error := Some(ErrorText(serverError)))
    case NoResponse => s0.(error := Some(FetchFailed))
    case RequestFailed(_) => s0.(error := Some(FetchFailed))
  }

  /** The state after a response arrives (the `try` block). */
  function AfterResponse(s: State, d: Option<seq<Object>>, tp: Option<int>, h: Option<seq<string>>,
                         ft: Option<FieldTypes>, reset: bool): State
  {
    WithMetadata(WithData(s, d, tp), h, ft, reset)
  }

  /** The rows, the page count (`|| 0`) and the clamp, which only a received total can trigger. */
  function WithData(s: State, d: Option<seq<Object>>, tp: Option<int>): State
  {
    var data := if d.Some? then d.value else [];
    s.(currentData := data,
       totalPages := if tp.Some? then tp.value else 0,
       currentPage := if tp.Some? then ClampPage(|data| == 0, s.currentPage, tp.value) else s.currentPage)
  }

  /** New headers, field types and selection when both are present, else an error. */
  function WithMetadata(s: State, h: Option<seq<string>>, ft: Option<FieldTypes>, reset: bool): State
  {
    if h.Some? && ft.Some? then
      s.(headers := if ArraysEqual(s.headers, h.value) then s.headers else h.value,
         fieldTypes := ft.value,
         selectedFields := SelectionAfterFetch(s.selectedFields, h.value, reset))
    else s.(error := Some(MissingMetadata))
  }

  /** A fetch keeps the page at 1 or more, and moves it only after an empty page with a total. */
  lemma FetchKeepsPageValid(s: State, outcome: FetchOutcome, reset: bool)
    requires s.currentPage >= 1
    ensures var t := AfterFetch(s, outcome, reset);
      1 <= t.currentPage <= s.currentPage
      && (t.currentPage != s.currentPage ==>
            outcome.Response? && outcome.totalPages.Some? && t.currentData == []
            && t.currentPage == (if outcome.totalPages.value > 0 then outcome.totalPages.value else 1))
  {
    if outcome.Response? && outcome.totalPages.Some? {
      var data := if outcome.data.Some? then outcome.data.value else [];
      ClampLandsOnValidPage(|data| == 0, s.currentPage, outcome.totalPages.value);
    }
  }

  /** A response without a total shows zero pages but leaves the current page alone. */
  lemma MissingTotalNoClamp(s: State, d: Option<seq<Object>>, h: Option<seq<string>>, ft: Option<FieldTypes>, reset: bool)
    ensures var t := AfterFetch(s, Response(d, None, h, ft), reset);
      t.totalPages == 0 && t.currentPage == s.currentPage
  {
  }

  /** Without `headers` and `fieldTypes` the columns stay as they were and an error is shown. */
  lemma MissingMetadataKeepsColumns(s: State, d: Option<seq<Object>>, tp: Option<int>, h: Option<seq<string>>,
                                    ft: Option<FieldTypes>, reset: bool)
    requires h.None? || ft.None?
    ensures var t := AfterFetch(s, Response(d, tp, h, ft), reset);
      t.headers == s.headers && t.fieldTypes == s.fieldTypes && t.selectedFields == s.selectedFields
      && t.error == Some(MissingMetadata)
  {
  }

  /** With metadata, the new headers are shown and the selection follows the reset rule. */
  lemma MetadataReplacesColumns(s: State, d: Option<seq<Object>>, tp: Option<int>, h: seq<string>,
                                ft: FieldTypes, reset: bool)
    ensures var t := AfterFetch(s, Response(d, tp, Some(h), Some(ft)), reset);
      t.headers == h && t.fieldTypes == ft && t.error == None
      && (t.selectedFields == h <==> reset || s.selectedFields == [] || s.selectedFields == h)
  {
    SelectionAfterFetchShowsColumns(s.selectedFields, h, reset);
  }

  /** An expired session logs out and changes nothing else but the error. */
  lemma UnauthorizedLogsOut(s: State, serverError: Option<string>, statusText: string, reset: bool)
    ensures AfterFetch(s, HttpError(401, serverError, statusText), reset) == s.(error := None, loggedOut := true)
  {
  }

  /** `handleAddClick` */
  function AddRow(s: State): State
  {
    s.(editingRow := Some(NewRowObject(s.headers)), view := NewRow)
  }

  /** The row opened by "Add" has every column and only empty values. */
  lemma AddRowBlank(s: State)
    ensures var t := AddRow(s);
      t.view == NewRow && t.editingRow.Some?
      && (forall k :: k in t.editingRow.value <==> k in s.headers)
      && (forall k :: k in t.editingRow.value ==> t.editingRow.value[k] == Str(""))
  {
  }

  /** `handleEditClick` */
  function EditRowOf(s: State, row: Object): State
  {
    s.(editingRow := Some(row), view := EditRow)
  }

  /** The page as a component instance whose `useState` fields the handlers update. */
  class Page {
    var inputs: FilterInputs
    var activeFilters: Object
    var currentPage: int
    var totalPages: int
    var sortConfig: SortConfig
    var currentData: seq<Object>
    var headers: seq<string>
    var fieldTypes: FieldTypes
    var selectedFields: seq<string>
    var editingRow: Option<Object>
    var view: View
    var error: Option<string>
    var loggedOut: bool

    function Snapshot(): State
      reads this
    {
      State(inputs, activeFilters, currentPage, totalPages, sortConfig, currentData, headers,
            fieldTypes, selectedFields, editingRow, view, error, loggedOut)
    }

    constructor ()
      ensures Snapshot() == Initial
    {
      inputs := ClearedInputs;
      activeFilters := map[];
      currentPage := 1;
      totalPages := 0;
      sortConfig := DefaultSort;
      currentData := [];
      headers := [];
      fieldTypes := InitialFieldTypes;
      selectedFields := [];
      editingRow := None;
      view := DataView;
      error := None;
      loggedOut := false;
    }

    method FilterApply()
      modifies this
      ensures Snapshot() == ApplyFilters(old(Snapshot()))
    {
      activeFilters := BuildFilters(inputs, fieldTypes);
      currentPage := 1;
    }

    method HandleClearFilters()
      modifies this
      ensures Snapshot() == ClearFilters(old(Snapshot()))
    {
      inputs := ClearedInputs;
      activeFilters := map[];
      currentPage := 1;
      sortConfig := DefaultSort;
    }

    method FetchDone(outcome: FetchOutcome, reset: bool)
      modifies this
      ensures Snapshot() == AfterFetch(old(Snapshot()), outcome, reset)
    {
      error := None;
      match outcome {
        case Response(d, tp, h, ft) =>
          ResponseArrived(d, tp, h, ft, reset);
        case HttpError(status, serverError, _) =>
          if status == 401 {
            loggedOut := true;
          } else {
            error := Some(ErrorText(serverError));
          }
        case NoResponse =>
          error := Some(FetchFailed);
        case RequestFailed(_) =>
          error := Some(FetchFailed);
      }
    }

    method ResponseArrived(d: Option<seq<Object>>, tp: Option<int>, h: Option<seq<string>>,
                           ft: Option<FieldTypes>, reset: bool)
      modifies this
      ensures Snapshot() == AfterResponse(old(Snapshot()), d, tp, h, ft, reset)
    {
      TakeData(d, tp);
      TakeMetadata(h, ft, reset);
    }

    method TakeData(d: Option<seq<Object>>, tp: Option<int>)
      modifies this
      ensures Snapshot() == WithData(old(Snapshot()), d, tp)
    {
      var data := if d.Some? then d.value else [];
      currentData := data;
      totalPages := if tp.Some? then tp.value else 0;
      if tp.Some? && |data| == 0 && currentPage > 1 && currentPage > tp.value {
        currentPage := if tp.value > 0 then tp.value else 1;
      }
    }

    method TakeMetadata(h: Option<seq<string>>, ft: Option<FieldTypes>, reset: bool)
      modifies this
      ensures Snapshot() == WithMetadata(old(Snapshot()), h, ft, reset)
    {
      if h.Some? && ft.Some? {
        if !ArraysEqual(headers, h.value) {
          headers := h.value;
        }
        fieldTypes := ft.value;
        if reset || |selectedFields| == 0 {
          selectedFields := h.value;
        }
      } else {
        error := Some(MissingMetadata);
      }
    }

    method AddClick()
      modifies this
      ensures Snapshot() == AddRow(old(Snapshot()))
    {
      editingRow := Some(NewRowObject(headers));
      view := NewRow;
    }

    method EditClick(row: Object)
      modifies this
      ensures Snapshot() == EditRowOf(old(Snapshot()), row)
    {
      editingRow := Some(row);
      view := EditRow;
    }
  }
}
