/**
 * The older contracts page (`pages/ongc-contracts/Leaderboard.jsx`): it sends
 * the filter inputs raw (empty bounds and unconverted dates included), resets
 * all columns when a fetch fails or lacks metadata, and tracks the row being
 * edited with its displayed serial number.
 */
module LeaderboardPage {
  import opened JsValues
  import opened ViewState
  import opened PageCommon
  import CombinedPanel

  /** `fieldTypes.range?.includes(f) || fieldTypes.number?.includes(f) || fieldTypes.yearDropdown?.includes(f)` */
  predicate IsRangeLike(ft: FieldTypes, field: string)
  {
    InCategory(ft, "range", field) || InCategory(ft, "number", field) || InCategory(ft, "yearDropdown", field)
  }

  /** Whether `handleFilterApply` sets key `k`: one whole group of keys per kind of field. */
  predicate Sends(inputs: FilterInputs, ft: FieldTypes, k: string)
  {
    var f := inputs.filterField;
    f != "" &&
    (k == "filterField"
     || (IsRangeLike(ft, f) && (k == "minRange" || k == "maxRange"))
     || (!IsRangeLike(ft, f) && InCategory(ft, "date", f) && (k == "fromDate" || k == "toDate"))
     || (!IsRangeLike(ft, f) && !InCategory(ft, "date", f) && k == "filterValue"))
  }

  /** The value under key `k`: the input as typed, with no conversion. */
  function SentValue(inputs: FilterInputs, k: string): JsValue
  {
    if k == "filterField" then Str(inputs.filterField)
    else if k == "minRange" then inputs.rangeMin
    else if k == "maxRange" then inputs.rangeMax
    else if k == "fromDate" then Str(inputs.dateFrom)
    else if k == "toDate" then Str(inputs.dateTo)
    else Str(inputs.filterValue)
  }

  function Filters(inputs: FilterInputs, ft: FieldTypes): (r: Object)
    ensures forall k :: k in r <==> Sends(inputs, ft, k)
    ensures forall k :: k in r ==> r[k] == SentValue(inputs, k)
  {
    map k | k in FilterKeys && Sends(inputs, ft, k) :: SentValue(inputs, k)
  }

  /**
   * The keys sent: none without a field; otherwise the field plus both bounds,
   * both dates or the value, whatever the inputs hold.
   */
  lemma FiltersKeys(inputs: FilterInputs, ft: FieldTypes)
    ensures var f := inputs.filterField;
      Filters(inputs, ft).Keys ==
        if f == "" then {}
        else if IsRangeLike(ft, f) then {"filterField", "minRange", "maxRange"}
        else if InCategory(ft, "date", f) then {"filterField", "fromDate", "toDate"}
        else {"filterField", "filterValue"}
  {
  }

  /** Dates go out exactly as typed. */
  lemma DatesSentRaw(inputs: FilterInputs, ft: FieldTypes)
    requires inputs.filterField != "" && !IsRangeLike(ft, inputs.filterField) && InCategory(ft, "date", inputs.filterField)
    ensures Filters(inputs, ft)["fromDate"] == Str(inputs.dateFrom)
    ensures Filters(inputs, ft)["toDate"] == Str(inputs.dateTo)
  {
  }

  /**
   * An empty bound is sent as `""`; only the export panel's cleaning would
   * drop it.
   */
  lemma EmptyBoundSent(inputs: FilterInputs, ft: FieldTypes)
    requires inputs.filterField != "" && IsRangeLike(ft, inputs.filterField) && inputs.rangeMin == Str("")
    ensures Filters(inputs, ft)["minRange"] == Str("")
    ensures "minRange" !in CombinedPanel.CleanFilters(Filters(inputs, ft))
  {
  }

  /** `handleFilterApply`'s object, filled one key at a time. */
  method BuildFilters(inputs: FilterInputs, ft: FieldTypes) returns (newFilters: Object)
    ensures newFilters == Filters(inputs, ft)
  {
    newFilters := map[];
    var field := inputs.filterField;
    if field != "" {
      newFilters := newFilters["filterField" := Str(field)];
      if ("range" in ft && field in ft["range"]) || ("number" in ft && field in ft["number"])
         || ("yearDropdown" in ft && field in ft["yearDropdown"]) {
        newFilters := newFilters["minRange" := inputs.rangeMin];
        newFilters := newFilters["maxRange" := inputs.rangeMax];
      } else if "date" in ft && field in ft["date"] {
        newFilters := newFilters["fromDate" := Str(inputs.dateFrom)];
        newFilters := newFilters["toDate" := Str(inputs.dateTo)];
      } else {
        newFilters := newFilters["filterValue" := Str(inputs.filterValue)];
      }
    }
    FiltersKeys(inputs, ft);
    assert newFilters.Keys == Filters(inputs, ft).Keys;
  }

  /** `arraysAreEqual`: an index loop that returns `false` at the first mismatch. */
  method ArraysAreEqual(arr1: seq<string>, arr2: seq<string>) returns (r: bool)
    ensures r <==> arr1 == arr2
  {
    if |arr1| != |arr2| {
      return false;
    }
    var i := 0;
    while i < |arr1|
      invariant 0 <= i <= |arr1|
      invariant arr1[..i] == arr2[..i]
    {
      if arr1[i] != arr2[i] {
        return false;
      }
      assert arr1[..i + 1] == arr1[..i] + [arr1[i]];
      assert arr2[..i + 1] == arr2[..i] + [arr2[i]];
      i := i + 1;
    }
    assert arr1 == arr1[..i] && arr2 == arr2[..i];
    return true;
  }

  const MissingMetadata: string := "Backend did not provide headers or fieldTypes metadata."

  const FailurePrefix: string := "Failed to fetch data: "
  const NoResponseText: string := "No response from server. Check network connection or backend server status."
  const RequestFailedText: string := ". Please ensure the backend server is running and provides headers/fieldTypes."

  /**
   * The message `fetchData` shows for each kind of failure: all start alike;
   * an HTTP error names its status and the server's error, or the status text
   * when the server sent none.
   */
  function FailureText(outcome: FetchOutcome): (r: string)
    requires !outcome.Response?
    ensures |r| > |FailurePrefix| && r[..|FailurePrefix|] == FailurePrefix
    ensures outcome.HttpError? && outcome.serverError.Some? && outcome.serverError.value != "" ==>
      r == FailurePrefix + IntToString(outcome.status) + " - " + outcome.serverError.value
    ensures outcome.HttpError? && (outcome.serverError.None? || outcome.serverError.value == "") ==>
      r == FailurePrefix + IntToString(outcome.status) + " - " + outcome.statusText
  {
    match outcome
    case HttpError(status, serverError, statusText) =>
      FailurePrefix + IntToString(status) + " - "
      + (if serverError.Some? && serverError.value != "" then serverError.value else statusText)
    case NoResponse =>
      FailurePrefix + NoResponseText
    case RequestFailed(message) =>
      FailurePrefix + message + RequestFailedText
  }

  /** The page's state, one field per `useState` that the modelled handlers touch. */
  datatype State = State(
    inputs: FilterInputs,
    activeFilters: Object,
    currentPage: int,
    totalPages: int,
    sortConfig: SortConfig,
    currentData: seq<Object>,
    headers: seq<string>,
    fieldTypes: FieldTypes,
    selectedFields: seq<string>,
    editingRow: Option<Object>,
    isEditing: bool,
    isNewRow: bool,
    editingSlNo: Option<int>,
    error: Option<string>)

  const Initial: State := State(ClearedInputs, map[], 1, 0, DefaultSort, [], [], map[], [], None, false, false, None, None)

  function ApplyFilters(s: State): State
  {
    s.(activeFilters := Filters(s.inputs, s.fieldTypes), currentPage := 1)
  }

  function ClearFilters(s: State): State
  {
    s.(inputs := ClearedInputs, activeFilters := map[], currentPage := 1, sortConfig := DefaultSort)
  }

  function ResetSort(s: State): State
  {
    s.(sortConfig := DefaultSort)
  }

  /**
   * Apply replaces the active filters by the ones built from the inputs, goes
   * back to page 1 and changes nothing else; right after a clear it is a no-op.
   */
  lemma ApplyStartsOnFirstPage(s: State)
    ensures ApplyFilters(s).currentPage == 1
    ensures ApplyFilters(s).activeFilters == Filters(s.inputs, s.fieldTypes)
    ensures ApplyFilters(s).(activeFilters := s.activeFilters, currentPage := s.currentPage) == s
    ensures ApplyFilters(ClearFilters(s)) == ClearFilters(s)
  {
    FiltersKeys(ClearedInputs, s.fieldTypes);
  }

  /** Clearing includes resetting the sort, and leaves nothing to clear or reset. */
  lemma ClearIncludesResetSort(s: State)
    ensures ClearFilters(ResetSort(s)) == ClearFilters(s)
    ensures ResetSort(ClearFilters(s)) == ClearFilters(s)
    ensures ClearFilters(s).activeFilters == map[] && ClearFilters(s).currentPage == 1
    ensures Filters(ClearFilters(s).inputs, s.fieldTypes) == map[]
  {
    assert forall k :: k !in Filters(ClearedInputs, s.fieldTypes);
  }

  /** The columns emptied on failure or on missing metadata. */
  function WithoutColumns(s: State): State
  {
    s.(headers := [], fieldTypes := map[], selectedFields := [])
  }

  /** The rows, the page count (`|| 0`) and the clamp against that defaulted count. */
  function WithData(s: State, d: Option<seq<Object>>, tp: Option<int>): State
  {
    var data := if d.Some? then d.value else [];
    var total := if tp.Some? then tp.value else 0;
    s.(currentData := data, totalPages := total, currentPage := ClampPage(|data| == 0, s.currentPage, total))
  }

  function WithMetadata(s: State, h: Option<seq<string>>, ft: Option<FieldTypes>, reset: bool): State
  {
    if h.Some? && ft.Some? then
      s.(headers := if h.value == s.headers then s.headers else h.value,
         fieldTypes := ft.value,
         selectedFields := SelectionAfterFetch(s.selectedFields, h.value, reset))
    else WithoutColumns(s).(error := Some(MissingMetadata))
  }

  /** What a finished `fetchData(reset)` leaves. */
  function AfterFetch(s: State, outcome: FetchOutcome, reset: bool): State
  {
    var s0 := s.(error := None);
    match outcome
    case Response(d, tp, h, ft) => WithMetadata(WithData(s0, d, tp), h, ft, reset)
    case _ => AfterFailure(s0, FailureText(outcome))
  }

  /** The `catch` block: an error message, and no rows, pages or columns. */
  function AfterFailure(s: State, message: string): State
  {
    WithoutColumns(s).(error := Some(message), currentData := [], totalPages := 0)
  }

  /** A fetch keeps the page at 1 or more and only moves it back after an empty page. */
  lemma FetchKeepsPageValid(s: State, outcome: FetchOutcome, reset: bool)
    requires s.currentPage >= 1
    ensures var t := AfterFetch(s, outcome, reset);
      1 <= t.currentPage <= s.currentPage
      && (t.currentPage != s.currentPage ==> outcome.Response? && t.currentData == [])
  {
    if outcome.Response? {
      var data := if outcome.data.Some? then outcome.data.value else [];
      var total := if outcome.totalPages.Some? then outcome.totalPages.value else 0;
      ClampLandsOnValidPage(|data| == 0, s.currentPage, total);
    }
  }

  /** A missing total counts as 0 pages, so an empty page past page 1 goes back to page 1. */
  lemma MissingTotalBackToFirst(s: State, h: Option<seq<string>>, ft: Option<FieldTypes>, reset: bool)
    requires s.currentPage > 1
    ensures AfterFetch(s, Response(None, None, h, ft), reset).currentPage == 1
  {
  }

  /** A failed fetch or missing metadata leaves no columns, no selection and an error. */
  lemma FailureEmptiesColumns(s: State, outcome: FetchOutcome, reset: bool)
    requires !outcome.Response? || outcome.headers.None? || outcome.fieldTypes.None?
    ensures var t := AfterFetch(s, outcome, reset);
      t.headers == [] && t.fieldTypes == map[] && t.selectedFields == [] && t.error.Some?
      && (!outcome.Response? ==> t.currentData == [] && t.totalPages == 0)
  {
  }

  /** With metadata, the new headers are shown and the selection follows the reset rule. */
  lemma MetadataReplacesColumns(s: State, d: Option<seq<Object>>, tp: Option<int>, h: seq<string>,
                                ft: FieldTypes, reset: bool)
    ensures var t := AfterFetch(s, Response(d, tp, Some(h), Some(ft)), reset);
      t.headers == h && t.fieldTypes == ft && t.error == None
      && (t.selectedFields == h <==> reset || s.selectedFields == [] || s.selectedFields == h)
  {
    SelectionAfterFetchShowsColumns(s.selectedFields, h, reset);
  }

  /** `handleEditClick(row, sl)` */
  function EditRowOf(s: State, row: Object, sl: int): State
  {
    s.(isNewRow := false, editingRow := Some(row), editingSlNo := Some(sl), isEditing := true)
  }

  /** `handleAddClick` */
  function AddRow(s: State): State
  {
    s.(isNewRow := true, editingRow := Some(NewRowObject(s.headers)), editingSlNo := None, isEditing := true)
  }

  /** Add opens a blank row with no serial; edit opens the given row with its serial. */
  lemma AddAndEditOpenEditor(s: State, row: Object, sl: int)
    ensures var a := AddRow(s);
      a.isEditing && a.isNewRow && a.editingSlNo == None
      && (forall k :: k in a.editingRow.value <==> k in s.headers)
      && (forall k :: k in a.editingRow.value ==> a.editingRow.value[k] == Str(""))
    ensures var e := EditRowOf(s, row, sl);
      e.isEditing && !e.isNewRow && e.editingSlNo == Some(sl) && e.editingRow == Some(row)
  {
  }

  class Page {
    var inputs: FilterInputs
    var activeFilters: Object
    var currentPage: int
    var totalPages: int
    var sortConfig: SortConfig
    var currentData: seq<Object>
    var headers: seq<string>
    var fieldTypes: FieldTypes
    var selectedFields: seq<string>
    var editingRow: Option<Object>
    var isEditing: bool
    var isNewRow: bool
    var editingSlNo: Option<int>
    var error: Option<string>

    function Snapshot(): State
      reads this
    {
      State(inputs, activeFilters, currentPage, totalPages, sortConfig, currentData, headers, fieldTypes,
            selectedFields, editingRow, isEditing, isNewRow, editingSlNo, error)
    }

    constructor ()
      ensures Snapshot() == Initial
    {
      inputs := ClearedInputs;
      activeFilters := map[];
      currentPage := 1;
      totalPages := 0;
      sortConfig := DefaultSort;
      currentData := [];
      headers := [];
      fieldTypes := map[];
      selectedFields := [];
      editingRow := None;
      isEditing := false;
      isNewRow := false;
      editingSlNo := None;
      error := None;
    }

    method FilterApply()
      modifies this
      ensures Snapshot() == ApplyFilters(old(Snapshot()))
    {
      activeFilters := BuildFilters(inputs, fieldTypes);
      currentPage := 1;
    }

    method HandleClearFilters()
      modifies this
      ensures Snapshot() == ClearFilters(old(Snapshot()))
    {
      inputs := ClearedInputs;
      activeFilters := map[];
      currentPage := 1;
      sortConfig := DefaultSort;
    }

    method HandleResetSort()
      modifies this
      ensures Snapshot() == ResetSort(old(Snapshot()))
    {
      sortConfig := DefaultSort;
    }

    method FetchDone(outcome: FetchOutcome, reset: bool)
      modifies this
      ensures Snapshot() == AfterFetch(old(Snapshot()), outcome, reset)
    {
      error := None;
      if outcome.Response? {
        TakeData(outcome.data, outcome.totalPages);
        TakeMetadata(outcome.headers, outcome.fieldTypes, reset);
      } else {
        TakeFailure(FailureText(outcome));
      }
    }

    method TakeFailure(message: string)
      modifies this
      ensures Snapshot() == AfterFailure(old(Snapshot()), message)
    {
      ghost var before := Snapshot();
      error := Some(message);
      currentData := [];
      totalPages := 0;
      headers := [];
      fieldTypes := map[];
      selectedFields := [];
      assert Snapshot() == AfterFailure(before, message);
    }

    method TakeData(d: Option<seq<Object>>, tp: Option<int>)
      modifies this
      ensures Snapshot() == WithData(old(Snapshot()), d, tp)
    {
      var fetchedData := if d.Some? then d.value else [];
      var fetchedTotalPages := if tp.Some? then tp.value else 0;
      currentData := fetchedData;
      totalPages := fetchedTotalPages;
      if |fetchedData| == 0 && currentPage > 1 && currentPage > fetchedTotalPages {
        currentPage := if fetchedTotalPages > 0 then fetchedTotalPages else 1;
      }
    }

    method TakeMetadata(h: Option<seq<string>>, ft: Option<FieldTypes>, reset: bool)
      modifies this
      ensures Snapshot() == WithMetadata(old(Snapshot()), h, ft, reset)
    {
      if h.Some? && ft.Some? {
        var same := ArraysAreEqual(headers, h.value);
        if !same {
          headers := h.value;
        }
        fieldTypes := ft.value;
        if reset || |selectedFields| == 0 {
          selectedFields := h.value;
        }
      } else {
        headers := [];
        fieldTypes := map[];
        selectedFields := [];
        error := Some(MissingMetadata);
      }
    }

    method EditClick(row: Object, sl: int)
      modifies this
      ensures Snapshot() == EditRowOf(old(Snapshot()), row, sl)
    {
      isNewRow := false;
      editingRow := Some(row);
      editingSlNo := Some(sl);
      isEditing := true;
    }

    method AddClick()
      modifies this
      ensures Snapshot() == AddRow(old(Snapshot()))
    {
      isNewRow := true;
      editingRow := Some(NewRowObject(headers));
      editingSlNo := None;
      isEditing := true;
    }
  }
}
