/**
 * The combined filter-and-export panel: it cleans the active filters before
 * sending them, dispatches an export to the client PDF path or to the server,
 * builds the server request's parameters and the saved file name, and owns the
 * Apply-button and column-selection rules.
 */
module CombinedPanel {
  import opened JsValues
  import opened Strings
  import opened ViewState
  import ExportButtons

  /** A filter value that survives cleaning: anything but `""` and `null` (even `undefined`). */
  predicate KeptValue(v: JsValue)
  {
    v != Str("") && v != Null
  }

  /** The filters with every `""` or `null` value dropped and the other values unchanged. */
  function CleanFilters(f: Object): (r: Object)
    ensures forall k :: k in r <==> k in f && KeptValue(f[k])
    ensures forall k :: k in r ==> r[k] == f[k]
  {
    map k | k in f && KeptValue(f[k]) :: f[k]
  }

  /** Cleaning twice is cleaning once. */
  lemma CleanFiltersIdempotent(f: Object)
    ensures CleanFilters(CleanFilters(f)) == CleanFilters(f)
  {
  }

  /** `getCleanFilters`: copies the kept entries of `activeFilters`, one key at a time. */
  method GetCleanFilters(activeFilters: Object) returns (clean: Object)
    ensures clean == CleanFilters(activeFilters)
  {
    clean := map[];
    var keys := activeFilters.Keys;
    while keys != {}
      invariant keys <= activeFilters.Keys
      invariant forall k :: k in clean <==> k in activeFilters && k !in keys && KeptValue(activeFilters[k])
      invariant forall k :: k in clean ==> clean[k] == activeFilters[k]
      decreases |keys|
    {
      var key :| key in keys;
      if activeFilters[key] != Str("") && activeFilters[key] != Null {
        clean := clean[key := activeFilters[key]];
      }
      keys := keys - {key};
    }
  }

  /** What the Export button starts. */
  datatype ExportAction =
    | ShowMessage(text: string)
    | ClientPdf
    | ServerExport(format: string)

  /** `handleExport`: refuse an empty column selection, then `pdf` on the client, anything else on the server. */
  function HandleExport(selectedFields: seq<string>, exportFormat: string): (a: ExportAction)
    ensures selectedFields == [] <==> a.ShowMessage?
    ensures a == ClientPdf <==> selectedFields != [] && exportFormat == "pdf"
    ensures a.ServerExport? ==> a.format == exportFormat && exportFormat != "pdf"
  {
    if |selectedFields| == 0 then ShowMessage("Please select at least one column to export.")
    else if exportFormat == "pdf" then ClientPdf
    else ServerExport(exportFormat)
  }

  function DirectionText(d: Direction): string
  {
    if d == Asc then "asc" else "desc"
  }

  /**
   * The query of a server export: format, sort field and direction (`''`
   * without a sort config), the selected fields joined by commas, then the
   * cleaned filters, which win on a clash of names. Every value is sent as
   * its `String` form.
   */
  function ServerExportParams(format: string, sort: Option<SortConfig>, selectedFields: seq<string>,
                              activeFilters: Object): (p: map<string, string>)
    ensures forall k :: k in p <==> k in {"format", "sortField", "sortDirection", "selectedFields"} || k in CleanFilters(activeFilters)
    ensures forall k :: k in CleanFilters(activeFilters) ==> p[k] == ToJsString(activeFilters[k])
    ensures "sortField" !in CleanFilters(activeFilters) ==> p["sortField"] == (if sort.Some? then sort.value.field else "")
    ensures "sortDirection" !in CleanFilters(activeFilters) ==>
      p["sortDirection"] == (if sort.Some? then DirectionText(sort.value.direction) else "")
    ensures "selectedFields" !in CleanFilters(activeFilters) ==> p["selectedFields"] == Join(selectedFields, ",")
    ensures "format" !in CleanFilters(activeFilters) ==> p["format"] == format
  {
    var clean := CleanFilters(activeFilters);
    var base := map[
      "format" := format,
      "sortField" := if sort.Some? then sort.value.field else "",
      "sortDirection" := if sort.Some? then DirectionText(sort.value.direction) else "",
      "selectedFields" := Join(selectedFields, ",")];
    var sent := map k | k in clean :: ToJsString(clean[k]);
    assert base.Keys == {"format", "sortField", "sortDirection", "selectedFields"};
    assert forall k :: k in clean ==> k in activeFilters && clean[k] == activeFilters[k];
    base + sent
  }

  /** An empty or `null` filter never reaches the server. */
  lemma EmptyFiltersNotSent(format: string, sort: Option<SortConfig>, selectedFields: seq<string>,
                            activeFilters: Object, k: string)
    requires k in activeFilters && !KeptValue(activeFilters[k])
    requires k !in {"format", "sortField", "sortDirection", "selectedFields"}
    ensures k !in ServerExportParams(format, sort, selectedFields, activeFilters)
  {
  }

  /** `${fileName}.${format}` */
  function SavedFileName(fileName: string, format: string): (r: string)
    ensures |r| == |fileName| + 1 + |format|
    ensures r[..|fileName|] == fileName && r[|fileName|] == '.' && r[|fileName| + 1..] == format
  {
    fileName + "." + format
  }

  /** `handleFilterFieldChange`: a new field starts with an empty value. */
  function FilterFieldChange(inputs: FilterInputs, field: string): (r: FilterInputs)
    ensures r.filterField == field && r.filterValue == ""
    ensures r.(filterField := inputs.filterField, filterValue := inputs.filterValue) == inputs
  {
    inputs.(filterField := field, filterValue := "")
  }

  /** The Apply button is enabled only with both a field and a value. */
  predicate ApplyEnabled(inputs: FilterInputs)
  {
    inputs.filterField != "" && inputs.filterValue != ""
  }

  /** Right after a field change, Apply stays disabled until a value is typed. */
  lemma FieldChangeDisablesApply(inputs: FilterInputs, field: string)
    ensures !ApplyEnabled(FilterFieldChange(inputs, field))
  {
  }

  /**
   * The Select/Deselect button uses the same rule as the export panel's
   * toggle: with at least one header, one click leaves all or none selected,
   * and a second click gives the other one.
   */
  lemma SelectToggleAlternates(selected: seq<string>, headers: seq<string>)
    requires headers != []
    ensures var once := ExportButtons.ToggleAll(selected, headers);
      (once == [] || once == headers)
      && ExportButtons.ToggleAll(once, headers) == (if once == [] then headers else [])
  {
  }
}
