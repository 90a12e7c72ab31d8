# Contracts admin front end: a verified model of its logic

The application is a React front end for a contracts register. It shows one
page of contract rows at a time, with filters, sorting, pagination,
column selection, CSV/PDF export, a row editor and a column (schema) editor.
Beneath the JSX sit small deterministic pieces. This project models those
pieces in Dafny and proves what they promise:

- **Schema editor** (`schema_editor.dfy`):
  - the two schema snapshots (loaded and working) and the rename marker;
  - local validation of edits and adds;
  - drag-and-drop moves;
  - the diff a save turns into update, add and reorder calls.
- **Contract pages** (`mis_page.dfy`, `leaderboard_page.dfy`, `page_common.dfy`):
  - how the filter query is built and reset;
  - what a finished fetch leaves: page clamp, column metadata, selection reset, error texts;
  - the Add and Edit handlers.
- **Tables** (`sortable_table.dfy`, `legacy_table.dfy`, `view_state.dfy`):
  - sortability and sort toggling;
  - visible columns and serial numbers;
  - row keys and cell text;
  - the client-side comparator and the sorted copy.
- **Pager** (`pagination.dfy`): the page-button window, the ellipses and the step buttons.
- **Panels** (`filter_panel.dfy`, `combined_panel.dfy`, `export_buttons.dfy`):
  - input classification and clearing;
  - filter cleaning;
  - export dispatch and query;
  - column toggles;
  - the CSV text: every data cell quoted and inner quotes doubled, as in rule 7 of section 2 of RFC 4180; the header line is the field names joined by commas, unquoted;
  - the PDF string rules.
- **Row editors** (`edit_form.dfy`, `row_editor.dfy`, `dates.dfy`):
  - field classification;
  - the save copy with dates converted from `dd-mm-yyyy` to the `full-date` layout of section 5.6 of RFC 3339;
  - change, save and delete handlers.
- **Button** (`button.dfy`): the class-string builder.
- **Shared modules**:
  - `js_values.dfy` holds JavaScript values. `Truthy` is explicit, and `||` defaults are written out.
  - `strings.dfy` holds trimming, lower-casing, substring search and joining.

State that the source updates in place is modelled as a class. These are the
schema editor, the two contract pages and the edit dialog. Each has a
`Snapshot()` or its fields, and every method is proved equal to a
specification function of the old state. The properties are proved about
those functions. The loops of the source are methods with invariants:

- the building of filter objects;
- `getCleanFilters`;
- `arraysAreEqual`;
- `isSortable`;
- the save copy;
- the three loops of the schema save.

Network calls are parameters. A fetch ends in a `FetchOutcome`. A schema
save is given the index of the first call that fails.

## Model

| member | source | states |
|---|---|---|
| Button.WithDefault | src/components/Button/Button.jsx:9-10 | a destructuring default replaces `undefined` only; `null` and every other value pass through |
| Button.CombinedClassName | src/components/Button/Button.jsx:15-24 | the class string starts with `btn`, has no leading or trailing whitespace, and is the template text with only its trailing blank run removed |
| Button.VariantFollowsBase | src/components/Button/Button.jsx:18-24 | a truthy variant puts `btn--<variant>` right after `btn ` |
| Button.PlainButton | src/components/Button/Button.jsx:15-24 | with no variant, no active flag and no extra class the class is exactly `btn` |
| Button.ActiveWithoutVariant | src/components/Button/Button.jsx:18-24 | an active toggle without a variant keeps the interior double space: `btn  active` |
| Button.Render | src/components/Button/Button.jsx:26-35 | `type` defaults to `button`; `disabled` and `onClick` pass through unchanged; the class is the combined class |
| Pagination.GoToPage | src/components/Pagination/Pagination.jsx:5-9 | `setPage` is called exactly when `1 <= page <= totalPages`, with that page |
| Pagination.KeepIsWindow | src/components/Pagination.jsx:39-45 | the three-case filter keeps exactly the pages of one window of at most three pages lying strictly between the first and last page |
| Pagination.MiddleIsWindow | src/components/Pagination/Pagination.jsx:36-42 | the middle buttons are exactly the consecutive pages of that window, ascending |
| Pagination.MiddlePagesShape | src/components/Pagination.jsx:39-45 | at most three middle buttons, ascending by one, never page 1 or the last page |
| Pagination.CurrentPageShown | src/components/Pagination/Pagination.jsx:24-64 | every valid current page has a button: the first, the last or a middle one |
| Pagination.EllipsesMarkGaps | src/components/Pagination/Pagination.jsx:32-56 | the left ellipsis is drawn iff page 2 has no button, the right one iff page `total-1` has none |
| Pagination.RenderedIffStepPossible | src/components/Pagination/Pagination.jsx:11 | the pager is drawn iff, from a valid current page, Prev or Next would reach another page |
| Pagination.StepButtonsMatchGoToPage | src/components/Pagination.jsx:17-73 | Prev is disabled iff `goToPage(current-1)` would be ignored, Next iff `goToPage(current+1)` would be |
| ViewState.NextSort | src/components/DataTable.jsx:53-56 | the clicked field is sorted descending iff it was the field sorted ascending, else ascending |
| ViewState.NextSortTwice | src/components/DataTable/DataTable.jsx:31-32 | two clicks on the same header end ascending when that field was already sorted ascending, and descending otherwise |
| ViewState.VisibleHeaders | src/components/DataTable/DataTable.jsx:43 | a header is visible iff it is a header and selected, with as many copies as in `headers`; never more than the headers |
| ViewState.VisibleHeadersKeepOrder | src/components/DataTable.jsx:17 | the visible headers are a subsequence of `headers`: header order, not selection order |
| ViewState.SerialNumbersDistinct | src/components/DataTable.jsx:121 | with a positive page size no two (page, row) slots share a serial number |
| ViewState.SerialNumberRange | src/components/DataTable/DataTable.jsx:79 | the rows of page `p` are numbered `(p-1)*size+1 .. p*size` |
| SortableTable.IsSortable | src/components/DataTable/DataTable.jsx:16-25 | the category loop answers true iff `fieldTypes` is an object and one of range, number, yearDropdown, date, yesNo lists the field |
| SortableTable.NumericOrTextNotSortable | src/components/DataTable/DataTable.jsx:18-20 | a field listed only under `numeric` or `text` is not sortable |
| SortableTable.HandleSort | src/components/DataTable/DataTable.jsx:27-34 | a sort is set iff the field is sortable and a setter was passed; it is descending iff the field was ascending |
| SortableTable.HandleSortTwice | src/components/DataTable/DataTable.jsx:28-32 | two clicks from ascending come back to ascending |
| SortableTable.SortIndicator | src/components/DataTable/DataTable.jsx:36-41 | an arrow only for the active sort field; ` ▲` iff that sort is ascending |
| SortableTable.RowKey | src/components/DataTable/DataTable.jsx:78 | the key is `row.id` when truthy, else `row-<index>` |
| SortableTable.RowKeysDistinct | src/components/DataTable/DataTable.jsx:78 | rows without an id get equal keys only at equal positions |
| SortableTable.FormatDate | src/components/DataTable/DataTable.jsx:45-54 | `-` for a falsy value or the string `nan`; any other value goes to the locale date cell, which stands for `toLocaleDateString("en-GB")` or for `-` when the date is invalid |
| SortableTable.CellFor | src/components/DataTable/DataTable.jsx:92-96 | the serial for `SL No`, the date format for headers containing `date` (any case), else the value or `-` when falsy |
| SortableTable.RenderRow | src/components/DataTable/DataTable.jsx:77-102 | one cell per visible header in order; the Edit button gets `(page-1)*size + index + 1` |
| SortableTable.DefaultsNumberFromOne | src/components/DataTable/DataTable.jsx:11-12 | with the default props `currentPage = 1` and `rowsPerPage = 10`, which the MIS page leaves unset, row `i` is numbered `i + 1` |
| SortableTable.SerialCellMatchesEdit | src/components/DataTable/DataTable.jsx:92-102 | the `SL No` cell shows the same number the Edit button passes to `onEdit` |
| LegacyTable.IsSortable | src/components/DataTable.jsx:19-27 | false without a first row; true for names containing `date` (any case); false for `SL No`; else true iff the first row's value is a number |
| LegacyTable.ToggleSort | src/components/DataTable.jsx:48-58 | a sort is set iff the field is sortable on the first row and there is a setter; descending iff it was ascending on that field |
| LegacyTable.CompareAsWrittenNotAntisymmetric | src/components/DataTable.jsx:35-36 | as written, two missing values compare as 1 in both orders |
| LegacyTable.Compare | src/components/DataTable.jsx:31-45 | a missing left value sorts after a present one (1), a missing right value before (-1), two missing are equal (0); two present values compare by their key (date for `date` columns, else number): 0 iff the keys are equal, negative iff the left key is smaller under `asc` or larger under `desc` |
| LegacyTable.CompareAntisymmetric | src/components/DataTable.jsx:35-44 | swapping the arguments flips the sign; `desc` negates `asc` on present values |
| LegacyTable.CompareFixesOnlyMissingPairs | src/components/DataTable.jsx:35-36 | the corrected comparator agrees with the written one except on two missing values |
| LegacyTable.SortRowsCorrect | src/components/DataTable.jsx:31 | the sorted copy is a permutation of the rows and ordered by the comparator |
| LegacyTable.MissingValuesLast | src/components/DataTable.jsx:35-36 | in a sorted result every row missing the sort field comes after every row that has it |
| LegacyTable.SortedData | src/components/DataTable.jsx:29-30 | without a sort field the rows are returned as they are |
| LegacyTable.SortedDataPermutes | src/components/DataTable.jsx:29-46 | whatever the sort, the same rows are shown, each as often as in `data`, and sorted when a field is set |
| LegacyTable.PresentBefore | src/components/DataTable.jsx:35-36 | in a sorted result a row holding the sort field is preceded only by rows holding it |
| LegacyTable.SortedInColumnOrder | src/components/DataTable.jsx:38-44 | in a sorted result any two rows holding the sort field have keys ascending under `asc`, descending under `desc` |
| LegacyTable.SortedDataInColumnOrder | src/components/DataTable.jsx:29-46 | the table sorted by a field shows present values in column order (ascending or descending) and missing ones after them |
| FilterPanel.Includes | src/components/FilterPanel.jsx:27-29 | `fieldTypes[c].includes(f)` throws exactly when category `c` is absent, else answers membership |
| FilterPanel.OrElse | src/components/FilterPanel.jsx:27-29 | `a \|\| b` evaluates `b` only when `a` is false, and a throw in `a` propagates |
| FilterPanel.RenderInput | src/components/FilterPanel.jsx:150-151 | no input exactly when no field is chosen |
| FilterPanel.RenderInputPrecedence | src/components/FilterPanel.jsx:153-162 | with every category present it never throws; each input kind is chosen iff its category lists the field and no earlier one does, in the order range or number, date, yesNo, yearDropdown, then text |
| FilterPanel.SpecialInputIffSortable | src/components/FilterPanel.jsx:153-162 | a chosen field gets a non-text input exactly when the table lets its column be sorted |
| FilterPanel.MissingRangeThrows | src/components/FilterPanel.jsx:153 | metadata without a `range` category throws as soon as a field is chosen |
| FilterPanel.ClearInput | src/components/FilterPanel.jsx:24-41 | three calls: one group reset, then `setFilterField("")`, then `resetSort()` |
| FilterPanel.ClearResetsOneGroup | src/components/FilterPanel.jsx:26-40 | clearing empties the field and exactly one group (range, dates or value) and leaves the others as they were |
| FilterPanel.ClearClick | src/components/FilterPanel.jsx:187-191 | Clear runs `handleClearInput` then `onClear`, and neither when the first throws |
| FilterPanel.RangeValue | src/components/FilterPanel.jsx:55 | an empty entry is stored as `""`, a typed one as its number |
| FilterPanel.SetRangeFrom | src/components/FilterPanel.jsx:53-58 | the From box changes only the lower bound |
| FilterPanel.SetRangeTo | src/components/FilterPanel.jsx:67-72 | the To box changes only the upper bound |
| FilterPanel.SetYearFrom | src/components/FilterPanel.jsx:123 | the year From box stores the raw text and changes only the lower bound |
| FilterPanel.SetYearTo | src/components/FilterPanel.jsx:132 | the year To box stores the raw text and changes only the upper bound |
| FilterPanel.EmptyEntriesAgree | src/components/FilterPanel.jsx:122-123 | an emptied number box and an empty year box store the same value |
| CombinedPanel.CleanFilters | src/components/CombinedPanel/CombinedPanel.jsx:329-337 | keeps exactly the keys whose value is neither `""` nor `null`, values unchanged |
| CombinedPanel.CleanFiltersIdempotent | src/components/CombinedPanel/CombinedPanel.jsx:332-333 | cleaning a cleaned object changes nothing |
| CombinedPanel.GetCleanFilters | src/components/CombinedPanel/CombinedPanel.jsx:331-336 | the key-by-key loop builds exactly the cleaned object |
| CombinedPanel.HandleExport | src/components/CombinedPanel/CombinedPanel.jsx:396-406 | an empty selection only shows a message; `pdf` goes to the client path, every other format to the server |
| CombinedPanel.ServerExportParams | src/components/CombinedPanel/CombinedPanel.jsx:347-353 | the query holds format, sort field, sort direction (`asc`/`desc`, or `''` without a sort), the fields joined by commas, and the cleaned filters, which win on a name clash |
| CombinedPanel.EmptyFiltersNotSent | src/components/CombinedPanel/CombinedPanel.jsx:352 | an empty or `null` filter never reaches the server |
| CombinedPanel.SavedFileName | src/components/CombinedPanel/CombinedPanel.jsx:356 | the saved name is the file name, a dot, then the format |
| CombinedPanel.FilterFieldChange | src/components/CombinedPanel/CombinedPanel.jsx:424-427 | a field change sets the field, empties the value and changes nothing else |
| CombinedPanel.FieldChangeDisablesApply | src/components/CombinedPanel/CombinedPanel.jsx:442 | right after a field change Apply is disabled, since it needs both a field and a value |
| CombinedPanel.SelectToggleAlternates | src/components/CombinedPanel/CombinedPanel.jsx:479 | with headers present, one click leaves all or none selected and a second click gives the other |
| ExportButtons.Without | src/components/ExportButtons.jsx:18 | every copy of the field is removed; the result is a subsequence of the input and every other field keeps its count, so order and repeats are kept |
| ExportButtons.ToggleField | src/components/ExportButtons.jsx:15-21 | a selected field is removed (all copies), the other entries keeping their order and counts; an unselected one is appended at the end |
| ExportButtons.ToggleTwice | src/components/ExportButtons.jsx:16-20 | toggling twice restores membership, and restores the exact list when the field was not selected |
| ExportButtons.ToggleAll | src/components/ExportButtons.jsx:23-25 | `[]` when the selection is as long as the headers, else exactly the headers |
| ExportButtons.CsvCellText | src/components/ExportButtons.jsx:33 | falsy values (missing, `null`, `''`, `0`, `false`) give `''`, others their string form |
| ExportButtons.CellTexts | src/components/ExportButtons.jsx:33 | one cell text per selected field, in selection order |
| ExportButtons.HeaderNotQuoted | src/components/ExportButtons.jsx:31 | the header line is not quoted: for any other fields, a field name `a,b` gives the same header as the two fields `a` and `b` |
| ExportButtons.FalsyCellIsEmptyQuotes | src/components/ExportButtons.jsx:33 | a falsy cell is written as `""` |
| ExportButtons.QuotedRoundTrip | src/components/ExportButtons.jsx:33 | undoing the doubled quotes up to the closing quote gives back the cell text |
| ExportButtons.CsvLineRoundTrip | src/components/ExportButtons.jsx:32-34 | each data line has exactly one quoted field per selected column and reads back as the row's cell texts |
| ExportButtons.CsvTextLines | src/components/ExportButtons.jsx:31-36 | when no name or cell holds a newline, the file splits into the header line plus one line per row, in `data` order |
| ExportButtons.CsvTextReadsBack | src/components/ExportButtons.jsx:31-36 | under the same condition, line `i+1` of the file reads back as row `i`'s cell texts |
| ExportButtons.PdfFormat | src/components/ExportButtons.jsx:72-74 | a3 paper iff more than ten columns are selected |
| ExportButtons.PdfTitle | src/components/ExportButtons.jsx:84 | same length; at each position a `_` becomes a space and every other character is unchanged |
| ExportButtons.PdfHeader | src/components/ExportButtons.jsx:88 | a header without `(₹)` is unchanged |
| ExportButtons.PdfHeaderReplacesFirst | src/components/ExportButtons.jsx:88 | the first `(₹)` and the blanks before it become ` (INR)`; the rest is kept |
| ExportButtons.PdfCell | src/components/ExportButtons.jsx:89 | only a missing or `null` cell gives `''`; numbers print in decimal, strings as they are |
| ExportButtons.CsvAndPdfCellsDiffer | src/components/ExportButtons.jsx:89 | the CSV and PDF cell texts differ exactly on a falsy, non-nullish value with non-empty text; so a zero cell is empty in the CSV but `0` in the PDF |
| Dates.Split | src/components/EditPage/EditPage.jsx:30 | `split(/[-/]/)` gives at least one piece, and no piece holds a separator |
| Dates.FormatDateForApi | src/components/EditPage/EditPage.jsx:28-34 | `''` for falsy or non-string input or a bad shape (not three pieces, or a last piece not four long); else `year-month-day` with the pieces copied |
| Dates.FormatSplitsBack | src/pages/management-info-system/MIS.jsx:9-15 | a non-empty result is the three pieces read, reordered |
| Dates.FormatTwice | src/pages/management-info-system/MIS.jsx:12-14 | feeding a result back in gives `''` unless the day piece is four long |
| Dates.FormatDayMonthYear | src/pages/management-info-system/MIS.jsx:13-14 | a date `dd-mm-yyyy`, `dd/mm/yyyy` or with mixed separators converts to `yyyy-mm-dd` |
| EditForm.ChangeField | src/components/EditPage/EditPage.jsx:59-63 | only the named key changes: `checked` for a checkbox, otherwise `value` |
| EditForm.EditableHeaders | src/components/EditPage/EditPage.jsx:110 | the headers minus `SL No` and `id`, every other header with as many copies as in `headers` |
| EditForm.EditableHeadersKeepOrder | src/pages/edit/EditPage.jsx:40 | the editable headers keep the order of `headers` |
| EditForm.RewriteOne | src/components/EditPage/EditPage.jsx:73-75 | a truthy date value is replaced by its API form; the keys and all other values stay |
| EditForm.RewriteDates | src/components/EditPage/EditPage.jsx:70-77 | the save copy has the same keys; values of fields that are not date fields are unchanged |
| EditForm.RewriteDatesEach | src/components/EditPage/EditPage.jsx:71-76 | with each date field listed once, a truthy date value is sent in API form and every other value as it was |
| EditForm.DateListedTwice | src/components/EditPage/EditPage.jsx:72-75 | a date field listed twice is converted twice |
| EditForm.SaveData | src/components/EditPage/EditPage.jsx:69-77 | the `forEach` over the date fields builds exactly the save copy |
| EditForm.GetFieldType | src/components/EditPage/EditPage.jsx:103-108 | `text` without field types; `numeric` wins over `date`; otherwise `text` |
| EditForm.FormControlFor | src/components/EditPage/EditPage.jsx:122-158 | the two Yes/No headers first, then `Remarks`, then the field type |
| EditForm.EditPage.constructor | src/components/EditPage/EditPage.jsx:37-40 | the dialog opens with the given data and neither flag set |
| EditForm.EditPage.HandleChange | src/components/EditPage/EditPage.jsx:62 | the form becomes `ChangeField` of the old form; flags unchanged |
| EditForm.EditPage.HandleSave | src/components/EditPage/EditPage.jsx:65-84 | sends the save copy; `isSaving` is false afterwards and the form is unchanged, whatever `onSave` does |
| EditForm.EditPage.HandleDeleteClick | src/components/EditPage/EditPage.jsx:86-88 | opens the confirmation and changes nothing else |
| EditForm.EditPage.HandleConfirmDelete | src/components/EditPage/EditPage.jsx:90-101 | a no-op without `onDelete`; otherwise deletes, and on success closes the confirmation and calls `onCancel` |
| RowEditor.ClassifyWith | src/pages/edit/EditPage.jsx:52-87 | Yes/No headers, then `date` (any case), then the currency marker, `amount` or `(yr)`, then `Remarks`, else text; each branch iff its tests |
| RowEditor.ClassifyAsWritten | src/pages/edit/EditPage.jsx:74-87 | a number input iff not Yes/No, no `date`, and the garbled marker, `amount` or `(yr)` occurs; a header without the character `â` and without `amount` or `(yr)` never gets one |
| RowEditor.Classify | src/pages/edit/EditPage.jsx:74-87 | a number input iff not Yes/No, no `date`, and `(₹)`, `amount` or `(yr)` occurs; so every non-date currency column gets one |
| RowEditor.GarbledRupeeMissesCurrencyColumns | src/pages/edit/EditPage.jsx:79-80 | a header such as `Value (₹)` gets a text box as written and a number input once corrected |
| RowEditor.GarbledNeverMatches | src/pages/edit/EditPage.jsx:79 | the garbled marker never occurs in a header without the character `â` |
| RowEditor.DateBeforeNumber | src/pages/edit/EditPage.jsx:74-81 | the date test comes before the number test |
| RowEditor.SaveArgument | src/pages/edit/EditPage.jsx:25-28 | `onSave` receives the form data unchanged |
| RowEditor.ConfirmDelete | src/pages/edit/EditPage.jsx:34-38 | `onDelete(formData.id)` is called iff `onDelete` is given |
| RowEditor.YesNoToggleSets | src/pages/edit/EditPage.jsx:56-69 | the toggle sets its column to exactly `Yes` or `No` and keeps the others |
| PageCommon.NewRowObject | src/pages/management-info-system/MIS.jsx:148 | the new row has exactly the headers as keys, each mapped to `''` |
| PageCommon.NewRowAllFalsy | src/pages/ongc-contracts/Leaderboard.jsx:175 | no value of the new row is truthy |
| PageCommon.ClampLandsOnValidPage | src/pages/management-info-system/MIS.jsx:71-73 | the clamp never raises the page, moves only after an empty page, and lands on the last page (or 1) |
| PageCommon.SelectionAfterFetchShowsColumns | src/pages/ongc-contracts/Leaderboard.jsx:73-75 | the selection becomes the headers iff reset, empty before, or already equal; after a reset every column is visible |
| PageCommon.VisibleAll | src/components/DataTable/DataTable.jsx:43 | selecting every header shows every header |
| PageCommon.ArraysEqual | src/pages/management-info-system/MIS.jsx:51-54 | true iff the lengths match and the elements are equal index by index |
| MisPage.Filters | src/pages/management-info-system/MIS.jsx:96-111 | the filter object has exactly the keys `handleFilterApply` sends, each with its value |
| MisPage.NoFieldNoFilters | src/pages/management-info-system/MIS.jsx:98 | no field chosen gives `{}` |
| MisPage.FiltersAllTruthy | src/pages/management-info-system/MIS.jsx:100-110 | empty bounds, dates and values are left out: every value sent is truthy |
| MisPage.FiltersSurviveCleaning | src/pages/management-info-system/MIS.jsx:101-109 | the export panel's cleaning leaves these filters unchanged |
| MisPage.NumericBeforeDate | src/pages/management-info-system/MIS.jsx:100-103 | a field both numeric and date is filtered by range, never by date |
| MisPage.DateSentReordered | src/pages/management-info-system/MIS.jsx:103-107 | a date typed `dd-mm-yyyy` or `dd/mm/yyyy` is sent as `yyyy-mm-dd` |
| MisPage.BuildFilters | src/pages/management-info-system/MIS.jsx:97-111 | the key-by-key filling builds exactly the filter object |
| MisPage.ApplyStartsOnFirstPage | src/pages/management-info-system/MIS.jsx:112-113 | apply sets the built filters and page 1 and nothing else; right after a clear it changes nothing |
| MisPage.ClearFiltersResets | src/pages/management-info-system/MIS.jsx:116-119 | clearing leaves no filter, page 1, the default sort, and nothing to clear again |
| MisPage.FetchKeepsPageValid | src/pages/management-info-system/MIS.jsx:69-73 | a fetch keeps the page at 1 or more and never raises it; it moves only after an empty page with a received total |
| MisPage.MissingTotalNoClamp | src/pages/management-info-system/MIS.jsx:70-71 | a response without a total shows zero pages but keeps the current page |
| MisPage.MissingMetadataKeepsColumns | src/pages/management-info-system/MIS.jsx:74-80 | without headers and field types the columns and selection stay and an error is set |
| MisPage.MetadataReplacesColumns | src/pages/management-info-system/MIS.jsx:75-77 | with metadata the new headers and types are shown and the selection follows the reset rule |
| MisPage.UnauthorizedLogsOut | src/pages/management-info-system/MIS.jsx:83-85 | a 401 logs out and changes nothing else |
| MisPage.AddRowBlank | src/pages/management-info-system/MIS.jsx:147-151 | Add opens the new-row view on a row with every header and only empty values |
| MisPage.Page.constructor | src/pages/management-info-system/MIS.jsx:21-35 | the page starts in its initial state |
| MisPage.Page.FilterApply | src/pages/management-info-system/MIS.jsx:96-114 | the state becomes `ApplyFilters` of the old state |
| MisPage.Page.HandleClearFilters | src/pages/management-info-system/MIS.jsx:116-119 | the state becomes `ClearFilters` of the old state |
| MisPage.Page.FetchDone | src/pages/management-info-system/MIS.jsx:62-92 | the state becomes `AfterFetch` of the old state and the outcome |
| MisPage.Page.ResponseArrived | src/pages/management-info-system/MIS.jsx:68-80 | the state becomes `AfterResponse` of the old state |
| MisPage.Page.TakeData | src/pages/management-info-system/MIS.jsx:69-73 | the state becomes `WithData` of the old state |
| MisPage.Page.TakeMetadata | src/pages/management-info-system/MIS.jsx:74-80 | the state becomes `WithMetadata` of the old state |
| MisPage.Page.AddClick | src/pages/management-info-system/MIS.jsx:147-151 | the state becomes `AddRow` of the old state |
| MisPage.Page.EditClick | src/pages/management-info-system/MIS.jsx:145 | the state becomes `EditRowOf` of the old state and the row |
| LeaderboardPage.Filters | src/pages/ongc-contracts/Leaderboard.jsx:108-120 | the filter object has exactly the keys `handleFilterApply` sets, each with the raw input |
| LeaderboardPage.FiltersKeys | src/pages/ongc-contracts/Leaderboard.jsx:109-119 | no field gives `{}`; otherwise the field plus both bounds, both dates or the value, whatever the inputs hold |
| LeaderboardPage.DatesSentRaw | src/pages/ongc-contracts/Leaderboard.jsx:114-116 | dates are sent exactly as typed |
| LeaderboardPage.EmptyBoundSent | src/pages/ongc-contracts/Leaderboard.jsx:111-113 | an empty bound is sent as `""`; only the export panel's cleaning drops it |
| LeaderboardPage.BuildFilters | src/pages/ongc-contracts/Leaderboard.jsx:107-120 | the key-by-key filling builds exactly the filter object |
| LeaderboardPage.ArraysAreEqual | src/pages/ongc-contracts/Leaderboard.jsx:33-39 | the index loop answers true iff the two arrays are equal |
| LeaderboardPage.FailureText | src/pages/ongc-contracts/Leaderboard.jsx:86-92 | every failure message starts `Failed to fetch data: `; an HTTP error names its status and the server's error, else the status text |
| LeaderboardPage.ApplyStartsOnFirstPage | src/pages/ongc-contracts/Leaderboard.jsx:121-122 | apply sets the built filters and page 1 and nothing else; right after a clear it changes nothing |
| LeaderboardPage.ClearIncludesResetSort | src/pages/ongc-contracts/Leaderboard.jsx:125-137 | clearing includes the sort reset, leaves no filter and page 1, and a reset after it changes nothing |
| LeaderboardPage.FetchKeepsPageValid | src/pages/ongc-contracts/Leaderboard.jsx:53-61 | a fetch keeps the page at 1 or more, never raises it, and moves it only after an empty page |
| LeaderboardPage.MissingTotalBackToFirst | src/pages/ongc-contracts/Leaderboard.jsx:54-60 | a missing total counts as 0, so an empty page past page 1 goes back to page 1 |
| LeaderboardPage.FailureEmptiesColumns | src/pages/ongc-contracts/Leaderboard.jsx:77-97 | missing metadata or a failed fetch empties headers, field types and selection and sets an error; a failure also empties rows and pages |
| LeaderboardPage.MetadataReplacesColumns | src/pages/ongc-contracts/Leaderboard.jsx:63-75 | with metadata the new headers and types are shown and the selection follows the reset rule |
| LeaderboardPage.AddAndEditOpenEditor | src/pages/ongc-contracts/Leaderboard.jsx:166-179 | Add opens a blank row as new with no serial; Edit opens the given row as not new with its serial |
| LeaderboardPage.Page.constructor | src/pages/ongc-contracts/Leaderboard.jsx:13-31 | the page starts in its initial state |
| LeaderboardPage.Page.FilterApply | src/pages/ongc-contracts/Leaderboard.jsx:107-123 | the state becomes `ApplyFilters` of the old state |
| LeaderboardPage.Page.HandleClearFilters | src/pages/ongc-contracts/Leaderboard.jsx:125-133 | the state becomes `ClearFilters` of the old state |
| LeaderboardPage.Page.HandleResetSort | src/pages/ongc-contracts/Leaderboard.jsx:135-137 | only the sort changes, to the default |
| LeaderboardPage.Page.FetchDone | src/pages/ongc-contracts/Leaderboard.jsx:41-101 | the state becomes `AfterFetch` of the old state and the outcome |
| LeaderboardPage.Page.TakeFailure | src/pages/ongc-contracts/Leaderboard.jsx:84-97 | the state becomes `AfterFailure` of the old state and the message |
| LeaderboardPage.Page.TakeData | src/pages/ongc-contracts/Leaderboard.jsx:53-61 | the state becomes `WithData` of the old state |
| LeaderboardPage.Page.TakeMetadata | src/pages/ongc-contracts/Leaderboard.jsx:63-82 | the state becomes `WithMetadata` of the old state |
| LeaderboardPage.Page.EditClick | src/pages/ongc-contracts/Leaderboard.jsx:166-171 | the state becomes `EditRowOf` of the old state, the row and the serial |
| LeaderboardPage.Page.AddClick | src/pages/ongc-contracts/Leaderboard.jsx:173-179 | the state becomes `AddRow` of the old state |
| SchemaEditor.Names | src/components/SchemaEditor/SchemaEditor.jsx:147-148 | the column names in schema order |
| SchemaEditor.BlankNamesRefused | src/components/SchemaEditor/SchemaEditor.jsx:53-56 | an empty or whitespace-only name is refused |
| SchemaEditor.CaseOnlyRenameRefused | src/components/SchemaEditor/SchemaEditor.jsx:57-60 | changing only the case of a column's name is refused, since the column clashes with itself |
| SchemaEditor.UpdateWith | src/components/SchemaEditor/SchemaEditor.jsx:62-74 | same length; the columns named `oldName` take the new name and type; all others are unchanged |
| SchemaEditor.SecondEditOfRenamedColumn | src/components/SchemaEditor/SchemaEditor.jsx:65-70 | editing a column renamed earlier drops its marker as written, and keeps it corrected |
| SchemaEditor.MarkerKeepsOrigin | src/components/SchemaEditor/SchemaEditor.jsx:65-70 | with the corrected marker, a loaded column keeps its loaded name through every edit |
| SchemaEditor.MatchIndex | src/components/SchemaEditor/SchemaEditor.jsx:113-115 | the first working column with the same name or marked with it, or none |
| SchemaEditor.UpdateFor | src/components/SchemaEditor/SchemaEditor.jsx:117-127 | a loaded column gives one update iff its match was renamed or retyped, carrying the match's name and type |
| SchemaEditor.ModifiedOps | src/components/SchemaEditor/SchemaEditor.jsx:112-129 | the first loop pushes only updates |
| SchemaEditor.ModifiedOpsExactly | src/components/SchemaEditor/SchemaEditor.jsx:112-129 | an update is sent iff some loaded column contributes it; unmatched loaded columns send nothing |
| SchemaEditor.AddedOps | src/components/SchemaEditor/SchemaEditor.jsx:131-135 | the adds are exactly the working columns with a name that was not loaded and no marker |
| SchemaEditor.DiffOrder | src/components/SchemaEditor/SchemaEditor.jsx:137-151 | all updates precede all adds; a reorder comes last with the full name list, sent iff the names or their order changed |
| SchemaEditor.NoEditsNoCalls | src/components/SchemaEditor/SchemaEditor.jsx:104-151 | an unedited schema with distinct names saves with no calls |
| SchemaEditor.TwoRenamesDiff | src/components/SchemaEditor/SchemaEditor.jsx:65-70 | renaming `A` to `B` then `C` saves as an add of `C` as written, and as an update `A` to `C` corrected |
| SchemaEditor.Moved | src/components/SchemaEditor/SchemaEditor.jsx:94-102 | a drop keeps the length and the multiset of columns and puts the dragged column at the drop index |
| SchemaEditor.MovedInPlace | src/components/SchemaEditor/SchemaEditor.jsx:95-98 | dropping where it was picked up changes nothing |
| SchemaEditor.FixedColumnStaysFirst | src/components/SchemaEditor/SchemaEditor.jsx:187-199 | with `SL No` first and neither index on it, a drop keeps it first |
| SchemaEditor.Completed | src/components/SchemaEditor/SchemaEditor.jsx:137-157 | the calls done are a prefix of the list, all of it when nothing fails |
| SchemaEditor.FailedUpdateStopsAdds | src/components/SchemaEditor/SchemaEditor.jsx:137-145 | a failure among the updates means no add and no reorder is sent |
| SchemaEditor.RunCalls | src/components/SchemaEditor/SchemaEditor.jsx:137-151 | the awaited calls stop at the first that throws: what was done is the calls before it, and the loop finishes iff none throws |
| SchemaEditor.FindMatch | src/components/SchemaEditor/SchemaEditor.jsx:113-115 | the `find` loop returns the first match |
| SchemaEditor.ComputeModified | src/components/SchemaEditor/SchemaEditor.jsx:112-129 | the first loop builds exactly the update list |
| SchemaEditor.ComputeAdded | src/components/SchemaEditor/SchemaEditor.jsx:131-135 | the second loop builds exactly the add list |
| SchemaEditor.Editor.constructor | src/components/SchemaEditor/SchemaEditor.jsx:36-40 | a loaded schema becomes both snapshots, with an empty draft |
| SchemaEditor.Editor.LocalUpdate | src/components/SchemaEditor/SchemaEditor.jsx:52-76 | accepted iff the name is not blank and does not clash; then the working schema is updated and the editor closed, else nothing changes |
| SchemaEditor.Editor.LocalAdd | src/components/SchemaEditor/SchemaEditor.jsx:78-90 | accepted iff the draft name is not blank and not taken; then the draft is appended and reset to an empty text column, else nothing changes |
| SchemaEditor.Editor.Drop | src/components/SchemaEditor/SchemaEditor.jsx:94-102 | the working schema becomes the moved one; nothing else changes |
| SchemaEditor.Editor.SaveChanges | src/components/SchemaEditor/SchemaEditor.jsx:104-161 | the calls made are the diff up to the first failure; only a full success reloads and notifies |

## Left out

- Network I/O is not modelled. This covers the contract fetch, row save and delete, export download, upload, login and schema fetch. A fetch is given as its outcome (`FetchOutcome`). A schema save is given the index of the failing call. The query string order of `URLSearchParams` is not modelled.
- MIS row save and delete (`handleSaveRow`, `handleDeleteRow`) and their Leaderboard twins are network calls followed by a refetch and a notification, so they are not modelled.
- JWT decoding and the role read from `localStorage` are left out.
- `Date` parsing and locale formatting are left out: `toLocaleDateString`, `toISOString`, and the display conversion when the edit dialog opens. They depend on the time zone and locale. The date branch of the cell text is kept as an abstract formatted value.
- Floating-point arithmetic is left out: PDF scaling, column widths, and the `parseFloat`/`Date` keys of the comparator. Keys are an abstract integer-valued function of the value (`KeyFn`). JavaScript numbers are modelled as integers.
- Binary document generation is left out: Excel, PDF, DOCX, the file download and `Blob`. So is the client PDF export of the combined panel. Only the PDF string rules are modelled.
- JSX, CSS, focus effects, modals, loading flags and `setTimeout` notifications are left out, along with their texts.
- Routing, configuration, the upload pages and the login page are left out.
- `MisPage.WithMetadata`: the headers state keeps its old value when the new headers are element-wise equal. The model keeps an equal value, and reference identity is not modelled.
- `SortableTable.FormatDate`: a value that `new Date` cannot read is shown as `-` by the source. The model folds that case into the abstract `LocaleDate` cell, since date parsing is not modelled.
- `totalPages` is modelled as a present integer or missing. `null`, strings and `NaN` are not modelled.
- `SchemaEditor.Editor.Drop`: requires both drag indices to be valid positions. A drop with no recorded drag-over position (`undefined`) is not modelled.
- `Dates.FormatDateForApi`: lengths are counted in code points, not UTF-16 code units. Strings are modelled as sequences of Unicode code points throughout, so a year piece with characters outside the Basic Multilingual Plane has a different `length` in the source. The same holds for every other `length` and index the model takes.
- `Strings.Lower` folds ASCII letters only, and JavaScript's full Unicode case mapping is not modelled. `Strings.Trim` uses the ECMAScript whitespace and line-terminator set.
- `SchemaEditor.Editor.SaveChanges` does not re-fetch the schema. A successful save's re-fetch is given as a parameter, `reloaded`.
- `SchemaEditor.Editor.LocalUpdate` uses the corrected marker rule (see Findings). The as-written rule is `SchemaEditor.MarkerAsWritten`.
- `LegacyTable.SortRows` is a stable insertion sort standing in for `Array.prototype.sort`. It sorts with the corrected comparator (see Findings).

## Findings

| source | as written | input that shows it | evidently intended | confidence | as-written member | corrected member |
|---|---|---|---|---|---|---|
| src/components/SchemaEditor/SchemaEditor.jsx:65-70 | a later edit of a renamed column deletes `_oldNameForRename`, because its current name was never loaded | loaded `[A:text]`; rename `A` to `B`, then `B` to `C`; save | the column keeps its loaded name as the marker, so the save renames `A` to `C` | not executed | SchemaEditor.TwoRenamesDiff | SchemaEditor.MarkerKeepsOrigin |
| src/components/DataTable.jsx:35-36 | the comparator returns 1 for a missing left value before looking at the right one | two rows both missing the sort field: `(null, undefined)` and `(undefined, null)` both give 1 | two missing values compare equal (0), so the comparator is consistent | not executed | LegacyTable.CompareAsWrittenNotAntisymmetric | LegacyTable.CompareAntisymmetric |
| src/pages/edit/EditPage.jsx:79 | the currency test looks for `(â‚¹)`, the UTF-8 bytes of `(₹)` read as Windows-1252 | header `Value (₹)` | a currency column gets a number input, as with `(₹)` | not executed | RowEditor.GarbledRupeeMissesCurrencyColumns | RowEditor.Classify |
