/**
 * The paginated data table (`DataTable/DataTable.jsx`): which columns can be
 * sorted, how a header click changes the sort, the sort arrow, the visible
 * columns, and what each rendered row shows (key, serial number, cell text).
 */
module SortableTable {
  import opened JsValues
  import opened Strings
  import opened ViewState

  const DefaultCurrentPage: int := 1
  const DefaultRowsPerPage: int := 10

  /** The categories whose fields get a clickable header, in the order they are tried. */
  const SortableCategories: seq<string> := ["range", "number", "yearDropdown", "date", "yesNo"]

  /**
   * A field is sortable when `fieldTypes` is an object (`None` stands for
   * `null` or a non-object) and one of the sortable categories lists it.
   * Fields listed only under `numeric` or `text` are not sortable.
   */
  predicate Sortable(ft: Option<FieldTypes>, field: string)
  {
    ft.Some? && exists i | 0 <= i < |SortableCategories| :: InCategory(ft.value, SortableCategories[i], field)
  }

  /** `isSortable`: tries the categories in order and stops at the first that lists the field. */
  method IsSortable(ft: Option<FieldTypes>, field: string) returns (b: bool)
    ensures b == Sortable(ft, field)
  {
    if ft.None? {
      return false;
    }
    var i := 0;
    while i < |SortableCategories|
      invariant 0 <= i <= |SortableCategories|
      invariant forall j :: 0 <= j < i ==> !InCategory(ft.value, SortableCategories[j], field)
    {
      if InCategory(ft.value, SortableCategories[i], field) {
        return true;
      }
      i := i + 1;
    }
    return false;
  }

  /** Fields typed only as `numeric` or `text` do not sort. */
  lemma NumericOrTextNotSortable(ft: FieldTypes, field: string)
    requires forall c :: c in ft && field in ft[c] ==> c == "numeric" || c == "text"
    ensures !Sortable(Some(ft), field)
  {
  }

  /**
   * `handleSort`: the new sort, or `None` when nothing is set (the field is
   * not sortable, or no `setSortConfig` function was passed).
   */
  function HandleSort(ft: Option<FieldTypes>, sort: Option<SortConfig>, hasSetter: bool, field: string): (r: Option<SortConfig>)
    ensures r.Some? <==> Sortable(ft, field) && hasSetter
    ensures r.Some? ==> r.value.field == field
    ensures r.Some? ==> (r.value.direction == Desc <==> sort == Some(SortConfig(field, Asc)))
  {
    if !Sortable(ft, field) || !hasSetter then None else Some(NextSort(sort, field))
  }

  /** Two clicks on a sortable header sorted ascending come back to ascending. */
  lemma HandleSortTwice(ft: Option<FieldTypes>, field: string)
    requires Sortable(ft, field)
    ensures HandleSort(ft, HandleSort(ft, Some(SortConfig(field, Asc)), true, field), true, field)
      == Some(SortConfig(field, Asc))
  {
  }

  /** `getSortIndicator`: an arrow for the active sort field only. */
  function SortIndicator(sort: Option<SortConfig>, field: string): (r: string)
    ensures r != "" <==> sort.Some? && sort.value.field == field
    ensures r == " \U{25B2}" <==> sort.Some? && sort.value.field == field && sort.value.direction == Asc
  {
    if sort.Some? && sort.value.field == field then
      if sort.value.direction == Asc then " \U{25B2}" else " \U{25BC}"
    else ""
  }

  /** `row.id || \`row-${rowIndex}\`` */
  function RowKey(row: Object, rowIndex: nat): (k: JsValue)
    ensures Truthy(Get(row, "id")) ==> k == Get(row, "id")
    ensures !Truthy(Get(row, "id")) ==> k == Str("row-" + NatToString(rowIndex))
  {
    var id := Get(row, "id");
    if Truthy(id) then id else Str("row-" + NatToString(rowIndex))
  }

  /** Rows without an id get keys that differ whenever their positions differ. */
  lemma RowKeysDistinct(r1: Object, i1: nat, r2: Object, i2: nat)
    requires !Truthy(Get(r1, "id")) && !Truthy(Get(r2, "id"))
    requires RowKey(r1, i1) == RowKey(r2, i2)
    ensures i1 == i2
  {
    var k := RowKey(r1, i1).s;
    assert k[4..] == NatToString(i1) == NatToString(i2);
    NatToStringInjective(i1, i2);
  }

  /** What a table cell shows. */
  datatype Cell =
    | Serial(n: int)          // the computed serial number
    | Dash                    // `-`
    | LocaleDate(v: JsValue)  // `toLocaleDateString("en-GB")` of the value, or `-` if it is no date
    | Value(v: JsValue)       // the value itself

  /**
   * `formatDate`: `-` for falsy values and for the string `nan`, otherwise the
   * locale text of the value. A value `new Date` cannot read also shows `-`;
   * that case lives inside the abstract `LocaleDate` cell.
   */
  function FormatDate(v: JsValue): (c: Cell)
    ensures (!Truthy(v) || v == Str("nan")) <==> c == Dash
    ensures c != Dash ==> c == LocaleDate(v)
  {
    if !Truthy(v) || v == Str("nan") then Dash else LocaleDate(v)
  }

  /**
   * The cell for one header: the serial for `SL No`, the date format for a
   * header whose lowercase form contains `date`, else the value or `-` when falsy.
   */
  function CellFor(header: string, row: Object, serial: int): (c: Cell)
    ensures header == "SL No" ==> c == Serial(serial)
    ensures header != "SL No" && Contains(Lower(header), "date") ==> c == FormatDate(Get(row, header))
    ensures header != "SL No" && !Contains(Lower(header), "date") ==>
      c == (if Truthy(Get(row, header)) then Value(Get(row, header)) else Dash)
  {
    if header == "SL No" then Serial(serial)
    else if Contains(Lower(header), "date") then FormatDate(Get(row, header))
    else
      var v := Get(row, header);
      if Truthy(v) then Value(v) else Dash
  }

  /** A rendered row: its React key, its cells, and the serial its Edit button passes to `onEdit`. */
  datatype RowView = RowView(key: JsValue, cells: seq<Cell>, editSerial: int)

  function RenderRow(row: Object, rowIndex: nat, currentPage: int, rowsPerPage: int, visible: seq<string>): (v: RowView)
    ensures v.key == RowKey(row, rowIndex)
    ensures v.editSerial == SerialNumber(currentPage, rowsPerPage, rowIndex)
    ensures |v.cells| == |visible|
    ensures forall j :: 0 <= j < |visible| ==> v.cells[j] == CellFor(visible[j], row, v.editSerial)
  {
    var serial := SerialNumber(currentPage, rowsPerPage, rowIndex);
    RowView(RowKey(row, rowIndex),
            seq(|visible|, j requires 0 <= j < |visible| => CellFor(visible[j], row, serial)),
            serial)
  }

  /**
   * With the default props (page 1, ten rows), as the MIS page renders the
   * table, every page is numbered from 1: row `i` gets serial `i + 1`.
   */
  lemma DefaultsNumberFromOne(row: Object, rowIndex: nat, visible: seq<string>)
    ensures RenderRow(row, rowIndex, DefaultCurrentPage, DefaultRowsPerPage, visible).editSerial == rowIndex + 1
  {
  }

  /** The `SL No` cell and the Edit button carry the same number. */
  lemma SerialCellMatchesEdit(row: Object, rowIndex: nat, currentPage: int, rowsPerPage: int, visible: seq<string>, j: int)
    requires 0 <= j < |visible| && visible[j] == "SL No"
    ensures var v := RenderRow(row, rowIndex, currentPage, rowsPerPage, visible);
      v.cells[j] == Serial(v.editSerial)
  {
  }
}
