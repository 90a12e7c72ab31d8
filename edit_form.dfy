/**
 * The row editor dialog (`components/EditPage/EditPage.jsx`): the form data it
 * edits, the copy it sends on save with every date field converted to
 * `yyyy-mm-dd`, the busy and confirm-delete flags around the save and delete
 * callbacks, and the input chosen for each column.
 */
module EditForm {
  import opened JsValues
  import opened Strings
  import opened ViewState
  import opened Dates

  /** The `target` of a change event. */
  datatype InputEvent = InputEvent(name: string, value: JsValue, isCheckbox: bool, checked: bool)

  /** `handleChange`: the named key takes `checked` for a checkbox and `value` otherwise. */
  function ChangeField(form: Object, e: InputEvent): (r: Object)
    ensures e.name in r && r[e.name] == (if e.isCheckbox then Bool(e.checked) else e.value)
    ensures forall k :: k != e.name ==> (k in r <==> k in form)
    ensures forall k :: k != e.name && k in form ==> r[k] == form[k]
  {
    form[e.name := if e.isCheckbox then Bool(e.checked) else e.value]
  }

  /** `headers.filter(h => h !== 'SL No' && h !== 'id')` */
  function EditableHeaders(headers: seq<string>): (r: seq<string>)
    ensures forall h :: h in r <==> h in headers && h != "SL No" && h != "id"
    ensures |r| <= |headers|
    ensures forall h :: multiset(r)[h] == if h != "SL No" && h != "id" then multiset(headers)[h] else 0
  {
    if headers == [] then []
    else
      assert headers == [headers[0]] + headers[1..];
      var keep := if headers[0] != "SL No" && headers[0] != "id" then [headers[0]] else [];
      keep + EditableHeaders(headers[1..])
  }

  /** The editable headers keep the order of `headers`. */
  lemma {:induction false} EditableHeadersKeepOrder(headers: seq<string>)
    ensures IsSubsequence(EditableHeaders(headers), headers)
  {
    if headers != [] {
      var rest := EditableHeaders(headers[1..]);
      EditableHeadersKeepOrder(headers[1..]);
      SubsequenceCons(rest, headers[0], headers[1..]);
      assert [headers[0]] + headers[1..] == headers;
      if headers[0] != "SL No" && headers[0] != "id" {
        assert EditableHeaders(headers) == [headers[0]] + rest;
      } else {
        assert EditableHeaders(headers) == rest;
      }
    }
  }

  /** `fieldTypes.date` when `fieldTypes` is given; `None` stands for a falsy `fieldTypes`. */
  function DateFields(ft: Option<FieldTypes>): seq<string>
  {
    if ft.Some? && "date" in ft.value then ft.value["date"] else []
  }

  /** One step of the save loop: a truthy date value is replaced by its API form. */
  function RewriteOne(data: Object, field: string): (r: Object)
    ensures r.Keys == data.Keys
    ensures forall k :: k in data && k != field ==> r[k] == data[k]
    ensures field in data && Truthy(data[field]) ==> r[field] == Str(FormatDateForApi(data[field]))
    ensures !(field in data && Truthy(data[field])) ==> r == data
  {
    if field in data && Truthy(data[field]) then data[field := Str(FormatDateForApi(data[field]))]
    else data
  }

  /** The copy sent on save: the date fields rewritten one after the other, in list order. */
  function RewriteDates(data: Object, fields: seq<string>): (r: Object)
    ensures r.Keys == data.Keys
    ensures forall k :: k in data && k !in fields ==> r[k] == data[k]
    decreases |fields|
  {
    if fields == [] then data
    else RewriteOne(RewriteDates(data, fields[..|fields| - 1]), fields[|fields| - 1])
  }

  /**
   * With each date field listed once, a date field holding a truthy value is
   * sent in its API form and every other value is sent as it was.
   */
  lemma {:induction false} RewriteDatesEach(data: Object, fields: seq<string>, k: string)
    requires forall i, j :: 0 <= i < j < |fields| ==> fields[i] != fields[j]
    requires k in data
    ensures var r := RewriteDates(data, fields);
      r[k] == if k in fields && Truthy(data[k]) then Str(FormatDateForApi(data[k])) else data[k]
    decreases |fields|
  {
    if fields != [] {
      var init := fields[..|fields| - 1];
      var last := fields[|fields| - 1];
      RewriteDatesEach(data, init, k);
      var prev := RewriteDates(data, init);
      assert RewriteDates(data, fields) == RewriteOne(prev, last);
      assert fields == init + [last];
      assert k in fields <==> k in init || k == last;
      if k == last {
        assert k !in init;
        assert prev[k] == data[k];
      }
    }
  }

  /**
   * A date field listed twice is converted twice: the second pass reads the
   * `yyyy-mm-dd` text back as a date, which gives `''` unless the day part has
   * four characters.
   */
  lemma DateListedTwice(data: Object, f: string)
    requires f in data && FormatDateForApi(data[f]) != ""
    ensures var p := Split(data[f].s);
      RewriteDates(data, [f, f])[f] == Str(if |p[0]| == 4 then p[0] + "-" + p[1] + "-" + p[2] else "")
  {
    assert [f, f][..1] == [f];
    assert [f][..0] == [];
    FormatTwice(data[f]);
  }

  /** `handleSave`'s copy: walks the date fields in order and rewrites the form's copy. */
  method SaveData(formData: Object, ft: Option<FieldTypes>) returns (dataToSend: Object)
    ensures dataToSend == RewriteDates(formData, DateFields(ft))
  {
    dataToSend := formData;
    var fields := DateFields(ft);
    var i := 0;
    while i < |fields|
      invariant 0 <= i <= |fields|
      invariant dataToSend == RewriteDates(formData, fields[..i])
    {
      var f := fields[i];
      assert fields[..i + 1][..i] == fields[..i];
      ghost var next := RewriteOne(dataToSend, f);
      assert RewriteDates(formData, fields[..i + 1]) == next;
      if f in dataToSend && Truthy(dataToSend[f]) {
        dataToSend := dataToSend[f := Str(FormatDateForApi(dataToSend[f]))];
      }
      assert dataToSend == next;
      i := i + 1;
    }
    assert fields[..|fields|] == fields;
  }

  datatype FieldType = NumericField | DateField | TextField

  /** `getFieldType`: `numeric` is checked before `date`; no `fieldTypes` means text. */
  function GetFieldType(ft: Option<FieldTypes>, field: string): (t: FieldType)
    ensures ft.None? ==> t == TextField
    ensures t == NumericField <==> ft.Some? && InCategory(ft.value, "numeric", field)
    ensures t == DateField <==> ft.Some? && !InCategory(ft.value, "numeric", field) && InCategory(ft.value, "date", field)
  {
    if ft.None? then TextField
    else if InCategory(ft.value, "numeric", field) then NumericField
    else if InCategory(ft.value, "date", field) then DateField
    else TextField
  }

  /** The two columns edited with a Yes/No toggle. */
  predicate IsYesNoHeader(header: string)
  {
    header == "Quarterly AMC Payment Status" || header == "Post Contract Issues"
  }

  datatype FormControl = YesNoToggle | TextArea | DateText | NumberInput | TextBox

  /**
   * `renderFormField`: the Yes/No headers first, then any header containing
   * `Remarks`, then the field type (a date is typed as `dd-mm-yyyy` text).
   */
  function FormControlFor(ft: Option<FieldTypes>, header: string): (c: FormControl)
    ensures IsYesNoHeader(header) <==> c == YesNoToggle
    ensures c == TextArea <==> !IsYesNoHeader(header) && Contains(header, "Remarks")
    ensures !IsYesNoHeader(header) && !Contains(header, "Remarks") ==>
      c == match GetFieldType(ft, header)
           case DateField => DateText
           case NumericField => NumberInput
           case TextField => TextBox
  {
    if IsYesNoHeader(header) then YesNoToggle
    else if Contains(header, "Remarks") then TextArea
    else match GetFieldType(ft, header)
      case DateField => DateText
      case NumericField => NumberInput
      case TextField => TextBox
  }

  /** The dialog's state: the form values and the two flags around the callbacks. */
  class EditPage {
    var formData: Object
    var isSaving: bool
    var isConfirmingDelete: bool
    const fieldTypes: Option<FieldTypes>
    const hasOnDelete: bool

    constructor (formData: Object, fieldTypes: Option<FieldTypes>, hasOnDelete: bool)
      ensures this.formData == formData && this.fieldTypes == fieldTypes && this.hasOnDelete == hasOnDelete
      ensures !isSaving && !isConfirmingDelete
    {
      this.formData := formData;
      this.fieldTypes := fieldTypes;
      this.hasOnDelete := hasOnDelete;
      isSaving := false;
      isConfirmingDelete := false;
    }

    method HandleChange(e: InputEvent)
      modifies this
      ensures formData == ChangeField(old(formData), e)
      ensures isSaving == old(isSaving) && isConfirmingDelete == old(isConfirmingDelete)
    {
      formData := ChangeField(formData, e);
    }

    /**
     * `handleSave`: hands `onSave` the converted copy. Whether `onSave`
     * resolves or rejects, the busy flag is cleared and the form keeps its
     * unconverted values, so the outcome is not a parameter.
     */
    method HandleSave() returns (sent: Object)
      modifies this
      ensures sent == RewriteDates(old(formData), DateFields(fieldTypes))
      ensures !isSaving
      ensures formData == old(formData) && isConfirmingDelete == old(isConfirmingDelete)
    {
      isSaving := true;
      sent := SaveData(formData, fieldTypes);
      isSaving := false;
    }

    method HandleDeleteClick()
      modifies this
      ensures isConfirmingDelete
      ensures formData == old(formData) && isSaving == old(isSaving)
    {
      isConfirmingDelete := true;
    }

    /**
     * `handleConfirmDelete`: nothing without `onDelete`. Otherwise `onDelete`
     * is called; if it resolves the confirmation closes and `onCancel` is
     * called; the busy flag ends up cleared either way.
     */
    method HandleConfirmDelete(deleteThrows: bool) returns (calledDelete: bool, calledCancel: bool)
      modifies this
      ensures calledDelete == hasOnDelete
      ensures calledCancel <==> hasOnDelete && !deleteThrows
      ensures !hasOnDelete ==> isSaving == old(isSaving) && isConfirmingDelete == old(isConfirmingDelete)
      ensures hasOnDelete ==> !isSaving
      ensures hasOnDelete ==> isConfirmingDelete == (old(isConfirmingDelete) && deleteThrows)
      ensures formData == old(formData)
    {
      calledDelete, calledCancel := false, false;
      if hasOnDelete {
        isSaving := true;
        calledDelete := true;
        if !deleteThrows {
          isConfirmingDelete := false;
          calledCancel := true;
        }
        isSaving := false;
      }
    }
  }
}
