/**
 * The older row editor (`pages/edit/EditPage.jsx`): it chooses each column's
 * input from the header text alone, passes the form data to `onSave` as it
 * is, and deletes by the row's `id`.
 */
module RowEditor {
  import opened JsValues
  import opened Strings
  import EditForm

  datatype RowControl = YesNoToggle | DateInput | NumberInput | TextArea | TextInput

  /** The currency marker as the source spells it: the UTF-8 bytes of `₹` read as Windows-1252. */
  const GarbledRupee: string := "(\U{E2}\U{201A}\U{B9})"

  /** The currency marker the headers actually carry. */
  const Rupee: string := "(\U{20B9})"

  /** A header marking a number column, given the spelling of the currency marker. */
  predicate IsNumberHeader(header: string, rupee: string)
  {
    Contains(header, rupee) || Contains(Lower(header), "amount") || Contains(Lower(header), "(yr)")
  }

  /** The header classification with the marker `rupee`, in the source's order of tests. */
  function ClassifyWith(header: string, rupee: string): (c: RowControl)
    ensures EditForm.IsYesNoHeader(header) <==> c == YesNoToggle
    ensures c == DateInput <==> !EditForm.IsYesNoHeader(header) && Contains(Lower(header), "date")
    ensures c == NumberInput <==>
      !EditForm.IsYesNoHeader(header) && !Contains(Lower(header), "date") && IsNumberHeader(header, rupee)
    ensures c == TextArea <==>
      !EditForm.IsYesNoHeader(header) && !Contains(Lower(header), "date") && !IsNumberHeader(header, rupee)
      && Contains(header, "Remarks")
  {
    if EditForm.IsYesNoHeader(header) then YesNoToggle
    else if Contains(Lower(header), "date") then DateInput
    else if IsNumberHeader(header, rupee) then NumberInput
    else if Contains(header, "Remarks") then TextArea
    else TextInput
  }

  /** `renderFormField` as written, testing for the garbled marker. */
  function ClassifyAsWritten(header: string): (c: RowControl)
    ensures c == NumberInput <==>
      !EditForm.IsYesNoHeader(header) && !Contains(Lower(header), "date") &&
      (Contains(header, GarbledRupee) || Contains(Lower(header), "amount") || Contains(Lower(header), "(yr)"))
    ensures ((forall i :: 0 <= i < |header| ==> header[i] != '\U{E2}') &&
             !Contains(Lower(header), "amount") && !Contains(Lower(header), "(yr)")) ==>
      c != NumberInput
  {
    GarbledNeverMatches(header);
    ClassifyWith(header, GarbledRupee)
  }

  /** `renderFormField` with the currency marker spelled `(₹)`; the model uses this one. */
  function Classify(header: string): (c: RowControl)
    ensures c == NumberInput <==>
      !EditForm.IsYesNoHeader(header) && !Contains(Lower(header), "date") &&
      (Contains(header, Rupee) || Contains(Lower(header), "amount") || Contains(Lower(header), "(yr)"))
    ensures !EditForm.IsYesNoHeader(header) && !Contains(Lower(header), "date") && Contains(header, Rupee) ==>
      c == NumberInput
  {
    ClassifyWith(header, Rupee)
  }

  /**
   * A currency column whose name has no `date`, `amount` or `(yr)`, such as
   * `Value (₹)`, gets a text box as written and a number input once corrected.
   */
  lemma GarbledRupeeMissesCurrencyColumns(name: string)
    requires !Contains(Lower(name + " " + Rupee), "date")
    requires !Contains(Lower(name + " " + Rupee), "amount") && !Contains(Lower(name + " " + Rupee), "(yr)")
    requires !Contains(name + " " + Rupee, GarbledRupee) && !Contains(name + " " + Rupee, "Remarks")
    requires !EditForm.IsYesNoHeader(name + " " + Rupee)
    ensures ClassifyAsWritten(name + " " + Rupee) == TextInput
    ensures Classify(name + " " + Rupee) == NumberInput
  {
    var h := name + " " + Rupee;
    assert OccursAt(h, Rupee, |h| - 3) by {
      assert h[|h| - 3..] == Rupee;
    }
  }

  /** The garbled marker never occurs in a header spelled with the real `₹` and no `â`. */
  lemma GarbledNeverMatches(header: string)
    ensures (forall i :: 0 <= i < |header| ==> header[i] != '\U{E2}') ==> !Contains(header, GarbledRupee)
  {
    if forall i :: 0 <= i < |header| ==> header[i] != '\U{E2}' {
      forall i | 0 <= i <= |header| - |GarbledRupee|
        ensures !OccursAt(header, GarbledRupee, i)
      {
        assert header[i + 1] != GarbledRupee[1];
        assert header[i..i + |GarbledRupee|][1] == header[i + 1];
      }
    }
  }

  /** The date test comes first: a date column named with `amount` still gets a date input. */
  lemma DateBeforeNumber(header: string)
    requires !EditForm.IsYesNoHeader(header) && Contains(Lower(header), "date")
    ensures Classify(header) == DateInput
  {
  }

  /** `handleSave`: `onSave` receives the form data unchanged. */
  function SaveArgument(formData: Object): (sent: Object)
    ensures sent == formData
  {
    formData
  }

  /** `handleConfirmDelete`: `onDelete(formData.id)` when `onDelete` is given, else no call. */
  function ConfirmDelete(formData: Object, hasOnDelete: bool): (call: Option<JsValue>)
    ensures call.Some? <==> hasOnDelete
    ensures call.Some? ==> call.value == Get(formData, "id")
  {
    if hasOnDelete then Some(Get(formData, "id")) else None
  }

  /**
   * The Yes and No buttons set their column to exactly `'Yes'` or `'No'` and
   * leave every other column as it was.
   */
  lemma YesNoToggleSets(formData: Object, header: string, yes: bool)
    ensures var v := if yes then "Yes" else "No";
      var r := EditForm.ChangeField(formData, EditForm.InputEvent(header, Str(v), false, false));
      r[header] == Str(v) && forall k :: k != header && k in formData ==> k in r && r[k] == formData[k]
  {
  }
}
