/**
 * The filter bar: which input it shows for the chosen field, how typed range
 * bounds are stored, and what its Clear button resets. The panel owns no state;
 * it calls the setters of the page that holds the `FilterInputs`.
 *
 * The panel reads `fieldTypes.range`, `fieldTypes.number`, ... without `?.`,
 * so a category missing from `fieldTypes` makes the lookup throw a `TypeError`.
 */
module FilterPanel {
  import opened JsValues
  import opened ViewState
  import SortableTable

  /** `fieldTypes[category].includes(field)`, throwing when the category is absent. */
  function Includes(ft: FieldTypes, category: string, field: string): (r: Result<bool>)
    ensures r.TypeError? <==> category !in ft
    ensures r.Ok? ==> (r.value <==> InCategory(ft, category, field))
  {
    if category !in ft then TypeError else Ok(field in ft[category])
  }

  /** `a || b` where evaluating either side may throw; `b` is only evaluated when `a` is false. */
  function OrElse(a: Result<bool>, b: Result<bool>): (r: Result<bool>)
    ensures a == Ok(true) ==> r == Ok(true)
    ensures a == Ok(false) ==> r == b
    ensures a.TypeError? ==> r.TypeError?
  {
    match a
    case TypeError => TypeError
    case Ok(x) => if x then Ok(true) else b
  }

  datatype InputKind = NoInput | RangeInputs | DateInputs | YesNoDropdown | YearRange | TextInput

  /**
   * `renderInput`: nothing without a field; then range/number, date, yesNo and
   * yearDropdown are tried in this order, and text is the fallback.
   */
  function RenderInput(ft: FieldTypes, field: string): (r: Result<InputKind>)
    ensures field == "" ==> r == Ok(NoInput)
    ensures r == Ok(NoInput) ==> field == ""
  {
    if field == "" then Ok(NoInput)
    else
      match OrElse(Includes(ft, "range", field), Includes(ft, "number", field))
      case TypeError => TypeError
      case Ok(isRange) =>
        if isRange then Ok(RangeInputs)
        else match Includes(ft, "date", field)
        case TypeError => TypeError
        case Ok(isDate) =>
          if isDate then Ok(DateInputs)
          else match Includes(ft, "yesNo", field)
          case TypeError => TypeError
          case Ok(isYesNo) =>
            if isYesNo then Ok(YesNoDropdown)
            else match Includes(ft, "yearDropdown", field)
            case TypeError => TypeError
            case Ok(isYear) => if isYear then Ok(YearRange) else Ok(TextInput)
  }

  /** The categories the panel reads. */
  predicate HasAllCategories(ft: FieldTypes)
  {
    "range" in ft && "number" in ft && "date" in ft && "yesNo" in ft && "yearDropdown" in ft
  }

  /**
   * With every category present the panel never throws, and the first matching
   * category in the order range/number, date, yesNo, yearDropdown decides.
   */
  lemma RenderInputPrecedence(ft: FieldTypes, field: string)
    requires HasAllCategories(ft) && field != ""
    ensures RenderInput(ft, field).Ok?
    ensures (InCategory(ft, "range", field) || InCategory(ft, "number", field)) <==> RenderInput(ft, field) == Ok(RangeInputs)
    ensures RenderInput(ft, field) == Ok(DateInputs) <==>
      !InCategory(ft, "range", field) && !InCategory(ft, "number", field) && InCategory(ft, "date", field)
    ensures RenderInput(ft, field) == Ok(YesNoDropdown) <==>
      !InCategory(ft, "range", field) && !InCategory(ft, "number", field) && !InCategory(ft, "date", field)
      && InCategory(ft, "yesNo", field)
    ensures RenderInput(ft, field) == Ok(YearRange) <==>
      !InCategory(ft, "range", field) && !InCategory(ft, "number", field) && !InCategory(ft, "date", field)
      && !InCategory(ft, "yesNo", field) && InCategory(ft, "yearDropdown", field)
    ensures RenderInput(ft, field) == Ok(TextInput) <==>
      !InCategory(ft, "range", field) && !InCategory(ft, "number", field) && !InCategory(ft, "date", field)
      && !InCategory(ft, "yesNo", field) && !InCategory(ft, "yearDropdown", field)
  {
  }

  /**
   * A chosen field gets a special input exactly when the table lets its
   * column be sorted: both go by the same five categories.
   */
  lemma SpecialInputIffSortable(ft: FieldTypes, field: string)
    requires HasAllCategories(ft) && field != ""
    ensures RenderInput(ft, field) != Ok(TextInput) <==> SortableTable.Sortable(Some(ft), field)
  {
    RenderInputPrecedence(ft, field);
    var cats := SortableTable.SortableCategories;
    if InCategory(ft, "range", field) {
      assert InCategory(ft, cats[0], field);
    } else if InCategory(ft, "number", field) {
      assert InCategory(ft, cats[1], field);
    } else if InCategory(ft, "yearDropdown", field) {
      assert InCategory(ft, cats[2], field);
    } else if InCategory(ft, "date", field) {
      assert InCategory(ft, cats[3], field);
    } else if InCategory(ft, "yesNo", field) {
      assert InCategory(ft, cats[4], field);
    }
  }

  /** A metadata object lacking `range` breaks the panel as soon as a field is chosen. */
  lemma MissingRangeThrows(ft: FieldTypes, field: string)
    requires "range" !in ft && field != ""
    ensures RenderInput(ft, field).TypeError?
  {
  }

  /** The setter calls the panel makes on its parent, in order. */
  datatype Effect =
    | SetRangeValues(min: JsValue, max: JsValue)
    | SetDateRange(from: string, to: string)
    | SetFilterValue(value: string)
    | SetFilterField(field: string)
    | ResetSort
    | OnClear

  /**
   * `handleClearInput`: reset the range, the dates or the text value according
   * to the field's type, then clear the field and reset the sort.
   */
  function ClearInput(ft: FieldTypes, field: string): (r: Result<seq<Effect>>)
    ensures r.Ok? ==> (|r.value| == 3 && r.value[1] == SetFilterField("") && r.value[2] == ResetSort)
    ensures r.Ok? ==> r.value[0] in {SetRangeValues(Str(""), Str("")), SetDateRange("", ""), SetFilterValue("")}
  {
    var isRange := OrElse(OrElse(Includes(ft, "range", field), Includes(ft, "number", field)),
                          Includes(ft, "yearDropdown", field));
    match isRange
    case TypeError => TypeError
    case Ok(b) =>
      if b then Ok([SetRangeValues(Str(""), Str("")), SetFilterField(""), ResetSort])
      else match Includes(ft, "date", field)
      case TypeError => TypeError
      case Ok(isDate) =>
        if isDate then Ok([SetDateRange("", ""), SetFilterField(""), ResetSort])
        else Ok([SetFilterValue(""), SetFilterField(""), ResetSort])
  }

  /** The Clear button: `handleClearInput()` then `onClear()`; a throw stops both. */
  function ClearClick(ft: FieldTypes, field: string): (r: seq<Effect>)
    ensures ClearInput(ft, field).TypeError? ==> r == []
    ensures ClearInput(ft, field).Ok? ==> r == ClearInput(ft, field).value + [OnClear]
  {
    match ClearInput(ft, field)
    case TypeError => []
    case Ok(es) => es + [OnClear]
  }

  /** The effect of one setter call on the parent's filter inputs. */
  function Apply(inputs: FilterInputs, e: Effect): FilterInputs
  {
    match e
    case SetRangeValues(lo, hi) => inputs.(rangeMin := lo, rangeMax := hi)
    case SetDateRange(from, to) => inputs.(dateFrom := from, dateTo := to)
    case SetFilterValue(v) => inputs.(filterValue := v)
    case SetFilterField(f) => inputs.(filterField := f)
    case ResetSort => inputs
    case OnClear => inputs
  }

  function ApplyAll(inputs: FilterInputs, es: seq<Effect>): FilterInputs
    decreases |es|
  {
    if es == [] then inputs else ApplyAll(Apply(inputs, es[0]), es[1..])
  }

  /**
   * Clearing with complete metadata empties the field and exactly one group of
   * inputs: the range for range/number/yearDropdown fields, else the dates for
   * date fields, else the text value. The other groups keep their values.
   */
  lemma ClearResetsOneGroup(ft: FieldTypes, inputs: FilterInputs)
    requires "range" in ft && "number" in ft && "yearDropdown" in ft && "date" in ft
    ensures ClearInput(ft, inputs.filterField).Ok?
    ensures var field := inputs.filterField;
      var isRange := InCategory(ft, "range", field) || InCategory(ft, "number", field) || InCategory(ft, "yearDropdown", field);
      var out := ApplyAll(inputs, ClearInput(ft, field).value);
      out.filterField == ""
      && (if isRange then out == inputs.(filterField := "", rangeMin := Str(""), rangeMax := Str(""))
          else if InCategory(ft, "date", field) then out == inputs.(filterField := "", dateFrom := "", dateTo := "")
          else out == inputs.(filterField := "", filterValue := ""))
  {
  }

  /** What the browser hands over from a `type="number"` input: empty, or a number. */
  datatype NumberEntry = Empty | Typed(n: int)

  /** `e.target.value === "" ? "" : +e.target.value` */
  function RangeValue(e: NumberEntry): (v: JsValue)
    ensures e.Empty? <==> v == Str("")
    ensures e.Typed? ==> v == Num(e.n)
  {
    if e.Empty? then Str("") else Num(e.n)
  }

  /** Typing in the "From" box changes the lower bound only. */
  function SetRangeFrom(inputs: FilterInputs, e: NumberEntry): (r: FilterInputs)
    ensures r.rangeMin == RangeValue(e)
    ensures r.(rangeMin := inputs.rangeMin) == inputs
  {
    inputs.(rangeMin := RangeValue(e))
  }

  /** Typing in the "To" box changes the upper bound only. */
  function SetRangeTo(inputs: FilterInputs, e: NumberEntry): (r: FilterInputs)
    ensures r.rangeMax == RangeValue(e)
    ensures r.(rangeMax := inputs.rangeMax) == inputs
  {
    inputs.(rangeMax := RangeValue(e))
  }

  /** The year boxes store the raw text, not a number. */
  function SetYearFrom(inputs: FilterInputs, text: string): (r: FilterInputs)
    ensures r.rangeMin == Str(text)
    ensures r.(rangeMin := inputs.rangeMin) == inputs
  {
    inputs.(rangeMin := Str(text))
  }

  function SetYearTo(inputs: FilterInputs, text: string): (r: FilterInputs)
    ensures r.rangeMax == Str(text)
    ensures r.(rangeMax := inputs.rangeMax) == inputs
  {
    inputs.(rangeMax := Str(text))
  }

  /** A cleared bound and a year box left empty hold the same value, `""`. */
  lemma EmptyEntriesAgree(inputs: FilterInputs)
    ensures SetRangeFrom(inputs, Empty) == SetYearFrom(inputs, "")
  {
  }
}
