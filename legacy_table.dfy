/**
 * The older client-side table (`components/DataTable.jsx`): it sorts a copy of
 * the rows itself with a comparator that puts missing values last, decides
 * sortability from the first row, and numbers rows across pages.
 *
 * Sort keys are abstract: `key(isDate, v)` stands for `new Date(v)` when the
 * field name contains `date` and for `parseFloat(v)` otherwise.
 */
module LegacyTable {
  import opened JsValues
  import opened Strings
  import opened ViewState

  /** The key of a non-missing value; `isDate` picks the date reading over the numeric one. */
  type KeyFn = (bool, JsValue) -> int

  /**
   * `isSortable(field, sampleRow)`: never without a first row; always for a
   * field whose lowercase name contains `date`; never for `SL No`; otherwise
   * when the first row's value is a number.
   */
  function IsSortable(field: string, sample: Option<Object>): (b: bool)
    ensures sample.None? ==> !b
    ensures sample.Some? && Contains(Lower(field), "date") ==> b
    ensures sample.Some? && !Contains(Lower(field), "date") ==>
      (b <==> field != "SL No" && Get(sample.value, field).Num?)
  {
    if sample.None? then false
    else if Contains(Lower(field), "date") then true
    else if field == "SL No" then false
    else Get(sample.value, field).Num?
  }

  /** `data?.[0]` */
  function FirstRow(data: seq<Object>): Option<Object>
  {
    if data == [] then None else Some(data[0])
  }

  /** `toggleSort`: the new sort, or `None` when the field is not sortable or there is no setter. */
  function ToggleSort(data: seq<Object>, prev: Option<SortConfig>, hasSetter: bool, field: string): (r: Option<SortConfig>)
    ensures r.Some? <==> IsSortable(field, FirstRow(data)) && hasSetter
    ensures r.Some? ==> r.value.field == field
    ensures r.Some? ==> (r.value.direction == Desc <==> prev == Some(SortConfig(field, Asc)))
  {
    if !IsSortable(field, FirstRow(data)) || !hasSetter then None else Some(NextSort(prev, field))
  }

  /** Comparing two present keys: negative, zero or positive as `a` sorts before, with or after `b`. */
  function CompareKeys(ka: int, kb: int, dir: Direction): int
  {
    if ka < kb then (if dir == Asc then -1 else 1)
    else if ka > kb then (if dir == Asc then 1 else -1)
    else 0
  }

  /**
   * The comparator as the source writes it: a missing (`null`/`undefined`)
   * left value gives 1 before the right value is looked at, so two missing
   * values compare as 1 both ways round.
   */
  function CompareAsWritten(a: JsValue, b: JsValue, field: string, dir: Direction, key: KeyFn): int
  {
    if IsNullish(a) then 1
    else if IsNullish(b) then -1
    else
      var isDate := Contains(Lower(field), "date");
      CompareKeys(key(isDate, a), key(isDate, b), dir)
  }

  /**
   * `Array.prototype.sort` needs a consistent comparator: swapping the
   * arguments must flip the sign. The comparator as written breaks this on
   * two missing values, which leaves their relative order up to the engine.
   */
  lemma CompareAsWrittenNotAntisymmetric(field: string, dir: Direction, key: KeyFn)
    ensures CompareAsWritten(Null, Undefined, field, dir, key) == 1
    ensures CompareAsWritten(Undefined, Null, field, dir, key) == 1
  {
  }

  /** The key a present value of column `field` is compared by: a date for date columns, else a number. */
  function SortKey(v: JsValue, field: string, key: KeyFn): int
  {
    key(Contains(Lower(field), "date"), v)
  }

  /**
   * The comparator with two missing values comparing equal; the model sorts
   * with this one. Present values are ordered by their keys, ascending for
   * `asc` and descending otherwise; missing values go after present ones.
   */
  function Compare(a: JsValue, b: JsValue, field: string, dir: Direction, key: KeyFn): (c: int)
    ensures IsNullish(a) && !IsNullish(b) ==> c == 1
    ensures !IsNullish(a) && IsNullish(b) ==> c == -1
    ensures IsNullish(a) && IsNullish(b) ==> c == 0
    ensures !IsNullish(a) && !IsNullish(b) ==>
      (c == 0 <==> SortKey(a, field, key) == SortKey(b, field, key)) &&
      (c < 0 <==> if dir == Asc then SortKey(a, field, key) < SortKey(b, field, key)
                  else SortKey(a, field, key) > SortKey(b, field, key))
    ensures -1 <= c <= 1
  {
    if IsNullish(a) && IsNullish(b) then 0
    else CompareAsWritten(a, b, field, dir, key)
  }

  /** Swapping the arguments flips the sign; `desc` negates `asc` on present values. */
  lemma CompareAntisymmetric(a: JsValue, b: JsValue, field: string, dir: Direction, key: KeyFn)
    ensures Compare(a, b, field, dir, key) == -Compare(b, a, field, dir, key)
    ensures !IsNullish(a) && !IsNullish(b) ==>
      Compare(a, b, field, Desc, key) == -Compare(a, b, field, Asc, key)
  {
  }

  /** The corrected comparator agrees with the written one except on two missing values. */
  lemma CompareFixesOnlyMissingPairs(a: JsValue, b: JsValue, field: string, dir: Direction, key: KeyFn)
    ensures !(IsNullish(a) && IsNullish(b)) ==>
      Compare(a, b, field, dir, key) == CompareAsWritten(a, b, field, dir, key)
  {
  }

  function CompareRows(x: Object, y: Object, s: SortConfig, key: KeyFn): int
  {
    Compare(Get(x, s.field), Get(y, s.field), s.field, s.direction, key)
  }

  /** Stable insertion of `x` before the first row it does not sort after. */
  function Insert(x: Object, rows: seq<Object>, s: SortConfig, key: KeyFn): (r: seq<Object>)
    ensures multiset(r) == multiset(rows) + multiset{x}
    ensures |r| == |rows| + 1
  {
    if rows == [] then [x]
    else if CompareRows(x, rows[0], s, key) <= 0 then [x] + rows
    else
      assert rows == [rows[0]] + rows[1..];
      [rows[0]] + Insert(x, rows[1..], s, key)
  }

  /** A stable sort of the rows by `s` (insertion from the back). */
  function SortRows(rows: seq<Object>, s: SortConfig, key: KeyFn): (r: seq<Object>)
    ensures |r| == |rows|
  {
    if rows == [] then [] else Insert(rows[0], SortRows(rows[1..], s, key), s, key)
  }

  predicate SortedBy(rows: seq<Object>, s: SortConfig, key: KeyFn)
  {
    forall i :: 0 <= i < |rows| - 1 ==> CompareRows(rows[i], rows[i + 1], s, key) <= 0
  }

  /** A row that sorts no later than the head of a sorted sequence can go in front of it. */
  lemma SortedCons(h: Object, t: seq<Object>, s: SortConfig, key: KeyFn)
    requires SortedBy(t, s, key)
    requires t != [] ==> CompareRows(h, t[0], s, key) <= 0
    ensures SortedBy([h] + t, s, key)
  {
    var r := [h] + t;
    forall i | 0 <= i < |r| - 1
      ensures CompareRows(r[i], r[i + 1], s, key) <= 0
    {
      if i > 0 {
        assert r[i] == t[i - 1] && r[i + 1] == t[i];
      }
    }
  }

  /** Dropping the head of a sorted sequence leaves it sorted. */
  lemma SortedTail(rows: seq<Object>, s: SortConfig, key: KeyFn)
    requires rows != [] && SortedBy(rows, s, key)
    ensures SortedBy(rows[1..], s, key)
  {
    forall i | 0 <= i < |rows| - 2
      ensures CompareRows(rows[1..][i], rows[1..][i + 1], s, key) <= 0
    {
      assert rows[1..][i] == rows[i + 1] && rows[1..][i + 1] == rows[i + 2];
    }
  }

  lemma {:induction false} InsertSorted(x: Object, rows: seq<Object>, s: SortConfig, key: KeyFn)
    requires SortedBy(rows, s, key)
    ensures SortedBy(Insert(x, rows, s, key), s, key)
    ensures Insert(x, rows, s, key) != [] &&
      (Insert(x, rows, s, key)[0] == x || (rows != [] && Insert(x, rows, s, key)[0] == rows[0]))
  {
    if rows == [] {
      SortedCons(x, rows, s, key);
    } else if CompareRows(x, rows[0], s, key) <= 0 {
      SortedCons(x, rows, s, key);
    } else {
      SortedTail(rows, s, key);
      InsertSorted(x, rows[1..], s, key);
      var tail := Insert(x, rows[1..], s, key);
      CompareAntisymmetric(Get(x, s.field), Get(rows[0], s.field), s.field, s.direction, key);
      assert |rows| > 1 ==> CompareRows(rows[0], rows[1], s, key) <= 0;
      SortedCons(rows[0], tail, s, key);
      assert Insert(x, rows, s, key) == [rows[0]] + tail;
    }
  }

  /** The sorted copy is a permutation of the rows, ordered by the comparator. */
  lemma {:induction false} SortRowsCorrect(rows: seq<Object>, s: SortConfig, key: KeyFn)
    ensures multiset(SortRows(rows, s, key)) == multiset(rows)
    ensures SortedBy(SortRows(rows, s, key), s, key)
  {
    if rows != [] {
      SortRowsCorrect(rows[1..], s, key);
      InsertSorted(rows[0], SortRows(rows[1..], s, key), s, key);
      assert rows == [rows[0]] + rows[1..];
    }
  }

  /** In a sorted sequence every row missing the sort field comes after every row that has it. */
  lemma {:induction false} MissingValuesLast(rows: seq<Object>, s: SortConfig, key: KeyFn, i: int, j: int)
    requires SortedBy(rows, s, key)
    requires 0 <= i < j < |rows|
    requires IsNullish(Get(rows[i], s.field))
    ensures IsNullish(Get(rows[j], s.field))
    decreases j - i
  {
    assert CompareRows(rows[i], rows[i + 1], s, key) <= 0;
    if j > i + 1 {
      MissingValuesLast(rows, s, key, i + 1, j);
    }
  }

  /** In a sorted sequence a row holding the sort field is preceded only by rows holding it. */
  lemma {:induction false} PresentBefore(rows: seq<Object>, s: SortConfig, key: KeyFn, i: int, j: int)
    requires SortedBy(rows, s, key)
    requires 0 <= i <= j < |rows|
    requires !IsNullish(Get(rows[j], s.field))
    ensures !IsNullish(Get(rows[i], s.field))
    decreases j - i
  {
    if i < j {
      assert CompareRows(rows[j - 1], rows[j], s, key) <= 0;
      PresentBefore(rows, s, key, i, j - 1);
    }
  }

  /**
   * In a sorted sequence any two rows holding the sort field are in column
   * order: keys ascending for `asc`, descending for `desc`.
   */
  lemma {:induction false} SortedInColumnOrder(rows: seq<Object>, s: SortConfig, key: KeyFn, i: int, j: int)
    requires SortedBy(rows, s, key)
    requires 0 <= i < j < |rows|
    requires !IsNullish(Get(rows[i], s.field)) && !IsNullish(Get(rows[j], s.field))
    ensures s.direction == Asc ==> SortKey(Get(rows[i], s.field), s.field, key) <= SortKey(Get(rows[j], s.field), s.field, key)
    ensures s.direction == Desc ==> SortKey(Get(rows[i], s.field), s.field, key) >= SortKey(Get(rows[j], s.field), s.field, key)
    decreases j - i
  {
    PresentBefore(rows, s, key, j - 1, j);
    assert CompareRows(rows[j - 1], rows[j], s, key) <= 0;
    if i < j - 1 {
      SortedInColumnOrder(rows, s, key, i, j - 1);
    }
  }

  /** `sortedData`: the rows as given without a sort field, else a sorted copy. */
  function SortedData(data: seq<Object>, sort: Option<SortConfig>, key: KeyFn): (r: seq<Object>)
    ensures sort.None? || sort.value.field == "" ==> r == data
    ensures |r| == |data|
  {
    if sort.None? || sort.value.field == "" then data else SortRows(data, sort.value, key)
  }

  /** Whatever the sort, the table shows the same rows, each as often as in `data`. */
  lemma SortedDataPermutes(data: seq<Object>, sort: Option<SortConfig>, key: KeyFn)
    ensures multiset(SortedData(data, sort, key)) == multiset(data)
    ensures sort.Some? && sort.value.field != "" ==> SortedBy(SortedData(data, sort, key), sort.value, key)
  {
    if sort.Some? && sort.value.field != "" {
      SortRowsCorrect(data, sort.value, key);
    }
  }

  /**
   * The table with a sort field shows the rows holding that field in column
   * order, and the rows missing it after them.
   */
  lemma SortedDataInColumnOrder(data: seq<Object>, s: SortConfig, key: KeyFn, i: int, j: int)
    requires s.field != ""
    requires 0 <= i < j < |data|
    ensures var r := SortedData(data, Some(s), key);
      (!IsNullish(Get(r[i], s.field)) && !IsNullish(Get(r[j], s.field)) ==>
        if s.direction == Asc then SortKey(Get(r[i], s.field), s.field, key) <= SortKey(Get(r[j], s.field), s.field, key)
        else SortKey(Get(r[i], s.field), s.field, key) >= SortKey(Get(r[j], s.field), s.field, key)) &&
      (IsNullish(Get(r[i], s.field)) ==> IsNullish(Get(r[j], s.field)))
  {
    SortedDataPermutes(data, Some(s), key);
    var r := SortedData(data, Some(s), key);
    if !IsNullish(Get(r[i], s.field)) && !IsNullish(Get(r[j], s.field)) {
      SortedInColumnOrder(r, s, key, i, j);
    }
    if IsNullish(Get(r[i], s.field)) {
      MissingValuesLast(r, s, key, i, j);
    }
  }
}
