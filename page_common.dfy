/**
 * What the two contract pages (`MIS.jsx` and `Leaderboard.jsx`) share: the
 * outcome of a data fetch, the blank row behind "Add", the page clamp after a
 * fetch and the column-selection rule.
 */
module PageCommon {
  import opened JsValues
  import opened ViewState
  import Pagination

  /** The names a filter object of either page can carry. */
  const FilterKeys: set<string> := {"filterField", "minRange", "maxRange", "fromDate", "toDate", "filterValue"}

  /**
   * How a `GET /contracts` ends. In a response, `None` is a missing property;
   * the fetch itself is not modelled.
   */
  datatype FetchOutcome =
    | Response(data: Option<seq<Object>>, totalPages: Option<int>,
               headers: Option<seq<string>>, fieldTypes: Option<FieldTypes>)
    | HttpError(status: int, serverError: Option<string>, statusText: string)
    | NoResponse
    | RequestFailed(message: string)

  /** Which screen is open over the table. */
  datatype View = DataView | EditRow | NewRow | Upload

  /** `headers.reduce((acc, h) => ({...acc, [h]: ''}), {})`: one empty value per header. */
  function NewRowObject(headers: seq<string>): (r: Object)
    ensures forall k :: k in r <==> k in headers
    ensures forall k :: k in r ==> r[k] == Str("")
    decreases |headers|
  {
    if headers == [] then map[]
    else NewRowObject(headers[..|headers| - 1])[headers[|headers| - 1] := Str("")]
  }

  /** The blank row has no truthy value, so every cell reads as empty. */
  lemma NewRowAllFalsy(headers: seq<string>, k: string)
    ensures !Truthy(Get(NewRowObject(headers), k))
  {
  }

  /**
   * The clamp after a fetch: an empty page past the last one (and past page 1)
   * moves to the last page, or to page 1 when there are no pages.
   */
  function ClampPage(dataEmpty: bool, currentPage: int, total: int): (p: int)
  {
    if dataEmpty && currentPage > 1 && currentPage > total then (if total > 0 then total else 1)
    else currentPage
  }

  /**
   * From a valid page the clamp lands on a page the pager accepts (page 1 when
   * there are no pages), and it only ever moves backwards.
   */
  lemma ClampLandsOnValidPage(dataEmpty: bool, currentPage: int, total: int)
    requires currentPage >= 1
    ensures var p := ClampPage(dataEmpty, currentPage, total);
      1 <= p <= currentPage
      && (p != currentPage ==> dataEmpty && (p == total || (total <= 0 && p == 1)))
      && (p != currentPage && total >= 1 ==> Pagination.GoToPage(p, total) == Some(p))
      && (!dataEmpty || currentPage <= total ==> p == currentPage)
  {
  }

  /** The selection after a fetch with metadata: the new headers on a reset or an empty selection. */
  function SelectionAfterFetch(prev: seq<string>, headers: seq<string>, reset: bool): (r: seq<string>)
  {
    if reset || |prev| == 0 then headers else prev
  }

  /**
   * After a fetch with metadata the selection is never empty unless the
   * headers are, and after a reset every column is visible.
   */
  lemma SelectionAfterFetchShowsColumns(prev: seq<string>, headers: seq<string>, reset: bool)
    ensures headers != [] ==> SelectionAfterFetch(prev, headers, reset) != []
    ensures SelectionAfterFetch(prev, headers, reset) == headers <==> reset || prev == [] || prev == headers
    ensures reset ==> VisibleHeaders(headers, SelectionAfterFetch(prev, headers, reset)) == headers
  {
    if reset {
      VisibleAll(headers, headers);
    }
  }

  /** Selecting a superset of the headers shows every header. */
  lemma {:induction false} VisibleAll(headers: seq<string>, selected: seq<string>)
    requires forall h :: h in headers ==> h in selected
    ensures VisibleHeaders(headers, selected) == headers
    decreases |headers|
  {
    if headers != [] {
      VisibleAll(headers[1..], selected);
      assert headers == [headers[0]] + headers[1..];
    }
  }

  /** `arr1.length === arr2.length && arr1.every((v, i) => v === arr2[i])` */
  function ArraysEqual(a: seq<string>, b: seq<string>): (r: bool)
    ensures r <==> a == b
  {
    |a| == |b| && forall i :: 0 <= i < |a| ==> a[i] == b[i]
  }
}
