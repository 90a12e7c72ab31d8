/**
 * The column editor (`components/SchemaEditor/SchemaEditor.jsx`). It keeps
 * the schema as loaded (`initial`) and as edited (`working`). Local edits
 * rename, retype, add and reorder columns. Saving diffs the two snapshots into
 * an ordered list of calls: every update, then every added column, then one
 * reorder when the name order changed. A renamed column carries the name it
 * had in `initial` as a marker so that the diff can pair it with its origin.
 */
module SchemaEditor {
  import opened JsValues
  import opened Strings

  /** A column; `renamedFrom` is the `_oldNameForRename` marker. */
  datatype Column = Column(name: string, colType: string, renamedFrom: Option<string>)

  /** The calls a save makes, in the order it makes them. */
  datatype Op =
    | Update(oldName: string, newName: string, newType: string)  // PUT /schema/columns/:oldName
    | Add(col: Column)                                            // POST /schema/columns
    | Reorder(names: seq<string>)                                 // POST /schema/reorder

  const FixedColumn: string := "SL No"

  function Names(s: seq<Column>): (r: seq<string>)
    ensures |r| == |s| && forall i :: 0 <= i < |s| ==> r[i] == s[i].name
  {
    seq(|s|, i requires 0 <= i < |s| => s[i].name)
  }

  /** `!name.trim()` */
  predicate BlankName(name: string)
  {
    Trim(name) == ""
  }

  /** `schema.some(col => col.name.toLowerCase() === name.toLowerCase())` */
  predicate NameTaken(schema: seq<Column>, name: string)
  {
    exists i | 0 <= i < |schema| :: Lower(schema[i].name) == Lower(name)
  }

  /** The checks `handleLocalUpdate` makes before it changes anything. */
  predicate UpdateAllowed(working: seq<Column>, oldName: string, newName: string)
  {
    !BlankName(newName) && !(newName != oldName && NameTaken(working, newName))
  }

  /** A blank name is refused, whatever its whitespace. */
  lemma BlankNamesRefused(working: seq<Column>, oldName: string, newName: string)
    requires IsBlank(newName)
    ensures !UpdateAllowed(working, oldName, newName)
  {
    TrimEmptyIffBlank(newName);
  }

  /** Changing only the case of a column's name is refused: the column itself clashes. */
  lemma CaseOnlyRenameRefused(working: seq<Column>, i: int, newName: string)
    requires 0 <= i < |working| && newName != working[i].name && Lower(newName) == Lower(working[i].name)
    ensures !UpdateAllowed(working, working[i].name, newName)
  {
  }

  /** The marker as written: the old name when the name changed and the old name was loaded, else none. */
  function MarkerAsWritten(oldName: string, newName: string, initialNames: seq<string>): Option<string>
  {
    if newName != oldName && oldName in initialNames then Some(oldName) else None
  }

  /** The name a column had when loaded, if it has one. */
  function Origin(col: Column, initialNames: seq<string>): Option<string>
  {
    if col.renamedFrom.Some? then col.renamedFrom
    else if col.name in initialNames then Some(col.name)
    else None
  }

  /**
   * The marker as evidently intended: a column keeps the name it was loaded
   * with, however often it is renamed or retyped; it is dropped only when
   * the column gets that name back.
   */
  function Marker(col: Column, newName: string, initialNames: seq<string>): Option<string>
  {
    var origin := Origin(col, initialNames);
    if origin == Some(newName) then None else origin
  }

  /** `{...col, ...updatedColumn}` with the marker chosen by `fixed`. */
  function UpdatedColumn(col: Column, oldName: string, newName: string, newType: string,
                         initialNames: seq<string>, fixed: bool): Column
  {
    Column(newName, newType,
           if fixed then Marker(col, newName, initialNames) else MarkerAsWritten(oldName, newName, initialNames))
  }

  /** `prev.map(col => col.name === oldName ? newCol : col)` */
  function UpdateWith(working: seq<Column>, oldName: string, newName: string, newType: string,
                      initialNames: seq<string>, fixed: bool): (r: seq<Column>)
    ensures |r| == |working|
    ensures forall i :: 0 <= i < |working| && working[i].name != oldName ==> r[i] == working[i]
    ensures forall i :: 0 <= i < |working| && working[i].name == oldName ==>
      r[i].name == newName && r[i].colType == newType
  {
    seq(|working|, i requires 0 <= i < |working| =>
      if working[i].name == oldName then UpdatedColumn(working[i], oldName, newName, newType, initialNames, fixed)
      else working[i])
  }

  /**
   * With the corrected marker, a column that came from the loaded schema keeps
   * that origin through every accepted edit.
   */
  lemma MarkerKeepsOrigin(col: Column, newName: string, newType: string, initialNames: seq<string>)
    requires Origin(col, initialNames).Some?
    requires col.renamedFrom.Some? ==> col.renamedFrom.value in initialNames
    ensures Origin(UpdatedColumn(col, col.name, newName, newType, initialNames, true), initialNames)
      == Origin(col, initialNames)
  {
  }

  /**
   * Editing a column that was renamed earlier (its current name was not
   * loaded): as written the marker is dropped, corrected it is kept unless
   * the column gets its loaded name back.
   */
  lemma SecondEditOfRenamedColumn(working: seq<Column>, i: int, newName: string, newType: string,
                                  initialNames: seq<string>)
    requires 0 <= i < |working| && working[i].name !in initialNames && working[i].renamedFrom.Some?
    ensures UpdateWith(working, working[i].name, newName, newType, initialNames, false)[i].renamedFrom == None
    ensures working[i].renamedFrom != Some(newName) ==>
      UpdateWith(working, working[i].name, newName, newType, initialNames, true)[i].renamedFrom == working[i].renamedFrom
  {
  }

  /** The working column `find` returns for a loaded column: same name or marked with its name. */
  predicate Matches(wc: Column, ic: Column)
  {
    wc.name == ic.name || wc.renamedFrom == Some(ic.name)
  }

  /** The index of the first working column matching `ic`, or -1. */
  function MatchIndex(ic: Column, working: seq<Column>): (r: int)
    ensures -1 <= r < |working|
    ensures r == -1 <==> forall i :: 0 <= i < |working| ==> !Matches(working[i], ic)
    ensures r >= 0 ==> Matches(working[r], ic) && forall j :: 0 <= j < r ==> !Matches(working[j], ic)
  {
    if working == [] then -1
    else if Matches(working[0], ic) then 0
    else
      var k := MatchIndex(ic, working[1..]);
      if k < 0 then -1 else k + 1
  }

  /** `workingSchema.find(...)`: the first match, if any. */
  function FirstMatch(ic: Column, working: seq<Column>): Option<Column>
  {
    var k := MatchIndex(ic, working);
    if k < 0 then None else Some(working[k])
  }

  /** The update a loaded column contributes: only when its match was renamed or retyped. */
  function UpdateFor(ic: Column, working: seq<Column>): (r: seq<Op>)
    ensures |r| <= 1
    ensures r != [] <==> (FirstMatch(ic, working).Some? &&
      (FirstMatch(ic, working).value.renamedFrom == Some(ic.name) || FirstMatch(ic, working).value.colType != ic.colType))
    ensures r != [] ==> r[0] == Update(ic.name, FirstMatch(ic, working).value.name, FirstMatch(ic, working).value.colType)
  {
    match FirstMatch(ic, working)
    case None => []
    case Some(wc) =>
      if wc.renamedFrom == Some(ic.name) || ic.colType != wc.colType then [Update(ic.name, wc.name, wc.colType)]
      else []
  }

  /** `modifiedColumns`: the updates, in the order of the loaded schema. */
  function ModifiedOps(initial: seq<Column>, working: seq<Column>): (r: seq<Op>)
    ensures forall k :: 0 <= k < |r| ==> r[k].Update?
    decreases |initial|
  {
    if initial == [] then []
    else ModifiedOps(initial[..|initial| - 1], working) + UpdateFor(initial[|initial| - 1], working)
  }

  /** An update is sent exactly for a loaded column whose match was renamed or retyped. */
  lemma {:induction false} ModifiedOpsExactly(initial: seq<Column>, working: seq<Column>, op: Op)
    ensures op in ModifiedOps(initial, working) <==>
      exists i :: 0 <= i < |initial| && UpdateFor(initial[i], working) == [op]
    decreases |initial|
  {
    if initial != [] {
      var init := initial[..|initial| - 1];
      var last := initial[|initial| - 1];
      ModifiedOpsExactly(init, working, op);
      assert ModifiedOps(initial, working) == ModifiedOps(init, working) + UpdateFor(last, working);
      assert op in UpdateFor(last, working) <==> UpdateFor(last, working) == [op];
      if op in ModifiedOps(initial, working) {
        if op in ModifiedOps(init, working) {
          var i :| 0 <= i < |init| && UpdateFor(init[i], working) == [op];
          assert initial[i] == init[i];
        } else {
          assert UpdateFor(initial[|init|], working) == [op];
        }
      }
      if exists i :: 0 <= i < |initial| && UpdateFor(initial[i], working) == [op] {
        var i :| 0 <= i < |initial| && UpdateFor(initial[i], working) == [op];
        if i < |init| {
          assert init[i] == initial[i];
          assert op in ModifiedOps(init, working);
        } else {
          assert i == |init|;
        }
      }
    }
  }

  /** A column added locally: a name that was not loaded and no (truthy) marker. */
  predicate IsNew(col: Column, initialNames: seq<string>)
  {
    col.name !in initialNames && !(col.renamedFrom.Some? && col.renamedFrom.value != "")
  }

  /** `addedColumns`: the new working columns, in working order. */
  function AddedOps(working: seq<Column>, initialNames: seq<string>): (r: seq<Op>)
    ensures forall k :: 0 <= k < |r| ==> r[k].Add?
    ensures forall op :: op in r <==> op.Add? && op.col in working && IsNew(op.col, initialNames)
    decreases |working|
  {
    if working == [] then []
    else
      var w := working[|working| - 1];
      var rest := AddedOps(working[..|working| - 1], initialNames);
      assert working == working[..|working| - 1] + [w];
      rest + if IsNew(w, initialNames) then [Add(w)] else []
  }

  /** The reorder call, sent only when the name order changed. */
  function ReorderOps(initial: seq<Column>, working: seq<Column>): seq<Op>
  {
    if Names(working) != Names(initial) then [Reorder(Names(working))] else []
  }

  /** The whole list of calls a save makes, in order. */
  function Diff(initial: seq<Column>, working: seq<Column>): seq<Op>
  {
    ModifiedOps(initial, working) + AddedOps(working, Names(initial)) + ReorderOps(initial, working)
  }

  /**
   * Every update comes before every add, and a reorder, if any, comes last and
   * carries the full working name list; it is sent exactly when the names or
   * their order changed.
   */
  lemma DiffOrder(initial: seq<Column>, working: seq<Column>)
    ensures var d := Diff(initial, working);
      (forall i, j :: 0 <= i < j < |d| && d[j].Update? ==> d[i].Update?)
      && (forall i :: 0 <= i < |d| && d[i].Reorder? ==> i == |d| - 1 && d[i].names == Names(working))
      && ((exists i :: 0 <= i < |d| && d[i].Reorder?) <==> Names(working) != Names(initial))
  {
    var m := ModifiedOps(initial, working);
    var a := AddedOps(working, Names(initial));
    var r := ReorderOps(initial, working);
    var d := Diff(initial, working);
    assert forall i :: 0 <= i < |d| ==>
      (i < |m| ==> d[i] == m[i]) && (|m| <= i < |m| + |a| ==> d[i] == a[i - |m|]) && (|m| + |a| <= i ==> d[i] == r[i - |m| - |a|]);
    if Names(working) != Names(initial) {
      assert d[|d| - 1].Reorder?;
    }
  }

  /** An unchanged schema saves with no calls at all. */
  lemma NoEditsNoCalls(schema: seq<Column>)
    requires forall i :: 0 <= i < |schema| ==> schema[i].renamedFrom.None?
    requires forall i, j :: 0 <= i < j < |schema| ==> schema[i].name != schema[j].name
    ensures Diff(schema, schema) == []
  {
    NoUpdatesForSame(schema, schema);
    forall c | c in schema
      ensures c.name in Names(schema)
    {
      var i :| 0 <= i < |schema| && schema[i] == c;
      assert Names(schema)[i] == c.name;
    }
    NoAddsWhenAllLoaded(schema, Names(schema));
  }

  lemma {:induction false} NoAddsWhenAllLoaded(working: seq<Column>, initialNames: seq<string>)
    requires forall c :: c in working ==> c.name in initialNames
    ensures AddedOps(working, initialNames) == []
    decreases |working|
  {
    if working != [] {
      var init := working[..|working| - 1];
      assert forall c :: c in init ==> c in working;
      NoAddsWhenAllLoaded(init, initialNames);
      assert working[|working| - 1] in working;
    }
  }

  lemma {:induction false} NoUpdatesForSame(initial: seq<Column>, schema: seq<Column>)
    requires forall i :: 0 <= i < |schema| ==> schema[i].renamedFrom.None?
    requires forall i, j :: 0 <= i < j < |schema| ==> schema[i].name != schema[j].name
    requires forall c :: c in initial ==> c in schema
    ensures ModifiedOps(initial, schema) == []
    decreases |initial|
  {
    if initial != [] {
      var ic := initial[|initial| - 1];
      NoUpdatesForSame(initial[..|initial| - 1], schema);
      assert ic in schema;
      var k :| 0 <= k < |schema| && schema[k] == ic;
      assert Matches(schema[k], ic);
      var i := MatchIndex(ic, schema);
      assert i == k;
    }
  }

  /** The schema after the edits of the as-written marker rule: loaded `A`, renamed to `B`, then to `C`. */
  function TwoRenames(fixed: bool): seq<Column>
  {
    var initial := [Column("A", "text", None)];
    var once := UpdateWith(initial, "A", "B", "text", Names(initial), fixed);
    UpdateWith(once, "B", "C", "text", Names(initial), fixed)
  }

  /**
   * Renaming a loaded column twice: as written the second rename drops the
   * marker, so the save adds a new column `C` and renames nothing; with the
   * marker kept the save renames `A` to `C`.
   */
  lemma TwoRenamesDiff()
    ensures Diff([Column("A", "text", None)], TwoRenames(false))
      == [Add(Column("C", "text", None)), Reorder(["C"])]
    ensures Diff([Column("A", "text", None)], TwoRenames(true))
      == [Update("A", "C", "text"), Reorder(["C"])]
  {
    var initial := [Column("A", "text", None)];
    assert Names(initial) == ["A"];
    var asWritten := TwoRenames(false);
    assert asWritten == [Column("C", "text", None)];
    assert Names(asWritten) == ["C"];
    assert FirstMatch(initial[0], asWritten) == None;
    assert ModifiedOps(initial, asWritten) == ModifiedOps([], asWritten) + UpdateFor(initial[0], asWritten);
    assert AddedOps(asWritten, ["A"]) == AddedOps([], ["A"]) + [Add(asWritten[0])];
    var fixed := TwoRenames(true);
    assert fixed == [Column("C", "text", Some("A"))];
    assert Names(fixed) == ["C"];
    assert FirstMatch(initial[0], fixed) == Some(fixed[0]);
    assert ModifiedOps(initial, fixed) == ModifiedOps([], fixed) + UpdateFor(initial[0], fixed);
    assert AddedOps(fixed, ["A"]) == AddedOps([], ["A"]) + [];
  }

  /** `handleDrop`: take the element at `from` out, then put it back in at `to`. */
  function Moved(s: seq<Column>, from: int, to: int): (r: seq<Column>)
    requires 0 <= from < |s| && 0 <= to < |s|
    ensures |r| == |s| && r[to] == s[from]
    ensures multiset(r) == multiset(s)
  {
    var x := s[from];
    var without := s[..from] + s[from + 1..];
    assert s == s[..from] + [x] + s[from + 1..];
    var r := without[..to] + [x] + without[to..];
    assert without == without[..to] + without[to..];
    assert multiset(without) == multiset(s[..from]) + multiset(s[from + 1..]);
    assert multiset(s) == multiset(without) + multiset{x};
    assert multiset(r) == multiset(without[..to]) + multiset{x} + multiset(without[to..]);
    r
  }

  /** Dropping an element where it was picked up leaves the schema as it was. */
  lemma MovedInPlace(s: seq<Column>, i: int)
    requires 0 <= i < |s|
    ensures Moved(s, i, i) == s
  {
    var without := s[..i] + s[i + 1..];
    assert without[..i] == s[..i] && without[i..] == s[i + 1..];
    assert s == s[..i] + [s[i]] + s[i + 1..];
  }

  /**
   * The fixed `SL No` row cannot be dragged or dropped on: with it first and
   * both indices past it, a drop keeps it first.
   */
  lemma FixedColumnStaysFirst(s: seq<Column>, from: int, to: int)
    requires 0 < from < |s| && 0 < to < |s| && s[0].name == FixedColumn
    ensures Moved(s, from, to)[0] == s[0]
  {
  }

  /** What the save loop leaves done: every call up to the first one that fails. */
  function Completed(ops: seq<Op>, failAt: Option<nat>): (r: seq<Op>)
    ensures |r| <= |ops| && r == ops[..|r|]
    ensures failAt.None? || failAt.value >= |ops| ==> r == ops
  {
    if failAt.Some? && failAt.value < |ops| then ops[..failAt.value] else ops
  }

  /** A call that fails among the updates means no column is added and nothing is reordered. */
  lemma FailedUpdateStopsAdds(initial: seq<Column>, working: seq<Column>, k: nat)
    requires k < |ModifiedOps(initial, working)|
    ensures forall op :: op in Completed(Diff(initial, working), Some(k)) ==> op.Update?
  {
    var m := ModifiedOps(initial, working);
    var d := Diff(initial, working);
    assert forall i :: 0 <= i < k ==> d[i] == m[i];
  }

  /** `workingSchema.find(...)` as a loop. */
  method FindMatch(ic: Column, working: seq<Column>) returns (r: Option<Column>)
    ensures r == FirstMatch(ic, working)
  {
    var i := 0;
    while i < |working|
      invariant 0 <= i <= |working|
      invariant forall j :: 0 <= j < i ==> !Matches(working[j], ic)
    {
      if working[i].name == ic.name || working[i].renamedFrom == Some(ic.name) {
        return Some(working[i]);
      }
      i := i + 1;
    }
    return None;
  }

  /** The first loop of `handleSaveChanges`: one pass over the loaded columns, pushing updates. */
  method ComputeModified(initial: seq<Column>, working: seq<Column>) returns (modified: seq<Op>)
    ensures modified == ModifiedOps(initial, working)
  {
    modified := [];
    var i := 0;
    while i < |initial|
      invariant 0 <= i <= |initial|
      invariant modified == ModifiedOps(initial[..i], working)
    {
      var ic := initial[i];
      var wc := FindMatch(ic, working);
      if wc.Some? {
        var isRenamed := wc.value.renamedFrom == Some(ic.name);
        var isTypeChanged := ic.colType != wc.value.colType;
        if isRenamed || isTypeChanged {
          modified := modified + [Update(ic.name, wc.value.name, wc.value.colType)];
        }
      }
      assert initial[..i + 1][..i] == initial[..i];
      i := i + 1;
    }
    assert initial[..i] == initial;
  }

  /** The second loop: the working columns that are new, in working order. */
  method ComputeAdded(initial: seq<Column>, working: seq<Column>) returns (added: seq<Op>)
    ensures added == AddedOps(working, Names(initial))
  {
    var initialNames := Names(initial);
    added := [];
    var i := 0;
    while i < |working|
      invariant 0 <= i <= |working|
      invariant added == AddedOps(working[..i], initialNames)
    {
      var wc := working[i];
      if wc.name !in initialNames && !(wc.renamedFrom.Some? && wc.renamedFrom.value != "") {
        added := added + [Add(wc)];
      }
      assert working[..i + 1][..i] == working[..i];
      i := i + 1;
    }
    assert working[..i] == working;
  }

  /**
   * The awaited calls, one after the other: the call at index `failAt`
   * throws, so it and every later call are not made.
   */
  method RunCalls(ops: seq<Op>, failAt: Option<nat>) returns (done: seq<Op>, ok: bool)
    ensures done == Completed(ops, failAt)
    ensures ok <==> failAt.None? || failAt.value >= |ops|
  {
    done := [];
    var i := 0;
    while i < |ops|
      invariant 0 <= i <= |ops|
      invariant done == ops[..i]
      invariant failAt.None? || failAt.value >= i
    {
      if failAt == Some(i) {
        return done, false;
      }
      done := done + [ops[i]];
      i := i + 1;
    }
    assert ops[..i] == ops;
    return done, true;
  }

  /** The editor's state: the two snapshots and the draft of the column being added. */
  class Editor {
    var initial: seq<Column>
    var working: seq<Column>
    var draft: Column
    var editingColumn: Option<string>

    /** `fetchSchema` that succeeded: both snapshots take the server's schema. */
    constructor (loaded: seq<Column>)
      ensures initial == loaded && working == loaded
      ensures draft == Column("", "text", None) && editingColumn == None
    {
      initial := loaded;
      working := loaded;
      draft := Column("", "text", None);
      editingColumn := None;
    }

    /**
     * `handleLocalUpdate`: refuse a blank or clashing name; otherwise rename
     * and retype every column named `oldName`, keeping the loaded name as the
     * marker, and close the inline editor.
     */
    method LocalUpdate(oldName: string, newName: string, newType: string) returns (accepted: bool)
      modifies this
      ensures accepted <==> UpdateAllowed(old(working), oldName, newName)
      ensures accepted ==> (working == UpdateWith(old(working), oldName, newName, newType, Names(initial), true)
        && editingColumn == None)
      ensures !accepted ==> working == old(working) && editingColumn == old(editingColumn)
      ensures initial == old(initial) && draft == old(draft)
    {
      if Trim(newName) == "" {
        return false;
      }
      if newName != oldName && NameTaken(working, newName) {
        return false;
      }
      working := UpdateWith(working, oldName, newName, newType, Names(initial), true);
      editingColumn := None;
      return true;
    }

    /** `handleLocalAdd`: refuse a blank or clashing draft; otherwise append it and reset the draft. */
    method LocalAdd() returns (accepted: bool)
      modifies this
      ensures accepted <==> !BlankName(old(draft).name) && !NameTaken(old(working), old(draft).name)
      ensures accepted ==> working == old(working) + [old(draft)] && draft == Column("", "text", None)
      ensures !accepted ==> working == old(working) && draft == old(draft)
      ensures initial == old(initial) && editingColumn == old(editingColumn)
    {
      if Trim(draft.name) == "" {
        return false;
      }
      if NameTaken(working, draft.name) {
        return false;
      }
      working := working + [draft];
      draft := Column("", "text", None);
      return true;
    }

    /** `handleDrop`: move the dragged column to the position it was dropped on. */
    method Drop(from: int, to: int)
      requires 0 <= from < |working| && 0 <= to < |working|
      modifies this
      ensures working == Moved(old(working), from, to)
      ensures initial == old(initial) && draft == old(draft) && editingColumn == old(editingColumn)
    {
      var newSchema := working;
      var content := newSchema[from];
      newSchema := newSchema[..from] + newSchema[from + 1..];
      newSchema := newSchema[..to] + [content] + newSchema[to..];
      working := newSchema;
    }

    /**
     * `handleSaveChanges`: the calls are made one at a time and the first
     * failure (`failAt`, its index) ends the save. Only a save whose calls all
     * succeed reloads the schema (`reloaded`, the server's answer, if any) and
     * notifies the page.
     */
    method SaveChanges(failAt: Option<nat>, reloaded: Option<seq<Column>>) returns (done: seq<Op>, notified: bool)
      modifies this
      ensures done == Completed(Diff(old(initial), old(working)), failAt)
      ensures notified <==> done == Diff(old(initial), old(working)) && (failAt.None? || failAt.value >= |done|)
      ensures notified && reloaded.Some? ==> initial == reloaded.value && working == reloaded.value
      ensures !(notified && reloaded.Some?) ==> initial == old(initial) && working == old(working)
      ensures draft == old(draft) && editingColumn == old(editingColumn)
    {
      var modified := ComputeModified(initial, working);
      var added := ComputeAdded(initial, working);
      var ops := modified + added;
      if Names(working) != Names(initial) {
        ops := ops + [Reorder(Names(working))];
      }
      assert ops == Diff(initial, working);
      var ok;
      done, ok := RunCalls(ops, failAt);
      if ok && reloaded.Some? {
        initial := reloaded.value;
        working := reloaded.value;
      }
      notified := ok;
    }
  }
}
