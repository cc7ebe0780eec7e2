/** The column panel that `renderItemDetails` builds in the script
    routes/view-routes.js embeds (routes/view-routes.js:262-368): which
    columns are shown, the value each input starts with, and which status
    label is preselected. The HTML itself is reduced to one `Row` per
    column. */
module ItemView {
  import opened Seqs
  import opened Text
  import opened Json
  import opened Remote
  import opened JsObject

  /** The ids of the columns the panel shows, in the script's order. */
  const ColumnsToShow: seq<string> := ["owner", "tenant", "text52", "email", "text9", "date70", "date0",
                                       "weekly_rent", "date4", "formula71", "key_numbers8", "status61",
                                       "creation_log1", "status19"]

  predicate Shown(cv: ColumnValue) {
    cv.id in ColumnsToShow
  }

  /** `item.column_values.filter(cv => columnsToShow.includes(cv.id))`:
      the listed columns, in the item's own order. */
  function ShownColumns(cvs: seq<ColumnValue>): (r: seq<ColumnValue>)
    ensures forall cv :: cv in r <==> cv in cvs && cv.id in ColumnsToShow
    ensures IsSubsequence(r, cvs)
    ensures forall cv :: multiset(r)[cv] == if cv.id in ColumnsToShow then multiset(cvs)[cv] else 0
  {
    Filter(cvs, Shown)
  }

  /** One element of `label.labelsArray`: `{id, name}`. */
  datatype LabelDef = LabelDef(id: Field, name: string)

  /** `JSON.parse(settings_str)` of a column definition. */
  datatype Settings =
    | NoSettings          // `settings_str` is missing or empty
    | SettingsThrew       // the parse throws, or yields `null`
    | SettingsObject(labels: Option<Entries<string>>, labelsArray: Option<seq<LabelDef>>)
      // `labels` when it is a truthy object; `labelsArray` when it is an array

  /** An element of `boardColumns`: `{id, title, type, settings_str}`. */
  datatype BoardColumn = BoardColumn(id: string, title: string, colType: string, settings: Settings)

  /** `boardColumns[i]` is the first definition with id `id`. */
  predicate DefinitionAt(boardColumns: seq<BoardColumn>, id: string, i: int) {
    0 <= i < |boardColumns| && boardColumns[i].id == id
    && forall j :: 0 <= j < i ==> boardColumns[j].id != id
  }

  /** `boardColumns.find(bc => bc.id === id)`: the first definition with
      that id, `None` when there is none. */
  function FindDefinition(boardColumns: seq<BoardColumn>, id: string): (d: Option<BoardColumn>)
    ensures d.Some? ==> exists i :: DefinitionAt(boardColumns, id, i) && boardColumns[i] == d.value
    ensures d.None? <==> forall j :: 0 <= j < |boardColumns| ==> boardColumns[j].id != id
  {
    if boardColumns == [] then None
    else if boardColumns[0].id == id then
      assert DefinitionAt(boardColumns, id, 0);
      Some(boardColumns[0])
    else
      FindDefinitionShift(boardColumns, id);
      FindDefinition(boardColumns[1..], id)
  }

  /** Past a first definition with another id, the first definition of the
      rest is the first of the whole. */
  lemma FindDefinitionShift(boardColumns: seq<BoardColumn>, id: string)
    requires boardColumns != [] && boardColumns[0].id != id
    ensures forall i :: DefinitionAt(boardColumns[1..], id, i) ==>
              DefinitionAt(boardColumns, id, i + 1) && boardColumns[i + 1] == boardColumns[1..][i]
    ensures (forall j :: 0 <= j < |boardColumns[1..]| ==> boardColumns[1..][j].id != id)
            ==> forall j :: 0 <= j < |boardColumns| ==> boardColumns[j].id != id
  {
    forall i | DefinitionAt(boardColumns[1..], id, i)
      ensures DefinitionAt(boardColumns, id, i + 1) && boardColumns[i + 1] == boardColumns[1..][i]
    {
      forall j | 0 <= j < i + 1 ensures boardColumns[j].id != id {
        if j > 0 {
          assert boardColumns[j] == boardColumns[1..][j - 1];
        }
      }
    }
    if forall j :: 0 <= j < |boardColumns[1..]| ==> boardColumns[1..][j].id != id {
      forall j | 0 < j < |boardColumns| ensures boardColumns[j].id != id {
        assert boardColumns[j] == boardColumns[1..][j - 1];
      }
    }
  }

  /** The board's type for the column, or the value's own when the board does not define it. */
  function ColumnType(cv: ColumnValue, def: Option<BoardColumn>): string {
    if def.Some? then def.value.colType else cv.colType
  }

  /** The value an email or date input starts with: `text` or '', replaced by
      the stored `date` of a date column or the stored `email` of an email
      column when that is truthy. */
  function CurrentValue(cv: ColumnValue, colType: string): (v: string)
    ensures colType == "date" && cv.value.JObject? && TruthyField(cv.value.date) ==> v == FieldString(cv.value.date)
    ensures colType == "email" && cv.value.JObject? && TruthyField(cv.value.email) ==> v == FieldString(cv.value.email)
    ensures !(cv.value.JObject? && ((colType == "date" && TruthyField(cv.value.date))
                                    || (colType == "email" && TruthyField(cv.value.email)))) ==>
              v == if TruthyText(cv.text) then cv.text.value else ""
  {
    var shown := if TruthyText(cv.text) then cv.text.value else "";
    match cv.value
    case JObject(email, date, _, _) =>
      if colType == "date" && TruthyField(date) then FieldString(date)
      else if colType == "email" && TruthyField(email) then FieldString(email)
      else shown
    case _ => shown
  }

  // ---------------------------------------------------------------------
  // Status labels

  /** The label object built from `labelsArray`: `labels[id.toString()] = name`
      for each element in turn, `None` when an `id` is `undefined` or `null`
      and `toString` throws. */
  function LabelsFrom(defs: seq<LabelDef>): (r: Option<Entries<string>>)
    ensures r.Some? ==> Ordered(r.value) && DistinctKeys(r.value)
    ensures r.None? <==> exists i :: 0 <= i < |defs| && FieldToString(defs[i].id).None?
  {
    if defs == [] then Some([])
    else
      var init := defs[..|defs| - 1];
      var last := defs[|defs| - 1];
      assert forall i :: 0 <= i < |init| ==> init[i] == defs[i];
      match LabelsFrom(init)
      case None => None
      case Some(o) =>
        match FieldToString(last.id)
        case None => None
        case Some(k) =>
          ObjectSetOrdered(o, k, last.name);
          ObjectSetDistinct(o, k, last.name);
          Some(ObjectSet(o, k, last.name))
  }

  /** The label object has a key exactly when some definition has it. */
  lemma {:induction false} LabelsFromKeys(defs: seq<LabelDef>, k: string)
    requires LabelsFrom(defs).Some?
    ensures Lookup(LabelsFrom(defs).value, k).Some? <==> exists i :: 0 <= i < |defs| && FieldToString(defs[i].id) == Some(k)
  {
    if defs != [] {
      var init := defs[..|defs| - 1];
      var last := defs[|defs| - 1];
      assert forall i :: 0 <= i < |init| ==> init[i] == defs[i];
      LabelsFromKeys(init, k);
      var o := LabelsFrom(init).value;
      var key := FieldToString(last.id).value;
      assert LabelsFrom(defs).value == ObjectSet(o, key, last.name);
      ObjectSetLookup(o, key, last.name, k);
      if key == k {
        assert FieldToString(defs[|defs| - 1].id) == Some(k);
      }
    }
  }

  /** `defs[i]` is the last definition stored under `k`. */
  predicate LastWithKey(defs: seq<LabelDef>, k: string, i: int) {
    0 <= i < |defs| && FieldToString(defs[i].id) == Some(k)
    && forall j :: i < j < |defs| ==> FieldToString(defs[j].id) != Some(k)
  }

  /** Each key of the label object holds the name of the last definition
      with that key. */
  lemma {:induction false} LabelsFromLast(defs: seq<LabelDef>, k: string)
    requires LabelsFrom(defs).Some?
    ensures var labels := LabelsFrom(defs).value;
            Lookup(labels, k).Some? ==>
              exists i :: LastWithKey(defs, k, i) && Lookup(labels, k) == Some(defs[i].name)
  {
    if defs != [] {
      var n := |defs| - 1;
      var init := defs[..n];
      var last := defs[n];
      var o := LabelsFrom(init).value;
      var key := FieldToString(last.id).value;
      var labels := LabelsFrom(defs).value;
      assert labels == ObjectSet(o, key, last.name);
      ObjectSetLookup(o, key, last.name, k);
      if key == k {
        assert LastWithKey(defs, k, n) && Lookup(labels, k) == Some(defs[n].name);
      } else if Lookup(o, k).Some? {
        LabelsFromLast(init, k);
        var i :| LastWithKey(init, k, i) && Lookup(o, k) == Some(init[i].name);
        LastWithKeyExtends(defs, k, i);
        assert LastWithKey(defs, k, i) && Lookup(labels, k) == Some(defs[i].name);
      }
    }
  }

  /** The last definition under `k` stays last when one with another key follows. */
  lemma LastWithKeyExtends(defs: seq<LabelDef>, k: string, i: int)
    requires defs != [] && LastWithKey(defs[..|defs| - 1], k, i) && FieldToString(defs[|defs| - 1].id) != Some(k)
    ensures LastWithKey(defs, k, i) && defs[i] == defs[..|defs| - 1][i]
  {
    var init := defs[..|defs| - 1];
    forall j | i < j < |defs| ensures FieldToString(defs[j].id) != Some(k) {
      if j < |init| {
        assert defs[j] == init[j];
      }
    }
  }

  /** `settings.labelsArray.forEach(labelObj => { labels[labelObj.id.toString()] = labelObj.name; })`. */
  method BuildLabels(defs: seq<LabelDef>) returns (labels: Option<Entries<string>>)
    ensures labels == LabelsFrom(defs)
  {
    var o: Entries<string> := [];
    for i := 0 to |defs|
      invariant LabelsFrom(defs[..i]) == Some(o)
    {
      assert defs[..i + 1][..i] == defs[..i];
      var key := FieldToString(defs[i].id);
      if key.None? {
        assert LabelsFrom(defs[..i + 1]).None?;
        LabelsFromPrefixThrows(defs, i + 1);
        return None;
      }
      o := ObjectSet(o, key.value, defs[i].name);
    }
    assert defs[..|defs|] == defs;
    labels := Some(o);
  }

  /** Once a prefix throws, the whole list does. */
  lemma LabelsFromPrefixThrows(defs: seq<LabelDef>, n: nat)
    requires n <= |defs| && LabelsFrom(defs[..n]).None?
    ensures LabelsFrom(defs).None?
  {
    var i :| 0 <= i < n && FieldToString(defs[..n][i].id).None?;
    assert defs[..n][i] == defs[i];
  }

  /** The labels a status column lists: those of `labelsArray` when it is an
      array, else `settings.labels`. `Threw` when building them throws. */
  datatype StatusLabels = LabelsThrew | Labels(entries: Option<Entries<string>>)

  function LabelsOf(s: Settings): (r: StatusLabels)
    requires s.SettingsObject?
    ensures r.LabelsThrew? <==>
              s.labelsArray.Some? && exists i :: 0 <= i < |s.labelsArray.value| && FieldToString(s.labelsArray.value[i].id).None?
    ensures s.labelsArray.None? ==> r == Labels(s.labels)
    ensures s.labelsArray.Some? && r.Labels? ==>
              r.entries.Some? && Ordered(r.entries.value) && DistinctKeys(r.entries.value)
  {
    match s.labelsArray
    case None => Labels(s.labels)
    case Some(defs) =>
      match LabelsFrom(defs)
      case None => LabelsThrew
      case Some(o) => Labels(Some(o))
  }

  /** The label key the stored value names: `String(index)` when `index` is
      defined, else `String(id)` when `id` is truthy. Only an object stored
      as a truthy value names one. */
  function StoredKey(v: ColumnJson): (k: Option<string>)
    ensures k.Some? ==> v.JObject?
    ensures v.JObject? && !v.index.Absent? ==> k == Some(FieldString(v.index))
    ensures v.JObject? && v.index.Absent? ==> k == (if TruthyField(v.id) then Some(FieldString(v.id)) else None)
  {
    match v
    case JObject(_, _, index, id) =>
      if !index.Absent? then Some(FieldString(index))
      else if TruthyField(id) then Some(FieldString(id))
      else None
    case _ => None
  }

  /** The index of the first label whose name is the column's `text`. */
  function FirstNamed(labels: Entries<string>, text: Option<string>): (r: Option<nat>)
    ensures r.Some? ==> r.value < |labels| && text == Some(labels[r.value].1)
    ensures r.Some? ==> forall j :: 0 <= j < r.value ==> text != Some(labels[j].1)
    ensures r.None? ==> forall j :: 0 <= j < |labels| ==> text != Some(labels[j].1)
  {
    if labels == [] then None
    else if text == Some(labels[0].1) then Some(0)
    else
      match FirstNamed(labels[1..], text)
      case None => None
      case Some(i) => Some(i + 1)
  }

  /** The preselected label key: the stored key when it is a non-empty
      string, else the key of the first label named like the column's
      `text`, else the stored key as it was. */
  function SelectedKey(cv: ColumnValue, labels: Option<Entries<string>>): Option<string> {
    var stored := StoredKey(cv.value);
    if (stored.None? || stored.value == "") && labels.Some? then
      match FirstNamed(labels.value, cv.text)
      case Some(i) => Some(labels.value[i].0)
      case None => stored
    else stored
  }

  /** A stored index or id wins over the labels; otherwise the first label
      named like the column's `text` is chosen; no label is chosen when none
      is named so. */
  lemma SelectedKeyMeaning(cv: ColumnValue, labels: Option<Entries<string>>)
    ensures var stored := StoredKey(cv.value);
            var key := SelectedKey(cv, labels);
            && (stored.Some? && stored.value != "" ==> key == stored)
            && (labels.None? ==> key == stored)
            && ((stored.None? || stored.value == "") && labels.Some? ==>
                  forall i :: 0 <= i < |labels.value| && cv.text == Some(labels.value[i].1)
                              && (forall j :: 0 <= j < i ==> cv.text != Some(labels.value[j].1))
                              ==> key == Some(labels.value[i].0))
            && (key != stored ==>
                  labels.Some? && (exists i :: 0 <= i < |labels.value| && key == Some(labels.value[i].0)
                                                && cv.text == Some(labels.value[i].1)
                                                && forall j :: 0 <= j < i ==> cv.text != Some(labels.value[j].1)))
            && (((stored.None? || stored.value == "") && labels.Some?
                 && (forall j :: 0 <= j < |labels.value| ==> cv.text != Some(labels.value[j].1))) ==> key == stored)
  {
    var stored := StoredKey(cv.value);
    if (stored.None? || stored.value == "") && labels.Some? {
      var f := FirstNamed(labels.value, cv.text);
      if f.Some? {
        assert SelectedKey(cv, labels) == Some(labels.value[f.value].0);
      }
      forall i | 0 <= i < |labels.value| && cv.text == Some(labels.value[i].1)
                 && (forall j :: 0 <= j < i ==> cv.text != Some(labels.value[j].1))
        ensures SelectedKey(cv, labels) == Some(labels.value[i].0)
      {
        assert f.Some?;
        assert f.value == i;
      }
    }
  }

  /** With distinct label keys, at most one option is marked selected. */
  lemma AtMostOneSelected(labels: Entries<string>, key: Option<string>)
    requires DistinctKeys(labels)
    ensures forall i, j ::
              (0 <= i < |labels| && 0 <= j < |labels| && key == Some(labels[i].0) && key == Some(labels[j].0)) ==> i == j
  {
    forall i, j | 0 <= i < |labels| && 0 <= j < |labels| && key == Some(labels[i].0) && key == Some(labels[j].0)
      ensures i == j
    {
      DistinctAt(labels, i, j);
    }
  }

  lemma {:induction false} DistinctAt(e: Entries<string>, i: nat, j: nat)
    requires DistinctKeys(e) && i < |e| && j < |e| && e[i].0 == e[j].0
    ensures i == j
  {
    if i > 0 && j > 0 {
      DistinctAt(e[1..], i - 1, j - 1);
    } else if i > 0 {
      KeyAt(e[1..], i - 1);
    } else if j > 0 {
      KeyAt(e[1..], j - 1);
    }
  }

  lemma {:induction false} KeyAt(e: Entries<string>, i: nat)
    requires i < |e|
    ensures e[i].0 in Keys(e)
  {
    if i > 0 {
      KeyAt(e[1..], i - 1);
    }
  }

  /** The status-key derivation of routes/view-routes.js:319-332, with its
      `for…of` over the label entries and `break`. */
  method SelectStatusKey(cv: ColumnValue, labels: Option<Entries<string>>) returns (key: Option<string>)
    ensures key == SelectedKey(cv, labels)
  {
    key := None;
    if TruthyJson(cv.value) && cv.value.JObject? {
      var parsed := cv.value;
      key := if !parsed.index.Absent? then Some(FieldString(parsed.index))
             else if TruthyField(parsed.id) then Some(FieldString(parsed.id))
             else None;
    }
    if (key.None? || key.value == "") && labels.Some? {
      var entries := labels.value;
      var i := 0;
      while i < |entries|
        invariant 0 <= i <= |entries|
        invariant forall j :: 0 <= j < i ==> cv.text != Some(entries[j].1)
        invariant key == StoredKey(cv.value)
      {
        if Some(entries[i].1) == cv.text {
          key := Some(entries[i].0);
          return;
        }
        i := i + 1;
      }
    }
  }

  // ---------------------------------------------------------------------
  // Rendering

  /** What the panel shows for a column's value. */
  datatype Control =
    | StatusSelect(options: Option<Entries<string>>, selected: Option<string>)
      // the "-- No Change --" option, then one option per label; `None` is "No labels defined"
    | StatusError(shown: string)   // the settings or labels could not be read
    | EmailInput(value: string)
    | DateInput(value: string)
    | TextInput(value: string)
    | ReadOnly(shown: string)

  /** One rendered column: its label, its control, and whether it has a Save button. */
  datatype Row = Row(columnId: string, title: string, colType: string, control: Control, saveButton: bool)

  const EditableTypes: seq<string> := ["text", "long-text", "numbers", "link"]

  const SavableTypes: seq<string> := ["status", "text", "long-text", "numbers", "link", "email", "date"]

  function TextOr(text: Option<string>, fallback: string): string {
    if TruthyText(text) then text.value else fallback
  }

  /** The control for a column of the given type and definition. */
  function ControlFor(cv: ColumnValue, def: Option<BoardColumn>, colType: string): (c: Control)
    ensures c.StatusSelect? || c.StatusError? ==> colType == "status" && def.Some?
    ensures c.EmailInput? ==> colType == "email" && c.value == CurrentValue(cv, colType)
    ensures c.DateInput? ==> colType == "date" && c.value == CurrentValue(cv, colType)
    ensures c.StatusSelect? ==> c.selected == SelectedKey(cv, c.options)
  {
    if colType == "status" && def.Some? && !def.value.settings.NoSettings? then
      match def.value.settings
      case SettingsThrew => StatusError(TextOr(cv.text, "<em>Error loading status</em>"))
      case SettingsObject(_, _) =>
        match LabelsOf(def.value.settings)
        case LabelsThrew => StatusError(TextOr(cv.text, "<em>Error loading status</em>"))
        case Labels(labels) => StatusSelect(labels, SelectedKey(cv, labels))
    else if colType == "email" then EmailInput(CurrentValue(cv, colType))
    else if colType == "date" then DateInput(CurrentValue(cv, colType))
    else if colType in EditableTypes then TextInput(TextOr(cv.text, ""))
    else ReadOnly(TextOr(cv.text, "<em>empty</em>"))
  }

  /** The row `renderItemDetails` emits for one shown column. */
  function RenderColumn(cv: ColumnValue, boardColumns: seq<BoardColumn>): (row: Row)
    ensures row.columnId == cv.id
    ensures row.saveButton <==> row.colType in SavableTypes
    ensures row.control.TextInput? || row.control.EmailInput? || row.control.DateInput? ==> row.saveButton
  {
    var def := FindDefinition(boardColumns, cv.id);
    var colType := ColumnType(cv, def);
    var title := if def.Some? then def.value.title else "ID " + cv.id;
    Row(cv.id, title, colType, ControlFor(cv, def, colType), colType in SavableTypes)
  }

  /** One row per column, in order. */
  function Rendered(shown: seq<ColumnValue>, boardColumns: seq<BoardColumn>): (rows: seq<Row>)
    ensures |rows| == |shown|
    ensures forall i :: 0 <= i < |shown| ==> rows[i] == RenderColumn(shown[i], boardColumns)
  {
    if shown == [] then []
    else Rendered(shown[..|shown| - 1], boardColumns) + [RenderColumn(shown[|shown| - 1], boardColumns)]
  }

  /** The `forEach` of routes/view-routes.js:289-360: one row per shown
      column, in the item's column order; no rows when the item has no
      column values. */
  method RenderColumns(cvs: seq<ColumnValue>, boardColumns: seq<BoardColumn>) returns (rows: seq<Row>)
    ensures rows == Rendered(ShownColumns(cvs), boardColumns)
  {
    rows := [];
    if |cvs| == 0 {
      return;
    }
    var shown := ShownColumns(cvs);
    for i := 0 to |shown|
      invariant rows == Rendered(shown[..i], boardColumns)
    {
      assert shown[..i + 1][..i] == shown[..i];
      rows := rows + [RenderColumn(shown[i], boardColumns)];
    }
    assert shown[..|shown|] == shown;
  }

  /** Every row belongs to a listed column of the item. */
  lemma RowsAreShownColumns(cvs: seq<ColumnValue>, boardColumns: seq<BoardColumn>, rows: seq<Row>)
    requires rows == Rendered(ShownColumns(cvs), boardColumns)
    ensures forall r :: r in rows ==> r.columnId in ColumnsToShow && exists cv :: cv in cvs && cv.id == r.columnId
  {
    var shown := ShownColumns(cvs);
    forall r | r in rows
      ensures r.columnId in ColumnsToShow && exists cv :: cv in cvs && cv.id == r.columnId
    {
      var i :| 0 <= i < |rows| && rows[i] == r;
      assert shown[i] in shown;
    }
  }

  /** Every listed column of the item gets a row. */
  lemma ShownColumnsHaveRows(cvs: seq<ColumnValue>, boardColumns: seq<BoardColumn>, rows: seq<Row>)
    requires rows == Rendered(ShownColumns(cvs), boardColumns)
    ensures forall cv :: cv in cvs && cv.id in ColumnsToShow ==> exists r :: r in rows && r.columnId == cv.id
  {
    var shown := ShownColumns(cvs);
    forall cv | cv in cvs && cv.id in ColumnsToShow
      ensures exists r :: r in rows && r.columnId == cv.id
    {
      var i :| 0 <= i < |shown| && shown[i] == cv;
      assert rows[i] == RenderColumn(cv, boardColumns);
      assert rows[i] in rows;
    }
  }
}
