/** The Save button of a column row in the panel script
    (routes/view-routes.js:405-434): the value read from the row's input is
    encoded for the API, then posted as `{boardId, column_values: {[id]: value}}`
    to the update route. */
module ColumnSave {
  import opened Seqs
  import opened Text
  import opened Json
  import opened Remote
  import opened JsObject
  import opened ItemUpdate
  import opened EmailLookup
  import opened ItemView

  /** What a click on Save does. */
  datatype SaveAction =
    | NoInput          // the row has no element to read: the handler throws before sending
    | NothingSelected  // a status select left at "-- No Change --": "No change selected."
    | Send(update: ColumnUpdate)

  const NothingSelectedMessage: string := "No change selected."

  /** `newValueForApi` for a column of type `columnType` whose input holds
      `input` (`None` when the page has no such element). A status key that
      `parseInt` reads as a number is sent as an index, any other as a label;
      an email is trimmed; an empty date clears the column. */
  function EncodeColumnEdit(columnType: string, input: Option<string>): (a: SaveAction)
    ensures a.NoInput? <==> input.None?
    ensures a.NothingSelected? <==> columnType == "status" && input == Some("")
    ensures a.Send? && columnType == "status" ==>
              (a.update.IndexValue? && ParseInt(input.value) == Some(a.update.index))
              || (a.update.LabelValue? && ParseInt(input.value).None? && a.update.key == input.value)
    ensures a.Send? && columnType == "date" ==> (a.update.EmptyObject? <==> input.value == "")
    ensures a.Send? && columnType == "email" ==>
              a.update.EmailValue? && a.update.email == a.update.text && Normalize(a.update.email) == Normalize(input.value)
    ensures a.Send? && columnType == "email" ==> a.update == EmailValue(Trim(input.value), Trim(input.value))
    ensures a.Send? && columnType == "date" && input.value != "" ==> a.update == DateValue(input.value)
    ensures input.Some? && columnType != "status" && columnType != "email" && columnType != "date" ==>
              a == Send(TextValue(input.value))
  {
    match input
    case None => NoInput
    case Some(v) =>
      if columnType == "status" then
        if v == "" then NothingSelected
        else
          match ParseInt(v)
          case Some(n) => Send(IndexValue(n))
          case None => Send(LabelValue(v))
      else if columnType == "email" then
        NormalizeOfTrim(v);
        Send(EmailValue(Trim(v), Trim(v)))
      else if columnType == "date" then
        Send(if v != "" then DateValue(v) else EmptyObject)
      else Send(TextValue(v))
  }

  /** The value a status select shows: the preselected key when it names an
      option, else the "-- No Change --" option's empty value. */
  function SelectValue(options: Option<Entries<string>>, selected: Option<string>): (v: string)
    ensures v == "" || (options.Some? && selected == Some(v) && v in Keys(options.value))
    ensures selected.Some? && options.Some? && selected.value in Keys(options.value) ==> v == selected.value
  {
    if selected.Some? && options.Some? && selected.value in Keys(options.value) then selected.value else ""
  }

  /** The value of the element Save reads for a row, as rendered: the select
      of a status column, the input of any other. */
  function InputOf(row: Row): (v: Option<string>)
    ensures v.Some? ==> row.control.StatusSelect? || row.control.EmailInput? || row.control.DateInput? || row.control.TextInput?
  {
    if row.colType == "status" then
      if row.control.StatusSelect? then Some(SelectValue(row.control.options, row.control.selected)) else None
    else
      match row.control
      case EmailInput(v) => Some(v)
      case DateInput(v) => Some(v)
      case TextInput(v) => Some(v)
      case _ => None
  }

  /** The body Save posts: `boardId` as a string, no `itemName`, and one column value. */
  function SaveRequest(boardId: string, columnId: string, update: ColumnUpdate): (req: UpdateRequest)
    ensures !NameRequested(req) && ColumnsRequested(req)
  {
    UpdateRequest(Str(boardId), Absent, Some([(columnId, update)]))
  }

  /** A status key written by `String(n)`, as a stored index is, is sent back
      as that same index. */
  lemma StatusKeyRoundTrip(n: int)
    ensures EncodeColumnEdit("status", Some(IntToString(n))) == Send(IndexValue(n))
  {
    ParseIntOfIntToString(n);
  }

  /** A label key that is an array index (as `labelsArray` ids are) is sent
      as the index it names. */
  lemma IndexKeySentAsIndex(k: string)
    requires IsArrayIndex(k)
    ensures EncodeColumnEdit("status", Some(k)) == Send(IndexValue(DigitsValue(k)))
  {
    CanonicalIsNatToString(k);
    StatusKeyRoundTrip(DigitsValue(k));
  }

  /** Saving a status row whose select was left as rendered without a
      preselected option sends nothing and says "No change selected.". */
  lemma UnselectedStatusSendsNothing(cv: ColumnValue, boardColumns: seq<BoardColumn>)
    requires var row := RenderColumn(cv, boardColumns);
             row.colType == "status" && row.control.StatusSelect?
             && (row.control.selected.None? || row.control.options.None?
                 || row.control.selected.value !in Keys(row.control.options.value))
    ensures EncodeColumnEdit("status", InputOf(RenderColumn(cv, boardColumns))) == NothingSelected
  {
  }

  /** A row shows a Save button with nothing for it to read exactly when it
      is a status column rendered without a select: its settings are
      missing, unreadable, or the column is not on the board. */
  lemma SaveButtonWithoutInput(cv: ColumnValue, boardColumns: seq<BoardColumn>)
    ensures var row := RenderColumn(cv, boardColumns);
            (row.saveButton && InputOf(row).None?) <==> row.colType == "status" && !row.control.StatusSelect?
  {
    var row := RenderColumn(cv, boardColumns);
    if row.colType != "status" && row.saveButton {
      assert row.colType in SavableTypes;
      assert row.colType == "email" || row.colType == "date" || row.colType in EditableTypes;
    }
  }

  /** Saving an email or date row as rendered sends the value the column
      already holds: the email trimmed, the date as is, an empty date as `{}`. */
  lemma UneditedSaveKeepsValue(cv: ColumnValue, boardColumns: seq<BoardColumn>)
    ensures var row := RenderColumn(cv, boardColumns);
            var v := CurrentValue(cv, row.colType);
            && (row.colType == "email" ==> EncodeColumnEdit("email", InputOf(row)) == Send(EmailValue(Trim(v), Trim(v))))
            && (row.colType == "date" ==>
                  EncodeColumnEdit("date", InputOf(row)) == Send(if v == "" then EmptyObject else DateValue(v)))
  {
  }

  /** A column save sends exactly one mutation, the column change carrying
      the one value, and never a rename; it succeeds exactly when that call
      confirms an item. Without a board id nothing is sent. */
  lemma SaveSendsOneChange(itemId: string, boardId: string, columnId: string, update: ColumnUpdate,
                           nameResult: MutationResult, columnsResult: MutationResult)
    ensures var o := Outcome(itemId, SaveRequest(boardId, columnId, update), nameResult, columnsResult);
            && (o.0 == MissingBoardId <==> boardId == "")
            && (boardId != "" ==> o.1 == [ChangeColumns(ParseInt(itemId), ParseInt(boardId), [(columnId, update)])])
            && (o.0.Updated? <==> boardId != "" && columnsResult.MutationAnswered? && columnsResult.confirmed.Some?)
            && (o.0.Updated? ==> o.0.item == columnsResult.confirmed.value)
  {
  }

  /** Once an email save is stored as the column's text, a lookup by any
      query that normalises like the typed address finds the item's column. */
  lemma SavedEmailIsFound(typed: string, query: Option<string>, item: EmailItem, c: ColumnValue)
    requires EncodeColumnEdit("email", Some(typed)).Send?
    requires EmailColumn(item.columns) == Some(c) && c.text == Some(EncodeColumnEdit("email", Some(typed)).update.text)
    requires TargetEmail(query).Some? && Normalize(query.value) == Normalize(typed)
    ensures ItemMatches(item, TargetEmail(query).value)
  {
    NormalizeOfTrim(typed);
  }
}
