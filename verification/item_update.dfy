/** `POST /api/update-item-details/:itemId` (routes/api-routes.js:134-229):
    rename the item and change its column values, each by its own mutation,
    then classify what the board confirmed.

    The GraphQL client is an oracle: `nameResult` is what the rename call
    returns and `columnsResult` what the column call returns, when made. */
module ItemUpdate {
  import opened Seqs
  import opened Text
  import opened Json
  import opened Remote

  /** One column's new value as the panel sends it. */
  datatype ColumnUpdate =
    | IndexValue(index: int)                 // `{index: n}`: a status label by its index
    | LabelValue(key: string)                // `{label: key}`: a status label by its text
    | EmailValue(email: string, text: string) // `{email, text}`
    | DateValue(date: string)                // `{date}`
    | EmptyObject                            // `{}`: clears a date
    | TextValue(s: string)                   // a bare string

  /** The request body: `boardId`, `itemName` and `column_values`, the last
      as the object's entries in key order, `None` when it is missing or falsy. */
  datatype UpdateRequest = UpdateRequest(boardId: Field, itemName: Field, columnValues: Option<seq<(string, ColumnUpdate)>>)

  /** The mutations the route can send. */
  datatype Mutation =
    | RenameItem(itemId: string, boardId: string, name: Field)
    | ChangeColumns(itemNumber: Option<int>, boardNumber: Option<int>, values: seq<(string, ColumnUpdate)>)

  /** What a mutation call gives back: a thrown error, or a response whose
      `data.<mutation>` item is there or not. */
  datatype MutationResult = MutationThrew(message: string) | MutationAnswered(confirmed: Option<BoardItem>)

  /** The route's replies. */
  datatype UpdateResponse =
    | Updated(item: BoardItem) // 200 `{success, message, updatedItem}`
    | NoChangesRequested       // 200 `{success, message: 'No changes were requested.'}`
    | MissingBoardId           // 400, nothing sent
    | Unconfirmed              // 500: sent, but nothing was confirmed
    | UpdateFailed(error: string) // 500: a call threw

  const UpdateErrorPrefix: string := "Server error while updating item details: "

  function StatusCode(r: UpdateResponse): (code: nat)
    ensures code == 200 <==> r.Updated? || r.NoChangesRequested?
  {
    match r
    case Updated(_) => 200
    case NoChangesRequested => 200
    case MissingBoardId => 400
    case Unconfirmed => 500
    case UpdateFailed(_) => 500
  }

  /** `itemName !== undefined && itemName !== null`. */
  predicate NameRequested(req: UpdateRequest) {
    !req.itemName.Absent? && !req.itemName.Null?
  }

  /** `updatedColumnValues && Object.keys(updatedColumnValues).length > 0`. */
  predicate ColumnsRequested(req: UpdateRequest) {
    req.columnValues.Some? && |req.columnValues.value| > 0
  }

  /** The rename, with `String(itemId)` and `String(boardId)`. */
  function RenameOf(itemId: string, req: UpdateRequest): Mutation {
    RenameItem(itemId, FieldString(req.boardId), req.itemName)
  }

  /** The column change, with both ids read by `parseInt(_, 10)`
      (`None` for `NaN`). */
  function ChangeOf(itemId: string, req: UpdateRequest): Mutation
    requires req.columnValues.Some?
  {
    ChangeColumns(ParseInt(itemId), ParseInt(FieldString(req.boardId)), req.columnValues.value)
  }

  /** The rename's outcome matters only when the rename was sent. */
  predicate NameThrew(req: UpdateRequest, nameResult: MutationResult) {
    NameRequested(req) && nameResult.MutationThrew?
  }

  /** The column change is sent when requested, unless the rename before it threw. */
  predicate ColumnsSent(req: UpdateRequest, nameResult: MutationResult) {
    ColumnsRequested(req) && !NameThrew(req, nameResult)
  }

  /** The item a sent mutation confirmed, if it did. */
  function Confirmed(sent: bool, result: MutationResult): Option<BoardItem> {
    if sent && result.MutationAnswered? then result.confirmed else None
  }

  /** The route's decision table: the mutations sent, in order, and the
      reply. A thrown call ends the request with what was sent so far; the
      column change's confirmation wins over the rename's. */
  function Outcome(itemId: string, req: UpdateRequest, nameResult: MutationResult, columnsResult: MutationResult)
    : (o: (UpdateResponse, seq<Mutation>))
    ensures o.0.MissingBoardId? <==> !TruthyField(req.boardId)
    ensures o.0.MissingBoardId? ==> o.1 == []
    ensures |o.1| <= 2
  {
    if !TruthyField(req.boardId) then (MissingBoardId, [])
    else
      var rename := if NameRequested(req) then [RenameOf(itemId, req)] else [];
      if NameThrew(req, nameResult) then (UpdateFailed(UpdateErrorPrefix + nameResult.message), rename)
      else
        var sent := rename + if ColumnsRequested(req) then [ChangeOf(itemId, req)] else [];
        if ColumnsRequested(req) && columnsResult.MutationThrew? then
          (UpdateFailed(UpdateErrorPrefix + columnsResult.message), sent)
        else
          match Confirmed(ColumnsRequested(req), columnsResult)
          case Some(item) => (Updated(item), sent)
          case None =>
            match Confirmed(NameRequested(req), nameResult)
            case Some(item) => (Updated(item), sent)
            case None => (if NameRequested(req) || ColumnsRequested(req) then Unconfirmed else NoChangesRequested, sent)
  }

  /** The route handler (routes/api-routes.js:134-229), with its
      `itemUpdated` and `lastUpdateData` flags. */
  method UpdateItemDetails(itemId: string, req: UpdateRequest, nameResult: MutationResult, columnsResult: MutationResult)
    returns (resp: UpdateResponse, sent: seq<Mutation>)
    ensures (resp, sent) == Outcome(itemId, req, nameResult, columnsResult)
  {
    if !TruthyField(req.boardId) {
      return MissingBoardId, [];
    }
    sent := [];
    var itemUpdated := false;
    var lastUpdateData: Option<BoardItem> := None;
    if NameRequested(req) {
      sent := sent + [RenameOf(itemId, req)];
      assert sent == [RenameOf(itemId, req)];
      if nameResult.MutationThrew? {
        return UpdateFailed(UpdateErrorPrefix + nameResult.message), sent;
      }
      if nameResult.confirmed.Some? {
        itemUpdated := true;
        lastUpdateData := nameResult.confirmed;
      }
    }
    if ColumnsRequested(req) {
      sent := sent + [ChangeOf(itemId, req)];
      if columnsResult.MutationThrew? {
        return UpdateFailed(UpdateErrorPrefix + columnsResult.message), sent;
      }
      if columnsResult.confirmed.Some? {
        itemUpdated := true;
        lastUpdateData := columnsResult.confirmed;
      }
    }
    assert sent == (if NameRequested(req) then [RenameOf(itemId, req)] else [])
                   + (if ColumnsRequested(req) then [ChangeOf(itemId, req)] else []);
    if itemUpdated {
      resp := Updated(lastUpdateData.value);
    } else if !NameRequested(req) && !ColumnsRequested(req) {
      resp := NoChangesRequested;
    } else {
      resp := Unconfirmed;
    }
  }

  /** The rename is sent exactly when a name is given, the column change
      exactly when `column_values` has a key and the rename did not throw,
      and the rename goes first. */
  lemma MutationsSent(itemId: string, req: UpdateRequest, nameResult: MutationResult, columnsResult: MutationResult)
    ensures var sent := Outcome(itemId, req, nameResult, columnsResult).1;
            && ((exists i :: 0 <= i < |sent| && sent[i].RenameItem?) <==> TruthyField(req.boardId) && NameRequested(req))
            && ((exists i :: 0 <= i < |sent| && sent[i].ChangeColumns?) <==>
                  TruthyField(req.boardId) && ColumnsSent(req, nameResult))
            && (forall i, j :: 0 <= i < |sent| && 0 <= j < |sent| && sent[i].RenameItem? && sent[j].ChangeColumns? ==> i < j)
  {
    var sent := Outcome(itemId, req, nameResult, columnsResult).1;
    if TruthyField(req.boardId) {
      var rename := if NameRequested(req) then [RenameOf(itemId, req)] else [];
      var change := if ColumnsSent(req, nameResult) then [ChangeOf(itemId, req)] else [];
      assert sent == rename + change;
      SentShape(rename, change);
    }
  }

  /** At most one rename followed by at most one column change. */
  lemma SentShape(rename: seq<Mutation>, change: seq<Mutation>)
    requires |rename| <= 1 && forall i :: 0 <= i < |rename| ==> rename[i].RenameItem?
    requires |change| <= 1 && forall i :: 0 <= i < |change| ==> change[i].ChangeColumns?
    ensures var sent := rename + change;
            && ((exists i :: 0 <= i < |sent| && sent[i].RenameItem?) <==> rename != [])
            && ((exists i :: 0 <= i < |sent| && sent[i].ChangeColumns?) <==> change != [])
            && (forall i, j :: 0 <= i < |sent| && 0 <= j < |sent| && sent[i].RenameItem? && sent[j].ChangeColumns? ==> i < j)
  {
    var sent := rename + change;
    if rename != [] {
      assert sent[0].RenameItem?;
    }
    if change != [] {
      assert sent[|sent| - 1].ChangeColumns?;
    }
  }

  /** "No changes were requested." is the reply exactly when neither a name
      nor a column value was asked for, and then nothing is sent. */
  lemma NoChangesExactly(itemId: string, req: UpdateRequest, nameResult: MutationResult, columnsResult: MutationResult)
    ensures var o := Outcome(itemId, req, nameResult, columnsResult);
            && (o.0 == NoChangesRequested <==> TruthyField(req.boardId) && !NameRequested(req) && !ColumnsRequested(req))
            && (o.0 == NoChangesRequested ==> o.1 == [])
  {
  }

  /** Success means no sent call threw and one confirmed; the item returned
      is the column change's confirmation when there is one, else the rename's. */
  lemma SuccessIsLastConfirmation(itemId: string, req: UpdateRequest, nameResult: MutationResult, columnsResult: MutationResult)
    ensures var o := Outcome(itemId, req, nameResult, columnsResult);
            var fromColumns := Confirmed(ColumnsSent(req, nameResult), columnsResult);
            var fromName := Confirmed(NameRequested(req), nameResult);
            && (o.0.Updated? <==>
                  TruthyField(req.boardId) && !NameThrew(req, nameResult)
                  && !(ColumnsSent(req, nameResult) && columnsResult.MutationThrew?)
                  && (fromColumns.Some? || fromName.Some?))
            && (o.0.Updated? ==> o.0.item == if fromColumns.Some? then fromColumns.value else fromName.value)
  {
  }

  /** A 500 is the reply exactly when something was asked for and either a
      sent call threw or no sent call was confirmed. */
  lemma ServerErrorExactly(itemId: string, req: UpdateRequest, nameResult: MutationResult, columnsResult: MutationResult)
    ensures var o := Outcome(itemId, req, nameResult, columnsResult);
            StatusCode(o.0) == 500 <==>
              TruthyField(req.boardId) && (NameRequested(req) || ColumnsRequested(req))
              && (NameThrew(req, nameResult) || (ColumnsSent(req, nameResult) && columnsResult.MutationThrew?)
                  || (Confirmed(ColumnsSent(req, nameResult), columnsResult).None?
                      && Confirmed(NameRequested(req), nameResult).None?))
  {
  }
}
