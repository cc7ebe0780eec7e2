/** `GET /api/find-item-by-email?email=` (routes/api-routes.js:232-357): walk
    every page of the target board, projecting the tenant email column, then
    return `{id, name}` of the first item whose column holds the address. */
module EmailLookup {
  import opened Seqs
  import opened Text
  import opened Json
  import opened Remote

  /** The board the lookup searches. */
  const TargetBoardId: string := "273895529"

  /** The id of the tenant email column. */
  const EmailColumnId: string := "email"

  const MissingEmailError: string := "Email query parameter is required."

  const SearchErrorPrefix: string := "Server error while searching for item by email: "

  /** An item with the projected `column_values`. */
  datatype EmailItem = EmailItem(id: string, name: string, columns: seq<ColumnValue>)

  /** The address searched for: the query lower-cased and trimmed, or `None`
      when the query is missing, empty or blank. */
  function TargetEmail(query: Option<string>): (t: Option<string>)
    ensures t.Some? <==> TruthyText(query) && Normalize(query.value) != ""
    ensures t.Some? ==> t.value != ""
  {
    if TruthyText(query) && Normalize(query.value) != "" then
      Some(Normalize(query.value))
    else None
  }

  /** The candidate address of the column's `text`: null when `text` is falsy. */
  function TextCandidate(text: Option<string>): (c: Option<string>)
    ensures c.Some? <==> TruthyText(text)
  {
    if TruthyText(text) then
      Some(Normalize(text.value))
    else None
  }

  /** The candidate address derived from the column's JSON `value`
      (routes/api-routes.js:324-333): the object's truthy `email` for an email
      or integration column, else a JSON string itself. A non-string `email`
      makes `toLowerCase` throw, which the route swallows, as it does parse
      errors. */
  function ValueCandidate(colType: string, v: ColumnJson): (c: Option<string>)
    ensures c.Some? <==> (v.JString? || (v.JObject? && v.email.Str? && v.email.s != ""
                                         && (colType == "email" || colType == "integration")))
  {
    match v
    case JObject(email, _, _, _) =>
      if TruthyField(email) && (colType == "email" || colType == "integration") then
        if email.Str? then
          Some(Normalize(email.s))
        else None
      else None
    case JString(s) =>
      Some(Normalize(s))
    case _ => None
  }

  /** The target is in normal form, so a lookup ignores the case of the
      query and white space around it. */
  lemma TargetIsNormal(query: Option<string>)
    ensures TargetEmail(query).Some? ==> Normalize(TargetEmail(query).value) == TargetEmail(query).value
  {
    if TargetEmail(query).Some? {
      NormalizeIdempotent(query.value);
    }
  }

  /** A candidate from a column's `text` is in normal form. */
  lemma TextCandidateIsNormal(text: Option<string>)
    ensures TextCandidate(text).Some? ==> Normalize(TextCandidate(text).value) == TextCandidate(text).value
  {
    if TextCandidate(text).Some? {
      NormalizeIdempotent(text.value);
    }
  }

  /** A candidate from a column's `value` is in normal form. */
  lemma ValueCandidateIsNormal(colType: string, v: ColumnJson)
    ensures ValueCandidate(colType, v).Some? ==>
              Normalize(ValueCandidate(colType, v).value) == ValueCandidate(colType, v).value
  {
    var c := ValueCandidate(colType, v);
    if c.Some? {
      var s := if v.JString? then v.s else v.email.s;
      assert c == Some(Normalize(s));
      NormalizeIdempotent(s);
    }
  }

  /** `columns[i]` is the first column with the email column's id. */
  predicate FirstEmailAt(columns: seq<ColumnValue>, i: int) {
    0 <= i < |columns| && columns[i].id == EmailColumnId
    && forall j :: 0 <= j < i ==> columns[j].id != EmailColumnId
  }

  /** `item.column_values.find(cv => cv.id === TENANT_EMAIL_COLUMN_ID)`: the
      first column with that id, `None` when there is none. */
  function EmailColumn(columns: seq<ColumnValue>): (c: Option<ColumnValue>)
    ensures c.Some? ==> exists i :: FirstEmailAt(columns, i) && columns[i] == c.value
    ensures c.None? <==> forall j :: 0 <= j < |columns| ==> columns[j].id != EmailColumnId
  {
    if columns == [] then None
    else if columns[0].id == EmailColumnId then
      assert FirstEmailAt(columns, 0);
      Some(columns[0])
    else
      EmailColumnShift(columns);
      EmailColumn(columns[1..])
  }

  /** Past a first column without the id, the first email column of the
      rest is the first of the whole. */
  lemma EmailColumnShift(columns: seq<ColumnValue>)
    requires columns != [] && columns[0].id != EmailColumnId
    ensures forall i :: FirstEmailAt(columns[1..], i) ==> FirstEmailAt(columns, i + 1) && columns[i + 1] == columns[1..][i]
    ensures (forall j :: 0 <= j < |columns[1..]| ==> columns[1..][j].id != EmailColumnId)
            ==> forall j :: 0 <= j < |columns| ==> columns[j].id != EmailColumnId
  {
    forall i | FirstEmailAt(columns[1..], i)
      ensures FirstEmailAt(columns, i + 1) && columns[i + 1] == columns[1..][i]
    {
      forall j | 0 <= j < i + 1 ensures columns[j].id != EmailColumnId {
        if j > 0 {
          assert columns[j] == columns[1..][j - 1];
        }
      }
    }
    if forall j :: 0 <= j < |columns[1..]| ==> columns[1..][j].id != EmailColumnId {
      forall j | 0 < j < |columns| ensures columns[j].id != EmailColumnId {
        assert columns[j] == columns[1..][j - 1];
      }
    }
  }

  /** The item's email column yields the target from its `text` or from its `value`. */
  predicate ItemMatches(item: EmailItem, target: string) {
    match EmailColumn(item.columns)
    case None => false
    case Some(c) => TextCandidate(c.text) == Some(target) || ValueCandidate(c.colType, c.value) == Some(target)
  }

  /** An item matches exactly when its first `email` column's text normalises
      to the target, or its JSON value is a string that does, or an object
      whose non-empty string `email` does in an email or integration column.
      A value that is missing, does not parse or is no string or object
      leaves the text alone to decide. */
  lemma ItemMatchesMeaning(item: EmailItem, target: string)
    ensures var c := EmailColumn(item.columns);
            && (c.None? ==> !ItemMatches(item, target))
            && (c.Some? ==>
                  (ItemMatches(item, target) <==>
                     (TruthyText(c.value.text) && Normalize(c.value.text.value) == target)
                     || (c.value.value.JString? && Normalize(c.value.value.s) == target)
                     || (c.value.value.JObject? && c.value.value.email.Str? && c.value.value.email.s != ""
                         && (c.value.colType == "email" || c.value.colType == "integration")
                         && Normalize(c.value.value.email.s) == target)))
            && (c.Some? && (c.value.value.NoValue? || c.value.value.Unparseable? || c.value.value.JScalar?) ==>
                  (ItemMatches(item, target) <==> TruthyText(c.value.text) && Normalize(c.value.text.value) == target))
  {
  }

  /** `found` is `{id, name}` of the first matching item, or `None` when no item matches. */
  predicate IsFirstMatch(items: seq<EmailItem>, target: string, found: Option<BoardItem>) {
    if found.None? then forall j :: 0 <= j < |items| ==> !ItemMatches(items[j], target)
    else exists i :: 0 <= i < |items| && FirstMatchAt(items, target, i)
                     && found.value == BoardItem(items[i].id, items[i].name)
  }

  /** Item `i` matches and no item before it does. */
  predicate FirstMatchAt(items: seq<EmailItem>, target: string, i: nat)
    requires i < |items|
  {
    ItemMatches(items[i], target) && forall j :: 0 <= j < i ==> !ItemMatches(items[j], target)
  }

  lemma FirstMatchAtIsFirstMatch(items: seq<EmailItem>, target: string, i: nat)
    requires i < |items| && FirstMatchAt(items, target, i)
    ensures IsFirstMatch(items, target, Some(BoardItem(items[i].id, items[i].name)))
  {
  }

  /** At most one item is the first match. */
  lemma FirstMatchUnique(items: seq<EmailItem>, target: string, a: Option<BoardItem>, b: Option<BoardItem>)
    requires IsFirstMatch(items, target, a) && IsFirstMatch(items, target, b)
    ensures a == b
  {
    if a.Some? && b.Some? {
      var i :| 0 <= i < |items| && FirstMatchAt(items, target, i) && a.value == BoardItem(items[i].id, items[i].name);
      var k :| 0 <= k < |items| && FirstMatchAt(items, target, k) && b.value == BoardItem(items[k].id, items[k].name);
      FirstMatchAtUnique(items, target, i, k);
    }
  }

  lemma FirstMatchAtUnique(items: seq<EmailItem>, target: string, i: nat, k: nat)
    requires i < |items| && k < |items|
    requires FirstMatchAt(items, target, i) && FirstMatchAt(items, target, k)
    ensures i == k
  {
  }

  /** How the walk over the board's pages ends. */
  datatype EmailWalk = Collected(items: seq<EmailItem>, calls: nat) | Failed(message: string, calls: nat)

  /** Every page's items up to the call that ends the walk; a page without
      data ends the walk silently; a thrown call fails the whole lookup. */
  function WalkEmailPages(remote: seq<Fetch<EmailItem>>): (w: EmailWalk)
    requires Ends(remote)
    ensures w.calls == StopIndex(remote) + 1
  {
    var n := StopIndex(remote);
    match remote[n]
    case Threw(m) => Failed(m, n + 1)
    case Answered(_) => Collected(ItemsOf(remote, n + 1), n + 1)
  }

  /** The do/while loop of routes/api-routes.js:246-311. */
  method FetchEmailPages(remote: seq<Fetch<EmailItem>>) returns (w: EmailWalk, sent: seq<Option<string>>)
    requires Ends(remote)
    ensures w == WalkEmailPages(remote)
    ensures |sent| == w.calls && SentCursors(remote, sent)
  {
    var items: seq<EmailItem> := [];
    var cursor: Option<string> := None;
    var k := 0;
    sent := [];
    ghost var n := StopIndex(remote);
    while true
      invariant k <= n
      invariant |sent| == k && SentCursors(remote, sent)
      invariant items == ItemsOf(remote, k)
      invariant cursor == if k == 0 then None else NextCursor(remote[k - 1])
      decreases n - k
    {
      StopAt(remote, k);
      SentCursorsStep(remote, sent, cursor);
      sent := sent + [cursor];
      var f := remote[k];
      if f.Threw? {
        w := Failed(f.message, k + 1);
        return;
      }
      items, cursor := ReadPage(f, items);
      k := k + 1;
      if !TruthyText(cursor) {
        break;
      }
    }
    w := Collected(items, k);
  }

  /** The body of the loop for a call that answered (routes/api-routes.js:295-305):
      add the page's items and take its cursor; a page without board, page
      or items ends the walk. */
  method ReadPage(f: Fetch<EmailItem>, items: seq<EmailItem>) returns (items': seq<EmailItem>, cursor: Option<string>)
    requires f.Answered?
    ensures items' == items + PageItems(f)
    ensures cursor == NextCursor(f)
  {
    var board := f.response.board;
    if board.Some? && board.value.itemsPage.Some? && board.value.itemsPage.value.items.Some? {
      items' := items + board.value.itemsPage.value.items.value;
      cursor := board.value.itemsPage.value.cursor;
    } else {
      items' := items;
      cursor := None;
    }
  }

  /** The scan of routes/api-routes.js:315-344: the first item, in fetch
      order, whose email column yields the target. */
  method FirstMatch(items: seq<EmailItem>, target: string) returns (found: Option<BoardItem>)
    ensures IsFirstMatch(items, target, found)
  {
    var i := 0;
    while i < |items|
      invariant 0 <= i <= |items|
      invariant forall j :: 0 <= j < i ==> !ItemMatches(items[j], target)
    {
      var matched := YieldsTarget(items[i], target);
      if matched {
        FirstMatchAtIsFirstMatch(items, target, i);
        return Some(BoardItem(items[i].id, items[i].name));
      }
      NoMatchStep(items, target, i);
      i := i + 1;
    }
    return None;
  }

  /** One more item scanned without a match. */
  lemma NoMatchStep(items: seq<EmailItem>, target: string, i: nat)
    requires i < |items| && !ItemMatches(items[i], target)
    requires forall j :: 0 <= j < i ==> !ItemMatches(items[j], target)
    ensures forall j :: 0 <= j < i + 1 ==> !ItemMatches(items[j], target)
  {
  }

  /** One item of the scan (routes/api-routes.js:318-337): find the email
      column, derive the candidates from its `text` and its `value`, and
      compare each with the target. */
  method YieldsTarget(item: EmailItem, target: string) returns (matched: bool)
    ensures matched <==> ItemMatches(item, target)
  {
    if |item.columns| == 0 {
      return false;
    }
    var column := EmailColumn(item.columns);
    if column.None? {
      return false;
    }
    var c := column.value;
    var fromText := TextCandidate(c.text);
    var fromValue := ValueCandidate(c.colType, c.value);
    matched := fromText == Some(target) || fromValue == Some(target);
  }

  /** The route's replies. */
  datatype EmailReply =
    | MissingEmail               // 400, no call made
    | Found(item: BoardItem)     // 200 `{item}`
    | NoMatch(message: string)   // 200 `{item: null, message}`
    | SearchFailed(error: string) // 500

  function NoMatchMessage(target: string): string {
    "No item found for " + target + "."
  }

  /** The route handler: a missing or blank address is refused before any
      call; otherwise every page is fetched, then the items are scanned. */
  method FindItemByEmail(query: Option<string>, remote: seq<Fetch<EmailItem>>)
    returns (reply: EmailReply, sent: seq<Option<string>>)
    requires TargetEmail(query).Some? ==> Ends(remote)
    ensures TargetEmail(query).None? ==> reply == MissingEmail && sent == []
    ensures TargetEmail(query).Some? ==>
              var target := TargetEmail(query).value;
              var w := WalkEmailPages(remote);
              && |sent| == w.calls && SentCursors(remote, sent)
              && (w.Failed? ==> reply == SearchFailed(SearchErrorPrefix + w.message))
              && (w.Collected? ==> (reply.Found? || reply == NoMatch(NoMatchMessage(target))))
              && (w.Collected? ==> IsFirstMatch(w.items, target, if reply.Found? then Some(reply.item) else None))
  {
    var emailToFind := if TruthyText(query) then Some(Normalize(query.value)) else None;
    if emailToFind.None? || emailToFind.value == "" {
      reply := MissingEmail;
      sent := [];
      return;
    }
    var target := emailToFind.value;
    var w;
    w, sent := FetchEmailPages(remote);
    if w.Failed? {
      reply := SearchFailed(SearchErrorPrefix + w.message);
      return;
    }
    var found := FirstMatch(w.items, target);
    if found.Some? {
      reply := Found(found.value);
    } else {
      reply := NoMatch(NoMatchMessage(target));
    }
  }
}
