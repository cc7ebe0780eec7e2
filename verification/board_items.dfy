/** `GET /api/get-items-for-board/:boardId` (routes/api-routes.js:8-85): list
    every item of a board by following the `items_page` cursors, and keep the
    result for five minutes in a process-wide cache keyed `board_<id>`.

    The clock is injected: `now` is the reading taken at the cache check and
    `finishedAt` the one taken when the walk has completed. */
module BoardItems {
  import opened Seqs
  import opened Json
  import opened Remote

  /** Five minutes, in milliseconds. */
  const CacheDuration: int := 5 * 60 * 1000

  /** The board name reported when no page names the board. */
  const NoBoardName: string := "N/A"

  const BoardMissingMessage: string := "Board not found or no data returned."

  const FetchErrorPrefix: string := "Server error while fetching items for board "

  function CacheKey(boardId: string): string {
    "board_" + boardId
  }

  /** Distinct boards never share a cache entry. */
  lemma CacheKeyInjective(a: string, b: string)
    ensures CacheKey(a) == CacheKey(b) ==> a == b
  {
    if CacheKey(a) == CacheKey(b) {
      assert a == CacheKey(a)[6..];
      assert b == CacheKey(b)[6..];
    }
  }

  /** What the cache holds for a board: the listing and when it was stored. */
  datatype CacheEntry = CacheEntry(items: seq<BoardItem>, boardName: string, timestamp: int)

  /** `cached && (Date.now() - cached.timestamp < CACHE_DURATION)`. */
  predicate Hit(entries: map<string, CacheEntry>, key: string, now: int): (h: bool)
    ensures h <==> key in entries && now < entries[key].timestamp + CacheDuration
  {
    key in entries && now - entries[key].timestamp < CacheDuration
  }

  /** The board's name as a call reports it, when it is truthy. */
  function ReportedName(f: Fetch<BoardItem>): (r: Option<string>)
    ensures r.Some? ==> r.value != ""
  {
    if f.Answered? && f.response.board.Some? && TruthyText(f.response.board.value.name)
    then f.response.board.value.name
    else None
  }

  /** The first reported name other than "N/A", or "N/A". */
  function FirstName(calls: seq<Fetch<BoardItem>>): string {
    if calls == [] then NoBoardName
    else match ReportedName(calls[0])
      case Some(n) => if n != NoBoardName then n else FirstName(calls[1..])
      case None => FirstName(calls[1..])
  }

  /** The loop's update `if (boardData.name && boardName === 'N/A') boardName = boardData.name`
      computes `FirstName` one page at a time. */
  lemma {:induction false} FirstNameStep(calls: seq<Fetch<BoardItem>>, f: Fetch<BoardItem>)
    ensures FirstName(calls + [f])
            == if FirstName(calls) == NoBoardName && ReportedName(f).Some? then ReportedName(f).value
               else FirstName(calls)
  {
    if calls == [] {
      assert FirstName([f][1..]) == NoBoardName;
    } else {
      assert (calls + [f])[0] == calls[0];
      assert (calls + [f])[1..] == calls[1..] + [f];
      FirstNameStep(calls[1..], f);
    }
  }

  /** The listed name is "N/A" exactly when no call names the board otherwise,
      and else it is the name of the first call that does. */
  lemma {:induction false} FirstNameIsFirst(calls: seq<Fetch<BoardItem>>)
    ensures FirstName(calls) == NoBoardName <==>
            forall j :: 0 <= j < |calls| ==> ReportedName(calls[j]) in {None, Some(NoBoardName)}
    ensures FirstName(calls) != NoBoardName ==>
            exists j :: 0 <= j < |calls| && ReportedName(calls[j]) == Some(FirstName(calls))
                        && forall i :: 0 <= i < j ==> ReportedName(calls[i]) in {None, Some(NoBoardName)}
  {
    if calls != [] {
      FirstNameIsFirst(calls[1..]);
      var r := ReportedName(calls[0]);
      if r.Some? && r.value != NoBoardName {
        assert ReportedName(calls[0]) == Some(FirstName(calls));
      } else {
        assert forall j :: 0 < j < |calls| ==> calls[j] == calls[1..][j - 1];
        if FirstName(calls) != NoBoardName {
          var j :| 0 <= j < |calls[1..]| && ReportedName(calls[1..][j]) == Some(FirstName(calls))
                   && forall i :: 0 <= i < j ==> ReportedName(calls[1..][i]) in {None, Some(NoBoardName)};
          assert ReportedName(calls[j + 1]) == Some(FirstName(calls));
          assert forall i :: 0 <= i < j + 1 ==> ReportedName(calls[i]) in {None, Some(NoBoardName)} by {
            forall i | 0 <= i < j + 1 ensures ReportedName(calls[i]) in {None, Some(NoBoardName)} {
              if i > 0 {
                assert calls[i] == calls[1..][i - 1];
              }
            }
          }
        }
      }
    }
  }

  /** How a walk over the remote ends. */
  datatype BoardWalk =
    | Complete(items: seq<BoardItem>, boardName: string, calls: nat)
    | NoBoard(error: string, calls: nat)
    | FetchFailed(boardName: string, message: string, calls: nat)

  /** The error a response without board data reports. */
  function MissingBoardError(r: Response<BoardItem>): string {
    match r.firstError
    case Some(m) => m
    case None => BoardMissingMessage
  }

  /** The name the first `k` calls of a walk have settled on, as the loop
      computes it: a call's truthy name replaces "N/A" and nothing else. */
  function NameOf(remote: seq<Fetch<BoardItem>>, k: nat): string
    requires k <= |remote|
  {
    if k == 0 then NoBoardName
    else
      var before := NameOf(remote, k - 1);
      var r := ReportedName(remote[k - 1]);
      if before == NoBoardName && r.Some? then r.value else before
  }

  /** The loop's name is the first name other than "N/A" that a call reports. */
  lemma {:induction false} NameOfFirst(remote: seq<Fetch<BoardItem>>, k: nat)
    requires k <= |remote|
    ensures NameOf(remote, k) == FirstName(remote[..k])
  {
    if k > 0 {
      NameOfFirst(remote, k - 1);
      assert remote[..k] == remote[..k - 1] + [remote[k - 1]];
      FirstNameStep(remote[..k - 1], remote[k - 1]);
    }
  }

  /** The walk, stated over the call that ends it (`StopIndex`): the items of
      all calls up to it in call order and the first reported name, unless
      that call threw or brought no board, which discards what was gathered. */
  function WalkBoard(remote: seq<Fetch<BoardItem>>): (w: BoardWalk)
    requires Ends(remote)
    ensures w.calls == StopIndex(remote) + 1
  {
    var n := StopIndex(remote);
    match remote[n]
    case Threw(m) => FetchFailed(NameOf(remote, n), m, n + 1)
    case Answered(r) =>
      if r.board.None? then NoBoard(MissingBoardError(r), n + 1)
      else Complete(ItemsOf(remote, n + 1), NameOf(remote, n + 1), n + 1)
  }

  /** A complete walk lists every page's items in call order under the first
      name other than "N/A" that a call reports; a failed one reports the
      name the calls before the failure gave. */
  lemma WalkBoardMeaning(remote: seq<Fetch<BoardItem>>)
    requires Ends(remote)
    ensures var w := WalkBoard(remote);
            var n := StopIndex(remote);
            && (w.Complete? ==> w.items == AllItems(remote[..n + 1]) && w.boardName == FirstName(remote[..n + 1]))
            && (w.FetchFailed? ==> w.boardName == FirstName(remote[..n]))
  {
    var n := StopIndex(remote);
    ItemsOfAll(remote, n + 1);
    NameOfFirst(remote, n + 1);
    NameOfFirst(remote, n);
  }

  /** The do/while loop of routes/api-routes.js:31-67. */
  method FetchBoardPages(remote: seq<Fetch<BoardItem>>) returns (w: BoardWalk, sent: seq<Option<string>>)
    requires Ends(remote)
    ensures w == WalkBoard(remote)
    ensures |sent| == w.calls && SentCursors(remote, sent)
  {
    var items: seq<BoardItem> := [];
    var cursor: Option<string> := None;
    var name := NoBoardName;
    var k := 0;
    sent := [];
    ghost var n := StopIndex(remote);
    while true
      invariant k <= n
      invariant |sent| == k && SentCursors(remote, sent)
      invariant items == ItemsOf(remote, k)
      invariant name == NameOf(remote, k)
      invariant cursor == if k == 0 then None else NextCursor(remote[k - 1])
      decreases n - k
    {
      StopAt(remote, k);
      SentCursorsStep(remote, sent, cursor);
      sent := sent + [cursor];
      var f := remote[k];
      if f.Threw? {
        w := FetchFailed(name, f.message, k + 1);
        return;
      }
      if f.response.board.None? {
        w := NoBoard(MissingBoardError(f.response), k + 1);
        return;
      }
      items, name, cursor := ReadPage(f, items, name);
      k := k + 1;
      if !TruthyText(cursor) {
        break;
      }
    }
    w := Complete(items, name, k);
  }

  /** The body of the loop for a call that brought the board
      (routes/api-routes.js:50-63): keep its name if none was kept yet, add
      its items and take its cursor. */
  method ReadPage(f: Fetch<BoardItem>, items: seq<BoardItem>, name: string)
    returns (items': seq<BoardItem>, name': string, cursor: Option<string>)
    requires f.Answered? && f.response.board.Some?
    ensures items' == items + PageItems(f)
    ensures name' == if name == NoBoardName && ReportedName(f).Some? then ReportedName(f).value else name
    ensures cursor == NextCursor(f)
  {
    var board := f.response.board.value;
    name' := name;
    if TruthyText(board.name) && name == NoBoardName {
      name' := board.name.value;
    }
    if board.itemsPage.Some? && board.itemsPage.value.items.Some? {
      items' := items + board.itemsPage.value.items.value;
      cursor := board.itemsPage.value.cursor;
    } else {
      items' := items;
      cursor := None;
    }
  }

  /** The JSON reply: `{items, boardName}` or `{items: [], boardName, error}`. */
  datatype BoardResponse = BoardResponse(status: nat, items: seq<BoardItem>, boardName: string, error: Option<string>)

  /** The reply to a walk that was run. */
  function Respond(boardId: string, w: BoardWalk): (r: BoardResponse)
    ensures r.status == 200 <==> !w.FetchFailed?
    ensures r.status == 200 || r.status == 500
    ensures r.error.None? <==> w.Complete?
    ensures w.Complete? ==> r.items == w.items && r.boardName == w.boardName
    ensures !w.Complete? ==> r.items == []
    ensures w.NoBoard? ==> r.boardName == NoBoardName && r.error == Some(w.error)
    ensures w.FetchFailed? ==> r.boardName == w.boardName && r.error.value == FetchErrorPrefix + boardId + ": " + w.message
  {
    match w
    case Complete(items, name, _) => BoardResponse(200, items, name, None)
    case NoBoard(error, _) => BoardResponse(200, [], NoBoardName, Some(error))
    case FetchFailed(name, m, _) => BoardResponse(500, [], name, Some(FetchErrorPrefix + boardId + ": " + m))
  }

  /** The reply served from a cache entry. */
  function Served(e: CacheEntry): (r: BoardResponse)
    ensures r.status == 200 && r.error.None? && r.items == e.items && r.boardName == e.boardName
  {
    BoardResponse(200, e.items, e.boardName, None)
  }

  /** The module-level `boardCache` Map. */
  class BoardCache {
    var entries: map<string, CacheEntry>

    constructor ()
      ensures entries == map[]
    {
      entries := map[];
    }

    /** The route handler. A fresh entry is served with no call; otherwise the
        walk runs, and only a complete walk is stored, overwriting the entry. */
    method GetItemsForBoard(boardId: string, now: int, finishedAt: int, remote: seq<Fetch<BoardItem>>)
      returns (resp: BoardResponse, sent: seq<Option<string>>)
      requires Ends(remote)
      modifies this
      ensures var key := CacheKey(boardId);
              Hit(old(entries), key, now) ==>
                resp == Served(old(entries)[key]) && sent == [] && entries == old(entries)
      ensures var key := CacheKey(boardId);
              var w := WalkBoard(remote);
              !Hit(old(entries), key, now) ==>
                && resp == Respond(boardId, w)
                && |sent| == w.calls && SentCursors(remote, sent)
                && entries == if w.Complete? then old(entries)[key := CacheEntry(w.items, w.boardName, finishedAt)]
                              else old(entries)
    {
      var key := CacheKey(boardId);
      if key in entries && now - entries[key].timestamp < CacheDuration {
        resp := Served(entries[key]);
        sent := [];
        return;
      }
      var w;
      w, sent := FetchBoardPages(remote);
      if w.Complete? {
        entries := entries[key := CacheEntry(w.items, w.boardName, finishedAt)];
      }
      resp := Respond(boardId, w);
    }
  }

  /** Two listings of one board that start from a stale or empty cache: the
      second makes no call and repeats the first reply exactly when the first
      walk completed less than five minutes before the second starts. */
  method ListTwice(cache: BoardCache, boardId: string,
                   start1: int, done1: int, remote1: seq<Fetch<BoardItem>>,
                   start2: int, done2: int, remote2: seq<Fetch<BoardItem>>)
    returns (r1: BoardResponse, calls1: nat, r2: BoardResponse, calls2: nat)
    requires Ends(remote1) && Ends(remote2)
    requires start1 <= done1 <= start2
    requires !Hit(cache.entries, CacheKey(boardId), start1)
    modifies cache
    ensures calls1 == WalkBoard(remote1).calls && r1 == Respond(boardId, WalkBoard(remote1))
    ensures WalkBoard(remote1).Complete? && start2 - done1 < CacheDuration ==> calls2 == 0 && r2 == r1
    ensures !(WalkBoard(remote1).Complete? && start2 - done1 < CacheDuration) ==>
              calls2 == WalkBoard(remote2).calls && r2 == Respond(boardId, WalkBoard(remote2))
  {
    var sent1, sent2;
    r1, sent1 := cache.GetItemsForBoard(boardId, start1, done1, remote1);
    calls1 := |sent1|;
    r2, sent2 := cache.GetItemsForBoard(boardId, start2, done2, remote2);
    calls2 := |sent2|;
  }
}
