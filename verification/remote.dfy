/** The remote board's answers to the paginated item queries of
    routes/api-routes.js, and the cursor walk both listing routes share.

    The GraphQL client is an oracle: a walk's k-th call returns `remote[k]`,
    either a thrown error or the parsed response. */
module Remote {
  import opened Seqs
  import opened Json

  /** An item as listed and as returned by the email lookup: `{id, name}`. */
  datatype BoardItem = BoardItem(id: string, name: string)

  /** One entry of an item's `column_values`: `{id, text, type, value}`. */
  datatype ColumnValue = ColumnValue(id: string, text: Option<string>, colType: string, value: ColumnJson)

  /** `items_page { cursor items { ... } }`; `items` is `None` when the page lacks it. */
  datatype ItemsPage<T> = ItemsPage(cursor: Option<string>, items: Option<seq<T>>)

  /** `boards[0]`: the board's `name` and its `items_page`. */
  datatype BoardData<T> = BoardData(name: Option<string>, itemsPage: Option<ItemsPage<T>>)

  /** A parsed response. `board` is `None` when `data`, `data.boards` or
      `boards[0]` is missing; `firstError` is `errors[0].message` if any. */
  datatype Response<T> = Response(board: Option<BoardData<T>>, firstError: Option<string>)

  /** The outcome of one call of the GraphQL client. */
  datatype Fetch<T> = Threw(message: string) | Answered(response: Response<T>)

  /** The page's `items_page`, when the board and its page are both there. */
  function PageOf<T>(f: Fetch<T>): Option<ItemsPage<T>> {
    if f.Answered? && f.response.board.Some? then f.response.board.value.itemsPage else None
  }

  /** `board.items_page && board.items_page.items`: the call brought a list of items. */
  predicate HasItems<T>(f: Fetch<T>) {
    PageOf(f).Some? && PageOf(f).value.items.Some?
  }

  /** The items a call contributes to the walk. */
  function PageItems<T>(f: Fetch<T>): seq<T> {
    if HasItems(f) then PageOf(f).value.items.value else []
  }

  /** The cursor the walk continues with after this call. */
  function NextCursor<T>(f: Fetch<T>): Option<string> {
    if HasItems(f) then PageOf(f).value.cursor else None
  }

  /** `} while (cursor)`: the walk asks for another page after this one. */
  predicate Continues<T>(f: Fetch<T>) {
    TruthyText(NextCursor(f))
  }

  /** Some call of the remote ends the walk. */
  predicate Ends<T>(remote: seq<Fetch<T>>) {
    exists k :: 0 <= k < |remote| && !Continues(remote[k])
  }

  /** The index of the call that ends the walk: every call before it handed
      out a cursor, and this one did not. */
  function StopIndex<T>(remote: seq<Fetch<T>>): (n: nat)
    requires Ends(remote)
    ensures n < |remote| && !Continues(remote[n])
    ensures forall j {:trigger Continues(remote[j])} :: 0 <= j < n ==> Continues(remote[j])
  {
    if !Continues(remote[0]) then 0
    else
      assert Ends(remote[1..]) by {
        var k :| 0 <= k < |remote| && !Continues(remote[k]);
        assert remote[1..][k - 1] == remote[k];
      }
      1 + StopIndex(remote[1..])
  }

  /** The items of the given calls, concatenated in call order. */
  function AllItems<T>(calls: seq<Fetch<T>>): seq<T> {
    if calls == [] then [] else AllItems(calls[..|calls| - 1]) + PageItems(calls[|calls| - 1])
  }

  /** The items the first `k` calls of a walk have gathered, as the loop
      accumulates them one call at a time. */
  function ItemsOf<T>(remote: seq<Fetch<T>>, k: nat): seq<T>
    requires k <= |remote|
  {
    if k == 0 then [] else ItemsOf(remote, k - 1) + PageItems(remote[k - 1])
  }

  /** Gathering call by call gives every page's items concatenated in call order. */
  lemma {:induction false} ItemsOfAll<T>(remote: seq<Fetch<T>>, k: nat)
    requires k <= |remote|
    ensures ItemsOf(remote, k) == AllItems(remote[..k])
  {
    if k > 0 {
      ItemsOfAll(remote, k - 1);
      assert remote[..k][..k - 1] == remote[..k - 1];
    }
  }

  /** The cursors a walk of `calls` calls sends: none with the first call,
      then the cursor the previous call handed out. */
  predicate SentCursors<T>(remote: seq<Fetch<T>>, sent: seq<Option<string>>)
    requires |sent| <= |remote|
  {
    (|sent| > 0 ==> sent[0].None?)
    && forall j {:trigger sent[j]} :: 0 < j < |sent| ==> sent[j] == NextCursor(remote[j - 1])
  }

  /** Up to the call that ends the walk, a call continues it exactly when it
      is not that call. */
  lemma StopAt<T>(remote: seq<Fetch<T>>, k: nat)
    requires Ends(remote) && k <= StopIndex(remote)
    ensures Continues(remote[k]) <==> k < StopIndex(remote)
  {
  }

  /** One more call sends the cursor the previous call handed out. */
  lemma SentCursorsStep<T>(remote: seq<Fetch<T>>, sent: seq<Option<string>>, cursor: Option<string>)
    requires |sent| < |remote| && SentCursors(remote, sent)
    requires cursor == if |sent| == 0 then None else NextCursor(remote[|sent| - 1])
    ensures SentCursors(remote, sent + [cursor])
  {
  }

  /** The accumulated list splits along any page boundary, so the result is
      every page's items, each page's block in page order. */
  lemma {:induction false} AllItemsAppend<T>(a: seq<Fetch<T>>, b: seq<Fetch<T>>)
    ensures AllItems(a + b) == AllItems(a) + AllItems(b)
    decreases |b|
  {
    if b == [] {
      assert a + b == a;
    } else {
      var init := b[..|b| - 1];
      AllItemsAppend(a, init);
      LastSplit(a, b);
    }
  }

  /** Dropping the last call of `a + b` drops the last call of `b`. */
  lemma LastSplit<T>(a: seq<Fetch<T>>, b: seq<Fetch<T>>)
    requires b != []
    ensures (a + b)[..|a + b| - 1] == a + b[..|b| - 1] && (a + b)[|a + b| - 1] == b[|b| - 1]
  {
  }

  /** An item is in the accumulated list exactly when some page brought it. */
  lemma {:induction false} AllItemsMember<T>(calls: seq<Fetch<T>>, x: T)
    ensures x in AllItems(calls) <==> exists j :: 0 <= j < |calls| && x in PageItems(calls[j])
  {
    if calls != [] {
      var init := calls[..|calls| - 1];
      AllItemsMember(init, x);
      if x in AllItems(calls) && x !in AllItems(init) {
        assert x in PageItems(calls[|calls| - 1]);
      }
      if exists j :: 0 <= j < |calls| && x in PageItems(calls[j]) {
        var j :| 0 <= j < |calls| && x in PageItems(calls[j]);
        if j < |calls| - 1 {
          assert calls[j] == init[j];
        }
      }
    }
  }

  /** The number of items a walk of these calls accumulates. */
  lemma {:induction false} AllItemsCount<T>(calls: seq<Fetch<T>>)
    ensures |AllItems(calls)| == PageTotal(calls)
  {
    if calls != [] {
      AllItemsCount(calls[..|calls| - 1]);
      AllItemsAppend(calls[..|calls| - 1], [calls[|calls| - 1]]);
      assert calls[..|calls| - 1] + [calls[|calls| - 1]] == calls;
      PageTotalAppend(calls[..|calls| - 1], calls[|calls| - 1]);
    }
  }

  /** The sum of the page sizes, counted from the front. */
  function PageTotal<T>(calls: seq<Fetch<T>>): nat {
    if calls == [] then 0 else |PageItems(calls[0])| + PageTotal(calls[1..])
  }

  lemma {:induction false} PageTotalAppend<T>(calls: seq<Fetch<T>>, f: Fetch<T>)
    ensures PageTotal(calls + [f]) == PageTotal(calls) + |PageItems(f)|
  {
    if calls != [] {
      assert (calls + [f])[1..] == calls[1..] + [f];
      PageTotalAppend(calls[1..], f);
    }
  }
}
