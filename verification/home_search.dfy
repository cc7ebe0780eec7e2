/** The search box of the board's home page (routes/view-routes.js:483-512,
    558-583): the page keeps every loaded item and the ones the current
    term lets through; typing filters, Escape clears. */
module HomeSearch {
  import opened Seqs
  import opened Text
  import opened Remote

  const UnnamedItem: string := "Unnamed Item"

  /** `item.name || 'Unnamed Item'`. */
  function DisplayName(item: BoardItem): (n: string)
    ensures n != ""
  {
    if item.name != "" then item.name else UnnamedItem
  }

  /** The item's lower-cased display name or its id contains the term. */
  predicate MatchesTerm(item: BoardItem, term: string) {
    Contains(Lower(DisplayName(item)), term) || Contains(item.id, term)
  }

  /** `filteredItems` for the input's raw value: every item when the value is
      blank, else the items matching the lower-cased, trimmed term, in their
      original order. */
  function SearchFilter(all: seq<BoardItem>, raw: string): (r: seq<BoardItem>)
    ensures Normalize(raw) == "" ==> r == all
    ensures forall x :: x in r <==> x in all && (Normalize(raw) == "" || MatchesTerm(x, Normalize(raw)))
    ensures IsSubsequence(r, all)
    ensures forall x :: multiset(r)[x] == if Normalize(raw) == "" || MatchesTerm(x, Normalize(raw)) then multiset(all)[x] else 0
  {
    var term := Normalize(raw);
    if term == "" then
      IsSubsequenceRefl(all);
      all
    else Filter(all, x => MatchesTerm(x, term))
  }

  /** Every sequence is a subsequence of itself. */
  lemma {:induction false} IsSubsequenceRefl<T>(s: seq<T>)
    ensures IsSubsequence(s, s)
  {
    if s != [] {
      IsSubsequenceRefl(s[1..]);
    }
  }

  /** The search ignores case and white space around the term. */
  lemma SearchIgnoresCaseAndSpace(all: seq<BoardItem>, raw: string)
    ensures SearchFilter(all, raw) == SearchFilter(all, Normalize(raw))
  {
    NormalizeIdempotent(raw);
  }

  /** Typing more narrows the list: a term containing the previous one
      lets through only items the previous one let through. */
  lemma TypingNarrows(all: seq<BoardItem>, before: string, after: string)
    requires Contains(Normalize(after), Normalize(before))
    ensures forall x :: x in SearchFilter(all, after) ==> x in SearchFilter(all, before)
  {
    var t, u := Normalize(after), Normalize(before);
    forall x | x in SearchFilter(all, after)
      ensures x in SearchFilter(all, before)
    {
      if u != "" {
        if Contains(Lower(DisplayName(x)), t) {
          ContainsTransitive(Lower(DisplayName(x)), t, u);
        } else {
          ContainsTransitive(x.id, t, u);
        }
      }
    }
  }

  /** An item without a name is found by any term within "unnamed item". */
  lemma UnnamedItemFound(all: seq<BoardItem>, item: BoardItem, raw: string)
    requires item in all && item.name == ""
    requires Contains("unnamed item", Normalize(raw))
    ensures item in SearchFilter(all, raw)
  {
    var l := Lower(DisplayName(item));
    assert l == "unnamed item" by {
      assert DisplayName(item) == UnnamedItem;
      assert |l| == 12;
    }
    assert MatchesTerm(item, Normalize(raw));
  }

  /** The page's search state: the loaded items, the ones shown, and the
      search input's value. */
  class SearchPage {
    var allItems: seq<BoardItem>
    var filteredItems: seq<BoardItem>
    var inputValue: string

    /** The shown items are what the input's value lets through. */
    ghost predicate Valid()
      reads this
    {
      filteredItems == SearchFilter(allItems, inputValue)
    }

    /** `let allItems = []; let filteredItems = [];` with an empty search box. */
    constructor()
      ensures allItems == [] && filteredItems == [] && inputValue == ""
      ensures Valid()
    {
      allItems := [];
      filteredItems := [];
      inputValue := "";
    }

    /** The items of a successful load replace the list, all shown; a load
        without items leaves the list alone. */
    method Load(items: seq<BoardItem>)
      modifies this
      ensures items != [] ==> allItems == items && filteredItems == items
      ensures items == [] ==> allItems == old(allItems) && filteredItems == old(filteredItems)
      ensures inputValue == old(inputValue)
      ensures old(Valid()) && Normalize(inputValue) == "" ==> Valid()
    {
      if |items| > 0 {
        allItems := items;
        filteredItems := allItems;
      }
    }

    /** The `input` listener: the list is refiltered by the new value. */
    method Input(value: string)
      modifies this
      ensures inputValue == value && allItems == old(allItems)
      ensures filteredItems == SearchFilter(allItems, value)
      ensures Valid()
    {
      inputValue := value;
      var term := Normalize(value);
      if term == "" {
        filteredItems := allItems;
      } else {
        filteredItems := Filter(allItems, x => MatchesTerm(x, term));
      }
    }

    /** The Escape key: the box is emptied and every item is shown again. */
    method Escape()
      modifies this
      ensures inputValue == "" && allItems == old(allItems) && filteredItems == allItems
      ensures Valid()
    {
      inputValue := "";
      filteredItems := allItems;
      assert Normalize("") == "";
    }
  }
}
