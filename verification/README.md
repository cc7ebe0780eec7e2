# Property-management board: a Dafny model

This project models the core of a small Express service that fronts a
monday.com board of rental properties. It covers two sides of the service.

The API routes (`routes/api-routes.js`) are:

- **list a board** (`get-items-for-board`). The route follows the
  `items_page` cursors until a page hands out no cursor. It keeps the first
  board name other than "N/A", and stores a complete listing for five
  minutes in a process-wide cache keyed `board_<id>`.
- **find an item by email** (`find-item-by-email`). The route lower-cases
  and trims the query. It fetches every page of the tenant board, then
  returns the first item whose `email` column yields the address, from the
  column's `text` or from its JSON `value`.
- **update an item** (`update-item-details`). The route sends a rename when
  a name is given, then a column change when `column_values` has a key. It
  classifies the reply from what the board confirmed.

The scripts the view routes embed (`routes/view-routes.js`) are:

- **the item panel** (`renderItemDetails`). It decides:
  - which columns are shown;
  - the value each email or date input starts with;
  - how a status column's labels are built from `labelsArray`, following
    JavaScript's own key order for objects;
  - which label is preselected.
- **the Save button**, which encodes an edit for the update route.
- **the home page's search box**, which filters the loaded items by a term
  and is cleared by Escape.

The GraphQL client (`utils/monday-api.js`) is not part of this model. Each
route takes what the client returns as a parameter:

- a sequence of `Fetch` results, where the k-th call gets the k-th element;
- or one `MutationResult` per mutation.

The clock is a parameter too. The cache check reads `now`, and the entry is
stamped `finishedAt`.

Modules:

- `Seqs`: `Option`, `Filter` and subsequences.
- `Text`: JavaScript's `trim`, `toLowerCase`, `includes`, `String(n)` and
  `parseInt`.
- `Json`: the parsed JSON fields the routes read.
- `JsObject`: the entry order of a JavaScript object.
- `Remote`: the page and response shapes, and where a page walk stops.
- `BoardItems`, `EmailLookup` and `ItemUpdate`: the three routes.
- `ItemView`, `ColumnSave` and `HomeSearch`: the page scripts.

Three behaviours of the code worth noting:

- The email lookup fetches every page before it scans any item. It has no
  early exit across pages, and a page without data ends the walk quietly.
- The board name kept by a listing is the first truthy name other than
  "N/A". A page named "N/A" does not fix the name.
- A listing that fails with a thrown call answers 500. The answer carries
  the board name gathered before the failure, not "N/A".

## Model

| member | source | states |
|---|---|---|
| `BoardItems.CacheKeyInjective` | routes/api-routes.js:18 | two boards never share a `board_<id>` cache key |
| `BoardItems.Hit` | routes/api-routes.js:19-20 | the cache answers exactly when the board has an entry and `now` is still before its stamp plus five minutes |
| `BoardItems.Served` | routes/api-routes.js:22 | a cached reply is a 200 without error carrying the stored items and board name |
| `BoardItems.Respond` | routes/api-routes.js:65-83 | the reply is 200 unless a call threw, then 500; it has no error exactly when the walk completed; only a complete walk carries items; a walk without board data names "N/A" and reports the missing-board error; a thrown call reports the prefixed message with the name gathered before it |
| `BoardItems.FirstNameStep` | routes/api-routes.js:55 | the loop's one-page name update extends the "first name other than N/A" of the pages so far |
| `BoardItems.FirstNameIsFirst` | routes/api-routes.js:27-55 | the listed name is "N/A" exactly when no call reports another truthy name, else it is the name of the first call that does |
| `BoardItems.NameOfFirst` | routes/api-routes.js:27-67 | the name the loop holds after k calls is the first name other than "N/A" among those k calls |
| `BoardItems.WalkBoard` | routes/api-routes.js:31-67 | the walk makes exactly one call more than the calls that continue it |
| `BoardItems.WalkBoardMeaning` | routes/api-routes.js:31-83 | a complete walk lists every page's items in call order under the first name; a thrown call reports the name gathered before it |
| `BoardItems.FetchBoardPages` | routes/api-routes.js:25-67 | the do/while loop gives `WalkBoard`, sends no cursor first and then each previous page's cursor |
| `BoardItems.ReadPage` | routes/api-routes.js:53-62 | one page appends its items, takes the name only while it is still "N/A", and hands on its cursor, or none when the page has no items |
| `BoardItems.BoardCache.constructor` | routes/api-routes.js:9 | the cache starts empty |
| `BoardItems.BoardCache.GetItemsForBoard` | routes/api-routes.js:13-85 | a fresh entry is served with no call and no change; otherwise the walk's reply is sent and only a complete walk is stored, overwriting the board's entry |
| `BoardItems.ListTwice` | routes/api-routes.js:17-77 | a second listing makes no call and repeats the first reply exactly when the first walk completed less than five minutes before |
| `Remote.StopIndex` | routes/api-routes.js:67 | the walk's last call is the first one that does not continue it |
| `Remote.ItemsOfAll` | routes/api-routes.js:58 | pushing each page's items gives all pages' items concatenated in call order |
| `Remote.AllItemsAppend` | routes/api-routes.js:58 | the items of two runs of calls are the first run's followed by the second's |
| `Remote.AllItemsMember` | routes/api-routes.js:58 | an item is listed exactly when some page brought it |
| `Remote.AllItemsCount` | routes/api-routes.js:69 | the number of items listed is the sum of the page sizes |
| `EmailLookup.TargetEmail` | routes/api-routes.js:234-237 | there is a target exactly when the query is present and not blank after lower-casing and trimming, and then it is non-empty |
| `EmailLookup.TargetIsNormal` | routes/api-routes.js:234 | the target is already lower-case and trimmed |
| `EmailLookup.TextCandidate` | routes/api-routes.js:321 | the column text yields a candidate exactly when it is truthy |
| `EmailLookup.TextCandidateIsNormal` | routes/api-routes.js:321 | the text candidate is lower-case and trimmed |
| `EmailLookup.ValueCandidate` | routes/api-routes.js:324-333 | the JSON value yields a candidate exactly when it is a string, or an object with a non-empty string `email` in an email or integration column |
| `EmailLookup.ValueCandidateIsNormal` | routes/api-routes.js:327-330 | the value candidate is lower-case and trimmed |
| `EmailLookup.EmailColumn` | routes/api-routes.js:318-319 | `find` over the columns: the column found is the first one with id `email`, and none is found exactly when no column has that id (an empty list included) |
| `EmailLookup.ItemMatches` | routes/api-routes.js:318-340 | an item matches when its first `email` column yields the target from its text or its JSON value; its meaning is stated by `ItemMatchesMeaning` |
| `EmailLookup.ItemMatchesMeaning` | routes/api-routes.js:318-337 | an item without an `email` column never matches; otherwise it matches exactly when its truthy text normalises to the target, or its JSON value is a string that does, or an object whose non-empty string `email` does in an email or integration column; an unparseable, missing or scalar value leaves the text alone to decide |
| `EmailLookup.IsFirstMatch` | routes/api-routes.js:337-340 | the reply is `{id, name}` of a matching item with no match before it, or nothing when no item matches |
| `EmailLookup.FirstMatchAtIsFirstMatch` | routes/api-routes.js:337-340 | an item that matches with no match before it is the reply's first match |
| `EmailLookup.FirstMatchUnique` | routes/api-routes.js:315-344 | the first match is unique: two answers that both satisfy it are equal |
| `EmailLookup.FirstMatchAtUnique` | routes/api-routes.js:315-344 | at most one index is the first matching one |
| `EmailLookup.WalkEmailPages` | routes/api-routes.js:246-311 | the walk makes exactly one call more than the calls that continue it |
| `EmailLookup.FetchEmailPages` | routes/api-routes.js:240-311 | the do/while loop gives `WalkEmailPages` and sends no cursor first, then each previous page's cursor |
| `EmailLookup.ReadPage` | routes/api-routes.js:302-310 | one page appends its items and hands on its cursor, or none when it has no data |
| `EmailLookup.FirstMatch` | routes/api-routes.js:315-344 | the `for` loop with `break` returns `{id, name}` of the first matching item, or nothing when no item matches |
| `EmailLookup.YieldsTarget` | routes/api-routes.js:318-341 | one item is found exactly when its email column's text or value candidate equals the target |
| `EmailLookup.FindItemByEmail` | routes/api-routes.js:233-357 | a blank query gets a 400 with no call; a thrown call gets a 500; otherwise the reply is the first match over all pages, or the "No item found" message |
| `ItemUpdate.StatusCode` | routes/api-routes.js:138-227 | the route answers 200 exactly for an update or for "No changes were requested." |
| `ItemUpdate.Outcome` | routes/api-routes.js:134-229 | a falsy `boardId` gets a 400 with nothing sent, and at most two mutations are ever sent |
| `ItemUpdate.UpdateItemDetails` | routes/api-routes.js:134-229 | the handler with its `itemUpdated` and `lastUpdateData` flags sends and answers as the decision table `Outcome` says |
| `ItemUpdate.MutationsSent` | routes/api-routes.js:157-213 | a rename is sent exactly when a name is given, the column change exactly when `column_values` has a key and the rename did not throw, and the rename goes first |
| `ItemUpdate.NoChangesExactly` | routes/api-routes.js:217-218 | "No changes were requested." is the reply exactly when neither a name nor a column value was given, and then nothing is sent |
| `ItemUpdate.SuccessIsLastConfirmation` | routes/api-routes.js:173-216 | success means no sent call threw and one was confirmed; the item returned is the column change's confirmation when there is one, else the rename's |
| `ItemUpdate.ServerErrorExactly` | routes/api-routes.js:215-227 | a 500 is the reply exactly when something was asked for and either a sent call threw or no sent call was confirmed |
| `JsObject.Lookup` | routes/view-routes.js:316 | a key reads as defined exactly when the object has it |
| `JsObject.ObjectSet` | routes/view-routes.js:316 | an assignment adds its key to the object's keys and removes none |
| `JsObject.ObjectSetLookup` | routes/view-routes.js:316 | after `o[k] = v`, `o[k]` is `v` and every other key reads as before |
| `JsObject.ObjectSetOrdered` | routes/view-routes.js:316-326 | an assignment keeps the object ordered as `Object.entries` lists it: array-index keys first and ascending, then the other keys |
| `JsObject.ObjectSetAppends` | routes/view-routes.js:316 | a new key that is not an array index is appended after every key already there, so other keys stay in insertion order |
| `JsObject.ObjectSetKeepsKeyOrder` | routes/view-routes.js:316 | assigning to a key the object already has changes neither its keys nor their order |
| `JsObject.ObjectSetDistinct` | routes/view-routes.js:316 | an assignment never lists a key twice |
| `JsObject.CanonicalIsNatToString` | routes/view-routes.js:316 | a canonical numeral key is what `toString` writes for its value |
| `JsObject.IndexKeyInjective` | routes/view-routes.js:316 | two array-index keys with the same value are the same key |
| `ItemView.ShownColumns` | routes/view-routes.js:263-287 | exactly the item's columns whose id is listed are shown, in the item's order and with their multiplicities |
| `ItemView.FindDefinition` | routes/view-routes.js:289 | the definition found is the board's first column with that id, and none is found exactly when the board has no such column |
| `ItemView.CurrentValue` | routes/view-routes.js:297-307 | a date column whose JSON object stores a truthy date starts with that date, an email column with a truthy email starts with that email; every other column starts with its truthy text, else '' |
| `ItemView.LabelsOf` | routes/view-routes.js:313-317 | the labels are `settings.labels` when there is no `labelsArray`; with one, the build throws exactly when some id is `undefined` or `null`, and otherwise gives an ordered object without repeated keys |
| `ItemView.LabelsFrom` | routes/view-routes.js:313-317 | the label object built from `labelsArray` is ordered and has no repeated key, and the build throws exactly when some id is `undefined` or `null` |
| `ItemView.LabelsFromKeys` | routes/view-routes.js:316 | the label object has a key exactly when some definition's id writes as that key |
| `ItemView.LabelsFromLast` | routes/view-routes.js:316 | each key holds the name of the last definition with that key |
| `ItemView.BuildLabels` | routes/view-routes.js:313-317 | the `forEach` assignment loop builds `LabelsFrom`, stopping at the first id that throws |
| `ItemView.LabelsFromPrefixThrows` | routes/view-routes.js:316-345 | once a prefix of the definitions throws, the whole build throws |
| `ItemView.StoredKey` | routes/view-routes.js:318-323 | a stored key is read only from a JSON object: its `index` when defined, else its truthy `id` |
| `ItemView.SelectedKey` | routes/view-routes.js:318-332 | the preselected key; its meaning is stated by `SelectedKeyMeaning` |
| `ItemView.FirstNamed` | routes/view-routes.js:325-331 | the index found is the first label named like the column's text, and none is found exactly when no label is |
| `ItemView.SelectedKeyMeaning` | routes/view-routes.js:321-332 | a stored non-empty key wins; without labels the stored key stays; otherwise, when the stored key is missing or empty, the first label named like the text is chosen, and with no such label the stored key stays |
| `ItemView.AtMostOneSelected` | routes/view-routes.js:336-340 | with distinct label keys at most one option is marked selected |
| `ItemView.SelectStatusKey` | routes/view-routes.js:321-332 | the `for…of` with `break` over the label entries computes the preselected key |
| `ItemView.ControlFor` | routes/view-routes.js:310-357 | a status select or error only for a defined status column; email and date inputs start with the current value; the select preselects the chosen key |
| `ItemView.RenderColumn` | routes/view-routes.js:288-363 | the row belongs to its column, has a Save button exactly for the savable types, and always has one when it holds an input |
| `ItemView.Rendered` | routes/view-routes.js:288 | one row per shown column, each rendered from that column |
| `ItemView.RenderColumns` | routes/view-routes.js:285-368 | the `forEach` loop emits one row per shown column, in order |
| `ItemView.RowsAreShownColumns` | routes/view-routes.js:286-288 | every row belongs to a listed column of the item |
| `ItemView.ShownColumnsHaveRows` | routes/view-routes.js:286-288 | every listed column of the item gets a row |
| `ColumnSave.EncodeColumnEdit` | routes/view-routes.js:411-434 | nothing is sent without an input or with "-- No Change --"; a status key is sent as the index `parseInt` reads or as a label; an email is sent trimmed as both email and text; a non-empty date is sent as `{date}` and an empty one clears; any other type sends its text |
| `ColumnSave.SelectValue` | routes/view-routes.js:413 | a status select reads the preselected key when it names an option, else the empty "-- No Change --" value |
| `ColumnSave.InputOf` | routes/view-routes.js:411-434 | Save reads a value only from a select, email, date or text input |
| `ColumnSave.SaveRequest` | routes/view-routes.js:438-440 | the posted body asks for column values and no rename |
| `ColumnSave.StatusKeyRoundTrip` | routes/view-routes.js:418-419 | a key written by `String(n)`, as a stored index is, goes back as the index `n` |
| `ColumnSave.IndexKeySentAsIndex` | routes/view-routes.js:418-419 | an array-index label key goes back as the index it names |
| `ColumnSave.UnselectedStatusSendsNothing` | routes/view-routes.js:414-416 | a status select left with no option preselected sends nothing |
| `ColumnSave.SaveButtonWithoutInput` | routes/view-routes.js:412-413 | a row has a Save button and nothing to read exactly when it is a status column rendered without a select |
| `ColumnSave.UneditedSaveKeepsValue` | routes/view-routes.js:423-430 | saving an untouched email or date row sends the value the column holds |
| `ColumnSave.SaveSendsOneChange` | routes/view-routes.js:438-444 | a save sends exactly one column change carrying the one value and no rename, succeeds exactly when it is confirmed, and sends nothing without a board id |
| `ColumnSave.SavedEmailIsFound` | routes/view-routes.js:423-426 | once the saved address is the column's text, a lookup by any query that normalises the same way finds the item |
| `HomeSearch.DisplayName` | routes/view-routes.js:568 | the name searched is never empty |
| `HomeSearch.SearchFilter` | routes/view-routes.js:562-571 | a blank term keeps every item; otherwise the result is exactly the items whose lower-cased name or id contains the term, in their order and with their multiplicities |
| `HomeSearch.SearchIgnoresCaseAndSpace` | routes/view-routes.js:562 | the search ignores case and white space around the term |
| `HomeSearch.TypingNarrows` | routes/view-routes.js:567-571 | a term containing an earlier one lets through only items the earlier one let through |
| `HomeSearch.UnnamedItemFound` | routes/view-routes.js:568 | an item without a name is found by any part of "unnamed item" |
| `HomeSearch.SearchPage.constructor` | routes/view-routes.js:483-484 | the page starts with no items and an empty box |
| `HomeSearch.SearchPage.Load` | routes/view-routes.js:509-512 | a load with items replaces the list and shows them all |
| `HomeSearch.SearchPage.Input` | routes/view-routes.js:561-575 | typing re-filters the loaded items by the new value |
| `HomeSearch.SearchPage.Escape` | routes/view-routes.js:577-582 | Escape empties the box and shows every item again |
| `Text.Lower` | routes/api-routes.js:234 | `toLowerCase`: same length, each letter A to Z lowered and every other character kept |
| `Text.Trim` | routes/api-routes.js:234 | `trim`: no longer than the text, and with no white space at either end |
| `Text.TrimIsSlice` | routes/api-routes.js:234 | what `trim` keeps is one contiguous piece of the text, and everything it cuts before and after that piece is white space |
| `Text.ParseInt` | routes/view-routes.js:418 | `parseInt(s, 10)` is `NaN` exactly when no digit follows the leading white space and sign |
| `Text.NormalizeIdempotent` | routes/api-routes.js:234 | lower-casing and trimming twice is the same as once |
| `Text.NormalizeOfTrim` | routes/view-routes.js:425 | trimming first does not change the normalised text |
| `Text.ParseIntOfIntToString` | routes/view-routes.js:418 | `parseInt(String(n), 10)` is `n` |
| `Text.ContainsTransitive` | routes/view-routes.js:569 | a text that contains a term contains every part of it |

## Left out

- `utils/monday-api.js` is not part of this model. The GraphQL client, its
  headers, its API key and its joining of error messages become the
  `Fetch`/`MutationResult` parameters. A GraphQL error that the client
  raises is a `Threw` result.
- Wall-clock time is a parameter: `now` and `finishedAt`.
- Concurrent requests that interleave on the cache are not modelled. Each
  call runs to completion.
- The walks require that some page stops them (`Ends`). A remote that hands
  out cursors forever makes the source loop forever, and the model does not
  represent that.
- `JSON.parse` is reduced to the fields the code reads (`Json.ColumnJson`,
  `ItemView.Settings`). Numbers are integers, and `String` of a number is
  written for integers only.
- `toLowerCase` is modelled on the letters A to Z only.
- `get-item-details` (routes/api-routes.js:88-131) passes the client's
  answer through unchanged. It has no logic beyond the 404 check and is not
  modelled.
- A `labelsArray` element that is `null`, a label name that is not a
  string, and a `column_values` body that is not an object are not
  modelled.
- The unused `itemsFetchQuery` (routes/api-routes.js:247-265) is never sent
  and is not modelled.
- These parts are not modelled:
  - the HTML and CSS text and `showMessage` timers;
  - the "Showing N of M" results text;
  - the item-name Save button;
  - the Missive host script `public/missive-script.js`;
  - the Express wiring in `index.js`;
  - logging.
- `ColumnSave.InputOf`: an input's value is taken to be the rendered
  `value` attribute. A browser blanks a date input whose value is not
  yyyy-mm-dd and sanitises an email input's value, and
  `ColumnSave.UneditedSaveKeepsValue` inherits this.
- `HomeSearch.DisplayName`: an item name that is `null` is treated as the
  empty string. Both fall back to "Unnamed Item".
- `ItemView.Rendered`: a row is the column's id, title, type, control and
  Save flag, not its HTML.
