# fusion-tables-ng: the record query core

fusion-tables-ng shows a Google Sheets workbook in the browser as a searchable, filterable and
sortable table. This project models the part that decides what the table shows:

- **Loading** (`src/Api.ts`). A worksheet cell is decoded by its type tag (`b`, `n`, `e`, `s`,
  `d`). The header row becomes an array of `{name, type}` headers that can have holes. The
  parsed workbook becomes a database of inactive sheets, and any failure resolves to
  `undefined`.
- **The data view** (`AppDataView` in `src/index.tsx`). Its state is three plain objects keyed
  by header name: the column filters (lists of allowed values), the column search terms and the
  column sort directions.
  - `getCurrentRecords` runs the first sheet's records through four stages: the global search,
    every column filter in key order, every column sort in key order, and every column search
    in key order.
  - `getHeaderMenuOptions` builds a column's filter options.
  - The sort, checkbox and search-box handlers update the state.
- **The document id** (`decodeDocumentId`). It is read from a Sheets URL or from a bare query
  string.

Modules:

- `Js`: JavaScript values and the string built-ins the code relies on (`toLowerCase`,
  `indexOf`, `trim`, `split`, the default `sort` order).
- `Seqs`: `filter` (also with a callback that throws), lodash `uniq`, and `reverse`.
- `Sorting`: lodash `sortBy`, a stable sort.
- `Dicts`: objects with insertion-ordered keys.
- `Api`: loading.
- `Query`: the pipeline.
- `Menu`: the header menu.
- `View`: the component class and its handlers.
- `DocumentId`: reading the document id.

Where the code throws a `TypeError`, the model returns an `Err` naming the failing value.
Each loop of the code is a method with a loop, proved equal to a specification function. The
lemmas are stated about those functions.

The model follows the code where a plain reading of the design would differ:

- The column search runs for every key in the search object, even when the term is empty.
  After a search box has been cleared, a non-string value in that column still throws
  (`Query.ColumnHit`).
- The column filter throws on a truthy value that is neither a number nor a string, for
  example `true` or a date. A falsy value is matched as `""`.
- With a non-empty term, the global search throws on a record that has no match before the first hole in the header array; a match after the hole is never reached.
- A "desc" sort is the ascending sort reversed, so records with equal keys come out in
  reverse input order rather than in input order.

## Model

| member | source | states |
|---|---|---|
| Api.DecodeByTag | src/Api.ts:4-16 | exactly the five tags b, n, e, s, d have a decoder, and each decoder yields a value of the type it names |
| Api.Decode | src/Api.ts:17-23 | a cell without a known tag decodes to its raw value unchanged; `b` gives truthiness; `n` gives the number, or 0 for NaN, and keeps a numeric value; `s` gives `""` for a falsy value, otherwise the string form, and keeps a string value; `e` gives an Error; `d` gives a Date |
| Api.HeadersUpTo | src/Api.ts:24-39 | after visiting n columns, the header array is one past the last present cell; column c is a hole iff row 1 has no cell there, and otherwise holds that cell's decoded header; the visit throws iff some present cell decodes to undefined, naming that column |
| Api.ExtractHeaders | src/Api.ts:24-39 | the loop over columns 0 .. columnCount-1 computes `HeadersUpTo` of the column count, including the first throwing column |
| Api.ErrorPersists | src/Api.ts:27-37 | once a column throws, visiting more columns gives the same error |
| Api.SheetsOf | src/Api.ts:61-71 | one sheet per sheet name; a first name without a worksheet fails with that name |
| Api.SheetsOfMeaning | src/Api.ts:61-71 | the sheet at each position belongs to the name at that position, with that worksheet's records and extracted headers, inactive; building succeeds iff every name has a worksheet whose headers extract |
| Api.LoadDatabase | src/Api.ts:53-78 | the database carries the requested document id and one inactive sheet per sheet name in order; it is undefined iff the request failed or some sheet failed |
| Query.ScanFrom | src/index.tsx:250-263 | the header scan answers true iff some header from h on has a string value containing the term, ignoring case, with no hole before it; false iff every header is present and none does; otherwise it throws on the first hole, and no header before that hole contains the term |
| Query.ScanHeaders | src/index.tsx:250-263 | the `for` loop with its `isMatching` flag and `break` computes `ScanFrom` from header 0 |
| Query.GlobalSearchMeaning | src/index.tsx:247-268 | a record survives the global search iff the term is empty or some header's string value contains it, ignoring case; without holes it never throws; an empty term keeps every record in order |
| Query.ApplyGlobalSearch | src/index.tsx:248-268 | the filter over the records computes `GlobalSearch` |
| Query.AllowedMatch | src/index.tsx:275-287 | the empty list matches nothing; a nonzero number matches iff its decimal form is an allowed value; a string matches iff it contains an allowed value; a falsy value matches no non-empty allowed value; it throws iff the value is truthy and neither a number nor a string |
| Query.MatchAllowed | src/index.tsx:275-287 | the loop over allowed values with `break` computes `AllowedMatch` |
| Query.FilterColumn | src/index.tsx:274-288 | the filter over the records for one column computes the filter function with `AllowedMatch` as callback |
| Query.ApplyFilters | src/index.tsx:269-291 | the loop over the filter keys computes `FiltersFrom`, skipping empty lists and stopping at the first error |
| Query.FiltersMeaning | src/index.tsx:269-291 | the filters only drop records, and a record survives iff it passes every column's non-empty allowed list (AND across columns) |
| Query.FiltersInactive | src/index.tsx:272-273 | when every allowed list is empty, the filter stage keeps every record in order |
| Query.FiltersAppendEmpty | src/index.tsx:269-291 | a column appended to the key order with an empty allowed list leaves the filter stage unchanged |
| Query.SortOneMeaning | src/index.tsx:294-300 | one sort step is a permutation, ascending by the column for "asc" and descending otherwise |
| Query.SortOneTies | src/index.tsx:295-299 | records with equal keys keep their input order under "asc" and come out in reverse input order otherwise, since "desc" is the stable ascending sort reversed |
| Query.SortsFromPermutes | src/index.tsx:292-301 | the sort stage is a permutation of its input |
| Query.SortsFromLast | src/index.tsx:292-301 | the sort stage equals the sort over all but the last key followed by one sort by the last key |
| Query.LastSortDominates | src/index.tsx:292-301 | the last key in the sort object's order is the primary order of the sorted records |
| Query.ApplySorting | src/index.tsx:292-301 | the loop over the sort keys computes `SortsFrom` |
| Query.SearchesMeaning | src/index.tsx:302-312 | the column searches only drop records, and a record survives iff each searched column holds a string containing its term, ignoring case |
| Query.SearchesNoCrash | src/index.tsx:306-310 | when every searched column holds strings, the searches never throw |
| Query.SearchesEmptyTerms | src/index.tsx:306-310 | empty terms over string columns keep every record in order |
| Query.SearchesKeepOrder | src/index.tsx:306-311 | the searches keep the relative order of the records they keep |
| Query.ApplySearches | src/index.tsx:302-312 | the loop over the search keys computes `SearchesFrom` |
| Query.PipelineMeaning | src/index.tsx:240-313 | the records shown are a sub-multiset of the sheet's records; a record is shown iff it passes the global search, every filter and every column search |
| Query.PipelineEmptyQuery | src/index.tsx:240-313 | with no search, no active filter, no sort and no column search, the sheet's records are shown unchanged and in order |
| Query.PipelineOrder | src/index.tsx:292-312 | the records shown are ordered by the last sort key in its direction |
| Query.FiltersOfNothing | src/index.tsx:269-291 | the filters over no record give no record |
| Query.CurrentRecordsWithoutDatabase | src/index.tsx:240-246 | without a database no record is shown and nothing throws |
| Menu.Pieces | src/index.tsx:202-203 | splitting a value throws iff it is not a string; otherwise every piece is trimmed and contains no ';' |
| Menu.Collected | src/index.tsx:200-205 | the items list is built iff every record's value is a string, and otherwise throws on the first one that is not; every item is trimmed and contains no ';' |
| Menu.CollectedMembers | src/index.tsx:200-205 | the items are exactly the trimmed ';'-separated pieces of the records' values |
| Menu.CollectedErrPersists | src/index.tsx:201-204 | once a record's value throws, the whole `forEach` throws the same error |
| Menu.OptionsMeaning | src/index.tsx:206-210 | the options are strictly increasing in the default sort order, and an item is an option iff it is not "NA", "N/A", "undefined" or empty |
| Menu.AscendingUnique | src/index.tsx:206-210 | two strictly increasing lists in the default sort order with the same elements are equal |
| Menu.OptionsUnique | src/index.tsx:206-210 | any strictly increasing list of exactly the listed items is the options list, so the options have only one possible order |
| Menu.HeaderMenuOptionsMeaning | src/index.tsx:188-213 | without a database the menu is empty, and with no sheet it throws; otherwise it offers, strictly increasing, exactly the listed pieces of the first sheet's values; it throws iff some value is not a string, so never for a String column |
| View.ToggleSort | src/index.tsx:331-346 | choosing the direction in force clears the column's sort and any other choice sets it; a newly sorted column becomes the last key; switching direction keeps the key's place; clearing keeps the other keys in their order; other columns are unchanged |
| View.ClearedSortYields | src/index.tsx:331-346 | after a column's sort is cleared, any table shown is ordered by the column sorted last among the remaining ones, in its direction |
| View.ToggleSortTwice | src/index.tsx:331-346 | choosing the same direction twice on an unsorted column restores the sort object, key order included |
| View.LastSortLeads | src/index.tsx:292-301 | whenever the page shows records, they are ordered by the last sort key in its direction |
| View.NewSortLeads | src/index.tsx:331-346 | after a new column is sorted, any table the page then shows is ordered by that column in the chosen direction, because the pipeline applies the newest sort key last |
| View.ToggleFilter | src/index.tsx:392-415 | checking appends the option to the column's list, creating the list if absent; unchecking removes every copy of the option from an existing list; other columns are unchanged and keep their order, and a newly created list comes last |
| View.CheckUncheck | src/index.tsx:392-415 | checking then unchecking an option not in the list restores the column's list, and restores the whole object when the column had a list |
| View.CheckUncheckShowsSame | src/index.tsx:392-415 | checking then unchecking an option not in the list leaves the shown records unchanged |
| View.DataView.constructor | src/index.tsx:179-187 | the view starts with no filter, no column search and no sort |
| View.DataView.OnSort | src/index.tsx:331-346 | the handler changes the sort object as `ToggleSort` says and nothing else |
| View.DataView.OnCheckBoxClick | src/index.tsx:392-415 | the handler, with its separate creation of a missing list, changes the filter object as `ToggleFilter` says and nothing else |
| View.DataView.OnHeaderSearchTermChanged | src/index.tsx:226-238 | the handler stores the text under the column's key and changes nothing else |
| View.DataView.GetCurrentRecords | src/index.tsx:240-313 | the method computes `CurrentRecords` for the view's state, including the error of reading `sheets[0]` of an empty workbook |
| View.DataView.GetHeaderMenuOptions | src/index.tsx:188-213 | the loop over the records computes `HeaderMenuOptions` |
| DocumentId.FromUrl | src/index.tsx:121-125 | a URL yields a piece iff it has more than five '/'-separated pieces, and that piece has no '/' |
| DocumentId.FromQuery | src/index.tsx:130-136 | input not starting with "http" yields its prefix before the first '&' |
| DocumentId.UrlRoundTrip | src/index.tsx:121-136 | joining at least six '/'-free pieces, the first starting with "http", yields the sixth piece |
| DocumentId.DecodeDocumentId | src/index.tsx:126-137 | the decoded query, taken from the input when it is non-empty and otherwise from the page's query string without its first character, yields its prefix before the first '&' unless it starts with "http", and then its sixth '/'-separated piece, if any |
| DocumentId.DecodeDocumentIdFallback | src/index.tsx:126-129 | a non-empty input ignores the page's query string; an absent or empty input reads the query string after its '?' exactly as if it had been typed |
| DocumentId.SheetsLink | src/index.tsx:121-136 | the link `https://docs.google.com/spreadsheets/d/ID/rest`, given as its '/'-separated pieces joined by '/', yields ID |
| DocumentId.BareIdRoundTrip | src/index.tsx:130-135 | `ID&rest` yields ID when ID has no '&' and the input does not start with "http" |
| Js.JoinSplit | src/index.tsx:122-124 | `split` loses nothing: joining the pieces with the separator gives the input back |
| Js.SplitJoin | src/index.tsx:122-124 | joining separator-free pieces and splitting again gives the pieces back |
| Js.SplitFirst | src/index.tsx:134 | the first piece of a split is the input up to the first separator |
| Seqs.FilterOk | src/index.tsx:248-268 | a filter whose callback can throw throws the first error in order, and otherwise keeps exactly the elements the callback accepts |
| Seqs.FilterOkShrinks | src/index.tsx:248-268 | a filter that does not throw keeps a sub-multiset of its input, so it never grows the table |
| Seqs.FilterOkKeepsOrder | src/index.tsx:248-268 | filtering keeps the relative order of the kept elements |
| Sorting.SortBySorted | src/index.tsx:296 | lodash `sortBy` orders by the key under a total preorder |
| Sorting.SortByStable | src/index.tsx:296 | lodash `sortBy` is stable: elements with equal keys keep their input order |
| Seqs.FilterReverse | src/index.tsx:298 | filtering a reversed sequence equals reversing the filtered one |
| Sorting.SortByDistinct | src/index.tsx:209 | sorting a list without repeats gives a list without repeats |
| Dicts.PutDeleteFresh | src/index.tsx:335-339 | assigning a fresh key and deleting it gives back the same object, key order included |

## Left out

- Numbers are integers. Floating point, NaN as a value and Infinity are not modelled; `Number(input)` is a host function that may answer NaN (None).
- `Js.Lower` maps only ASCII letters. Full Unicode case mapping is not modelled.
- `Js.StringLe` compares characters, not UTF-16 code units. It agrees with the code on the Basic Multilingual Plane.
- `Object.keys` puts array-index-like keys first, in numeric order. The model keeps every key in insertion order.
- Lodash `sortBy` compares keys by its own ordering of mixed JavaScript values. The model keeps that ordering abstract (`le`) and assumes a total preorder where a lemma needs one.
- `new Date(input)` and date printing are host functions. Invalid dates are not told apart.
- The HTTP request (axios), the gateway URL, `XLSX.read` and `sheet_to_json` are outside the model. A worksheet arrives as its column count, row-1 cells and records.
- Tags inherited from `Object.prototype` (such as `constructor`) are not looked up in the decoder map.
- `DocumentId.DecodeDocumentId`: `decodeURIComponent` is a parameter, and its `URIError` on malformed input is not modelled. `window.location.search` is a parameter.
- React rendering, `setState` batching, `formatHeader`, `isNumeric`, `BlockUI`, `Toaster`, `localStorage`, the clipboard, view modes and the record dialog are outside the model.
- `View.DataView.OnHeaderSearchTermChanged` takes the `data-header-name` attribute and the input's value as parameters; the DOM event is not modelled.
