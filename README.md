# Badget and Category Listing views, modelled in Dafny

The repository is a React admin console over a hosted data store. Its logic lives
in the bookkeeping of two components:

- **Badget** (`src/NewComponents/Badget.js`): a list of budget records ("badgets")
  fetched once, searched case-insensitively by PWP code or creator, shown one page
  at a time with a page size taken from 5, 10 or 20, and an edit form whose
  submission is validated fail-fast (code, amount, user, balance) before an update
  is sent.
- **Category Listing** (`src/NewComponents/Category_Listing.jsx`): choosing a
  category loads its listings (ids stringified, a null description shown as `""`);
  listings are searched by name, saved through a form (name checked first, then the
  selected category; a truthy draft id means update, otherwise insert into the
  selected category), and deleted by id after confirmation.

Each component is a Dafny class whose fields are its `useState` slots and whose
methods are its handlers (`badget.dfy`, `category_listing.dfy`). What the handlers
compute (the search filter, the page arithmetic, validation, the save decision, the
row mapping, delete-by-id) is written as functions, and the properties are proved
about those functions; each method's `ensures` ties the new state to them.

Every call into the data store is a parameter: a `Fetch<T>` (rows, or an error
message) for a query and an `Outcome` for an insert, update or delete
(`outcomes.dfy`). A handler whose store call is followed by a re-fetch takes both
answers: `handleSave` awaits its re-fetch (Category_Listing.jsx:122), while
`handleSubmit` starts `fetchBadgets()` without awaiting it (Badget.js:106), and
`HandleSubmit` runs that fetch as the last step of the handler, its answer being the
parameter `refetch`. The confirmation dialog of a delete is a boolean parameter. The
pop-ups are returned as `Notice` values. `Number(...)`/`isNaN` is the parameter
`isNumeric`, about which nothing is assumed. The string operations live in
`text.dfy`, the filter and its laws in `lists.dfy`.

Two behaviours of the code are kept on purpose:

- `goToPage(p)` with no pages at all and `p >= 1` stores page 0, not page 1
  (Badget.js:125-126). Page 0 then shows no rows whatever the list holds, because
  `slice(-size, 0)` is empty (`Badget.PageZeroIsEmpty`). The page buttons never
  ask for page 0, but the Prev button stays enabled on a page above 1
  (Badget.js:234-235), so after a re-fetch that leaves no rows it calls `goToPage`
  with a page from 1 on, and `goToPage` stores 0.
- A failed fetch keeps the previous badgets (Badget.js:33-36) but empties the
  listings (Category_Listing.jsx:42-44).

## Model

| member | source | states |
|---|---|---|
| `Text.Contains` | src/NewComponents/Badget.js:114-115 | `includes` holds exactly when the needle occurs in the haystack at some offset |
| `Text.LowerChar` | src/NewComponents/Badget.js:112 | the lower-cased character is never an upper-case letter, and a character that is not one is kept |
| `Text.Lower` | src/NewComponents/Badget.js:112 | `toLowerCase` keeps the length and lower-cases each character in place |
| `Text.IsSpace` | src/NewComponents/Badget.js:72 | a white-space character that `trim` removes is neither an upper-case letter nor a digit |
| `Text.TrimStart` | src/NewComponents/Badget.js:72 | the result is a suffix of the input, everything cut off is white space, and it does not start with white space |
| `Text.TrimEnd` | src/NewComponents/Badget.js:72 | the result is a prefix of the input, everything cut off is white space, and it does not end with white space |
| `Text.Trim` | src/NewComponents/Badget.js:72 | `s.trim()` is no longer than `s`, neither starts nor ends with white space, and is empty exactly when `s` consists of white space only |
| `Text.NatToString` | src/NewComponents/Category_Listing.jsx:47 | the decimal rendering of an id is a non-empty string of digits |
| `Text.LowerIdempotent` | src/NewComponents/Badget.js:112 | lower-casing twice is lower-casing once |
| `Text.ContainsEmpty` | src/NewComponents/Badget.js:114 | every string includes the empty term |
| `Text.ParseNatToString` | src/NewComponents/Category_Listing.jsx:47 | the decimal rendering of an id reads back to the id |
| `Text.NatToStringInjective` | src/NewComponents/Category_Listing.jsx:47 | distinct ids render as distinct strings |
| `Lists.Filter` | src/NewComponents/Badget.js:111-117 | the result holds exactly the elements of the input that satisfy the predicate, and is no longer than the input |
| `Lists.FilterConcat` | src/NewComponents/Category_Listing.jsx:185-187 | filtering distributes over concatenation, so the original order is kept |
| `Lists.FilterCount` | src/NewComponents/Category_Listing.jsx:154 | each kept element keeps its multiplicity, every dropped element has none |
| `Lists.FilterKeepsAll` | src/NewComponents/Badget.js:111-117 | a filter every element passes returns its input |
| `Lists.FilterCommute` | src/NewComponents/Category_Listing.jsx:154 | two filters can be applied in either order |
| `Badget.DraftOf` | src/NewComponents/Badget.js:47-54 | the draft takes the record's id and four text fields, and its flag is set exactly when the record's is `true` |
| `Badget.Validate` | src/NewComponents/Badget.js:72-88 | a reported error names a rule the draft breaks, and no error means a non-blank code and user and non-empty numeric amount and balance |
| `Badget.ApplyChange` | src/NewComponents/Badget.js:60-66 | the named field takes the value (`checked` for the checkbox), every other draft field and the id are unchanged |
| `Badget.ValidateFirstFailure` | src/NewComponents/Badget.js:72-88 | no error exactly when all four rules hold; otherwise the reported rule fails and every earlier rule in the order code, amount, user, balance holds |
| `Badget.SubmitRequest` | src/NewComponents/Badget.js:72-99 | an update is dispatched exactly when validation passes, for the draft's id and with its approved flag |
| `Badget.SubmitCarriesDraft` | src/NewComponents/Badget.js:92-98 | a dispatched update carries every text field as the draft holds it |
| `Badget.Matches` | src/NewComponents/Badget.js:113-116 | the empty term matches every record, and a matching term is no longer than the code or the creator |
| `Badget.FilterBadgets` | src/NewComponents/Badget.js:111-117 | the filtered list holds exactly the records whose lower-cased code or creator includes the lower-cased term |
| `Badget.EmptyTermKeepsAll` | src/NewComponents/Badget.js:111-117 | an empty search term keeps every record, in order |
| `Badget.SearchIgnoresCase` | src/NewComponents/Badget.js:112-115 | searching for the lower-cased term gives the same list as the raw term |
| `Badget.TotalPages` | src/NewComponents/Badget.js:120 | the page count is the ceiling of rows over page size: enough pages for every row, and no page more; zero pages exactly when there are no rows |
| `Badget.StartIndex` | src/NewComponents/Badget.js:121 | the first row of a page lies `size` rows before the first row of the next, and is a valid offset from page 1 on |
| `Badget.SliceIndex` | src/NewComponents/Badget.js:122 | `slice` reads an index into `[0, len]`, keeping one already there |
| `Badget.JsSlice` | src/NewComponents/Badget.js:122 | `slice` returns no more than the input, only its elements, and the plain sub-sequence for in-range bounds |
| `Badget.PageOf` | src/NewComponents/Badget.js:121-122 | a page holds at most `size` rows, each from the filtered list |
| `Badget.PageIsSlice` | src/NewComponents/Badget.js:121-122 | page `p >= 1` is the contiguous run starting at `(p - 1) * size`, at most `size` long, and not empty when `p` is within the page count |
| `Badget.PageZeroIsEmpty` | src/NewComponents/Badget.js:121-122 | page 0 shows no rows |
| `Badget.PagesUpToPrefix` | src/NewComponents/Badget.js:121-122 | pages `1..k` in order are the first `k * size` rows |
| `Badget.PagesCoverList` | src/NewComponents/Badget.js:120-122 | pages `1..totalPages` in order are the whole filtered list |
| `Badget.ClampPage` | src/NewComponents/Badget.js:124-128 | a page in `[1, total]` is kept, below 1 gives 1, beyond `total` gives `total` (0 when there are no pages); never negative |
| `Badget.ClampIsNearest` | src/NewComponents/Badget.js:124-128 | with at least one page the stored page is in range, is the in-range page nearest to the request, and clamping again changes nothing |
| `Badget.ClampWithNoPages` | src/NewComponents/Badget.js:125-126 | with no pages a request from 1 on stores 0 and a request below 1 stores 1 |
| `Badget.ClampedPageShowsRows` | src/NewComponents/Badget.js:120-128 | with at least one row, the page `goToPage` stores shows rows |
| `Badget.BadgetView.constructor` | src/NewComponents/Badget.js:8-23 | initial slots: no rows, loading, modal closed, empty draft, empty term, page 1, 5 rows per page |
| `Badget.BadgetView.FilteredBadgets` | src/NewComponents/Badget.js:111-117 | the filtered rows are exactly the loaded rows that match the current term |
| `Badget.BadgetView.PageCount` | src/NewComponents/Badget.js:120 | there are no pages exactly when no row matches, and the pages hold every matching row |
| `Badget.BadgetView.CurrentItems` | src/NewComponents/Badget.js:121-122 | the table shows at most a page's worth of rows, each a matching row |
| `Badget.BadgetView.FetchBadgets` | src/NewComponents/Badget.js:26-39 | a successful fetch replaces the rows, a failed one keeps them and raises an error; loading is false afterwards |
| `Badget.BadgetView.OpenEditModal` | src/NewComponents/Badget.js:46-57 | the draft becomes the record (a null approved flag as false); editing and modal flags are set |
| `Badget.BadgetView.HandleChange` | src/NewComponents/Badget.js:60-66 | the draft becomes `ApplyChange` of the old draft |
| `Badget.BadgetView.CancelEdit` | src/NewComponents/Badget.js:340 | the modal closes |
| `Badget.BadgetView.HandleSubmit` | src/NewComponents/Badget.js:69-108 | what is sent is `SubmitRequest` of the draft; on a validation failure or an update error nothing changes; on success the modal closes, the rows are re-fetched and the draft is kept |
| `Badget.BadgetView.GoToPage` | src/NewComponents/Badget.js:124-128 | the stored page is `ClampPage` of the request and the current page count; nothing else changes |
| `Badget.BadgetView.HandleItemsPerPageChange` | src/NewComponents/Badget.js:130-133 | the page size is set and the page goes back to 1; rows and term are unchanged |
| `Badget.BadgetView.HandleSearchChange` | src/NewComponents/Badget.js:144-147 | the term is set and the page goes back to 1; rows and page size are unchanged; the table then shows page 1 of the rows matching the new term, which is not empty when some row matches |
| `CategoryListing.NullIfEmpty` | src/NewComponents/Category_Listing.jsx:94 | `description || null`: null exactly for the empty string, the string itself otherwise |
| `CategoryListing.MapRows` | src/NewComponents/Category_Listing.jsx:46-50 | one listing per row, same length and order |
| `CategoryListing.ToListing` | src/NewComponents/Category_Listing.jsx:47-49 | the listing's id is a digit string that reads back to the row's id, the name is kept, the description is the row's or `""` |
| `CategoryListing.MapRowsKeepsIdsDistinct` | src/NewComponents/Category_Listing.jsx:47 | rows with different ids give listings with different ids |
| `CategoryListing.NameMatches` | src/NewComponents/Category_Listing.jsx:186 | the empty term matches every listing, and a matching term is no longer than the name |
| `CategoryListing.FilterListings` | src/NewComponents/Category_Listing.jsx:185-187 | the filtered list holds exactly the listings whose lower-cased name includes the lower-cased term |
| `CategoryListing.EmptyTermKeepsAllListings` | src/NewComponents/Category_Listing.jsx:185-187 | an empty term keeps every listing |
| `CategoryListing.RemoveById` | src/NewComponents/Category_Listing.jsx:154 | the remaining listings are exactly those whose id differs from the target |
| `CategoryListing.RemoveByIdExact` | src/NewComponents/Category_Listing.jsx:154 | every other listing keeps its multiplicity, the target's are gone, and a list without the target is returned unchanged |
| `CategoryListing.RemoveByIdRemovesOne` | src/NewComponents/Category_Listing.jsx:154 | with distinct ids, deleting a present id shortens the list by exactly one |
| `CategoryListing.DeleteThenSearch` | src/NewComponents/Category_Listing.jsx:154-187 | the searched list after a delete is the searched list before it without the deleted id |
| `CategoryListing.SaveDecision` | src/NewComponents/Category_Listing.jsx:71-111 | a blank name is refused first, then a missing category; otherwise a request is sent: an update of name and description for a truthy id, else an insert with the selected code and name; an empty description is sent as null |
| `CategoryListing.EditingFetchedListingUpdates` | src/NewComponents/Category_Listing.jsx:47-96 | a fetched listing opened for editing and saved with a name and a selected category is sent as an update of its own id |
| `CategoryListing.ApplyInput` | src/NewComponents/Category_Listing.jsx:62-65 | the named field takes the value, the rest of the draft is unchanged |
| `CategoryListing.CategoryListingView.constructor` | src/NewComponents/Category_Listing.jsx:9-14 | initial slots: nothing selected, no listings, form hidden, empty draft and term |
| `CategoryListing.CategoryListingView.FilteredListings` | src/NewComponents/Category_Listing.jsx:185-187 | the filtered listings are exactly the loaded listings whose name matches the current term |
| `CategoryListing.CategoryListingView.FetchListings` | src/NewComponents/Category_Listing.jsx:36-52 | the listings become the mapped rows, or empty when the query fails |
| `CategoryListing.CategoryListingView.HandleClick` | src/NewComponents/Category_Listing.jsx:55-60 | name and code are selected, the form is hidden, and the listings are loaded for that code |
| `CategoryListing.CategoryListingView.HandleInputChange` | src/NewComponents/Category_Listing.jsx:62-65 | the draft becomes `ApplyInput` of the old draft |
| `CategoryListing.CategoryListingView.HandleSave` | src/NewComponents/Category_Listing.jsx:68-131 | what is sent is `SaveDecision`'s request; a refusal or a failed request changes nothing; success hides the form, resets the draft and reloads the selected code's listings; an insert always carries the selected category's name |
| `CategoryListing.CategoryListingView.HandleDelete` | src/NewComponents/Category_Listing.jsx:133-171 | unconfirmed: nothing is sent or changed; confirmed and failed: the list is unchanged; confirmed and accepted: the list becomes `RemoveById` of the old list, and so does the searched list |
| `CategoryListing.CategoryListingView.OpenFormModal` | src/NewComponents/Category_Listing.jsx:173-176 | the draft becomes the listing to edit or the empty draft, and the form opens |
| `CategoryListing.CategoryListingView.CloseModal` | src/NewComponents/Category_Listing.jsx:178-183 | selection, form flag and listings are cleared |
| `CategoryListing.CategoryListingView.CancelForm` | src/NewComponents/Category_Listing.jsx:347 | the form is hidden |
| `CategoryListing.CategoryListingView.HandleSearchChange` | src/NewComponents/Category_Listing.jsx:223 | the search term is set |

## Left out

- The data store client (`select`, `order`, `eq`, `insert`, `update`, `delete`) is replaced by the outcome parameters; server-side ordering is not observable here and is not modelled.
- Concurrency: every handler runs to completion before the next starts; overlapping fetches and their stale overwrites are not modelled.
- `Number(...)` and `isNaN` are the parameter `isNumeric`; the conversion of the amount and balance to numbers in the update payload is not modelled, so the payload carries their text.
- Null column values are not modelled in any column: text columns, the numeric amount and remaining balance (held as text), and a category's code are never null here. In the code a null amount or balance passes validation, since `null === ''` is false and `Number(null)` is 0 (Badget.js:76, 84), and the update then writes 0 for it (Badget.js:94, 96).
- Ids are exact non-negative integers; a JavaScript number above 2^53 loses precision, so its `toString` (Category_Listing.jsx:47) can differ from the stored id, which the model does not capture.
- `Math.ceil(n / size)` is computed in floating point by the code; the model uses the exact integer ceiling, which agrees with it for every length below 2^53.
- `toLowerCase` is modelled on ASCII letters only; other letters are left as they are.
- `fetchCategories` (Category_Listing.jsx:17-33) and the list of categories it fills are not part of this model; `HandleClick` receives the chosen category.
- The pop-ups (`Swal.fire`), console logging, rendering, styles and date and number formatting are left out; pop-ups appear only as returned `Notice` values.
- The HTTP relay in `server.js` is I/O wiring and is not part of this model.
- `Badget.BadgetView.HandleChange`: the change event is a text input on one of the four text fields or the `approved` checkbox, the only inputs the form renders; an event naming another field is not modelled.
