# Products page model

A Dafny model of the Products page of the pharmacy admin dashboard
(`src/layouts/tables/product.js`): the page state, the handlers that edit the
new-product draft, upload images, create a product and load the product,
category and author lists, and the values the page derives for rendering
(the searched rows, the spinner, the pagination, the disabled state of the
create button).

The page is the class `ProductsPage.Products`; each React state slot is a
field and each handler is a method whose `modifies` clause names exactly the
slots its `setState` calls touch. A network exchange is a parameter of the
handler that performs it (`UploadResponse`, `CreateResponse`,
`ListResponse`, `LookupResponse`), standing for what the server answered or
for the request throwing; the handler then runs to completion with that
answer. The draft's pure operations (field updates, comma-list parsing,
image removal, validation, the request payload) are functions on the
`ProductDraft.Draft` datatype; the list operations (search, list URL, page
count) are functions in `ProductList`. The JavaScript semantics the page
relies on — falsiness, `||` fallbacks, template-literal conversion,
`parseInt`, `trim`, `split`, `join`, `toLowerCase`, `includes` — are in
`JsValue` and `JsText`.

Behaviour of the code worth noting, all of it modelled as written:

- closing the dialog does not reset the draft; only a successful creation
  does;
- the submit handler checks only product name, MRP, selling price and
  author; the create button additionally requires brand and category
  (`ProductDraft.SubmitCheckIgnoresBrand` exhibits a draft the button
  refuses but the handler would accept);
- a product list reply whose body has no `products` leaves `loading` on;
- the handler's own reload after a successful creation requests the page
  the click was rendered with (its `fetchProducts` is the closure of that
  render); when that page was not 1, setting `currentPage` to 1 also makes
  the effect fetch page 1 (`ProductsPage.Products.Refresh`), and which reply
  lands last is not modelled (see "## Left out");
- clearing a comma-list field yields the list `[""]`, not `[]`
  (`ProductDraft.EmptiedListField`).

## Model

| member | source | states |
|---|---|---|
| JsText.Trim | src/layouts/tables/product.js:231 | `trim` leaves no white space at either end and never lengthens the text |
| JsText.TrimStartDropsWhitespace | src/layouts/tables/product.js:231 | what trimming the start removes is a white-space prefix of the text |
| JsText.TrimEndDropsWhitespace | src/layouts/tables/product.js:231 | what trimming the end removes is a white-space suffix of the text |
| JsText.TrimKeepsOut | src/layouts/tables/product.js:231 | a character absent from a text is absent from its trim |
| JsText.TrimIdempotent | src/layouts/tables/product.js:231 | trimming twice equals trimming once |
| JsText.Split | src/layouts/tables/product.js:231 | `split` yields one piece more than there are separators, no piece holding the separator |
| JsText.JoinSplit | src/layouts/tables/product.js:231 | joining the pieces of a split with the separator gives back the text |
| JsText.SplitJoin | src/layouts/tables/product.js:231 | splitting the join of separator-free pieces gives back the pieces |
| JsText.TrimEachAt | src/layouts/tables/product.js:231 | element k of `map(item => item.trim())` is the trim of element k |
| JsText.LowerIdempotent | src/layouts/tables/product.js:458-462 | lower-casing twice equals lower-casing once |
| JsText.IncludesExactly | src/layouts/tables/product.js:460-462 | `includes` holds exactly when the needle occurs at some position of the text |
| JsText.IncludesEmpty | src/layouts/tables/product.js:460-462 | every text includes the empty string |
| JsText.NatToDecimal | src/layouts/tables/product.js:173-176 | the decimal text of a number is non-empty, all digits, and starts with 0 only for 0 |
| JsText.DecimalValue | src/layouts/tables/product.js:173-176 | the decimal digits of n denote n |
| JsValue.ParseDigits | src/layouts/tables/product.js:325 | the digit reader gives NaN exactly when no digit leads, and otherwise a non-negative value |
| JsValue.ParseIntDecimal | src/layouts/tables/product.js:325-344 | `parseInt` reads back the decimal text of every integer, negative ones included |
| JsValue.ParseIntOfNumber | src/layouts/tables/product.js:325-344 | `parseInt` of an integral number is that number |
| ProductDraft.SetScalarAt | src/layouts/tables/product.js:217-220 | after `{...prev, [name]: value}` the named field holds the value and every other scalar field keeps its own |
| ProductDraft.SetScalarKeepsLists | src/layouts/tables/product.js:217-220 | a scalar edit leaves the three lists and the prescription flag unchanged |
| ProductDraft.SetList | src/layouts/tables/product.js:227-233 | a list edit sets the named list and leaves the other lists, every scalar and the flag unchanged |
| ProductDraft.ListFromText | src/layouts/tables/product.js:231 | the parsed list has one entry per comma plus one, each comma-free and trimmed |
| ProductDraft.ListFromTextAt | src/layouts/tables/product.js:231 | entry k of the parsed list is the trim of the k-th comma piece |
| ProductDraft.DisplayedListReparses | src/layouts/tables/product.js:783-791 | a list of trimmed comma-free entries, shown joined by ", " and parsed again, is unchanged |
| ProductDraft.EmptiedListField | src/layouts/tables/product.js:231 | clearing a list field yields the one-entry list `[""]` |
| ProductDraft.FilterOutIndexIsSlice | src/layouts/tables/product.js:291-296 | the index filter keeps exactly the elements at other positions, in order |
| ProductDraft.WithoutIndexRemovesOne | src/layouts/tables/product.js:291-296 | removing a valid index drops exactly that image; an out-of-range index changes nothing |
| ProductDraft.AppendUploaded | src/layouts/tables/product.js:260-264 | the uploaded file names, prefixed by the server address and "/", follow the existing images in order |
| ProductDraft.ResetIsInitial | src/layouts/tables/product.js:377-410 | the draft written after a creation equals the initial draft |
| ProductDraft.ButtonCoversSubmitCheck | src/layouts/tables/product.js:932-939 | the button is disabled exactly when the submit check fails or brand or category is falsy, so an enabled button passes the submit check |
| ProductDraft.SubmitCheckIgnoresBrand | src/layouts/tables/product.js:301-318 | some draft is refused by the button but accepted by the submit check |
| ProductDraft.InitialDraftIncomplete | src/layouts/tables/product.js:77-110 | the initial draft fails the submit check and disables the button |
| ProductDraft.PayloadIds | src/layouts/tables/product.js:320-352 | category and author ids given as numbers or decimal text reach the payload as those integers, and the lists and flag are copied |
| ProductDraft.ParacetamolAccepted | src/layouts/tables/product.js:932-939 | a filled-in draft enables the button and passes the submit check |
| ProductDraft.ParacetamolPayload | src/layouts/tables/product.js:320-352 | the payload of that draft carries its parsed ids and its fields |
| ProductList.FilteredIsSubsequence | src/layouts/tables/product.js:457-464 | the searched rows are a subsequence of the loaded rows |
| ProductList.FilteredKeepsExactly | src/layouts/tables/product.js:457-464 | a row is shown exactly when it is loaded and its name, brand or category includes the lower-cased term |
| ProductList.FilteredCounts | src/layouts/tables/product.js:457-464 | each row occurs among the shown rows as often as among the loaded rows when it matches, and not at all otherwise |
| ProductList.EmptySearchKeepsAll | src/layouts/tables/product.js:457-464 | the empty search term shows every loaded row |
| ProductList.SearchIgnoresTermCase | src/layouts/tables/product.js:458 | the search gives the same rows for a term and its lower-cased form |
| ProductList.EndpointsDiffer | src/layouts/tables/product.js:173-176 | the "all" filter and a category filter never request the same URL |
| ProductList.UrlDeterminesPage | src/layouts/tables/product.js:173-176 | for one filter, different pages request different URLs |
| ProductList.TotalPagesFrom | src/layouts/tables/product.js:190 | `totalPages \|\| 1` is the server's count when that is non-zero and 1 otherwise |
| JsText.Join | src/layouts/tables/product.js:783 | definition of `join` with a separator (partnered by `JsText.JoinSplit` and `JsText.SplitJoin`) |
| JsText.TrimEach | src/layouts/tables/product.js:231 | definition of `map(item => item.trim())`; states that it keeps the length (element-wise by `JsText.TrimEachAt`) |
| JsText.ToLowerAscii | src/layouts/tables/product.js:458 | definition of `toLowerCase` on ASCII letters (partnered by `JsText.LowerIdempotent`) |
| JsText.Includes | src/layouts/tables/product.js:460 | definition of `includes` (partnered by `JsText.IncludesExactly`) |
| JsValue.Falsy | src/layouts/tables/product.js:303-308 | definition of `!x` on strings and numbers: the empty string and zero |
| JsValue.Or | src/layouts/tables/product.js:271 | definition of `x \|\| fallback` for a missing or empty text (also at line 365) |
| JsValue.ToText | src/layouts/tables/product.js:173-176 | definition of `${x}`: a string as is, a number as its decimal text |
| JsValue.ParseIntText | src/layouts/tables/product.js:325 | definition of `parseInt` on text: leading white space, sign, `0x`, digits (partnered by `JsValue.ParseIntDecimal`) |
| JsValue.ParseInt | src/layouts/tables/product.js:325 | definition of `parseInt` on a draft value (partnered by `JsValue.ParseIntOfNumber`) |
| ProductDraft.Get | src/layouts/tables/product.js:217-220 | reads the scalar field a form input names |
| ProductDraft.SetScalar | src/layouts/tables/product.js:217-220 | definition of `{...prev, [name]: value}` (partnered by `ProductDraft.SetScalarAt`) |
| ProductDraft.InitialDraft | src/layouts/tables/product.js:77-110 | the initial draft, field for field |
| ProductDraft.SubmittedDraftReset | src/layouts/tables/product.js:377-410 | the draft written after a creation, field for field (partnered by `ProductDraft.ResetIsInitial`) |
| ProductDraft.FilterOutIndex | src/layouts/tables/product.js:294 | definition of `filter((_, i) => i !== index)` (partnered by `ProductDraft.FilterOutIndexIsSlice`) |
| ProductDraft.WithoutIndex | src/layouts/tables/product.js:294 | the filter from position 0 (partnered by `ProductDraft.WithoutIndexRemovesOne`) |
| ProductDraft.MissingRequired | src/layouts/tables/product.js:303-308 | definition of the submit check on name, MRP, selling price and author |
| ProductDraft.CreateDisabled | src/layouts/tables/product.js:932-939 | definition of the button's disabled predicate (partnered by `ProductDraft.ButtonCoversSubmitCheck`) |
| ProductDraft.BuildPayload | src/layouts/tables/product.js:320-352 | definition of the request body (partnered by `ProductDraft.PayloadIds`) |
| ProductList.FieldMatches | src/layouts/tables/product.js:460-462 | definition of `(field \|\| "").toLowerCase().includes(search)` |
| ProductList.Matches | src/layouts/tables/product.js:458-463 | definition of the search predicate over name, brand and category |
| ProductList.FilteredProducts | src/layouts/tables/product.js:457-464 | definition of the filter (partnered by `ProductList.FilteredCounts` and `ProductList.FilteredIsSubsequence`) |
| ProductList.ListUrl | src/layouts/tables/product.js:173-176 | definition of the list URL (partnered by `ProductList.EndpointsDiffer` and `ProductList.UrlDeterminesPage`) |
| ProductList.ListPath | src/layouts/tables/product.js:173-176 | the path part of that URL |
| ProductList.ShowsPagination | src/layouts/tables/product.js:565 | the pagination is shown for more than one page |
| ProductList.ShowsSpinner | src/layouts/tables/product.js:466 | the spinner is shown while loading with no rows |
| ProductsPage.UploadAccepted | src/layouts/tables/product.js:260 | definition of `response.ok && data?.files` |
| ProductsPage.CreateSucceeded | src/layouts/tables/product.js:365 | definition of `response.ok` for the create request |
| ProductsPage.Products.SpinnerShown | src/layouts/tables/product.js:466 | the spinner condition on the page state |
| ProductsPage.Products.PaginationShown | src/layouts/tables/product.js:565 | the pagination condition on the page state |
| ProductsPage.Products.CreateButtonDisabled | src/layouts/tables/product.js:932-939 | the button's disabled state on the page's draft |
| ProductsPage.UploadErrorMessage | src/layouts/tables/product.js:266-285 | a rejected upload shows the server's message, else "Upload failed"; a thrown upload shows the retry message |
| ProductsPage.CreateErrorMessage | src/layouts/tables/product.js:365-423 | a refused create shows the server's non-empty message, else "Failed to create product"; a thrown one shows the error's message |
| ProductsPage.ListAfterFetch | src/layouts/tables/product.js:168-205 | a body with products sets the rows and the page count `totalPages \|\| 1`; otherwise rows and count are kept; loading ends unless the body lacks products; a failure reports |
| ProductsPage.PaginationAfterFetch | src/layouts/tables/product.js:565-573 | after a fetch the pagination shows exactly when the server reported more than one page, or, with no rows in the body, when it showed before |
| ProductsPage.NoProductsKeepsSpinner | src/layouts/tables/product.js:186-193 | a body without products leaves the spinner up on an empty page |
| ProductsPage.Products.constructor | src/layouts/tables/product.js:54-110 | the first render: loading, page 1 of 1, the "all" filter, closed snackbar and dialog, the initial draft |
| ProductsPage.Products.Filtered | src/layouts/tables/product.js:457-464 | the shown rows are a subsequence of the loaded rows, every copy of a matching row is kept and no other row, and an empty term shows all |
| ProductsPage.Products.FetchProducts | src/layouts/tables/product.js:168-206 | the request goes to the list URL of the page and filter, and the list state becomes `ListAfterFetch` of the old one |
| ProductsPage.Products.Refresh | src/layouts/tables/product.js:213-215 | re-fetching uses the current page and filter |
| ProductsPage.Products.FetchCategories | src/layouts/tables/product.js:116-140 | a body with categories replaces them; otherwise they are kept; a failure reports |
| ProductsPage.Products.FetchAuthors | src/layouts/tables/product.js:142-166 | a body with authors replaces them; otherwise they are kept; a failure reports |
| ProductsPage.Products.SelectCategory | src/layouts/tables/product.js:510-516 | choosing a filter sets it and returns to page 1 |
| ProductsPage.Products.ChooseCategory | src/layouts/tables/product.js:510-516 | choosing a filter, then the effect's re-fetch, requests page 1 of that filter |
| ProductsPage.Products.ChangePage | src/layouts/tables/product.js:570 | the pagination sets the current page |
| ProductsPage.Products.ChangeSearch | src/layouts/tables/product.js:529-534 | the search field sets the term |
| ProductsPage.Products.OpenDialog | src/layouts/tables/product.js:541 | the add button opens the dialog |
| ProductsPage.Products.CloseDialog | src/layouts/tables/product.js:925 | cancelling closes the dialog and keeps the draft |
| ProductsPage.Products.HandleCloseSnackbar | src/layouts/tables/product.js:429-437 | closing the snackbar hides it and keeps its message and severity |
| ProductsPage.Products.HandleInputChange | src/layouts/tables/product.js:217-220 | the named field takes the value, every other field of the draft is kept |
| ProductsPage.Products.HandleBooleanChange | src/layouts/tables/product.js:222-225 | the checkbox sets the prescription flag and nothing else |
| ProductsPage.Products.HandleArrayChange | src/layouts/tables/product.js:227-233 | the named list becomes the parsed text, one entry per comma plus one, every scalar kept |
| ProductsPage.Products.HandleImageUpload | src/layouts/tables/product.js:235-289 | no files changes nothing; otherwise an accepted upload appends the file URLs and leaves the snackbar as it was, a rejected one reports the error, and uploading always ends |
| ProductsPage.Products.HandleRemoveImage | src/layouts/tables/product.js:291-296 | the draft loses exactly the image at the index |
| ProductsPage.Products.CompleteCreate | src/layouts/tables/product.js:367-413 | a creation reports success, resets the draft, closes the dialog, sets page 1 and reloads the rendered page |
| ProductsPage.Products.HandleCreateProduct | src/layouts/tables/product.js:298-427 | an incomplete draft sends nothing and warns; otherwise the payload of the draft is sent, success completes the creation and reloads, failure reports; loading is off at the end |
| ProductsPage.CreateThenReload | src/layouts/tables/product.js:367-413 | a successful creation from a complete draft reloads the page the click was rendered with and shows the success message |

## Left out

- Network, JSON decoding, `localStorage`, the authentication header and `FormData`: replaced by the response parameters of the handlers.
- Interleaving of the awaits: each handler runs atomically with its answers, so races between overlapping fetches are not modelled, among them the handler's own reload after a creation and the page-1 fetch of the effect that its `currentPage` change triggers. The effect that re-fetches after a page or filter change is the explicit `Refresh` call.
- `parseFloat` of MRP and selling price: floating point is not modelled; the payload carries those two values as entered.
- JavaScript numbers are integers in the model; fractional and non-finite numbers, and number-to-text conversion beyond decimal integers, are not modelled.
- `toLowerCase` is modelled on ASCII letters only.
- Rendering: the table columns, the dialog's form layout, the empty-table message and the Material UI components. Only the values the rendering reads (shown rows, spinner, pagination, button state) are modelled.
- The default server address taken from the environment: `baseUrl` is a constructor parameter.
- `console.error` logging.
- Listed products are reduced to the three fields the search reads.
- The column definitions and `currentProduct` state, which no handler of the page uses.
- ProductsPage.Products.HandleBooleanChange: the source writes the checkbox's `name` attribute; the only checkbox wired to it (line 739) is the prescription flag, so the model fixes that field.
