/** The Products page of the admin dashboard: its state and the handlers that
    change it. Every network exchange is a parameter of the handler that
    performs it, standing for what the server answered (or that the request
    or the decoding of its JSON body threw); a handler runs to completion
    with that answer. */
module ProductsPage {
  import opened JsText
  import opened JsValue
  import opened ProductDraft
  import opened ProductList

  datatype Severity = Success | Warning | Error

  /** The notification the page shows in its corner. */
  datatype Snackbar = Snackbar(open: bool, message: string, severity: Severity)

  /** An entry of the category select and of the author select. */
  datatype Category = Category(id: Value, name: string)
  datatype Author = Author(id: Value, name: string)

  /** The answer to `POST /upload-files`: the HTTP status was ok or not, and
      the body's optional `files` and `message`. */
  datatype UploadResponse = UploadReply(ok: bool, files: Option<seq<string>>, message: Option<string>) | UploadThrew

  /** The answer to `POST /product.add`; a thrown error carries its message. */
  datatype CreateResponse = CreateReply(ok: bool, message: Option<string>) | CreateThrew(error: string)

  /** The answer to a product list request: the body's optional `products`
      and `totalPages`. */
  datatype ListResponse = ListReply(products: Option<seq<ListedProduct>>, totalPages: Option<int>) | ListThrew

  /** The answer to `GET /productCategory.get` or `GET /authors`: the body's
      optional list. */
  datatype LookupResponse<T> = LookupReply(items: Option<seq<T>>) | LookupThrew

  const UploadFailed: string := "Upload failed"
  const UploadRetry: string := "Upload failed. Please try again."
  const CreateFailed: string := "Failed to create product"
  const Created: string := "Product created successfully!"
  const LoadProductsFailed: string := "Failed to load products"
  const LoadCategoriesFailed: string := "Failed to load categories"
  const LoadAuthorsFailed: string := "Failed to load authors"

  /** The upload stored files and said which. */
  predicate UploadAccepted(r: UploadResponse) {
    r.UploadReply? && r.ok && r.files.Some?
  }

  /** The message a rejected upload shows. */
  function UploadErrorMessage(r: UploadResponse): (m: string)
    requires !UploadAccepted(r)
    ensures m != ""
    ensures r.UploadReply? && r.message.Some? && r.message.value != "" ==> m == r.message.value
    ensures r.UploadReply? && (r.message.None? || r.message.value == "") ==> m == UploadFailed
    ensures r.UploadThrew? ==> m == UploadRetry
  {
    match r
    case UploadReply(_, _, message) => Or(message, UploadFailed)
    case UploadThrew => UploadRetry
  }

  predicate CreateSucceeded(r: CreateResponse) {
    r.CreateReply? && r.ok
  }

  /** The message a failed create shows: the server's message, the fixed
      fallback when it gave none, or the message of what was thrown. */
  function CreateErrorMessage(r: CreateResponse): (m: string)
    requires !CreateSucceeded(r)
    ensures r.CreateReply? && r.message.Some? && r.message.value != "" ==> m == r.message.value
    ensures r.CreateReply? && (r.message.None? || r.message.value == "") ==> m == CreateFailed
    ensures r.CreateThrew? ==> m == r.error
  {
    match r
    case CreateReply(_, message) => Or(message, CreateFailed)
    case CreateThrew(error) => error
  }

  /** The part of the page state a product list fetch writes. */
  datatype ListView = ListView(products: seq<ListedProduct>, totalPages: int, loading: bool, snackbar: Snackbar)

  /** The list state after `fetchProducts` received `r`. Loading is switched
      on first; a body with products replaces the rows and the page count and
      switches loading off; a body without products changes nothing more; a
      failure switches loading off and reports. */
  function ListAfterFetch(v: ListView, r: ListResponse): (w: ListView)
    ensures w.loading <==> r.ListReply? && r.products.None?
    ensures r.ListReply? && r.products.Some? ==> w.products == r.products.value && w.snackbar == v.snackbar
    ensures r.ListReply? && r.products.Some? ==> w.totalPages == TotalPagesFrom(r.totalPages)
    ensures !(r.ListReply? && r.products.Some?) ==> w.products == v.products && w.totalPages == v.totalPages
    ensures r.ListReply? ==> w.snackbar == v.snackbar
    ensures r.ListThrew? ==> w.snackbar == Snackbar(true, LoadProductsFailed, Error)
    ensures v.totalPages != 0 ==> w.totalPages != 0
  {
    var started := v.(loading := true);
    match r
    case ListReply(Some(ps), totalPages) =>
      started.(products := ps, totalPages := TotalPagesFrom(totalPages), loading := false)
    case ListReply(None, _) => started
    case ListThrew => started.(loading := false, snackbar := Snackbar(true, LoadProductsFailed, Error))
  }

  /** After a fetch the pagination is shown exactly when the server reported
      more than one page, or, when it sent no rows, when it was shown before. */
  lemma PaginationAfterFetch(v: ListView, r: ListResponse)
    ensures ShowsPagination(ListAfterFetch(v, r).totalPages) <==>
      if r.ListReply? && r.products.Some? then r.totalPages.Some? && r.totalPages.value > 1
      else ShowsPagination(v.totalPages)
  {
  }

  /** A body without products leaves the spinner up when no rows were
      loaded yet. */
  lemma NoProductsKeepsSpinner(v: ListView, t: Option<int>)
    requires v.products == []
    ensures ShowsSpinner(ListAfterFetch(v, ListReply(None, t)).loading, ListAfterFetch(v, ListReply(None, t)).products)
  {
  }

  /** The page. `baseUrl` is the configured server address. */
  class Products {
    const baseUrl: string
    var products: seq<ListedProduct>
    var loading: bool
    var searchTerm: string
    var currentPage: int
    var totalPages: int
    var categories: seq<Category>
    var selectedCategory: Value
    var snackbar: Snackbar
    var dialogOpen: bool
    var authors: seq<Author>
    var uploading: bool
    var newProduct: Draft

    /** The page as first rendered. */
    constructor (baseUrl: string)
      ensures this.baseUrl == baseUrl
      ensures products == [] && loading && searchTerm == "" && currentPage == 1 && totalPages == 1
      ensures categories == [] && selectedCategory == Str("all")
      ensures snackbar == Snackbar(false, "", Success)
      ensures !dialogOpen && authors == [] && !uploading
      ensures newProduct == InitialDraft()
    {
      this.baseUrl := baseUrl;
      products := [];
      loading := true;
      searchTerm := "";
      currentPage := 1;
      totalPages := 1;
      categories := [];
      selectedCategory := Str("all");
      snackbar := Snackbar(false, "", Success);
      dialogOpen := false;
      authors := [];
      uploading := false;
      newProduct := InitialDraft();
    }

    function View(): ListView
      reads this
    {
      ListView(products, totalPages, loading, snackbar)
    }

    /** The rows the table shows: the loaded rows that match the search, in
        their order. */
    function Filtered(): (r: seq<ListedProduct>)
      reads this
      ensures IsSubsequence(r, products)
      ensures forall p :: p in r <==> p in products && Matches(p, searchTerm)
      ensures forall p :: multiset(r)[p] == if Matches(p, searchTerm) then multiset(products)[p] else 0
      ensures searchTerm == "" ==> r == products
    {
      FilteredIsSubsequence(products, searchTerm);
      forall p ensures multiset(FilteredProducts(products, searchTerm))[p] == if Matches(p, searchTerm) then multiset(products)[p] else 0 {
        FilteredCounts(products, searchTerm, p);
      }
      EmptySearchKeepsAll(products);
      assert forall p :: p in FilteredProducts(products, searchTerm) <==> p in products && Matches(p, searchTerm) by {
        forall p ensures p in FilteredProducts(products, searchTerm) <==> p in products && Matches(p, searchTerm) {
          FilteredKeepsExactly(products, searchTerm, p);
        }
      }
      FilteredProducts(products, searchTerm)
    }

    /** The whole page is replaced by a spinner. */
    predicate SpinnerShown()
      reads this
    {
      ShowsSpinner(loading, products)
    }

    predicate PaginationShown()
      reads this
    {
      ShowsPagination(totalPages)
    }

    /** The dialog's Create Product button is disabled. */
    predicate CreateButtonDisabled()
      reads this
    {
      CreateDisabled(newProduct)
    }

    /** `fetchProducts` for the page and filter its closure saw. Returns the
        URL it requested. */
    method FetchProducts(page: int, category: Value, response: ListResponse) returns (url: string)
      modifies this`products, this`totalPages, this`loading, this`snackbar
      ensures url == ListUrl(baseUrl, page, category)
      ensures View() == ListAfterFetch(old(View()), response)
    {
      loading := true;
      url := ListUrl(baseUrl, page, category);
      match response
      case ListReply(Some(ps), t) =>
        products := ps;
        totalPages := TotalPagesFrom(t);
        loading := false;
      case ListReply(None, _) =>
      case ListThrew =>
        loading := false;
        snackbar := Snackbar(true, LoadProductsFailed, Error);
    }

    /** The effect that fetches the products whenever the page or the filter
        changes (and on the first render). */
    method Refresh(response: ListResponse) returns (url: string)
      modifies this`products, this`totalPages, this`loading, this`snackbar
      ensures url == ListUrl(baseUrl, currentPage, selectedCategory)
      ensures View() == ListAfterFetch(old(View()), response)
    {
      url := FetchProducts(currentPage, selectedCategory, response);
    }

    /** `fetchCategories`: a body with categories replaces them, a failure
        reports. */
    method FetchCategories(response: LookupResponse<Category>)
      modifies this`categories, this`snackbar
      ensures response.LookupReply? && response.items.Some? ==> categories == response.items.value
      ensures !(response.LookupReply? && response.items.Some?) ==> categories == old(categories)
      ensures response.LookupReply? ==> snackbar == old(snackbar)
      ensures response.LookupThrew? ==> snackbar == Snackbar(true, LoadCategoriesFailed, Error)
    {
      match response
      case LookupReply(Some(cs)) => categories := cs;
      case LookupReply(None) =>
      case LookupThrew => snackbar := Snackbar(true, LoadCategoriesFailed, Error);
    }

    /** `fetchAuthors`: a body with data replaces the authors, a failure
        reports. */
    method FetchAuthors(response: LookupResponse<Author>)
      modifies this`authors, this`snackbar
      ensures response.LookupReply? && response.items.Some? ==> authors == response.items.value
      ensures !(response.LookupReply? && response.items.Some?) ==> authors == old(authors)
      ensures response.LookupReply? ==> snackbar == old(snackbar)
      ensures response.LookupThrew? ==> snackbar == Snackbar(true, LoadAuthorsFailed, Error)
    {
      match response
      case LookupReply(Some(xs)) => authors := xs;
      case LookupReply(None) =>
      case LookupThrew => snackbar := Snackbar(true, LoadAuthorsFailed, Error);
    }

    /** The category select: a new filter starts again at page one. */
    method SelectCategory(value: Value)
      modifies this`selectedCategory, this`currentPage
      ensures selectedCategory == value && currentPage == 1
    {
      selectedCategory := value;
      currentPage := 1;
    }

    /** Choosing a category and the fetch its effect then runs: the first
        page of that category is requested. */
    method ChooseCategory(value: Value, response: ListResponse) returns (url: string)
      modifies this`selectedCategory, this`currentPage, this`products, this`totalPages, this`loading, this`snackbar
      ensures selectedCategory == value && currentPage == 1
      ensures url == ListUrl(baseUrl, 1, value)
      ensures View() == ListAfterFetch(old(View()), response)
    {
      SelectCategory(value);
      url := Refresh(response);
    }

    /** The pagination control. */
    method ChangePage(page: int)
      modifies this`currentPage
      ensures currentPage == page
    {
      currentPage := page;
    }

    /** The search field. */
    method ChangeSearch(text: string)
      modifies this`searchTerm
      ensures searchTerm == text
    {
      searchTerm := text;
    }

    /** The Add New Product button. */
    method OpenDialog()
      modifies this`dialogOpen
      ensures dialogOpen
    {
      dialogOpen := true;
    }

    /** Cancel, or a click outside the dialog; the draft is kept. */
    method CloseDialog()
      modifies this`dialogOpen
      ensures !dialogOpen
    {
      dialogOpen := false;
    }

    /** Dismissing the notification hides it and keeps its text. */
    method HandleCloseSnackbar()
      modifies this`snackbar
      ensures snackbar == old(snackbar).(open := false)
    {
      snackbar := snackbar.(open := false);
    }

    /** A text field or select of the dialog: the named field takes the value
        and every other field keeps its own. */
    method HandleInputChange(name: ScalarField, value: Value)
      modifies this`newProduct
      ensures newProduct == SetScalar(old(newProduct), name, value)
      ensures forall g :: Get(newProduct, g) == if g == name then value else Get(old(newProduct), g)
      ensures newProduct.images == old(newProduct.images) && newProduct.isPrescriptionRequired == old(newProduct.isPrescriptionRequired)
    {
      var before := newProduct;
      newProduct := SetScalar(newProduct, name, value);
      SetScalarKeepsLists(before, name, value);
      forall g ensures Get(newProduct, g) == if g == name then value else Get(before, g) {
        SetScalarAt(before, name, value, g);
      }
    }

    /** The prescription switch. */
    method HandleBooleanChange(checked: bool)
      modifies this`newProduct
      ensures newProduct == old(newProduct).(isPrescriptionRequired := checked)
    {
      newProduct := newProduct.(isPrescriptionRequired := checked);
    }

    /** The variants and substitutes fields: the text, cut at commas and
        trimmed, becomes the list; the other fields are kept. */
    method HandleArrayChange(text: string, field: ListField)
      modifies this`newProduct
      ensures newProduct == SetList(old(newProduct), field, ListFromText(text))
      ensures GetList(newProduct, field) == ListFromText(text)
      ensures |GetList(newProduct, field)| == Count(text, ',') + 1
      ensures forall g :: Get(newProduct, g) == Get(old(newProduct), g)
    {
      newProduct := SetList(newProduct, field, ListFromText(text));
    }

    /** The image input. An empty selection does nothing at all; otherwise
        the upload's answer either appends the stored files' URLs to the
        images or reports, and the uploading flag is off again at the end. */
    method HandleImageUpload(fileCount: nat, response: UploadResponse)
      modifies this`uploading, this`newProduct, this`snackbar
      ensures fileCount == 0 ==> uploading == old(uploading) && newProduct == old(newProduct) && snackbar == old(snackbar)
      ensures fileCount > 0 ==> !uploading
      ensures fileCount > 0 && UploadAccepted(response) ==>
        newProduct == old(newProduct).(images := AppendUploaded(old(newProduct.images), baseUrl, response.files.value))
        && snackbar == old(snackbar)
      ensures fileCount > 0 && !UploadAccepted(response) ==>
        newProduct == old(newProduct) && snackbar == Snackbar(true, UploadErrorMessage(response), Error)
    {
      if fileCount == 0 {
        return;
      }
      uploading := true;
      if UploadAccepted(response) {
        newProduct := newProduct.(images := AppendUploaded(newProduct.images, baseUrl, response.files.value));
      } else {
        snackbar := Snackbar(true, UploadErrorMessage(response), Error);
      }
      uploading := false;
    }

    /** The delete button of one image chip: the image at that position goes,
        the rest keep their order; a position out of range changes nothing. */
    method HandleRemoveImage(index: int)
      modifies this`newProduct
      ensures newProduct == old(newProduct).(images := WithoutIndex(old(newProduct.images), index))
      ensures 0 <= index < |old(newProduct.images)| ==>
        newProduct.images == old(newProduct.images)[..index] + old(newProduct.images)[index + 1..]
      ensures !(0 <= index < |old(newProduct.images)|) ==> newProduct == old(newProduct)
    {
      WithoutIndexRemovesOne(newProduct.images, index);
      newProduct := newProduct.(images := WithoutIndex(newProduct.images, index));
    }

    /** What follows an accepted create: the success message, the first
        page, a cleared draft, a closed dialog, and the list fetch of the
        render the click came from, whose page is `renderedPage`. */
    method CompleteCreate(renderedPage: int, reload: ListResponse) returns (url: string)
      modifies this`snackbar, this`currentPage, this`newProduct, this`dialogOpen
      modifies this`products, this`totalPages, this`loading
      ensures View() == ListAfterFetch(ListView(old(products), old(totalPages), true, Snackbar(true, Created, Success)), reload)
      ensures newProduct == InitialDraft() && !dialogOpen && currentPage == 1
      ensures url == ListUrl(baseUrl, renderedPage, selectedCategory)
    {
      snackbar := Snackbar(true, Created, Success);
      currentPage := 1;
      newProduct := SubmittedDraftReset();
      ResetIsInitial();
      dialogOpen := false;
      url := FetchProducts(renderedPage, selectedCategory, reload);
    }

    /** The Create Product button. `response` is the answer to the create
        request and `reload` the answer to the list request that follows a
        success; returns the request body sent (none when the draft fails the
        check) and the URL reloaded (none unless the create succeeded). The
        reload uses the page and filter of the render the click came from. */
    method HandleCreateProduct(response: CreateResponse, reload: ListResponse)
      returns (request: Option<Payload>, reloadUrl: Option<string>)
      modifies this`loading, this`snackbar, this`currentPage, this`newProduct, this`dialogOpen
      modifies this`products, this`totalPages
      ensures request.None? <==> MissingRequired(old(newProduct))
      ensures request.Some? ==> request.value == BuildPayload(old(newProduct))
      ensures !loading
      ensures reloadUrl.Some? <==> !MissingRequired(old(newProduct)) && CreateSucceeded(response)
      ensures MissingRequired(old(newProduct)) ==>
        snackbar == Snackbar(true, RequiredMessage, Warning)
        && newProduct == old(newProduct) && dialogOpen == old(dialogOpen) && currentPage == old(currentPage)
        && products == old(products) && totalPages == old(totalPages)
      ensures !MissingRequired(old(newProduct)) && !CreateSucceeded(response) ==>
        snackbar == Snackbar(true, CreateErrorMessage(response), Error)
        && newProduct == old(newProduct) && dialogOpen == old(dialogOpen) && currentPage == old(currentPage)
        && products == old(products) && totalPages == old(totalPages)
      ensures !MissingRequired(old(newProduct)) && CreateSucceeded(response) ==>
        var w := ListAfterFetch(ListView(old(products), old(totalPages), true, Snackbar(true, Created, Success)), reload);
        newProduct == InitialDraft() && !dialogOpen && currentPage == 1
        && reloadUrl == Some(ListUrl(baseUrl, old(currentPage), selectedCategory))
        && products == w.products && totalPages == w.totalPages && snackbar == w.snackbar
    {
      var renderedPage := currentPage;
      var draft := newProduct;
      loading := true;
      request := None;
      reloadUrl := None;
      if MissingRequired(draft) {
        snackbar := Snackbar(true, RequiredMessage, Warning);
      } else {
        request := Some(BuildPayload(draft));
        if CreateSucceeded(response) {
          var url := CompleteCreate(renderedPage, reload);
          reloadUrl := Some(url);
        } else {
          snackbar := Snackbar(true, CreateErrorMessage(response), Error);
        }
      }
      loading := false;
    }
  }

  /** A create whose draft passes the check and whose request and reload both
      succeed shows the success message, closes the dialog, clears the draft
      and reloads the page the user was on. That is the handler's own reload;
      when that page was not 1, setting `currentPage` to 1 also makes the
      effect fetch page 1 (`Products.Refresh`), and which of the two replies
      lands last is not modelled. */
  method CreateThenReload(page: Products, ps: seq<ListedProduct>, t: Option<int>)
    returns (reloadUrl: Option<string>)
    requires !MissingRequired(page.newProduct)
    modifies page
    ensures reloadUrl == Some(ListUrl(page.baseUrl, old(page.currentPage), page.selectedCategory))
    ensures page.snackbar == Snackbar(true, Created, Success)
    ensures page.products == ps && !page.loading && !page.dialogOpen && page.currentPage == 1
    ensures page.newProduct == InitialDraft() && MissingRequired(page.newProduct)
  {
    var request;
    request, reloadUrl := page.HandleCreateProduct(CreateReply(true, None), ListReply(Some(ps), t));
    InitialDraftIncomplete();
  }
}
