/** The product list of the page: the rows of the loaded page, the
    client-side search over them, the URL a page of products is fetched
    from, and how a list response becomes list state. */
module ProductList {
  import opened JsText
  import opened JsValue

  /** A row of the loaded page, reduced to the fields the search reads. */
  datatype ListedProduct = ListedProduct(productName: Option<string>, brand: Option<string>, category: Option<string>)

  /** `(field || "").toLowerCase().includes(search)` for one field. */
  predicate FieldMatches(field: Option<string>, search: string) {
    Includes(ToLowerAscii(Or(field, "")), search)
  }

  /** The search predicate of `filteredProducts`: the lower-cased term occurs
      in the lower-cased name, brand or category; a missing field reads as "". */
  predicate Matches(p: ListedProduct, searchTerm: string) {
    var search := ToLowerAscii(searchTerm);
    FieldMatches(p.productName, search) || FieldMatches(p.brand, search) || FieldMatches(p.category, search)
  }

  /** `products.filter(...)` with that predicate. */
  function FilteredProducts(ps: seq<ListedProduct>, searchTerm: string): seq<ListedProduct> {
    if ps == [] then []
    else (if Matches(ps[0], searchTerm) then [ps[0]] else []) + FilteredProducts(ps[1..], searchTerm)
  }

  /** `a` is `b` with some elements left out and the rest in their order. */
  ghost predicate IsSubsequence<T>(a: seq<T>, b: seq<T>)
    decreases |b|
  {
    if a == [] then true
    else if b == [] then false
    else (a[0] == b[0] && IsSubsequence(a[1..], b[1..])) || IsSubsequence(a, b[1..])
  }

  /** The rows shown are a subsequence of the loaded rows. */
  lemma {:induction false} FilteredIsSubsequence(ps: seq<ListedProduct>, searchTerm: string)
    ensures IsSubsequence(FilteredProducts(ps, searchTerm), ps)
  {
    if ps != [] {
      var r := FilteredProducts(ps, searchTerm);
      var rest := FilteredProducts(ps[1..], searchTerm);
      FilteredIsSubsequence(ps[1..], searchTerm);
      if Matches(ps[0], searchTerm) {
        assert r == [ps[0]] + rest;
        assert r[1..] == rest;
      } else {
        assert r == rest;
      }
    }
  }

  /** A row is shown exactly when it is loaded and matches the search. */
  lemma {:induction false} FilteredKeepsExactly(ps: seq<ListedProduct>, searchTerm: string, p: ListedProduct)
    ensures p in FilteredProducts(ps, searchTerm) <==> p in ps && Matches(p, searchTerm)
  {
    if ps != [] {
      FilteredKeepsExactly(ps[1..], searchTerm, p);
      assert ps == [ps[0]] + ps[1..];
    }
  }

  /** Every copy of a matching row is kept and every copy of another row
      is dropped. */
  lemma {:induction false} FilteredCounts(ps: seq<ListedProduct>, searchTerm: string, p: ListedProduct)
    ensures multiset(FilteredProducts(ps, searchTerm))[p] == if Matches(p, searchTerm) then multiset(ps)[p] else 0
  {
    if ps != [] {
      FilteredCounts(ps[1..], searchTerm, p);
      assert ps == [ps[0]] + ps[1..];
      assert multiset(ps) == multiset([ps[0]]) + multiset(ps[1..]);
    }
  }

  /** An empty search term shows every loaded row. */
  lemma {:induction false} EmptySearchKeepsAll(ps: seq<ListedProduct>)
    ensures FilteredProducts(ps, "") == ps
  {
    if ps != [] {
      EmptySearchKeepsAll(ps[1..]);
      IncludesEmpty(ToLowerAscii(Or(ps[0].productName, "")));
      assert ToLowerAscii("") == "";
      assert ps == [ps[0]] + ps[1..];
    }
  }

  /** The search is insensitive to the letter case of the term. */
  lemma {:induction false} SearchIgnoresTermCase(ps: seq<ListedProduct>, searchTerm: string)
    ensures FilteredProducts(ps, ToLowerAscii(searchTerm)) == FilteredProducts(ps, searchTerm)
  {
    if ps != [] {
      SearchIgnoresTermCase(ps[1..], searchTerm);
      LowerIdempotent(searchTerm);
    }
  }

  /** The URL `fetchProducts` requests: the plain page endpoint for the "all"
      filter, the category endpoint for any other filter value. */
  function ListUrl(baseUrl: string, page: int, selectedCategory: Value): string {
    baseUrl + ListPath(page, selectedCategory)
  }

  function ListPath(page: int, selectedCategory: Value): string {
    if selectedCategory == Str("all") then
      "/product.get?page=" + IntToDecimal(page)
    else
      "/product.categoryGet?categoryId=" + ToText(selectedCategory) + "&page=" + IntToDecimal(page)
  }

  /** The "all" filter and a category filter never ask for the same URL. */
  lemma EndpointsDiffer(baseUrl: string, p: int, q: int, c: Value)
    requires c != Str("all")
    ensures ListUrl(baseUrl, p, Str("all")) != ListUrl(baseUrl, q, c)
  {
    var all := ListPath(p, Str("all"));
    var category := ListPath(q, c);
    assert all[9] == 'g';
    assert category[9] == 'c';
    assert (baseUrl + all)[|baseUrl| + 9] == all[9];
    assert (baseUrl + category)[|baseUrl| + 9] == category[9];
  }

  /** For one filter, the URL determines the page. */
  lemma UrlDeterminesPage(baseUrl: string, p: int, q: int, f: Value)
    requires ListUrl(baseUrl, p, f) == ListUrl(baseUrl, q, f)
    ensures p == q
  {
    var prefix := if f == Str("all") then "/product.get?page="
                  else "/product.categoryGet?categoryId=" + ToText(f) + "&page=";
    assert ListPath(p, f) == (baseUrl + ListPath(p, f))[|baseUrl|..];
    assert ListPath(q, f) == (baseUrl + ListPath(q, f))[|baseUrl|..];
    assert ListPath(p, f) == prefix + IntToDecimal(p);
    assert ListPath(q, f) == prefix + IntToDecimal(q);
    assert IntToDecimal(p) == (prefix + IntToDecimal(p))[|prefix|..];
    assert IntToDecimal(q) == (prefix + IntToDecimal(q))[|prefix|..];
    ParseIntDecimal(p);
    ParseIntDecimal(q);
  }

  /** `data.totalPages || 1`. */
  function TotalPagesFrom(totalPages: Option<int>): (r: int)
    ensures r != 0
    ensures totalPages.Some? && totalPages.value != 0 ==> r == totalPages.value
    ensures !(totalPages.Some? && totalPages.value != 0) ==> r == 1
  {
    if totalPages.Some? && totalPages.value != 0 then totalPages.value else 1
  }

  /** The pagination control is shown for more than one page. */
  predicate ShowsPagination(totalPages: int) {
    totalPages > 1
  }

  /** The blocking spinner is shown while the first page is loading. */
  predicate ShowsSpinner(loading: bool, products: seq<ListedProduct>) {
    loading && |products| == 0
  }
}
