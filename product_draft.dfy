/** The "new product" draft of the creation dialog: its record, the field
    edits the form applies to it, its defaults, the required-field checks of
    submission and of the Create button, and the payload sent to the server. */
module ProductDraft {
  import opened JsText
  import opened JsValue

  /** The draft's fields that hold a single string or number. */
  datatype ScalarField =
    | ProductName
    | Mrp
    | SellingPrice
    | Brand
    | VendorId
    | ProductForm
    | Uses
    | Age
    | CategoryId
    | Category
    | Manufacturer
    | ConsumeType
    | ExpireDate
    | PackagingDetails
    | Composition
    | ProductIntroduction
    | UsesOfMedication
    | Benefits
    | Contradictions
    | ExpertAdvice
    | AuthorId
    | SubCategory
    | DirectionToUse
    | SideEffects
    | PrecautionsWhileUsing
    | Descriptions
    | References
    | CountryOfOrigin

  /** The draft's fields that hold a list of strings. */
  datatype ListField = Images | Variants | SubstituteProducts

  /** The draft record, with the source's field names and order. */
  datatype Draft = Draft(
    productName: Value,
    mrp: Value,
    sellingPrice: Value,
    brand: Value,
    vendorId: Value,
    productForm: Value,
    uses: Value,
    age: Value,
    categoryId: Value,
    category: Value,
    manufacturer: Value,
    consumeType: Value,
    expireDate: Value,
    packagingDetails: Value,
    images: seq<string>,
    variants: seq<string>,
    composition: Value,
    productIntroduction: Value,
    usesOfMedication: Value,
    benefits: Value,
    contradictions: Value,
    isPrescriptionRequired: bool,
    expertAdvice: Value,
    substituteProducts: seq<string>,
    authorId: Value,
    sub_category: Value,
    direction_to_use: Value,
    side_effects: Value,
    precautions_while_using: Value,
    descriptions: Value,
    references: Value,
    country_of_origin: Value
  )

  /** The value of a scalar field (`newProduct[name]`). */
  function Get(d: Draft, f: ScalarField): Value {
    match f
    case ProductName => d.productName
    case Mrp => d.mrp
    case SellingPrice => d.sellingPrice
    case Brand => d.brand
    case VendorId => d.vendorId
    case ProductForm => d.productForm
    case Uses => d.uses
    case Age => d.age
    case CategoryId => d.categoryId
    case Category => d.category
    case Manufacturer => d.manufacturer
    case ConsumeType => d.consumeType
    case ExpireDate => d.expireDate
    case PackagingDetails => d.packagingDetails
    case Composition => d.composition
    case ProductIntroduction => d.productIntroduction
    case UsesOfMedication => d.usesOfMedication
    case Benefits => d.benefits
    case Contradictions => d.contradictions
    case ExpertAdvice => d.expertAdvice
    case AuthorId => d.authorId
    case SubCategory => d.sub_category
    case DirectionToUse => d.direction_to_use
    case SideEffects => d.side_effects
    case PrecautionsWhileUsing => d.precautions_while_using
    case Descriptions => d.descriptions
    case References => d.references
    case CountryOfOrigin => d.country_of_origin
  }

  /** `{ ...d, [name]: v }` for a scalar field: the named field holds `v`,
      the lists and the flag are as they were. */
  function SetScalar(d: Draft, f: ScalarField, v: Value): (r: Draft)
  {
    Draft(
      productName := if f == ProductName then v else d.productName,
      mrp := if f == Mrp then v else d.mrp,
      sellingPrice := if f == SellingPrice then v else d.sellingPrice,
      brand := if f == Brand then v else d.brand,
      vendorId := if f == VendorId then v else d.vendorId,
      productForm := if f == ProductForm then v else d.productForm,
      uses := if f == Uses then v else d.uses,
      age := if f == Age then v else d.age,
      categoryId := if f == CategoryId then v else d.categoryId,
      category := if f == Category then v else d.category,
      manufacturer := if f == Manufacturer then v else d.manufacturer,
      consumeType := if f == ConsumeType then v else d.consumeType,
      expireDate := if f == ExpireDate then v else d.expireDate,
      packagingDetails := if f == PackagingDetails then v else d.packagingDetails,
      images := d.images,
      variants := d.variants,
      composition := if f == Composition then v else d.composition,
      productIntroduction := if f == ProductIntroduction then v else d.productIntroduction,
      usesOfMedication := if f == UsesOfMedication then v else d.usesOfMedication,
      benefits := if f == Benefits then v else d.benefits,
      contradictions := if f == Contradictions then v else d.contradictions,
      isPrescriptionRequired := d.isPrescriptionRequired,
      expertAdvice := if f == ExpertAdvice then v else d.expertAdvice,
      substituteProducts := d.substituteProducts,
      authorId := if f == AuthorId then v else d.authorId,
      sub_category := if f == SubCategory then v else d.sub_category,
      direction_to_use := if f == DirectionToUse then v else d.direction_to_use,
      side_effects := if f == SideEffects then v else d.side_effects,
      precautions_while_using := if f == PrecautionsWhileUsing then v else d.precautions_while_using,
      descriptions := if f == Descriptions then v else d.descriptions,
      references := if f == References then v else d.references,
      country_of_origin := if f == CountryOfOrigin then v else d.country_of_origin
    )
  }

  /** After setting field `f` to `v`, field `f` reads `v` and every other
      scalar field reads what it read before. */
  lemma SetScalarAt(d: Draft, f: ScalarField, v: Value, g: ScalarField)
    ensures Get(SetScalar(d, f, v), g) == if g == f then v else Get(d, g)
  {
    if g == f {
      SetScalarHit(d, f, v);
    } else {
      SetScalarMiss(d, f, v, g);
    }
  }

  /** Setting a scalar field leaves the lists and the prescription flag. */
  lemma SetScalarKeepsLists(d: Draft, f: ScalarField, v: Value)
    ensures SetScalar(d, f, v).images == d.images && SetScalar(d, f, v).variants == d.variants
    ensures SetScalar(d, f, v).substituteProducts == d.substituteProducts
    ensures SetScalar(d, f, v).isPrescriptionRequired == d.isPrescriptionRequired
  {
  }

  lemma SetScalarHit(d: Draft, f: ScalarField, v: Value)
    ensures Get(SetScalar(d, f, v), f) == v
  {
  }

  lemma SetScalarMiss(d: Draft, f: ScalarField, v: Value, g: ScalarField)
    ensures g != f ==> Get(SetScalar(d, f, v), g) == Get(d, g)
  {
  }

  /** The draft as the page first holds it. */
  function InitialDraft(): Draft {
    Draft(
      productName := Str(""),
      mrp := Num(0),
      sellingPrice := Num(0),
      brand := Str(""),
      vendorId := Num(1),
      productForm := Str(""),
      uses := Str(""),
      age := Str(""),
      categoryId := Num(1),
      category := Str(""),
      manufacturer := Str(""),
      consumeType := Str(""),
      expireDate := Str(""),
      packagingDetails := Str(""),
      images := [],
      variants := [],
      composition := Str(""),
      productIntroduction := Str(""),
      usesOfMedication := Str(""),
      benefits := Str(""),
      contradictions := Str(""),
      isPrescriptionRequired := false,
      expertAdvice := Str(""),
      substituteProducts := [],
      authorId := Str(""),
      sub_category := Str(""),
      direction_to_use := Str(""),
      side_effects := Str(""),
      precautions_while_using := Str(""),
      descriptions := Str(""),
      references := Str(""),
      country_of_origin := Str("")
    )
  }

  /** The draft written out again after a successful creation. */
  function SubmittedDraftReset(): Draft {
    Draft(
      productName := Str(""),
      mrp := Num(0),
      sellingPrice := Num(0),
      brand := Str(""),
      vendorId := Num(1),
      productForm := Str(""),
      uses := Str(""),
      age := Str(""),
      categoryId := Num(1),
      category := Str(""),
      manufacturer := Str(""),
      consumeType := Str(""),
      expireDate := Str(""),
      packagingDetails := Str(""),
      images := [],
      variants := [],
      composition := Str(""),
      productIntroduction := Str(""),
      usesOfMedication := Str(""),
      benefits := Str(""),
      contradictions := Str(""),
      isPrescriptionRequired := false,
      expertAdvice := Str(""),
      substituteProducts := [],
      authorId := Str(""),
      sub_category := Str(""),
      direction_to_use := Str(""),
      side_effects := Str(""),
      precautions_while_using := Str(""),
      descriptions := Str(""),
      references := Str(""),
      country_of_origin := Str("")
    )
  }

  lemma ResetIsInitial()
    ensures SubmittedDraftReset() == InitialDraft()
  {
  }

  /** The value of a list field. */
  function GetList(d: Draft, f: ListField): seq<string> {
    match f
    case Images => d.images
    case Variants => d.variants
    case SubstituteProducts => d.substituteProducts
  }

  /** `{ ...d, [field]: xs }` for a list field: the named list is `xs`, every
      other field is as it was. */
  function SetList(d: Draft, f: ListField, xs: seq<string>): (r: Draft)
    ensures GetList(r, f) == xs
    ensures forall g :: g != f ==> GetList(r, g) == GetList(d, g)
    ensures forall g :: Get(r, g) == Get(d, g)
    ensures r.isPrescriptionRequired == d.isPrescriptionRequired
  {
    match f
    case Images => d.(images := xs)
    case Variants => d.(variants := xs)
    case SubstituteProducts => d.(substituteProducts := xs)
  }

  /** `text.split(",").map((item) => item.trim())`: one trimmed piece more
      than there are commas, no piece holding a comma. */
  function ListFromText(text: string): (r: seq<string>)
    ensures |r| == Count(text, ',') + 1
    ensures forall k :: 0 <= k < |r| ==> IsListItem(r[k])
  {
    var pieces := Split(text, ',');
    TrimmedPieces(pieces);
    TrimEach(pieces)
  }

  /** Element `k` of the list is the trim of the `k`-th comma piece. */
  lemma ListFromTextAt(text: string, k: int)
    requires 0 <= k < Count(text, ',') + 1
    ensures ListFromText(text)[k] == Trim(Split(text, ',')[k])
  {
    TrimEachAt(Split(text, ','), k);
  }

  /** What `ListFromText` yields as elements: no comma, no white space at
      either end. */
  predicate IsListItem(x: string) {
    ',' !in x && (x == [] || (!IsJsWhitespace(x[0]) && !IsJsWhitespace(x[|x| - 1])))
  }

  /** The trim of a comma-free string is a list item. */
  lemma TrimmedIsItem(s: string)
    requires ',' !in s
    ensures IsListItem(Trim(s))
  {
    TrimKeepsOut(s, ',');
  }

  /** Trimming comma-free pieces gives list items. */
  lemma {:induction false} TrimmedPieces(ps: seq<string>)
    requires forall k :: 0 <= k < |ps| ==> ',' !in ps[k]
    ensures forall k :: 0 <= k < |ps| ==> IsListItem(TrimEach(ps)[k])
  {
    if ps != [] {
      TrimmedPieces(ps[1..]);
      forall k | 0 <= k < |ps| ensures IsListItem(TrimEach(ps)[k]) {
        if k == 0 {
          TrimmedIsItem(ps[0]);
        } else {
          assert TrimEach(ps)[k] == TrimEach(ps[1..])[k - 1];
        }
      }
    }
  }

  /** A list field shows its list joined with ", "; reading that text back
      gives the same list, provided its elements are list items. */
  lemma DisplayedListReparses(xs: seq<string>)
    requires |xs| >= 1
    requires forall k :: 0 <= k < |xs| ==> IsListItem(xs[k])
    ensures ListFromText(Join(xs, ", ")) == xs
  {
    SplitDisplayed(xs);
    TrimDisplayed(xs);
  }

  /** The comma pieces of a ", "-join: the first element, then each further
      element behind a blank. */
  lemma SplitDisplayed(xs: seq<string>)
    requires |xs| >= 1
    requires forall k :: 0 <= k < |xs| ==> IsListItem(xs[k])
    ensures Split(Join(xs, ", "), ',') == [xs[0]] + Padded(xs[1..])
  {
    var ys := [xs[0]] + Padded(xs[1..]);
    PaddedHasNoComma(xs[1..]);
    assert forall k :: 0 <= k < |ys| ==> ',' !in ys[k] by {
      forall k | 0 <= k < |ys| ensures ',' !in ys[k] {
        if k > 0 {
          assert ys[k] == Padded(xs[1..])[k - 1];
        }
      }
    }
    SpacedJoin(xs);
    SplitJoin(ys, ',');
  }

  /** Trimming those pieces gives back the elements. */
  lemma TrimDisplayed(xs: seq<string>)
    requires |xs| >= 1
    requires forall k :: 0 <= k < |xs| ==> IsListItem(xs[k])
    ensures TrimEach([xs[0]] + Padded(xs[1..])) == xs
  {
    var ys := [xs[0]] + Padded(xs[1..]);
    assert ys[1..] == Padded(xs[1..]);
    TrimEachPadded(xs[1..]);
    calc {
      TrimEach(ys);
      [Trim(xs[0])] + TrimEach(Padded(xs[1..]));
      { TrimOfTrimmed(xs[0]); }
      [xs[0]] + xs[1..];
      { HeadTail(xs); }
      xs;
    }
  }

  lemma {:induction false} PaddedHasNoComma(zs: seq<string>)
    requires forall k :: 0 <= k < |zs| ==> IsListItem(zs[k])
    ensures forall k :: 0 <= k < |zs| ==> ',' !in Padded(zs)[k]
  {
    if zs != [] {
      PaddedHasNoComma(zs[1..]);
      assert forall k :: 1 <= k < |zs| ==> Padded(zs)[k] == Padded(zs[1..])[k - 1];
    }
  }

  lemma {:induction false} TrimEachPadded(zs: seq<string>)
    requires forall k :: 0 <= k < |zs| ==> IsListItem(zs[k])
    ensures TrimEach(Padded(zs)) == zs
  {
    if zs != [] {
      var p := Padded(zs);
      PaddedSplit(zs);
      TrimEachSplit(p);
      TrimEachPadded(zs[1..]);
      PaddedItemTrims(zs[0]);
      SameHeadTail(TrimEach(p), zs);
    }
  }

  /** One step of `Padded`: the blank-led head, then the rest padded. */
  lemma PaddedSplit(zs: seq<string>)
    requires zs != []
    ensures Padded(zs)[0] == " " + zs[0] && Padded(zs)[1..] == Padded(zs[1..])
  {
  }

  /** A list item behind a blank trims back to itself. */
  lemma PaddedItemTrims(z: string)
    requires IsListItem(z)
    ensures Trim(" " + z) == z
  {
    TrimAfterBlank(z);
    TrimOfTrimmed(z);
  }

  /** Two lists with the same head and the same tail are equal. */
  lemma SameHeadTail<T>(a: seq<T>, b: seq<T>)
    requires a != [] && b != [] && a[0] == b[0] && a[1..] == b[1..]
    ensures a == b
  {
    assert a == [a[0]] + a[1..];
    assert b == [b[0]] + b[1..];
  }

  /** A non-empty list is its head followed by its tail. */
  lemma HeadTail<T>(xs: seq<T>)
    requires |xs| >= 1
    ensures [xs[0]] + xs[1..] == xs
  {
  }

  /** Emptying a list field leaves one empty element, not an empty list. */
  lemma EmptiedListField()
    ensures ListFromText("") == [""]
  {
  }

  /** `s.filter((_, i) => i !== index)`, where `offset` is the position in
      the whole list of `s[0]`. */
  function FilterOutIndex<T>(s: seq<T>, index: int, offset: int): seq<T>
    decreases |s|
  {
    if s == [] then []
    else (if offset != index then [s[0]] else []) + FilterOutIndex(s[1..], index, offset + 1)
  }

  /** The list the image chip's delete button leaves. */
  function WithoutIndex<T>(s: seq<T>, index: int): seq<T> {
    FilterOutIndex(s, index, 0)
  }

  lemma {:induction false} FilterOutIndexIsSlice<T>(s: seq<T>, index: int, offset: int)
    ensures FilterOutIndex(s, index, offset) ==
      if offset <= index < offset + |s| then s[..index - offset] + s[index - offset + 1..] else s
    decreases |s|
  {
    if s != [] {
      FilterOutIndexIsSlice(s[1..], index, offset + 1);
      if offset == index {
        assert s[..0] + s[1..] == s[1..];
      } else if offset < index < offset + |s| {
        assert [s[0]] + (s[1..][..index - offset - 1] + s[1..][index - offset..]) ==
          s[..index - offset] + s[index - offset + 1..];
      } else {
        assert [s[0]] + s[1..] == s;
      }
    }
  }

  /** Removing the image at `index` drops exactly that element and keeps the
      others in order; an index outside the list removes nothing. */
  lemma WithoutIndexRemovesOne<T>(s: seq<T>, index: int)
    ensures 0 <= index < |s| ==> WithoutIndex(s, index) == s[..index] + s[index + 1..]
    ensures !(0 <= index < |s|) ==> WithoutIndex(s, index) == s
    ensures 0 <= index < |s| ==> |WithoutIndex(s, index)| == |s| - 1
  {
    FilterOutIndexIsSlice(s, index, 0);
  }

  /** `[...images, ...files.map((file) => `${baseUrl}/${file}`)]`: the old
      images, in order, followed by one URL per returned path, in the order
      returned. */
  function AppendUploaded(images: seq<string>, baseUrl: string, files: seq<string>): (r: seq<string>)
    ensures |r| == |images| + |files|
    ensures r[..|images|] == images
    ensures forall k :: 0 <= k < |files| ==> r[|images| + k] == baseUrl + "/" + files[k]
  {
    images + seq(|files|, k requires 0 <= k < |files| => baseUrl + "/" + files[k])
  }

  /** The warning raised when submission is refused. */
  const RequiredMessage: string := "Product Name, MRP, Selling Price and Author are required"

  /** The check `handleCreateProduct` makes before any request. */
  predicate MissingRequired(d: Draft) {
    Falsy(d.productName) || Falsy(d.mrp) || Falsy(d.sellingPrice) || Falsy(d.authorId)
  }

  /** The Create button's `disabled` expression. */
  predicate CreateDisabled(d: Draft) {
    Falsy(d.productName) || Falsy(d.mrp) || Falsy(d.sellingPrice) ||
    Falsy(d.brand) || Falsy(d.categoryId) || Falsy(d.authorId)
  }

  /** The button is disabled exactly when the submit check fails or the brand
      or category is missing; so an enabled button always passes the check. */
  lemma ButtonCoversSubmitCheck(d: Draft)
    ensures CreateDisabled(d) <==> MissingRequired(d) || Falsy(d.brand) || Falsy(d.categoryId)
    ensures !CreateDisabled(d) ==> !MissingRequired(d)
  {
  }

  /** The submit check alone lets a draft without a brand through. */
  lemma SubmitCheckIgnoresBrand()
    ensures exists d :: CreateDisabled(d) && !MissingRequired(d)
  {
    var d := InitialDraft().(productName := Str("P"), mrp := Num(10), sellingPrice := Num(8), authorId := Num(5));
    assert CreateDisabled(d) && !MissingRequired(d);
  }

  /** The initial draft can be neither submitted nor created from the button. */
  lemma InitialDraftIncomplete()
    ensures MissingRequired(InitialDraft()) && CreateDisabled(InitialDraft())
  {
  }

  /** The body of the create request. `mrp` and `sellingPrice` carry the draft
      value that `parseFloat` is applied to; the three ids go through
      `parseInt`. The draft's `category` is not sent. */
  datatype Payload = Payload(
    productName: Value,
    mrp: Value,
    sellingPrice: Value,
    brand: Value,
    vendorId: JsInt,
    productForm: Value,
    uses: Value,
    age: Value,
    categoryId: JsInt,
    manufacturer: Value,
    consumeType: Value,
    expireDate: Value,
    packagingDetails: Value,
    images: seq<string>,
    variants: seq<string>,
    composition: Value,
    productIntroduction: Value,
    usesOfMedication: Value,
    benefits: Value,
    contradictions: Value,
    isPrescriptionRequired: bool,
    expertAdvice: Value,
    substituteProducts: seq<string>,
    authorId: JsInt,
    sub_category: Value,
    direction_to_use: Value,
    side_effects: Value,
    precautions_while_using: Value,
    descriptions: Value,
    references: Value,
    country_of_origin: Value
  )

  /** The payload built from a draft. */
  function BuildPayload(d: Draft): Payload {
    Payload(
      productName := d.productName,
      mrp := d.mrp,
      sellingPrice := d.sellingPrice,
      brand := d.brand,
      vendorId := ParseInt(d.vendorId),
      productForm := d.productForm,
      uses := d.uses,
      age := d.age,
      categoryId := ParseInt(d.categoryId),
      manufacturer := d.manufacturer,
      consumeType := d.consumeType,
      expireDate := d.expireDate,
      packagingDetails := d.packagingDetails,
      images := d.images,
      variants := d.variants,
      composition := d.composition,
      productIntroduction := d.productIntroduction,
      usesOfMedication := d.usesOfMedication,
      benefits := d.benefits,
      contradictions := d.contradictions,
      isPrescriptionRequired := d.isPrescriptionRequired,
      expertAdvice := d.expertAdvice,
      substituteProducts := d.substituteProducts,
      authorId := ParseInt(d.authorId),
      sub_category := d.sub_category,
      direction_to_use := d.direction_to_use,
      side_effects := d.side_effects,
      precautions_while_using := d.precautions_while_using,
      descriptions := d.descriptions,
      references := d.references,
      country_of_origin := d.country_of_origin
    )
  }

  /** Ids held as numbers or as their decimal text reach the payload as those
      integers; the list fields and the flag pass through unchanged. */
  lemma PayloadIds(d: Draft, c: int, a: int)
    requires d.categoryId == Num(c) || d.categoryId == Str(IntToDecimal(c))
    requires d.authorId == Num(a) || d.authorId == Str(IntToDecimal(a))
    ensures BuildPayload(d).categoryId == IntVal(c)
    ensures BuildPayload(d).authorId == IntVal(a)
    ensures BuildPayload(d).images == d.images && BuildPayload(d).variants == d.variants
    ensures BuildPayload(d).substituteProducts == d.substituteProducts
    ensures BuildPayload(d).isPrescriptionRequired == d.isPrescriptionRequired
  {
    ParseIntDecimal(c);
    ParseIntDecimal(a);
  }

  /** A draft with a name, MRP 10, selling price 8, brand "X", category 2 and
      author 5, every other field at its default. */
  function ParacetamolDraft(): Draft {
    InitialDraft().(productName := Str("Paracetamol"), mrp := Num(10), sellingPrice := Num(8),
                    brand := Str("X"), categoryId := Num(2), authorId := Num(5))
  }

  /** That draft enables the Create button and passes the submit check. */
  lemma ParacetamolAccepted()
    ensures !CreateDisabled(ParacetamolDraft()) && !MissingRequired(ParacetamolDraft())
  {
  }

  /** That draft is sent with the prices as entered, ids 2 and 5 as
      integers, vendor 1 and empty lists. */
  lemma ParacetamolPayload()
    ensures
      var p := BuildPayload(ParacetamolDraft());
      p.mrp == Num(10) && p.sellingPrice == Num(8) && p.categoryId == IntVal(2) &&
      p.authorId == IntVal(5) && p.vendorId == IntVal(1) && p.images == [] && p.variants == []
  {
    PayloadIds(ParacetamolDraft(), 2, 5);
    ParseIntOfNumber(1);
  }
}
