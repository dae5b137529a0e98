/** The Product schema: its fields, enumerations, required paths and defaults. */
module ProductModel {
  import opened Wrappers
  import opened Text
  import opened Ids
  import opened EcoImpact
  import opened Errors

  datatype ProductStatus = Listed | Sold | Removed

  function ParseProductStatus(s: string): (r: Option<ProductStatus>)
    ensures r.Some? <==> s in ["listed", "sold", "removed"]
  {
    match s
    case "listed" => Some(Listed)
    case "sold" => Some(Sold)
    case "removed" => Some(Removed)
    case _ => None
  }

  const Categories: seq<string> :=
    ["Electronics", "Clothing", "Fashion", "Furniture", "Books", "Sports", "Home & Garden", "Toys", "Other"]

  const Conditions: seq<string> := ["New", "Like New", "Good", "Fair", "Poor"]

  const TitleMax := 100
  const DescriptionMax := 2000

  /** A stored product. `createdAt` is the Mongoose timestamp (also `datePosted`). */
  datatype Product = Product(
    title: string,
    description: string,
    price: nat,
    originalPrice: Option<int>,
    category: string,
    condition: string,
    location: string,
    images: seq<string>,
    seller: UserId,
    status: ProductStatus,
    ecoImpact: Impact,
    views: int,
    likes: int,
    likedBy: seq<UserId>,
    createdAt: int)

  /** The document handed to `Product.create`: every path optional. The counters
      `views`, `likes` and `likedBy` are schema paths too, so a request body may
      carry them. */
  datatype ProductInput = ProductInput(
    title: Option<string>,
    description: Option<string>,
    price: Option<nat>,
    originalPrice: Option<int>,
    category: Option<string>,
    condition: Option<string>,
    location: Option<string>,
    images: Option<seq<string>>,
    seller: Option<UserId>,
    status: Option<string>,
    ecoImpact: Option<Impact>,
    views: Option<int>,
    likes: Option<int>,
    likedBy: Option<seq<UserId>>)

  /** Mongoose `required` on a String path: present and not empty. */
  predicate PresentText(v: Option<string>)
  {
    v.Some? && |v.value| > 0
  }

  /** Title rule: required and at most 100 UTF-16 units, both after `trim`. */
  predicate TitleOk(v: Option<string>)
  {
    v.Some? && 0 < |Trim(v.value)| && Utf16Length(Trim(v.value)) <= TitleMax
  }

  /** Description rule: required and at most 2000 UTF-16 units. */
  predicate DescriptionOk(v: Option<string>)
  {
    PresentText(v) && Utf16Length(v.value) <= DescriptionMax
  }

  predicate StatusOk(v: Option<string>)
  {
    v.None? || ParseProductStatus(v.value).Some?
  }

  /** A required path with an `enum`: the `required` message comes first. */
  function EnumPathErrors(v: Option<string>, values: seq<string>, path: string, required: string): seq<PathError>
  {
    if !PresentText(v) then [PathError(path, required)]
    else if v.value !in values then [PathError(path, EnumMessage(v.value, path))]
    else []
  }

  /** The failures of each path, with the schema's own messages. A path whose
      `required` validator fails reports only that failure. */
  function TitleErrors(v: Option<string>): seq<PathError>
  {
    if v.None? || |Trim(v.value)| == 0 then [PathError("title", "Please add a title")]
    else if !TitleOk(v) then [PathError("title", "Title cannot be more than 100 characters")]
    else []
  }

  function DescriptionErrors(v: Option<string>): seq<PathError>
  {
    if !PresentText(v) then [PathError("description", "Please add a description")]
    else if !DescriptionOk(v) then [PathError("description", "Description cannot be more than 2000 characters")]
    else []
  }

  function CategoryErrors(v: Option<string>): seq<PathError>
  {
    EnumPathErrors(v, Categories, "category", "Please select a category")
  }

  function ConditionErrors(v: Option<string>): seq<PathError>
  {
    EnumPathErrors(v, Conditions, "condition", "Please select condition")
  }

  function LocationErrors(v: Option<string>): seq<PathError>
  {
    if PresentText(v) then [] else [PathError("location", "Please add a location")]
  }

  function StatusErrors(v: Option<string>): seq<PathError>
  {
    if StatusOk(v) then [] else [PathError("status", EnumMessage(v.value, "status"))]
  }

  /** The failing paths of `input`, in schema order. */
  function ProductViolations(input: ProductInput): seq<PathError>
  {
    TitleErrors(input.title) +
    DescriptionErrors(input.description) +
    (if input.price.Some? then [] else [PathError("price", "Please add a price")]) +
    CategoryErrors(input.category) +
    ConditionErrors(input.condition) +
    LocationErrors(input.location) +
    (if input.seller.Some? then [] else [PathError("seller", RequiredMessage("seller"))]) +
    StatusErrors(input.status)
  }

  /** What every stored product satisfies. */
  predicate ValidProduct(p: Product)
  {
    && 0 < |p.title| && Utf16Length(p.title) <= TitleMax && Trim(p.title) == p.title
    && 0 < |p.description| && Utf16Length(p.description) <= DescriptionMax
    && p.category in Categories
    && p.condition in Conditions
    && |p.location| > 0
  }

  /** `Product.create`: validate, apply the schema defaults, store the title
      trimmed. Whatever counters the document carries are stored as given. */
  function CreateRecord(input: ProductInput, now: int): (r: Result<Product, ServiceError>)
    ensures r.Success? <==>
      && input.title.Some? && 0 < |Trim(input.title.value)| && Utf16Length(Trim(input.title.value)) <= 100
      && input.description.Some? && 0 < |input.description.value| && Utf16Length(input.description.value) <= 2000
      && input.price.Some?
      && input.category.Some? && input.category.value in Categories
      && input.condition.Some? && input.condition.value in Conditions
      && input.location.Some? && |input.location.value| > 0
      && input.seller.Some?
      && (input.status.None? || input.status.value in ["listed", "sold", "removed"])
    ensures r.Failure? ==> r.error.Validation? && r.error.model == "Product" && |r.error.failures| > 0
    ensures r.Success? ==>
      && r.value.title == Trim(input.title.value)
      && r.value.description == input.description.value
      && r.value.price == input.price.value
      && r.value.seller == input.seller.value
      && r.value.status == (if input.status.None? then Listed else ParseProductStatus(input.status.value).value)
      && r.value.images == (if input.images.None? then [] else input.images.value)
      && r.value.ecoImpact == (if input.ecoImpact.None? then Impact(0, 0) else input.ecoImpact.value)
      && r.value.views == input.views.GetOr(0) && r.value.likes == input.likes.GetOr(0)
      && r.value.likedBy == input.likedBy.GetOr([])
      && r.value.createdAt == now
  {
    var v := ProductViolations(input);
    if |v| > 0 then Failure(Validation("Product", v))
    else
      Success(Product(
        Trim(input.title.value),
        input.description.value,
        input.price.value,
        input.originalPrice,
        input.category.value,
        input.condition.value,
        input.location.value,
        input.images.GetOr([]),
        input.seller.value,
        match input.status case None => Listed case Some(s) => ParseProductStatus(s).value,
        input.ecoImpact.GetOr(Impact(0, 0)),
        input.views.GetOr(0), input.likes.GetOr(0), input.likedBy.GetOr([]), now))
  }

  lemma TrimIdempotent(s: string)
    ensures Trim(Trim(s)) == Trim(s)
  {
    var t := Trim(s);
    if t != [] {
      assert LeadingSpaces(t) == 0;
      assert ContentEnd(t) == |t|;
    }
  }

  /** Sixty characters outside the Basic Multilingual Plane are 120 UTF-16 units,
      too long for a title although they are only 60 characters. */
  lemma WideTitleRejected()
    ensures var t := seq(60, _ => '\U{1F600}');
      |t| == 60 && TitleErrors(Some(t)) == [PathError("title", "Title cannot be more than 100 characters")]
  {
    var t := seq(60, _ => '\U{1F600}');
    assert LeadingSpaces(t) == 0 && ContentEnd(t) == 60;
    assert Trim(t) == t;
    assert Utf16Length(t) == 120;
  }

  /** A created record is valid; when the document sets neither counter of likes,
      the like counter matches its (empty) likers. */
  lemma CreatedIsValid(input: ProductInput, now: int)
    requires CreateRecord(input, now).Success?
    ensures ValidProduct(CreateRecord(input, now).value)
    ensures input.likes.None? && input.likedBy.None? ==>
      CreateRecord(input, now).value.likes == |CreateRecord(input, now).value.likedBy| == 0
  {
    TrimIdempotent(input.title.value);
  }

  /** The body of an update: the paths it sets. Every schema path may be set,
      the seller and the counters included. */
  datatype ProductPatch = ProductPatch(
    title: Option<string>,
    description: Option<string>,
    price: Option<nat>,
    originalPrice: Option<int>,
    category: Option<string>,
    condition: Option<string>,
    location: Option<string>,
    images: Option<seq<string>>,
    seller: Option<UserId>,
    status: Option<string>,
    ecoImpact: Option<Impact>,
    views: Option<int>,
    likes: Option<int>,
    likedBy: Option<seq<UserId>>)

  /** Update validators (`runValidators`): only the paths the patch sets are checked. */
  function PatchViolations(patch: ProductPatch): seq<PathError>
  {
    (if patch.title.None? then [] else TitleErrors(patch.title)) +
    (if patch.description.None? then [] else DescriptionErrors(patch.description)) +
    (if patch.category.None? then [] else CategoryErrors(patch.category)) +
    (if patch.condition.None? then [] else ConditionErrors(patch.condition)) +
    (if patch.location.None? then [] else LocationErrors(patch.location)) +
    StatusErrors(patch.status)
  }

  /** The record after a patch: set paths replaced, everything else kept.
      Price and category edits do not recompute `ecoImpact`, and the creation
      time is never part of the patch. */
  function ApplyPatch(p: Product, patch: ProductPatch): (q: Product)
    ensures q.createdAt == p.createdAt
    ensures q.seller == patch.seller.GetOr(p.seller) && q.views == patch.views.GetOr(p.views)
    ensures q.likes == patch.likes.GetOr(p.likes) && q.likedBy == patch.likedBy.GetOr(p.likedBy)
    ensures patch.ecoImpact.None? ==> q.ecoImpact == p.ecoImpact
    ensures patch.status.None? ==> q.status == p.status
    ensures patch == EmptyPatch ==> q == p
  {
    p.(
      title := if patch.title.Some? then Trim(patch.title.value) else p.title,
      description := patch.description.GetOr(p.description),
      price := patch.price.GetOr(p.price),
      originalPrice := if patch.originalPrice.Some? then patch.originalPrice else p.originalPrice,
      category := patch.category.GetOr(p.category),
      condition := patch.condition.GetOr(p.condition),
      location := patch.location.GetOr(p.location),
      images := patch.images.GetOr(p.images),
      seller := patch.seller.GetOr(p.seller),
      status := if patch.status.Some? && ParseProductStatus(patch.status.value).Some?
                then ParseProductStatus(patch.status.value).value else p.status,
      ecoImpact := patch.ecoImpact.GetOr(p.ecoImpact),
      views := patch.views.GetOr(p.views),
      likes := patch.likes.GetOr(p.likes),
      likedBy := patch.likedBy.GetOr(p.likedBy))
  }

  const EmptyPatch := ProductPatch(None, None, None, None, None, None, None, None, None, None, None, None, None, None)

  /** A patch that passes the update validators keeps a valid record valid. */
  lemma PatchPreservesValid(p: Product, patch: ProductPatch)
    requires ValidProduct(p) && |PatchViolations(patch)| == 0
    ensures ValidProduct(ApplyPatch(p, patch))
  {
    var q := ApplyPatch(p, patch);
    assert patch.title.None? || TitleOk(patch.title);
    if patch.title.Some? {
      TrimIdempotent(patch.title.value);
      assert q.title == Trim(patch.title.value);
    } else {
      assert q.title == p.title;
    }
    assert 0 < |q.title| && Utf16Length(q.title) <= TitleMax && Trim(q.title) == q.title;
    assert patch.description.None? || DescriptionOk(patch.description);
    assert patch.category.None? || patch.category.value in Categories;
    assert patch.condition.None? || patch.condition.value in Conditions;
    assert patch.location.None? || PresentText(patch.location);
  }
}
