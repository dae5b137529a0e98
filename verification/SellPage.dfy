/** The sell page: which picked files become images, the five-image cap,
    removal by id and the no-image submit gate. */
module SellPage {
  import opened Wrappers
  import opened Text
  import opened EcoImpact
  import opened FrontItem
  import opened UserData

  const MaxImages: nat := 5
  const MaxImageBytes: nat := 5 * 1024 * 1024

  /** A picked file: its name, MIME type and size in bytes. */
  datatype File = File(name: string, mime: string, size: int)

  /** A selected image: the file, its data URL and its id. */
  datatype Selected = Selected(file: File, url: string, id: int)

  /** An image type of at most 5 MiB. */
  predicate ValidFile(f: File)
  {
    StartsWith(f.mime, "image/") && f.size <= MaxImageBytes
  }

  /** `validFiles`: the acceptable files, in the order picked. */
  function ValidFiles(files: seq<File>): (r: seq<File>)
    ensures forall f :: f in r <==> f in files && ValidFile(f)
    ensures |r| <= |files|
  {
    if files == [] then []
    else
      assert files == [files[0]] + files[1..];
      (if ValidFile(files[0]) then [files[0]] else []) + ValidFiles(files[1..])
  }

  /** The file check works piecewise, so the accepted files keep the picked order. */
  lemma {:induction false} ValidFilesConcat(a: seq<File>, b: seq<File>)
    ensures ValidFiles(a + b) == ValidFiles(a) + ValidFiles(b)
  {
    if a != [] {
      assert (a + b)[0] == a[0];
      assert (a + b)[1..] == a[1..] + b;
      ValidFilesConcat(a[1..], b);
    } else {
      assert a + b == b;
    }
  }

  /** One picked file is accepted, once, exactly when it is valid. */
  lemma ValidFilesSingle(f: File)
    ensures ValidFiles([f]) == (if ValidFile(f) then [f] else [])
  {
    assert [f][1..] == [];
  }

  /** `handleImageSelect`. The data URL of each file and the id stamped on the
      k-th accepted file are supplied by `read` and `ids`. Over the cap, nothing
      is added; otherwise every valid file is appended, in order. */
  function SelectImages(current: seq<Selected>, files: seq<File>,
                        read: File -> string, ids: nat -> int): (r: seq<Selected>)
    ensures |current| + |ValidFiles(files)| > MaxImages ==> r == current
    ensures |current| + |ValidFiles(files)| <= MaxImages ==>
      && |r| == |current| + |ValidFiles(files)|
      && r[..|current|] == current
      && forall k :: 0 <= k < |ValidFiles(files)| ==>
           r[|current| + k] == Selected(ValidFiles(files)[k], read(ValidFiles(files)[k]), ids(k))
    ensures forall i :: |current| <= i < |r| ==> ValidFile(r[i].file) && r[i].file in files
  {
    var valid := ValidFiles(files);
    if |current| + |valid| > MaxImages then current
    else
      var added := seq(|valid|, k requires 0 <= k < |valid| => Selected(valid[k], read(valid[k]), ids(k)));
      assert forall i :: |current| <= i < |current + added| ==> (current + added)[i] == added[i - |current|];
      assert forall k :: 0 <= k < |valid| ==> valid[k] in valid;
      current + added
  }

  /** One selection never takes the count past the cap. */
  lemma SelectStaysCapped(current: seq<Selected>, files: seq<File>, read: File -> string, ids: nat -> int)
    requires |current| <= MaxImages
    ensures |SelectImages(current, files, read, ids)| <= MaxImages
  {
  }

  /** Several selections in a row, each batch with its own ids. */
  function SelectBatches(current: seq<Selected>, batches: seq<seq<File>>,
                         read: File -> string, ids: nat -> nat -> int): (r: seq<Selected>)
    decreases |batches|
  {
    if batches == [] then current
    else SelectBatches(SelectImages(current, batches[0], read, ids(0)), batches[1..], read,
                       (n: nat) => ids(n + 1))
  }

  /** Under any sequence of selections starting within the cap, it is never exceeded. */
  lemma {:induction false} SelectBatchesCapped(current: seq<Selected>, batches: seq<seq<File>>,
                                               read: File -> string, ids: nat -> nat -> int)
    requires |current| <= MaxImages
    ensures |SelectBatches(current, batches, read, ids)| <= MaxImages
    decreases |batches|
  {
    if batches != [] {
      SelectStaysCapped(current, batches[0], read, ids(0));
      SelectBatchesCapped(SelectImages(current, batches[0], read, ids(0)), batches[1..], read,
                          (n: nat) => ids(n + 1));
    }
  }

  /** `removeImage`: every image with that id goes, the rest stay. */
  function RemoveImage(images: seq<Selected>, id: int): (r: seq<Selected>)
    ensures forall x :: x in r <==> x in images && x.id != id
  {
    if images == [] then []
    else
      assert images == [images[0]] + images[1..];
      (if images[0].id != id then [images[0]] else []) + RemoveImage(images[1..], id)
  }

  /** Removal works piecewise, so the survivors keep their relative order. */
  lemma {:induction false} RemoveImageConcat(a: seq<Selected>, b: seq<Selected>, id: int)
    ensures RemoveImage(a + b, id) == RemoveImage(a, id) + RemoveImage(b, id)
  {
    if a != [] {
      assert (a + b)[0] == a[0];
      assert (a + b)[1..] == a[1..] + b;
      RemoveImageConcat(a[1..], b, id);
    } else {
      assert a + b == b;
    }
  }

  /** An id no image carries removes nothing. */
  lemma {:induction false} RemoveAbsentId(images: seq<Selected>, id: int)
    requires forall i :: 0 <= i < |images| ==> images[i].id != id
    ensures RemoveImage(images, id) == images
  {
    if images != [] {
      RemoveAbsentId(images[1..], id);
      assert images == [images[0]] + images[1..];
    }
  }

  /** The listing form. */
  datatype SellForm = SellForm(title: string, description: string, price: int,
                               category: string, condition: string, location: string)

  function Urls(images: seq<Selected>): (r: seq<string>)
    ensures |r| == |images| && forall i :: 0 <= i < |images| ==> r[i] == images[i].url
  {
    seq(|images|, i requires 0 <= i < |images| => images[i].url)
  }

  /** The form spread into a record; fields the form lacks are zero or empty. */
  function FormItem(form: SellForm, images: seq<Selected>): Item
  {
    Item(0, form.title, form.description, form.category, form.condition, form.location,
         form.price, Urls(images), 0, 0, "", 0, 0, Impact(0, 0))
  }

  const NoImageMessage: string := "Please add at least one image"

  /** `handleSubmit`: no listing without an image; otherwise the form with the
      image URLs is added to the ledger as a sold product. */
  function Submit(d: LocalData, form: SellForm, images: seq<Selected>, id: int, now: int)
    : (r: Result<(LocalData, Item), string>)
    ensures |images| == 0 <==> r.Failure?
    ensures r.Failure? ==> r.error == NoImageMessage
    ensures r.Success? ==>
      && r.value == AddSoldProduct(d, FormItem(form, images), id, now)
      && r.value.1.images == Urls(images) && r.value.1.title == form.title && r.value.1.price == form.price
      && r.value.1.ecoImpact == FrontEstimate(form.category, form.price)
  {
    if |images| == 0 then Failure(NoImageMessage)
    else Success(AddSoldProduct(d, FormItem(form, images), id, now))
  }
}
