/**
 * The admin product form: its field state, the index-based edits of the
 * size and colour lists, adding and removing images, and the normalisation
 * done when the form is submitted as multipart data.
 *
 * An image is either the URL of an image the product already has or a newly
 * chosen file; each image has a preview URL at the same position.
 */
module ProductForm {
  import opened Types
  import opened Seqs
  import opened Text

  /** A file chosen in the file input (an opaque browser handle). */
  datatype FileRef = FileRef(handle: nat)

  datatype ImageEntry = Url(url: string) | File(file: FileRef)

  function AsImage(f: FileRef): ImageEntry
  {
    File(f)
  }

  /** The form's fields. Price and stock are integers (millimes, units). */
  datatype FormFields = FormFields(
    name: string,
    description: string,
    price: int,
    images: seq<ImageEntry>,
    sizes: seq<string>,
    colors: seq<string>,
    stock_quantity: int,
    created_at: string)

  /** The two editable string lists. */
  datatype ListField = SizesList | ColorsList

  /** An edit delivered by one of the four named inputs. */
  datatype FieldEdit =
    | EditName(name: string)
    | EditDescription(description: string)
    | EditPrice(price: int)
    | EditStock(stock: int)

  /** The sizes the back end accepts. */
  const AllowedSizes: seq<string> := ["XS", "S", "M", "L", "XL", "XXL"]

  /** One colour object of the submitted `colors` JSON array. */
  datatype ColorPayload = ColorPayload(name: string, code: string)

  /** A value appended to the multipart body. */
  datatype FormValue =
    | TextValue(text: string)
    | NumberValue(number: int)
    | ColorsJson(colors: seq<ColorPayload>)
    | SizesJson(sizes: seq<string>)
    | FileValue(file: FileRef)

  datatype FormEntry = FormEntry(key: string, value: FormValue)

  function ListOf(f: FormFields, field: ListField): seq<string>
  {
    match field
    case SizesList => f.sizes
    case ColorsList => f.colors
  }

  function WithList(f: FormFields, field: ListField, list: seq<string>): FormFields
  {
    match field
    case SizesList => f.(sizes := list)
    case ColorsList => f.(colors := list)
  }

  /** A new product: empty fields, one empty size and one empty colour. */
  function InitialFields(now: string): FormFields
  {
    FormFields("", "", 0, [], [""], [""], 0, now)
  }

  /**
   * The fields prefilled from the product being edited. A list is taken as is
   * (an empty array is truthy); an empty creation date falls back to `now`.
   */
  function PrefilledFields(p: Product, now: string): FormFields
  {
    FormFields(p.name, p.description, p.price, Map(p.images, (u: string) => Url(u)),
               p.sizes, p.colors, p.stock_quantity,
               if p.created_at == "" then now else p.created_at)
  }

  /** `sizesClean`: the non-empty entries that are allowed sizes. */
  function CleanSizes(sizes: seq<string>): seq<string>
  {
    Filter(sizes, (s: string) => s != "" && s in AllowedSizes)
  }

  /** `colorsArr`: the non-empty entries, each as `{name: c, code: c}`. */
  function CleanColors(colors: seq<string>): seq<ColorPayload>
  {
    Map(Filter(colors, (c: string) => c != ""), (c: string) => ColorPayload(c, c))
  }

  /**
   * The submitted sizes are exactly the entries that are allowed sizes, each
   * as often as it was entered, in their original order, and cleaning them
   * again changes nothing.
   */
  lemma CleanSizesSpec(sizes: seq<string>)
    ensures forall s :: s in CleanSizes(sizes) <==> s in sizes && s in AllowedSizes
    ensures forall s :: multiset(CleanSizes(sizes))[s] == if s in AllowedSizes then multiset(sizes)[s] else 0
    ensures IsSubsequence(CleanSizes(sizes), sizes)
    ensures CleanSizes(CleanSizes(sizes)) == CleanSizes(sizes)
  {
    var keep := (s: string) => s != "" && s in AllowedSizes;
    FilterCounts(sizes, keep);
    FilterIsSubsequence(sizes, keep);
    FilterAll(CleanSizes(sizes), keep);
  }

  /**
   * The submitted colours are the non-empty entries in their original order,
   * each with name and code equal to the entry.
   */
  lemma CleanColorsSpec(colors: seq<string>)
    ensures var r := CleanColors(colors);
      && (forall i :: 0 <= i < |r| ==> r[i].name == r[i].code && r[i].name != "")
      && Map(r, (c: ColorPayload) => c.name) == Filter(colors, (c: string) => c != "")
      && (forall c :: c in colors && c != "" ==> ColorPayload(c, c) in r)
    ensures IsSubsequence(Filter(colors, (c: string) => c != ""), colors)
  {
    var kept := Filter(colors, (c: string) => c != "");
    var r := CleanColors(colors);
    var names := Map(r, (c: ColorPayload) => c.name);
    assert names == kept;
    forall c | c in colors && c != "" ensures ColorPayload(c, c) in r {
      var k :| 0 <= k < |kept| && kept[k] == c;
      assert r[k] == ColorPayload(c, c);
    }
    FilterIsSubsequence(colors, (c: string) => c != "");
  }

  /** The entries for the images: one `images` entry per new file, in order. */
  function ImageEntries(images: seq<ImageEntry>): seq<FormEntry>
    decreases |images|
  {
    if images == [] then []
    else
      var init := ImageEntries(images[..|images| - 1]);
      match images[|images| - 1]
      case Url(_) => init
      case File(f) => init + [FormEntry("images", FileValue(f))]
  }

  predicate IsFile(e: ImageEntry)
  {
    e.File?
  }

  /**
   * Only files are sent, each exactly once and in list order: the k-th image
   * entry carries the file of the k-th `File` entry of the list; existing
   * URLs never are sent.
   */
  lemma {:induction false} ImageEntriesSpec(images: seq<ImageEntry>)
    ensures var files := Filter(images, IsFile);
      && |ImageEntries(images)| == |files|
      && forall k :: 0 <= k < |files| ==> ImageEntries(images)[k] == FormEntry("images", FileValue(files[k].file))
    ensures forall e :: e in ImageEntries(images) ==>
      e.key == "images" && e.value.FileValue? && File(e.value.file) in images
    ensures forall f :: File(f) in images ==> FormEntry("images", FileValue(f)) in ImageEntries(images)
    ensures (forall k :: 0 <= k < |images| ==> images[k].Url?) ==> ImageEntries(images) == []
    decreases |images|
  {
    if images != [] {
      var init := images[..|images| - 1];
      var last := images[|images| - 1];
      ImageEntriesSpec(init);
      assert images == init + [last];
      FilterSnoc(init, last, IsFile);
      assert forall x :: x in images <==> x in init || x == last;
    }
  }

  /** The fields sent before the files, in append order. */
  function HeaderEntries(f: FormFields): seq<FormEntry>
  {
    [ FormEntry("name", TextValue(Trim(f.name))),
      FormEntry("description", TextValue(Trim(f.description))),
      FormEntry("price", NumberValue(f.price)),
      FormEntry("colors", ColorsJson(CleanColors(f.colors))),
      FormEntry("sizes", SizesJson(CleanSizes(f.sizes))),
      FormEntry("stock", NumberValue(f.stock_quantity)),
      FormEntry("is_new", TextValue("true")) ]
  }

  /** The whole multipart body built from the fields. */
  function Submission(f: FormFields): seq<FormEntry>
  {
    HeaderEntries(f) + ImageEntries(f.images)
  }

  /**
   * The submitted body starts with the seven fields in append order: the
   * trimmed name and description (so no surrounding whitespace), the price,
   * the cleaned colours, the cleaned and whitelisted sizes, the stock, and
   * `is_new` = 'true'.
   */
  lemma SubmissionHeader(f: FormFields)
    ensures var d := Submission(f);
      && |d| >= 7
      && d[0] == FormEntry("name", TextValue(Trim(f.name)))
      && d[1] == FormEntry("description", TextValue(Trim(f.description)))
      && d[2] == FormEntry("price", NumberValue(f.price))
      && d[3] == FormEntry("colors", ColorsJson(CleanColors(f.colors)))
      && d[4] == FormEntry("sizes", SizesJson(CleanSizes(f.sizes)))
      && d[5] == FormEntry("stock", NumberValue(f.stock_quantity))
      && d[6] == FormEntry("is_new", TextValue("true"))
      && NoEdgeWhitespace(d[0].value.text) && NoEdgeWhitespace(d[1].value.text)
      && (forall s :: s in d[4].value.sizes ==> s in AllowedSizes)
  {
    var d := Submission(f);
    var h := HeaderEntries(f);
    assert forall k :: 0 <= k < 7 ==> d[k] == h[k];
    TrimNoEdgeWhitespace(f.name);
    TrimNoEdgeWhitespace(f.description);
    CleanSizesSpec(f.sizes);
  }

  /**
   * After the seven header entries come the files of the form, each exactly
   * once and in list order; every such entry carries a new file of the form.
   */
  lemma SubmissionFiles(f: FormFields)
    ensures var d := Submission(f);
      var files := Filter(f.images, IsFile);
      && |d| == 7 + |files|
      && (forall k :: 7 <= k < |d| ==> d[k] == FormEntry("images", FileValue(files[k - 7].file)))
      && (forall k :: 7 <= k < |d| ==>
            d[k].key == "images" && d[k].value.FileValue? && File(d[k].value.file) in f.images)
  {
    var d := Submission(f);
    var entries := ImageEntries(f.images);
    ImageEntriesSpec(f.images);
    assert |d| == 7 + |entries|;
    forall k | 7 <= k < |d|
      ensures d[k].key == "images" && d[k].value.FileValue? && File(d[k].value.file) in f.images
    {
      assert d[k] == entries[k - 7];
      assert entries[k - 7] in entries;
    }
  }

  /**
   * `removeImage` as written: the preview list loses position `index`, but
   * the image list keeps each URL different from the removed preview and
   * keeps a file when a new object URL for it differs from that preview.
   * `objectUrl` is `URL.createObjectURL`.
   */
  function RemoveImageAsWritten(images: seq<ImageEntry>, previews: seq<string>, index: int,
                                objectUrl: FileRef -> string): (seq<ImageEntry>, seq<string>)
  {
    var target := if 0 <= index < |previews| then Some(previews[index]) else None;
    var keep := (e: ImageEntry) =>
      match e
      case Url(u) => Some(u) != target
      case File(f) => Some(objectUrl(f)) != target;
    (Filter(images, keep), RemoveAt(previews, index))
  }

  /**
   * `createObjectURL` returns a new URL on every call, so one made for a file
   * never equals a preview already shown; under that premise the as-written
   * removal keeps every new file and will still upload it.
   */
  lemma RemoveImageAsWrittenKeepsFiles(images: seq<ImageEntry>, previews: seq<string>, index: int,
                                       objectUrl: FileRef -> string)
    requires forall f :: objectUrl(f) !in previews
    ensures var (imgs, _) := RemoveImageAsWritten(images, previews, index, objectUrl);
      forall f :: File(f) in images ==> File(f) in imgs
  {
  }

  /** One new file and its preview: removing it leaves the file to be uploaded and the lists out of step. */
  lemma RemoveImageAsWrittenCounterexample()
    ensures var images := [File(FileRef(0))];
      var (imgs, previews) := RemoveImageAsWritten(images, ["blob:1"], 0, (f: FileRef) => "blob:2");
      && previews == []
      && imgs == images
      && ImageEntries(imgs) == [FormEntry("images", FileValue(FileRef(0)))]
  {
    var images := [File(FileRef(0))];
    assert ImageEntries(images) ==
      ImageEntries(images[..0]) + [FormEntry("images", FileValue(FileRef(0)))];
  }

  /** `removeImage` as intended: position `index` leaves both lists. */
  function RemoveImageAt(images: seq<ImageEntry>, previews: seq<string>, index: int): (seq<ImageEntry>, seq<string>)
  {
    (RemoveAt(images, index), RemoveAt(previews, index))
  }

  /** Every image stands at the position of its preview, and an existing image's preview is its URL. */
  predicate Parallel(images: seq<ImageEntry>, previews: seq<string>)
  {
    && |images| == |previews|
    && forall k :: 0 <= k < |images| && images[k].Url? ==> previews[k] == images[k].url
  }

  /**
   * The intended removal keeps the lists parallel and takes out exactly the
   * image shown at `index`, so a removed file is no longer uploaded.
   */
  lemma RemoveImageSpec(images: seq<ImageEntry>, previews: seq<string>, index: int)
    requires Parallel(images, previews)
    ensures var (imgs, prevs) := RemoveImageAt(images, previews, index);
      && Parallel(imgs, prevs)
      && (0 <= index < |images| ==> |imgs| == |images| - 1 && imgs == images[..index] + images[index + 1..])
      && (!(0 <= index < |images|) ==> imgs == images && prevs == previews)
  {
  }

  /** The intended removal of the single new file leaves nothing to upload. */
  lemma RemoveImageDropsFile()
    ensures var (imgs, previews) := RemoveImageAt([File(FileRef(0))], ["blob:1"], 0);
      imgs == [] && previews == [] && ImageEntries(imgs) == []
  {
  }

  /** New files appended with their object URLs keep the lists parallel. */
  lemma AppendFilesKeepsParallel(images: seq<ImageEntry>, previews: seq<string>, files: seq<FileRef>,
                                 objectUrl: FileRef -> string)
    requires Parallel(images, previews)
    ensures Parallel(images + Map(files, AsImage), previews + Map(files, objectUrl))
  {
    var imgs := images + Map(files, AsImage);
    var prevs := previews + Map(files, objectUrl);
    assert forall k :: |images| <= k < |imgs| ==> imgs[k] == AsImage(files[k - |images|]);
  }

  /** `images.forEach(...)`: appends one `images` entry for each file, in order. */
  method AppendImages(header: seq<FormEntry>, images: seq<ImageEntry>) returns (data: seq<FormEntry>)
    ensures data == header + ImageEntries(images)
  {
    data := header;
    var i := 0;
    while i < |images|
      invariant 0 <= i <= |images|
      invariant data == header + ImageEntries(images[..i])
    {
      ghost var prefix := images[..i + 1];
      assert prefix[..|prefix| - 1] == images[..i] && prefix[|prefix| - 1] == images[i];
      match images[i] {
        case Url(_) =>
        case File(file) => data := data + [FormEntry("images", FileValue(file))];
      }
      i := i + 1;
    }
    assert images[..i] == images;
  }

  /** The form's state: the fields and the preview URLs shown under the file input. */
  class Form {
    var formData: FormFields
    var imagePreviews: seq<string>

    predicate Valid()
      reads this
    {
      Parallel(formData.images, imagePreviews)
    }

    /** The effect the form runs when opened: prefill from the product, or start blank. */
    constructor (product: Option<Product>, now: string)
      ensures Valid()
      ensures product.None? ==> formData == InitialFields(now) && imagePreviews == []
      ensures product.None? ==> formData.sizes == [""] && formData.colors == [""]
      ensures product.Some? ==> formData == PrefilledFields(product.value, now)
                                && imagePreviews == product.value.images
    {
      match product
      case None =>
        formData := InitialFields(now);
        imagePreviews := [];
      case Some(p) =>
        formData := PrefilledFields(p, now);
        imagePreviews := p.images;
    }

    /** `handleChange`: the named field takes the new value; nothing else changes. */
    method HandleChange(edit: FieldEdit)
      requires Valid()
      modifies this
      ensures Valid()
      ensures imagePreviews == old(imagePreviews)
      ensures formData == match edit
        case EditName(v) => old(formData).(name := v)
        case EditDescription(v) => old(formData).(description := v)
        case EditPrice(v) => old(formData).(price := v)
        case EditStock(v) => old(formData).(stock_quantity := v)
    {
      match edit
      case EditName(v) => formData := formData.(name := v);
      case EditDescription(v) => formData := formData.(description := v);
      case EditPrice(v) => formData := formData.(price := v);
      case EditStock(v) => formData := formData.(stock_quantity := v);
    }

    /**
     * `handleImageChange`: each chosen file is appended to the images, and a
     * new object URL for it to the previews, in the order chosen. No file
     * list leaves the state unchanged.
     */
    method HandleImageChange(files: Option<seq<FileRef>>, objectUrl: FileRef -> string)
      requires Valid()
      modifies this
      ensures Valid()
      ensures files.None? ==> formData == old(formData) && imagePreviews == old(imagePreviews)
      ensures files.Some? ==>
        && formData == old(formData).(images := old(formData).images + Map(files.value, AsImage))
        && imagePreviews == old(imagePreviews) + Map(files.value, objectUrl)
    {
      if files.Some? {
        var fs := files.value;
        var newImageUrls: seq<string> := [];
        var newImageFiles: seq<ImageEntry> := [];
        var i := 0;
        while i < |fs|
          invariant 0 <= i <= |fs|
          invariant newImageUrls == Map(fs[..i], objectUrl)
          invariant newImageFiles == Map(fs[..i], AsImage)
          invariant unchanged(this)
        {
          assert fs[..i + 1] == fs[..i] + [fs[i]];
          MapSnoc(fs[..i], fs[i], objectUrl);
          MapSnoc(fs[..i], fs[i], AsImage);
          newImageUrls := newImageUrls + [objectUrl(fs[i])];
          newImageFiles := newImageFiles + [File(fs[i])];
          i := i + 1;
        }
        assert fs[..i] == fs;
        AppendFilesKeepsParallel(formData.images, imagePreviews, fs, objectUrl);
        formData := formData.(images := formData.images + newImageFiles);
        imagePreviews := imagePreviews + newImageUrls;
      }
    }

    /** `removeImage`, with the intended behaviour: position `index` leaves both lists. */
    method RemoveImage(index: int)
      requires Valid()
      modifies this
      ensures Valid()
      ensures (formData.images, imagePreviews) == RemoveImageAt(old(formData.images), old(imagePreviews), index)
      ensures formData == old(formData).(images := formData.images)
    {
      RemoveImageSpec(formData.images, imagePreviews, index);
      var (imgs, prevs) := RemoveImageAt(formData.images, imagePreviews, index);
      formData := formData.(images := imgs);
      imagePreviews := prevs;
    }

    /**
     * `handleArrayChange`: a copy of the chosen list with position `index`
     * overwritten. The list keeps its length and every other entry.
     */
    method HandleArrayChange(index: int, value: string, field: ListField)
      requires Valid()
      requires 0 <= index < |ListOf(formData, field)|
      modifies this
      ensures Valid()
      ensures imagePreviews == old(imagePreviews)
      ensures var list := ListOf(formData, field);
        && |list| == |ListOf(old(formData), field)|
        && list[index] == value
        && (forall k :: 0 <= k < |list| && k != index ==> list[k] == ListOf(old(formData), field)[k])
      ensures formData == WithList(old(formData), field, ListOf(formData, field))
    {
      var current := ListOf(formData, field);
      var newArray := new string[|current|](k requires 0 <= k < |current| => current[k]);
      newArray[index] := value;
      formData := WithList(formData, field, newArray[..]);
    }

    /** `addArrayItem`: one empty entry appended to the chosen list. */
    method AddArrayItem(field: ListField)
      requires Valid()
      modifies this
      ensures Valid()
      ensures imagePreviews == old(imagePreviews)
      ensures ListOf(formData, field) == ListOf(old(formData), field) + [""]
      ensures formData == WithList(old(formData), field, ListOf(formData, field))
    {
      formData := WithList(formData, field, ListOf(formData, field) + [""]);
    }

    /**
     * `removeArrayItem`: the entry at `index` leaves the chosen list, the
     * others keep their order; an index outside the list changes nothing.
     */
    method RemoveArrayItem(index: int, field: ListField)
      requires Valid()
      modifies this
      ensures Valid()
      ensures imagePreviews == old(imagePreviews)
      ensures ListOf(formData, field) == RemoveAt(ListOf(old(formData), field), index)
      ensures formData == WithList(old(formData), field, ListOf(formData, field))
    {
      formData := WithList(formData, field, RemoveAt(ListOf(formData, field), index));
    }

    /**
     * `handleSubmit`: the seven fields in their append order, then one
     * `images` entry per new file.
     */
    method HandleSubmit() returns (data: seq<FormEntry>)
      ensures data == Submission(formData)
    {
      data := HeaderEntries(formData);
      data := AppendImages(data, formData.images);
    }
  }
}
