/**
 * The admin product list: mapping a product of the product API to the
 * storefront's type, the admin colour-style resolution, and the page state
 * (the list, the modal and the product being edited) with its handlers.
 */
module ProductManagement {
  import opened Types
  import opened Seqs
  import opened Text
  import opened Colors

  /** The host prefixed to the product API's relative image URLs. */
  const ApiHost: string := "http://localhost:5000"

  datatype BackendImage = BackendImage(url: string, alt: Option<string>)

  /** A colour as the product API stores it: a plain string or an object. */
  datatype BackendColor = ColorString(value: string) | ColorObject(name: Option<string>, code: Option<string>)

  /** A product as the product API returns it; optional members may be absent. */
  datatype BackendProduct = BackendProduct(
    id: string,
    name: string,
    description: string,
    price: int,
    category: string,
    colors: Option<seq<BackendColor>>,
    sizes: Option<seq<string>>,
    images: Option<seq<BackendImage>>,
    stock: Option<int>,
    is_featured: Option<bool>,
    createdAt: string)

  /** A string member that is present and non-empty (a truthy string). */
  predicate Truthy(s: Option<string>)
  {
    s.Some? && s.value != ""
  }

  /** `typeof c === 'string' ? c : c.name || c.code || ''`. */
  function ColorLabel(c: BackendColor): string
  {
    match c
    case ColorString(v) => v
    case ColorObject(name, code) =>
      if Truthy(name) then name.value else if Truthy(code) then code.value else ""
  }

  function ImageUrl(img: BackendImage): string
  {
    ApiHost + img.url
  }

  function OrEmpty<T>(s: Option<seq<T>>): seq<T>
  {
    if s.Some? then s.value else []
  }

  /**
   * `mapFromBackend`. The category id doubles as the category's name; no
   * gender is set.
   */
  function MapFromBackend(p: BackendProduct): Product
  {
    Product(
      p.id, p.name, p.description, p.price, p.category,
      Some(Category(p.category, p.category, "", p.createdAt)),
      Map(OrEmpty(p.images), ImageUrl),
      OrEmpty(p.sizes),
      Map(OrEmpty(p.colors), ColorLabel),
      None,
      if p.stock.Some? then p.stock.value else 0,
      p.is_featured == Some(true),
      p.createdAt)
  }

  /**
   * Identity, name, description, price, category and creation date are
   * copied; missing stock, featured flag, sizes, colours and images default
   * to 0, false and empty lists; present ones are kept.
   */
  lemma MapFromBackendDefaults(p: BackendProduct)
    ensures var q := MapFromBackend(p);
      && q.id == p.id && q.name == p.name && q.description == p.description && q.price == p.price
      && q.category_id == p.category && q.created_at == p.createdAt
      && q.category == Some(Category(p.category, p.category, "", p.createdAt))
      && (p.stock.None? ==> q.stock_quantity == 0)
      && (p.stock.Some? ==> q.stock_quantity == p.stock.value)
      && (q.is_featured <==> p.is_featured == Some(true))
      && (p.sizes.None? ==> q.sizes == [])
      && (p.sizes.Some? ==> q.sizes == p.sizes.value)
      && (p.colors.None? ==> q.colors == [])
      && (p.images.None? ==> q.images == [])
      && q.gender.None?
  {
  }

  /**
   * Every image keeps its position with the host prefixed, and every colour
   * becomes its string, else its name, else its code, else ''.
   */
  lemma MapFromBackendLists(p: BackendProduct)
    requires p.images.Some? && p.colors.Some?
    ensures var q := MapFromBackend(p);
      && |q.images| == |p.images.value|
      && (forall i :: 0 <= i < |q.images| ==>
            StartsWith(q.images[i], ApiHost) && q.images[i][|ApiHost|..] == p.images.value[i].url)
      && |q.colors| == |p.colors.value|
      && (forall i :: 0 <= i < |q.colors| ==>
            q.colors[i] == match p.colors.value[i]
              case ColorString(v) => v
              case ColorObject(name, code) =>
                if name.Some? && name.value != "" then name.value
                else if code.Some? then code.value
                else "")
  {
    var q := MapFromBackend(p);
    forall i | 0 <= i < |q.images|
      ensures StartsWith(q.images[i], ApiHost) && q.images[i][|ApiHost|..] == p.images.value[i].url
    {
      assert q.images[i] == ApiHost + p.images.value[i].url;
    }
  }

  /** `/^rgba?\(/i`. */
  predicate IsRgb(s: string)
  {
    StartsWithIgnoringCase(s, "rgb(") || StartsWithIgnoringCase(s, "rgba(")
  }

  /**
   * `getColorStyle` of the admin list: a hex or rgb string as is, then the
   * name table, then the table under the capitalised name, then the input
   * itself, or the grey fallback for an empty input.
   */
  function ColorStyle(color: string): string
  {
    if IsHexColor(color) then color
    else if IsRgb(color) then color
    else if color in ColorMap then ColorMap[color]
    else if Capitalize(color) in ColorMap then ColorMap[Capitalize(color)]
    else if color == "" then FallbackColor
    else color
  }

  /** Hex and rgb strings pass through unchanged. */
  lemma ColorStylePassThrough(color: string)
    requires IsHexColor(color) || IsRgb(color)
    ensures ColorStyle(color) == color
  {
  }

  /** No name of the table looks like a hex or rgb colour. */
  lemma ColorNamesAreNotCodes(color: string)
    requires color in ColorMap
    ensures !IsHexColor(color) && !IsRgb(color)
  {
    ColorNameShapes();
    NotCodeShape(color);
  }

  /** A string whose second letter is a lower-case letter other than 'g' is neither a hex nor an rgb colour. */
  lemma NotCodeShape(s: string)
    requires |s| >= 2 && s[0] != '#' && 'a' <= s[1] <= 'z' && s[1] != 'g'
    ensures !IsHexColor(s) && !IsRgb(s)
  {
    NotCaselessPrefix(s, "rgb(");
    NotCaselessPrefix(s, "rgba(");
  }

  /** Every table name opens with a capital and a lower-case second letter other than 'g'. */
  lemma ColorNameShapes()
    ensures forall name :: name in ColorMap ==>
      |name| >= 2 && name[0] != '#' && 'a' <= name[1] <= 'z' && name[1] != 'g'
  {
    forall name | name in ColorMap
      ensures |name| >= 2 && name[0] != '#' && 'a' <= name[1] <= 'z' && name[1] != 'g'
    {
      assert name in {"Noir", "Blanc", "Gris", "Marine", "Rouge", "Bleu", "Rose", "Lavande", "Jaune",
                      "Menthe", "Beige", "Vert", "Orange", "Violet", "Kaki", "Marron", "Bordeaux"};
    }
  }

  /** A string whose second letter is a lower-case letter other than 'g' has no caseless prefix with 'g' second. */
  lemma NotCaselessPrefix(s: string, prefix: string)
    requires |prefix| >= 2 && prefix[1] == 'g'
    requires |s| >= 2 && 'a' <= s[1] <= 'z' && s[1] != 'g'
    ensures !StartsWithIgnoringCase(s, prefix)
  {
    if |prefix| <= |s| {
      assert Lower(s[..|prefix|])[1] == s[1];
      assert Lower(prefix)[1] == 'g';
    }
  }

  /**
   * A name of the table maps to its code, the same swatch the product card
   * and the product page show.
   */
  lemma ColorStyleKnownName(color: string)
    requires color in ColorMap
    ensures ColorStyle(color) == ColorMap[color] == Swatch(color)
  {
    ColorNamesAreNotCodes(color);
  }

  /** A name known only in capitalised form is looked up in that form. */
  lemma ColorStyleCapitalised(color: string)
    requires !IsHexColor(color) && !IsRgb(color) && color !in ColorMap
    requires Capitalize(color) in ColorMap
    ensures ColorStyle(color) == ColorMap[Capitalize(color)]
  {
  }

  /** For example, 'noir' resolves to black through its capitalised form. */
  lemma ColorStyleLowerCaseExample()
    ensures ColorStyle("noir") == "#000000"
  {
    var c := "noir";
    assert UpperChar('n') == 'N';
    assert Lower("oir") == "oir";
    assert Capitalize(c) == "Noir";
    assert c !in ColorMap;
    assert !IsRgb(c) by { assert Lower(c[..4]) != "rgb("; }
    ColorStyleCapitalised(c);
  }

  /** Anything else is returned as is; only the empty string becomes the grey fallback. */
  lemma ColorStyleFallback(color: string)
    requires !IsHexColor(color) && !IsRgb(color) && color !in ColorMap && Capitalize(color) !in ColorMap
    ensures color == "" ==> ColorStyle(color) == FallbackColor
    ensures color != "" ==> ColorStyle(color) == color
  {
  }

  /** The result is never empty: the input, a table code, or the fallback. */
  lemma ColorStyleNonEmpty(color: string)
    ensures ColorStyle(color) != ""
    ensures ColorStyle(color) == color || ColorStyle(color) in ColorMap.Values || ColorStyle(color) == FallbackColor
  {
    ColorMapValuesAreHex();
  }

  /** The products other than those with id `id`, in order. */
  function WithoutProduct(products: seq<Product>, id: string): seq<Product>
  {
    Filter(products, (p: Product) => p.id != id)
  }

  /** The list with every product of `mapped`'s id replaced by `mapped`. */
  function ReplaceProduct(products: seq<Product>, mapped: Product): seq<Product>
  {
    ReplaceWhere(products, (p: Product) => p.id == mapped.id, mapped)
  }

  /** Deleting removes exactly the products with that id and keeps the rest in order. */
  lemma WithoutProductSpec(products: seq<Product>, id: string)
    ensures forall p :: p in WithoutProduct(products, id) <==> p in products && p.id != id
    ensures forall p :: multiset(WithoutProduct(products, id))[p] == if p.id != id then multiset(products)[p] else 0
    ensures IsSubsequence(WithoutProduct(products, id), products)
    ensures (forall p :: p in products ==> p.id != id) ==> WithoutProduct(products, id) == products
  {
    FilterIsSubsequence(products, (p: Product) => p.id != id);
    FilterCounts(products, (p: Product) => p.id != id);
    if forall p :: p in products ==> p.id != id {
      FilterAll(products, (p: Product) => p.id != id);
    }
  }

  /**
   * An update keeps the length, puts `mapped` where its id was and leaves
   * every other product in place; with no product of that id it changes nothing.
   */
  lemma ReplaceProductSpec(products: seq<Product>, mapped: Product)
    ensures var r := ReplaceProduct(products, mapped);
      && |r| == |products|
      && (forall i :: 0 <= i < |r| && products[i].id == mapped.id ==> r[i] == mapped)
      && (forall i :: 0 <= i < |r| && products[i].id != mapped.id ==> r[i] == products[i])
      && ((exists i :: 0 <= i < |products| && products[i].id == mapped.id) ==> mapped in r)
      && ((forall p :: p in products ==> p.id != mapped.id) ==> r == products)
  {
    var r := ReplaceProduct(products, mapped);
    if exists i :: 0 <= i < |products| && products[i].id == mapped.id {
      var i :| 0 <= i < |products| && products[i].id == mapped.id;
      assert r[i] == mapped;
    }
  }

  /** The admin product page's state. */
  class ProductList {
    var products: seq<Product>
    var isModalOpen: bool
    var editingProduct: Option<Product>

    constructor ()
      ensures products == [] && !isModalOpen && editingProduct == None
    {
      products := [];
      isModalOpen := false;
      editingProduct := None;
    }

    /** The initial load: a fetched list (an absent body counts as empty) is mapped; a failure changes nothing. */
    method Load(response: Response<Option<seq<BackendProduct>>>)
      modifies this
      ensures response.Success? ==> products == Map(OrEmpty(response.body), MapFromBackend)
      ensures response.Failure? ==> products == old(products)
      ensures isModalOpen == old(isModalOpen) && editingProduct == old(editingProduct)
    {
      if response.Success? {
        products := Map(OrEmpty(response.body), MapFromBackend);
      }
    }

    /**
     * `handleDelete`: once confirmed, the products with that id are removed
     * at once; a failed request puts the previous list back.
     */
    method HandleDelete(productId: string, confirmed: bool, deleteSucceeds: bool)
      modifies this
      ensures confirmed && deleteSucceeds ==> products == WithoutProduct(old(products), productId)
      ensures !confirmed || !deleteSucceeds ==> products == old(products)
      ensures isModalOpen == old(isModalOpen) && editingProduct == old(editingProduct)
    {
      if confirmed {
        var prev := products;
        products := WithoutProduct(products, productId);
        if !deleteSucceeds {
          products := prev;
        }
      }
    }

    /** `handleOpenModal`: the modal opens on the given product, or on a new one. */
    method HandleOpenModal(product: Option<Product>)
      modifies this
      ensures isModalOpen && editingProduct == product && products == old(products)
    {
      editingProduct := product;
      isModalOpen := true;
    }

    /** `handleCloseModal`. */
    method HandleCloseModal()
      modifies this
      ensures !isModalOpen && editingProduct == None && products == old(products)
    {
      isModalOpen := false;
      editingProduct := None;
    }

    /**
     * `handleFormSubmit`: the saved product returned by the API, mapped,
     * replaces its namesakes when editing or is prepended when creating, and
     * the modal closes; a failed save leaves everything as it was.
     */
    method HandleFormSubmit(response: Response<BackendProduct>)
      modifies this
      ensures response.Success? && old(editingProduct).Some? ==>
        products == ReplaceProduct(old(products), MapFromBackend(response.body))
      ensures response.Success? && old(editingProduct).None? ==>
        products == [MapFromBackend(response.body)] + old(products)
      ensures response.Success? ==> !isModalOpen && editingProduct == None
      ensures response.Failure? ==>
        products == old(products) && isModalOpen == old(isModalOpen) && editingProduct == old(editingProduct)
    {
      if response.Success? {
        var mapped := MapFromBackend(response.body);
        if editingProduct.Some? {
          products := ReplaceProduct(products, mapped);
        } else {
          products := [mapped] + products;
        }
        HandleCloseModal();
      }
    }
  }
}
