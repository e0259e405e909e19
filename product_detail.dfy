/**
 * The product page: looking the product up by the route id, the quantity
 * stepper, the size, colour and image pickers, the add-to-cart guard and the
 * favourite toggle. The cart and favourites contexts are not part of this
 * model; the page's calls into them are recorded in order instead.
 */
module ProductDetail {
  import opened Types
  import Colors

  /** `catalog.find(p => p.id === id)`; a missing route id matches nothing. */
  function FindProduct(catalog: seq<Product>, id: Option<string>): (r: Option<Product>)
    ensures r.Some? <==> id.Some? && exists p :: p in catalog && p.id == id.value
    ensures r.Some? ==>
      exists i :: 0 <= i < |catalog| && catalog[i] == r.value && r.value.id == id.value
                  && forall j :: 0 <= j < i ==> catalog[j].id != id.value
  {
    if id.None? || catalog == [] then None
    else if catalog[0].id == id.value then Some(catalog[0])
    else
      var rest := FindProduct(catalog[1..], id);
      assert forall p :: p in catalog[1..] ==> p in catalog;
      assert forall p :: p in catalog && p != catalog[0] ==> p in catalog[1..];
      if rest.Some? then
        ghost var i :| 0 <= i < |catalog[1..]| && catalog[1..][i] == rest.value && rest.value.id == id.value
          && forall j :: 0 <= j < i ==> catalog[1..][j].id != id.value;
        assert catalog[i + 1] == rest.value;
        assert forall j :: 1 <= j < i + 1 ==> catalog[j].id == catalog[1..][j - 1].id;
        rest
      else rest
  }

  /**
   * `images[selectedImage] || images[0]`: the selected picture when it
   * exists and is non-empty, else the first one; nothing for a product
   * without pictures.
   */
  function DisplayedImage(images: seq<string>, selected: nat): (r: Option<string>)
    ensures r.Some? <==> |images| > 0
    ensures selected < |images| && images[selected] != "" ==> r == Some(images[selected])
    ensures (selected >= |images| || (selected < |images| && images[selected] == "")) && |images| > 0 ==>
      r == Some(images[0])
  {
    if selected < |images| && images[selected] != "" then Some(images[selected])
    else if |images| > 0 then Some(images[0])
    else None
  }

  /** The swatch behind a colour button: the table's code, or grey. */
  function ColorStyle(color: string): (r: string)
    ensures Colors.IsHexColor(r)
    ensures color in Colors.ColorMap ==> r == Colors.ColorMap[color]
    ensures color !in Colors.ColorMap ==> r == Colors.FallbackColor
  {
    Colors.SwatchSpec(color);
    Colors.Swatch(color)
  }

  /** A click on the quantity stepper. */
  datatype QuantityClick = Minus | Plus

  /** `Math.max(1, quantity - 1)` and `quantity + 1`. */
  function Step(quantity: int, click: QuantityClick): int
  {
    match click
    case Minus => if quantity - 1 > 1 then quantity - 1 else 1
    case Plus => quantity + 1
  }

  /** The quantity after a series of clicks. */
  function Steps(quantity: int, clicks: seq<QuantityClick>): int
    decreases |clicks|
  {
    if clicks == [] then quantity else Steps(Step(quantity, clicks[0]), clicks[1..])
  }

  /** A click changes the quantity by exactly one, except that minus never goes below 1. */
  lemma StepSpec(quantity: int, click: QuantityClick)
    requires quantity >= 1
    ensures Step(quantity, click) >= 1
    ensures click == Plus ==> Step(quantity, click) == quantity + 1
    ensures click == Minus ==> Step(quantity, click) == if quantity == 1 then 1 else quantity - 1
  {
  }

  /** Starting from a quantity of at least 1, no series of clicks takes it below 1 or above the start plus the clicks. */
  lemma {:induction false} StepsStayPositive(quantity: int, clicks: seq<QuantityClick>)
    requires quantity >= 1
    ensures 1 <= Steps(quantity, clicks) <= quantity + |clicks|
    decreases |clicks|
  {
    if clicks != [] {
      StepsStayPositive(Step(quantity, clicks[0]), clicks[1..]);
    }
  }

  /** `k` minus clicks give `max(1, quantity - k)`. */
  lemma {:induction false} MinusClicks(quantity: int, k: nat)
    requires quantity >= 1
    ensures Steps(quantity, seq(k, _ => Minus)) == if quantity - k >= 1 then quantity - k else 1
    decreases k
  {
    if k > 0 {
      var clicks := seq(k, _ => Minus);
      assert clicks[0] == Minus;
      assert clicks[1..] == seq(k - 1, _ => Minus);
      MinusClicks(Step(quantity, Minus), k - 1);
    }
  }

  /** `k` plus clicks add exactly `k`. */
  lemma {:induction false} PlusClicks(quantity: int, k: nat)
    ensures Steps(quantity, seq(k, _ => Plus)) == quantity + k
    decreases k
  {
    if k > 0 {
      var clicks := seq(k, _ => Plus);
      assert clicks[0] == Plus;
      assert clicks[1..] == seq(k - 1, _ => Plus);
      PlusClicks(quantity + 1, k - 1);
    }
  }

  /** The favourites call one click makes: remove when favourited, add otherwise. */
  function FavoriteCallFor(product: Product, isFavorited: bool): FavoriteCall
  {
    if isFavorited then RemoveFromFavorites(product.id) else AddToFavorites(product)
  }

  /** The state and the calls after `n` favourite clicks. */
  function FavoriteClicks(product: Product, isFavorited: bool, n: nat): (bool, seq<FavoriteCall>)
  {
    if n == 0 then (isFavorited, [])
    else
      var (fav, calls) := FavoriteClicks(product, isFavorited, n - 1);
      (!fav, calls + [FavoriteCallFor(product, fav)])
  }

  /**
   * Clicks alternate: after `n` clicks the flag has flipped `n` times, and
   * the `i`-th call removes the product exactly when the flag was set
   * before that click.
   */
  lemma {:induction false} FavoriteClicksAlternate(product: Product, isFavorited: bool, n: nat)
    ensures FavoriteClicks(product, isFavorited, n).0 == (isFavorited != (n % 2 == 1))
    ensures |FavoriteClicks(product, isFavorited, n).1| == n
    ensures forall i :: 0 <= i < n ==>
      FavoriteClicks(product, isFavorited, n).1[i]
        == if isFavorited != (i % 2 == 1) then RemoveFromFavorites(product.id) else AddToFavorites(product)
  {
    if n > 0 {
      FavoriteClicksAlternate(product, isFavorited, n - 1);
    }
  }

  /** The page's state, and the calls it has made into the cart and favourites contexts. */
  class ProductDetailPage {
    var product: Option<Product>
    var isFavorited: bool
    var selectedSize: string
    var selectedColor: string
    var quantity: int
    var selectedImage: nat
    var cartCalls: seq<CartRequest>
    var favoriteCalls: seq<FavoriteCall>

    ghost predicate Valid()
      reads this
    {
      quantity >= 1
    }

    /** Mounting the page, including the effect that reads the favourites context. */
    constructor (catalog: seq<Product>, id: Option<string>, isFavorite: string -> bool)
      ensures Valid()
      ensures product == FindProduct(catalog, id)
      ensures isFavorited == (product.Some? && isFavorite(product.value.id))
      ensures selectedSize == "" && selectedColor == "" && quantity == 1 && selectedImage == 0
      ensures cartCalls == [] && favoriteCalls == []
    {
      product := FindProduct(catalog, id);
      isFavorited := false;
      selectedSize := "";
      selectedColor := "";
      quantity := 1;
      selectedImage := 0;
      cartCalls := [];
      favoriteCalls := [];
      new;
      if product.Some? {
        isFavorited := isFavorite(product.value.id);
      }
    }

    method Decrement()
      requires Valid()
      modifies this
      ensures Valid()
      ensures quantity == Step(old(quantity), Minus)
      ensures unchanged(this`product, this`isFavorited, this`selectedSize, this`selectedColor)
      ensures unchanged(this`selectedImage, this`cartCalls, this`favoriteCalls)
    {
      quantity := if quantity - 1 > 1 then quantity - 1 else 1;
    }

    method Increment()
      requires Valid()
      modifies this
      ensures Valid()
      ensures quantity == Step(old(quantity), Plus)
      ensures unchanged(this`product, this`isFavorited, this`selectedSize, this`selectedColor)
      ensures unchanged(this`selectedImage, this`cartCalls, this`favoriteCalls)
    {
      quantity := quantity + 1;
    }

    method SelectSize(size: string)
      modifies this`selectedSize
      ensures selectedSize == size
    {
      selectedSize := size;
    }

    method SelectColor(color: string)
      modifies this`selectedColor
      ensures selectedColor == color
    {
      selectedColor := color;
    }

    method SelectImage(index: nat)
      modifies this`selectedImage
      ensures selectedImage == index
    {
      selectedImage := index;
    }

    /** The picture shown in the large frame. */
    function MainImage(): (r: Option<string>)
      reads this
      requires product.Some?
      ensures r == DisplayedImage(product.value.images, selectedImage)
    {
      DisplayedImage(product.value.images, selectedImage)
    }

    /**
     * Adds the selected size, colour and quantity to the cart iff both a size
     * and a colour are chosen; otherwise the cart is not called. The handler
     * exists only once the product is found.
     */
    method HandleAddToCart() returns (added: bool)
      requires product.Some?
      modifies this`cartCalls
      ensures added <==> selectedSize != "" && selectedColor != ""
      ensures added ==>
        cartCalls == old(cartCalls) + [CartRequest(product.value, Some(selectedSize), Some(selectedColor), quantity)]
      ensures !added ==> cartCalls == old(cartCalls)
    {
      if selectedSize == "" || selectedColor == "" {
        return false;
      }
      cartCalls := cartCalls + [CartRequest(product.value, Some(selectedSize), Some(selectedColor), quantity)];
      added := true;
    }

    /** Removes a favourited product, adds one that is not, and flips the flag; nothing without a product. */
    method HandleFavoriteClick()
      modifies this`isFavorited, this`favoriteCalls
      ensures product.None? ==> isFavorited == old(isFavorited) && favoriteCalls == old(favoriteCalls)
      ensures product.Some? ==>
        && isFavorited == !old(isFavorited)
        && favoriteCalls == old(favoriteCalls) + [FavoriteCallFor(product.value, old(isFavorited))]
    {
      if product.None? {
        return;
      }
      if isFavorited {
        favoriteCalls := favoriteCalls + [RemoveFromFavorites(product.value.id)];
      } else {
        favoriteCalls := favoriteCalls + [AddToFavorites(product.value)];
      }
      isFavorited := !isFavorited;
    }
  }
}
