/**
 * The home page: the featured selection, the quick add-to-cart of the
 * product tiles, and the hero carousel that a two-second timer steps.
 */
module Home {
  import opened Types
  import opened Seqs

  const HeroImages: seq<string> := [
    "https://images.pexels.com/photos/1926769/pexels-photo-1926769.jpeg",
    "https://images.pexels.com/photos/994523/pexels-photo-994523.jpeg",
    "https://images.pexels.com/photos/1152994/pexels-photo-1152994.jpeg",
    "https://images.pexels.com/photos/3768005/pexels-photo-3768005.jpeg"
  ]

  predicate IsFeatured(p: Product)
  {
    p.is_featured
  }

  /** `products.filter(p => p.is_featured)`. */
  function FeaturedProducts(products: seq<Product>): seq<Product>
  {
    Filter(products, IsFeatured)
  }

  /**
   * The featured list is the subsequence of the catalogue made of exactly
   * its featured products.
   */
  lemma FeaturedProductsSpec(products: seq<Product>)
    ensures IsSubsequence(FeaturedProducts(products), products)
    ensures forall p :: p in FeaturedProducts(products) <==> p in products && p.is_featured
    ensures forall p :: multiset(FeaturedProducts(products))[p] == if p.is_featured then multiset(products)[p] else 0
    ensures (forall p :: p in products ==> !p.is_featured) ==> FeaturedProducts(products) == []
  {
    FilterIsSubsequence(products, IsFeatured);
    FilterCounts(products, IsFeatured);
  }

  /** The first element of a list, `undefined` when it is empty. */
  function First(s: seq<string>): (r: Option<string>)
    ensures r.Some? <==> |s| > 0
    ensures r.Some? ==> r.value == s[0]
  {
    if |s| > 0 then Some(s[0]) else None
  }

  /**
   * The cart call of a tile's quick-add button: one unit, in the product's
   * first size and first colour.
   */
  function QuickAddRequest(p: Product): (r: CartRequest)
    ensures r.product == p && r.quantity == 1
    ensures r.size == First(p.sizes) && r.color == First(p.colors)
  {
    CartRequest(p, First(p.sizes), First(p.colors), 1)
  }

  /** A product without sizes or colours is still added, with the missing choice left undefined. */
  lemma QuickAddWithoutChoices(p: Product)
    requires p.sizes == [] && p.colors == []
    ensures QuickAddRequest(p) == CartRequest(p, None, None, 1)
  {
  }

  /** `prev === n - 1 ? 0 : prev + 1`. */
  function NextIndex(prev: nat, n: nat): nat
  {
    if prev == n - 1 then 0 else prev + 1
  }

  /** The step keeps the index among the images and wraps from the last one to the first. */
  lemma NextIndexSpec(prev: nat, n: nat)
    requires prev < n
    ensures NextIndex(prev, n) < n
    ensures NextIndex(prev, n) == (prev + 1) % n
    ensures prev == n - 1 <==> NextIndex(prev, n) == 0
  {
  }

  /** The index after `k` ticks from `start`. */
  function IndexAfter(start: nat, n: nat, k: nat): nat
  {
    if k == 0 then start else NextIndex(IndexAfter(start, n, k - 1), n)
  }

  /** Ticks short of the last image move one image forward each. */
  lemma {:induction false} Climb(start: nat, n: nat, j: nat)
    requires start + j < n
    ensures IndexAfter(start, n, j) == start + j
  {
    if j > 0 {
      Climb(start, n, j - 1);
    }
  }

  /** Ticking `a` then `b` times is ticking `a + b` times. */
  lemma {:induction false} Compose(start: nat, n: nat, a: nat, b: nat)
    ensures IndexAfter(start, n, a + b) == IndexAfter(IndexAfter(start, n, a), n, b)
  {
    if b > 0 {
      Compose(start, n, a, b - 1);
    }
  }

  /** `n` ticks bring any image back: the carousel wraps once per round. */
  lemma FullRound(start: nat, n: nat)
    requires start < n
    ensures IndexAfter(start, n, n) == start
  {
    Climb(start, n, n - 1 - start);
    assert IndexAfter(start, n, n - start) == 0;
    Climb(0, n, start);
    Compose(start, n, n - start, start);
  }

  /**
   * From the first image, tick `r * n + k` shows image `k`: every round of
   * `n` ticks shows each image exactly once, in order.
   */
  lemma {:induction false} Rounds(n: nat, r: nat, k: nat)
    requires k < n
    ensures IndexAfter(0, n, r * n + k) == k
  {
    if r == 0 {
      Climb(0, n, k);
    } else {
      Rounds(n, r - 1, k);
      assert r * n + k == n + ((r - 1) * n + k);
      FullRound(0, n);
      Compose(0, n, n, (r - 1) * n + k);
    }
  }

  /** The opacity of hero image `index` while `current` is shown. */
  function Opacity(index: nat, current: nat): int
  {
    if index == current then 1 else 0
  }

  /** While a valid index is shown, exactly one hero image, that one, is opaque; all others are hidden. */
  lemma ExactlyOneVisible(current: nat, n: nat)
    requires current < n
    ensures forall i :: 0 <= i < n ==> (Opacity(i, current) == 1 <==> i == current)
    ensures forall i :: 0 <= i < n ==> Opacity(i, current) == 0 || Opacity(i, current) == 1
    ensures exists i :: 0 <= i < n && Opacity(i, current) == 1
  {
    assert Opacity(current, current) == 1;
  }

  /** The carousel's state. */
  class Carousel {
    var currentImageIndex: nat

    ghost predicate Valid()
      reads this
    {
      currentImageIndex < |HeroImages|
    }

    constructor ()
      ensures Valid() && currentImageIndex == 0
    {
      currentImageIndex := 0;
    }

    /** One timer tick. */
    method Tick()
      requires Valid()
      modifies this
      ensures Valid()
      ensures currentImageIndex == NextIndex(old(currentImageIndex), |HeroImages|)
      ensures currentImageIndex == (old(currentImageIndex) + 1) % |HeroImages|
    {
      NextIndexSpec(currentImageIndex, |HeroImages|);
      currentImageIndex := if currentImageIndex == |HeroImages| - 1 then 0 else currentImageIndex + 1;
    }
  }
}
