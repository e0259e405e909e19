/**
 * The product tile of the catalogue and home pages: its picture, its
 * badges and the truncated colour and size previews.
 */
module ProductCard {
  import opened Types
  import opened Seqs
  import Colors

  /** The stock picture shown for a product without images. */
  const PlaceholderImage: string := "https://images.pexels.com/photos/996329/pexels-photo-996329.jpeg"

  const ColorPreviewLimit: nat := 4
  const SizePreviewLimit: nat := 5

  /** `images[0] || placeholder`. */
  function MainImage(images: seq<string>): (r: string)
    ensures |images| > 0 && images[0] != "" ==> r == images[0]
    ensures |images| == 0 || images[0] == "" ==> r == PlaceholderImage
    ensures r != ""
  {
    if |images| > 0 && images[0] != "" then images[0] else PlaceholderImage
  }

  datatype Badge = New | LimitedStock | SoldOut

  /** The caption of a badge. */
  function BadgeLabel(b: Badge): string
  {
    match b
    case New => "Nouveau"
    case LimitedStock => "Stock Limité"
    case SoldOut => "Épuisé"
  }

  /** The badges in the order they are stacked. */
  function Badges(p: Product): seq<Badge>
  {
    (if p.is_featured then [New] else [])
    + (if p.stock_quantity < 5 && p.stock_quantity > 0 then [LimitedStock] else [])
    + (if p.stock_quantity == 0 then [SoldOut] else [])
  }

  /**
   * 'Nouveau' shows iff the product is featured, 'Stock Limité' iff
   * 0 < stock < 5, 'Épuisé' iff stock is 0; the two stock badges never show
   * together, and no badge shows twice.
   */
  lemma BadgesSpec(p: Product)
    ensures New in Badges(p) <==> p.is_featured
    ensures LimitedStock in Badges(p) <==> 0 < p.stock_quantity < 5
    ensures SoldOut in Badges(p) <==> p.stock_quantity == 0
    ensures !(LimitedStock in Badges(p) && SoldOut in Badges(p))
    ensures NoDups(Badges(p))
    ensures p.stock_quantity >= 5 || p.stock_quantity < 0 ==> Badges(p) == if p.is_featured then [New] else []
  {
  }

  /** The part of a list a tile shows, and the "+N" count after it when the list is longer. */
  datatype Preview = Preview(shown: seq<string>, overflow: Option<nat>)

  /** `list.slice(0, limit)` and `+{list.length - limit}`; nothing at all for an empty list. */
  function PreviewOf(list: seq<string>, limit: nat): (r: Option<Preview>)
    ensures r.Some? <==> |list| > 0
    ensures r.Some? ==>
      && |r.value.shown| == (if |list| < limit then |list| else limit)
      && r.value.shown == list[..|r.value.shown|]
      && (r.value.overflow.Some? <==> |list| > limit)
      && (r.value.overflow.Some? ==> r.value.overflow.value == |list| - limit)
      && (r.value.overflow.None? ==> r.value.shown == list)
  {
    if |list| == 0 then None
    else if |list| > limit then Some(Preview(list[..limit], Some(|list| - limit)))
    else Some(Preview(list, None))
  }

  /** What is shown of a list is exactly what it holds: the shown entries plus the hidden count. */
  lemma PreviewAccountsForAll(list: seq<string>, limit: nat)
    requires |list| > 0
    ensures var pv := PreviewOf(list, limit).value;
      |pv.shown| + (if pv.overflow.Some? then pv.overflow.value else 0) == |list|
    ensures limit > 0 ==> PreviewOf(list, limit).value.shown != []
  {
  }

  /** The colour preview: at most four swatches, then "+N". */
  function ColorPreview(p: Product): (r: Option<Preview>)
    ensures r == PreviewOf(p.colors, ColorPreviewLimit)
    ensures r.Some? ==> |r.value.shown| <= 4
  {
    PreviewOf(p.colors, ColorPreviewLimit)
  }

  /** The size preview: at most five sizes, then "+N". */
  function SizePreview(p: Product): (r: Option<Preview>)
    ensures r == PreviewOf(p.sizes, SizePreviewLimit)
    ensures r.Some? ==> |r.value.shown| <= 5
  {
    PreviewOf(p.sizes, SizePreviewLimit)
  }

  /** `colorMap[color] || '#CCCCCC'`. */
  function SwatchOf(color: string): (r: string)
    ensures Colors.IsHexColor(r)
    ensures color in Colors.ColorMap ==> r == Colors.ColorMap[color]
    ensures color !in Colors.ColorMap ==> r == Colors.FallbackColor
  {
    Colors.SwatchSpec(color);
    Colors.Swatch(color)
  }

  /** The swatch colours of the preview, one valid hex code per shown colour. */
  function PreviewSwatches(p: Product): (r: seq<string>)
    ensures ColorPreview(p).None? ==> r == []
    ensures ColorPreview(p).Some? ==>
      && |r| == |ColorPreview(p).value.shown|
      && forall i :: 0 <= i < |r| ==> r[i] == SwatchOf(p.colors[i]) && Colors.IsHexColor(r[i])
  {
    match ColorPreview(p)
    case None => []
    case Some(pv) => Map(pv.shown, SwatchOf)
  }

  /** A tile of a product with six colours shows four swatches and "+2". */
  lemma SixColorsExample(p: Product)
    requires |p.colors| == 6
    ensures ColorPreview(p) == Some(Preview(p.colors[..4], Some(2)))
  {
  }
}
