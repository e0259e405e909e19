/**
 * The French colour-name table that the product card, the product page and
 * the admin product list share, and the swatch lookup built on it.
 */
module Colors {

  /** Colour name to CSS hex code. */
  const ColorMap: map<string, string> := map[
    "Noir" := "#000000",
    "Blanc" := "#FFFFFF",
    "Gris" := "#808080",
    "Marine" := "#000080",
    "Rouge" := "#FF0000",
    "Bleu" := "#0000FF",
    "Rose" := "#FFC0CB",
    "Lavande" := "#E6E6FA",
    "Jaune" := "#FFFF00",
    "Menthe" := "#98FB98",
    "Beige" := "#F5F5DC",
    "Vert" := "#008000",
    "Orange" := "#FFA500",
    "Violet" := "#8A2BE2",
    "Kaki" := "#F0E68C",
    "Marron" := "#A52A2A",
    "Bordeaux" := "#800020"
  ]

  /** The grey used for a colour the table does not know. */
  const FallbackColor: string := "#CCCCCC"

  predicate IsHexDigit(c: char)
  {
    ('0' <= c <= '9') || ('a' <= c <= 'f') || ('A' <= c <= 'F')
  }

  /** `/^#([0-9A-Fa-f]{3}|[0-9A-Fa-f]{6})$/i`. */
  predicate IsHexColor(s: string)
  {
    (|s| == 4 || |s| == 7) && s[0] == '#' && forall i :: 1 <= i < |s| ==> IsHexDigit(s[i])
  }

  /** `colorMap[color] || '#CCCCCC'`: the swatch of the card and the product page. */
  function Swatch(color: string): string
  {
    if color in ColorMap then ColorMap[color] else FallbackColor
  }

  /** Every entry of the table is a six-digit hex code. */
  lemma {:induction false} ColorMapValuesAreHex()
    ensures forall name :: name in ColorMap ==> IsHexColor(ColorMap[name]) && |ColorMap[name]| == 7
  {
    forall name | name in ColorMap ensures IsHexColor(ColorMap[name]) && |ColorMap[name]| == 7 {
      var v := ColorMap[name];
      assert v in ColorMap.Values;
      assert v in {"#000000", "#FFFFFF", "#808080", "#000080", "#FF0000", "#0000FF", "#FFC0CB",
                   "#E6E6FA", "#FFFF00", "#98FB98", "#F5F5DC", "#008000", "#FFA500", "#8A2BE2",
                   "#F0E68C", "#A52A2A", "#800020"};
    }
  }

  /**
   * A swatch is the table's code for a known name and the grey fallback for
   * anything else; either way it is a valid hex colour.
   */
  lemma SwatchSpec(color: string)
    ensures color in ColorMap ==> Swatch(color) == ColorMap[color]
    ensures color !in ColorMap ==> Swatch(color) == FallbackColor
    ensures IsHexColor(Swatch(color))
  {
    ColorMapValuesAreHex();
  }
}
