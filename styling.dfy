/**
 * Per-feature map styles: the gridcode colour table and the two style
 * records handed to the map for the base layer and the segmentation layer.
 */
module Styling {

  const Red: string := "#FF0000"
  const Green: string := "#00FF00"
  const Blue: string := "#0000FF"
  const Yellow: string := "#FFFF00"
  const Orange: string := "#FFA500"
  /** Border colour of the segmentation layer. */
  const Purple: string := "#800080"

  /** The colour table, gridcode to hex colour. */
  const ColorMap: map<int, string> :=
    map[1 := Red, 2 := Green, 3 := Blue, 4 := Yellow, 5 := Orange]

  /** Colour used for any gridcode outside the table. */
  const DefaultColor: string := Red

  /** The five colours a feature can be drawn in. */
  const Palette: set<string> := {Red, Green, Blue, Yellow, Orange}

  /** `color_map.get(gridcode, "#FF0000")` */
  function GetColor(gridcode: int): (c: string)
    ensures c in Palette
    ensures c != Purple
    ensures gridcode in ColorMap ==> c == ColorMap[gridcode]
  {
    if gridcode in ColorMap then ColorMap[gridcode] else DefaultColor
  }

  /** A map feature; only its integer-valued properties are modelled. */
  datatype Feature = Feature(properties: map<string, int>)

  /** `feature['properties'].get('gridcode', 0)` */
  function Gridcode(f: Feature): (g: int)
    ensures "gridcode" in f.properties ==> g == f.properties["gridcode"]
    ensures "gridcode" !in f.properties ==> g == 0
  {
    if "gridcode" in f.properties then f.properties["gridcode"] else 0
  }

  /** The style record `{'fillColor', 'color', 'weight', 'fillOpacity'}`. */
  datatype Style = Style(fillColor: string, color: string, weight: int, fillOpacity: real)

  /** Style of the selected shapefile: border and fill in the gridcode colour. */
  function BaseStyle(f: Feature): (s: Style)
    ensures s.fillColor == s.color == GetColor(Gridcode(f))
    ensures s.weight == 2 && s.fillOpacity == 0.5
  {
    var color := GetColor(Gridcode(f));
    Style(color, color, 2, 0.5)
  }

  /** Style of the segmentation layer: gridcode fill, purple border, opaque. */
  function SegmentStyle(f: Feature): (s: Style)
    ensures s.fillColor == GetColor(Gridcode(f)) && s.color == Purple
    ensures s.weight == 2 && s.fillOpacity == 1.0
  {
    Style(GetColor(Gridcode(f)), Purple, 2, 1.0)
  }

  /** The colour table, entry by entry, and the default for every other code. */
  lemma GetColorTable(gridcode: int)
    ensures gridcode == 1 ==> GetColor(gridcode) == "#FF0000"
    ensures gridcode == 2 ==> GetColor(gridcode) == "#00FF00"
    ensures gridcode == 3 ==> GetColor(gridcode) == "#0000FF"
    ensures gridcode == 4 ==> GetColor(gridcode) == "#FFFF00"
    ensures gridcode == 5 ==> GetColor(gridcode) == "#FFA500"
    ensures !(1 <= gridcode <= 5) ==> GetColor(gridcode) == "#FF0000"
  {
  }

  /**
   * The default shares code 1's colour: red is drawn exactly for the codes
   * other than 2..5, so a feature without a gridcode looks like class 1.
   */
  lemma RedExactly(gridcode: int)
    ensures GetColor(gridcode) == Red <==> !(2 <= gridcode <= 5)
  {
  }

  /** Codes 2..5 are told apart from each other and from every other code. */
  lemma GetColorDistinguishes(g1: int, g2: int)
    requires 2 <= g1 <= 5
    ensures GetColor(g1) == GetColor(g2) <==> g1 == g2
  {
  }

  /** A feature without a gridcode is coloured like gridcode 0, that is red. */
  lemma MissingGridcodeIsRed(f: Feature)
    requires "gridcode" !in f.properties
    ensures BaseStyle(f).color == Red && SegmentStyle(f).fillColor == Red
  {
  }

  /**
   * The two layers agree on fill colour and weight for the same feature,
   * and a segmentation style can never be mistaken for a base style.
   */
  lemma SegmentStyleDiffers(f: Feature, g: Feature)
    ensures SegmentStyle(f).fillColor == BaseStyle(f).fillColor
    ensures SegmentStyle(f).weight == BaseStyle(f).weight
    ensures SegmentStyle(f) != BaseStyle(g)
  {
  }
}
