/**
 Color Mixer (`createColorMixerGame` and its inner `mixColors`, script.js:656-731).
 Three palette buttons carry a color value; clicking one adds its value to the
 selection while fewer than two are selected and it is not already selected. The
 second pick mixes the pair through a fixed table and awards 15 points; two seconds
 later the selection is cleared, modelled as the explicit `ResetSelection` event.
 */
module ColorMixer {

  const Red: string := "#FF6B9D"
  const Blue: string := "#4ECDC4"
  const Yellow: string := "#FFE66D"
  /** The palette in button order. */
  const Palette: seq<string> := [Red, Blue, Yellow]

  /** Points for every mix. */
  const MixPoints: nat := 15

  /** What the result box shows: a background color and a caption. */
  datatype Swatch = Swatch(color: string, text: string)

  const Orange: Swatch := Swatch("#FFA500", "Orange!")
  const Green: Swatch := Swatch("#32CD32", "Green!")
  const Purple: Swatch := Swatch("#9370DB", "Purple!")
  /** The initial box, and the result for any pair the table does not list. */
  const Unmixed: Swatch := Swatch("#f0f0f0", "Mix colors!")

  /** True when `{a, b}` is the unordered pair `{x, y}`. */
  predicate IsPair(a: string, b: string, x: string, y: string) {
    (a == x && b == y) || (a == y && b == x)
  }

  /** The lookup table of `mixColors`, tried in the script's order. */
  function Mix(a: string, b: string): (r: Swatch)
    ensures r == Orange || r == Green || r == Purple || r == Unmixed
    ensures r != Unmixed ==> a in Palette && b in Palette && a != b
  {
    if IsPair(a, b, Red, Yellow) then Orange
    else if IsPair(a, b, Blue, Yellow) then Green
    else if IsPair(a, b, Red, Blue) then Purple
    else Unmixed
  }

  /** The mix does not depend on which color was picked first. */
  lemma MixSymmetric(a: string, b: string)
    ensures Mix(a, b) == Mix(b, a)
  {
  }

  /** Each result names exactly one unordered pair of palette colors, and every other
      pair, including a color with itself, falls back to the unmixed box. */
  lemma MixTable(a: string, b: string)
    ensures Mix(a, b) == Orange <==> IsPair(a, b, Red, Yellow)
    ensures Mix(a, b) == Green <==> IsPair(a, b, Blue, Yellow)
    ensures Mix(a, b) == Purple <==> IsPair(a, b, Red, Blue)
    ensures Mix(a, b) == Unmixed <==>
      !IsPair(a, b, Red, Yellow) && !IsPair(a, b, Blue, Yellow) && !IsPair(a, b, Red, Blue)
  {
  }

  /** Two different palette colors always mix to orange, green or purple. */
  lemma DistinctColorsMix(a: string, b: string)
    requires a in Palette && b in Palette && a != b
    ensures Mix(a, b) in {Orange, Green, Purple}
  {
  }

  /** `selectedColors` and the result box. */
  datatype Mixer = Mixer(selected: seq<string>, result: Swatch)

  datatype Pick = Pick(mixer: Mixer, award: nat)

  const Start: Mixer := Mixer([], Unmixed)

  /** At most two palette colors selected, never the same one twice. */
  ghost predicate Valid(m: Mixer) {
    && |m.selected| <= 2
    && (forall k :: 0 <= k < |m.selected| ==> m.selected[k] in Palette)
    && (|m.selected| == 2 ==> m.selected[0] != m.selected[1])
  }

  /** The click guard. */
  predicate CanSelect(m: Mixer, c: string) {
    |m.selected| < 2 && c !in m.selected
  }

  /** A click on the palette button with value `c`. */
  function Select(m: Mixer, c: string): (p: Pick)
    requires c in Palette
    ensures Valid(m) ==> Valid(p.mixer)
    ensures !CanSelect(m, c) ==> p == Pick(m, 0)
    ensures CanSelect(m, c) ==> p.mixer.selected == m.selected + [c]
    ensures p.award == MixPoints <==> CanSelect(m, c) && |m.selected| == 1
    ensures p.award == 0 || p.award == MixPoints
    ensures p.award == MixPoints ==> p.mixer.result == Mix(m.selected[0], c)
    ensures p.award == 0 ==> p.mixer.result == m.result
  {
    if CanSelect(m, c) then
      var selected := m.selected + [c];
      if |selected| == 2 then Pick(Mixer(selected, Mix(selected[0], selected[1])), MixPoints)
      else Pick(Mixer(selected, m.result), 0)
    else Pick(m, 0)
  }

  /** The timer scheduled by the second pick: the selection empties, the result stays. */
  function ResetSelection(m: Mixer): (m': Mixer)
    ensures m'.selected == [] && m'.result == m.result && Valid(m')
  {
    Mixer([], m.result)
  }

  /** Every mix the game can perform names a real color: the fallback is unreachable
      because the guard never lets a color be picked twice. */
  lemma MixAlwaysColored(m: Mixer, c: string)
    requires Valid(m) && c in Palette
    ensures Select(m, c).award == MixPoints ==> Select(m, c).mixer.result in {Orange, Green, Purple}
  {
    if Select(m, c).award == MixPoints {
      DistinctColorsMix(m.selected[0], c);
    }
  }

  /** Picking two different colors from an empty selection, in either order, gives the
      same result and 15 points. */
  lemma OrderIndependent(a: string, b: string)
    requires a in Palette && b in Palette && a != b
    ensures var ab := Select(Select(Start, a).mixer, b);
      var ba := Select(Select(Start, b).mixer, a);
      && ab.award == MixPoints && ba.award == MixPoints
      && ab.mixer.result == ba.mixer.result
      && ab.mixer.result in {Orange, Green, Purple}
  {
    MixSymmetric(a, b);
    DistinctColorsMix(a, b);
  }
}
