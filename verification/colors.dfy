/**
  Bar colours: a fixed table for popular languages, otherwise an entry of a
  generated palette picked by the bar's position. The palette comes from a
  charting library and is taken here as an opaque sequence of colours.
 */
module Colors {
  import opened Config

  /** A table colour is a hex code; a palette colour is whatever the library produced. */
  datatype Color = Hex(code: string) | Rgb(red: real, green: real, blue: real)

  /** The script's `LANG_COLORS`. */
  const LangColors: map<string, string> := map[
    "Python" := "#3776ab",
    "JavaScript" := "#f1e05a",
    "C++" := "#f34b7d",
    "C" := "#555555",
    "PHP" := "#4f5d95",
    "HTML" := "#e34c26",
    "CSS" := "#563d7c",
    "Shell" := "#89e051",
    "R" := "#198ce7"
  ]

  /** The colour of the bar at position `index`. With an empty palette the modulo
      raises ZeroDivisionError, which the result reports. */
  function LanguageColor(lang: string, index: nat, palette: seq<Color>): (r: Result<Color>)
    ensures lang in LangColors ==> r == Ok(Hex(LangColors[lang]))
    ensures lang !in LangColors && palette == [] ==> r == Err(ZeroDivision)
    ensures lang !in LangColors && palette != [] ==> r.Ok? && r.value in palette
  {
    if lang in LangColors then Ok(Hex(LangColors[lang]))
    else if palette == [] then Err(ZeroDivision)
    else Ok(palette[index % |palette|])
  }

  /** A table language keeps its colour whatever its position and palette. */
  lemma TableColorIgnoresPosition(lang: string, i: nat, j: nat, p: seq<Color>, q: seq<Color>)
    requires lang in LangColors
    ensures LanguageColor(lang, i, p) == LanguageColor(lang, j, q)
  {
  }

  /** A fallback colour at a position inside the palette is that palette
      entry, so languages outside the table at different positions below the
      palette's length get the colours of different palette slots. */
  lemma FallbackWithinPalette(lang: string, i: nat, palette: seq<Color>)
    requires lang !in LangColors && i < |palette|
    ensures LanguageColor(lang, i, palette) == Ok(palette[i])
  {
  }

  /** The colour of each label in turn, looked up with the label's position,
      counting from `start`; the first failing lookup stops the list. */
  function ColorsFrom(labels: seq<string>, start: nat, palette: seq<Color>): (r: Result<seq<Color>>)
    ensures r.Ok? ==> |r.value| == |labels|
    ensures r.Ok? ==> forall i :: 0 <= i < |labels| ==> LanguageColor(labels[i], start + i, palette) == Ok(r.value[i])
    ensures r.Err? <==> palette == [] && exists i :: 0 <= i < |labels| && labels[i] !in LangColors
    decreases |labels|
  {
    if labels == [] then Ok([])
    else
      match LanguageColor(labels[0], start, palette)
      case Err(e) => Err(e)
      case Ok(c) =>
        match ColorsFrom(labels[1..], start + 1, palette)
        case Err(e) => Err(e)
        case Ok(cs) =>
          assert forall i :: 1 <= i < |labels| ==> labels[i] == labels[1..][i - 1];
          Ok([c] + cs)
  }

  /** The bar colours of a chart, one per label, by position from 0. */
  function ChartColors(labels: seq<string>, palette: seq<Color>): Result<seq<Color>>
  {
    ColorsFrom(labels, 0, palette)
  }
}
