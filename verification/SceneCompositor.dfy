/** The scene compositor: a z-ordered list of layers is compiled to the text of an ffmpeg filter graph, and the text
  * is given a meaning. Images are terms over the operations ffmpeg is asked for, so two graphs mean the same only
  * if they ask for the same operations in the same order. */
module SceneCompositor {
  import opened Wrappers
  import opened TagReader
  import opened Decimal
  import opened Splitting
  import opened GraphText

  // ---------- layers ----------

  datatype Fit = Fill | Cover | Contain

  function FitFromDb(s: string): Fit {
    if s == "contain" then Contain else if s == "cover" then Cover else Fill
  }

  datatype CompLayer = CompLayer(sourceId: SourceId, x: int, y: int, w: nat, h: nat, opacity: real, fit: Fit)

  /** A scene layer as stored; the source id is None when its text is not a UUID. */
  datatype Row = Row(sourceId: Option<SourceId>, x: int, y: int, width: int, height: int, opacity: real, fit: string)

  function AsI32(n: int): int {
    var m := n % 0x1_0000_0000;
    if m >= 0x8000_0000 then m - 0x1_0000_0000 else m
  }

  function AsU32(n: int): nat { n % 0x1_0000_0000 }

  function AtLeast2(n: nat): nat { if n < 2 then 2 else n }

  /** Which sources can be composited: those with a relay and a cached video header. */
  datatype Live = Live(relays: set<SourceId>, headers: map<SourceId, SequenceHeaders>)

  predicate Producing(live: Live, id: SourceId) {
    id in live.relays && id in live.headers && live.headers[id].video.Some?
  }

  /** A stored row, and the relays and headers at the moment of its own look-ups. */
  datatype Visit = Visit(row: Row, live: Live)

  predicate IsLive(v: Visit) { v.row.sourceId.Some? && Producing(v.live, v.row.sourceId.value) }

  function LayerOf(row: Row): CompLayer
    requires row.sourceId.Some?
  {
    CompLayer(row.sourceId.value, AsI32(row.x), AsI32(row.y), AtLeast2(AsU32(row.width)), AtLeast2(AsU32(row.height)),
              row.opacity, FitFromDb(row.fit))
  }

  function LiveLayers(visits: seq<Visit>): seq<CompLayer> {
    if visits == [] then []
    else
      var last := visits[|visits| - 1];
      LiveLayers(visits[..|visits| - 1]) + (if IsLive(last) then [LayerOf(last.row)] else [])
  }

  method CollectLiveLayers(visits: seq<Visit>) returns (layers: seq<CompLayer>)
    ensures layers == LiveLayers(visits)
  {
    layers := [];
    for i := 0 to |visits|
      invariant layers == LiveLayers(visits[..i])
    {
      var row, live := visits[i].row, visits[i].live;
      assert visits[..i + 1][..i] == visits[..i];
      if row.sourceId.Some? {
        var hasRelay := row.sourceId.value in live.relays;
        var hasVideo := row.sourceId.value in live.headers && live.headers[row.sourceId.value].video.Some?;
        if hasRelay && hasVideo {
          layers := layers + [CompLayer(row.sourceId.value, AsI32(row.x), AsI32(row.y), AtLeast2(AsU32(row.width)),
                                        AtLeast2(AsU32(row.height)), row.opacity, FitFromDb(row.fit))];
        }
      }
    }
    assert visits[..|visits|] == visits;
  }

  // ---------- images ----------

  datatype Aspect = Stretch | Increase | Decrease

  /** A position, or the position that centres an overlay of yet unknown size in a box. */
  datatype Offset = At(p: int) | Centred(p: int, box: int)

  datatype Image =
    | Black(width: int, height: int, rate: int)
    | Input(index: int)
    | Rebased(img: Image)
    | Scaled(img: Image, width: int, height: int, aspect: Aspect)
    | Cropped(img: Image, width: int, height: int)
    | WithAlpha(img: Image)
    | Faded(img: Image, thousandths: int)
    | Overlaid(below: Image, above: Image, x: Offset, y: Offset)

  /** The opacity from which a layer is opaque: 0.999 as a 32-bit float. */
  const OPAQUE := 16760439.0 / 16777216.0

  function RoundHalfEven(r: real): (n: int)
    ensures r >= 0.0 ==> n >= 0
  {
    var below := r.Floor;
    var rest := r - below as real;
    if rest < 0.5 || (rest == 0.5 && below % 2 == 0) then below else below + 1
  }

  /** The nearest integer, and of two equally near ones the even one. */
  ghost predicate Nearest(n: int, r: real) {
    -1.0 <= 2.0 * (n as real - r) <= 1.0 && (2.0 * (n as real - r) == 1.0 || 2.0 * (n as real - r) == -1.0
        ==> n % 2 == 0)
  }

  lemma RoundsToNearest(r: real)
    ensures Nearest(RoundHalfEven(r), r)
  {
    var below := r.Floor;
    assert below as real <= r < below as real + 1.0;
  }

  function Thousandths(opacity: real): int {
    if opacity < 0.0 then -RoundHalfEven(-opacity * 1000.0) else RoundHalfEven(opacity * 1000.0)
  }

  /** A layer's input, rebased to its own clock, fitted to its box and faded. */
  function Fitted(layer: CompLayer, input: Image): Image {
    var rebased := Rebased(input);
    match layer.fit
    case Fill => Scaled(rebased, layer.w, layer.h, Stretch)
    case Cover => Cropped(Scaled(rebased, layer.w, layer.h, Increase), layer.w, layer.h)
    case Contain => Scaled(rebased, layer.w, layer.h, Decrease)
  }

  function Opacified(layer: CompLayer, img: Image): Image {
    if layer.opacity < OPAQUE then Faded(WithAlpha(img), Thousandths(layer.opacity)) else img
  }

  function Place(fit: Fit, p: int, box: int): Offset { if fit.Contain? then Centred(p, box) else At(p) }

  /** Paint one layer, fed by the given input, over what is below it. */
  function Paint(below: Image, layer: CompLayer, input: nat): Image {
    Overlaid(below, Opacified(layer, Fitted(layer, Input(input))),
             Place(layer.fit, layer.x, layer.w), Place(layer.fit, layer.y, layer.h))
  }

  /** The picture a scene stands for: its layers painted bottom first on black, layer i fed by input i. */
  function Composite(layers: seq<CompLayer>, width: nat, height: nat, fps: nat): Image {
    if layers == [] then Black(width, height, fps)
    else Paint(Composite(layers[..|layers| - 1], width, height, fps), layers[|layers| - 1], |layers| - 1)
  }

  // ---------- compilation ----------

  function FixedNat(t: nat): string { PrintNat(t / 1000) + "." + Fixed(t % 1000, 3) }

  /** A real with three decimals. */
  function FixedPoint(r: real): string {
    if r < 0.0 then "-" + FixedNat(RoundHalfEven(-r * 1000.0)) else FixedNat(RoundHalfEven(r * 1000.0))
  }

  const INCREASE := "force_original_aspect_ratio=increase"
  const DECREASE := "force_original_aspect_ratio=decrease"

  function FitFilters(l: CompLayer): seq<Filter> {
    match l.fit
    case Fill => [Filter("scale", [Print(l.w), Print(l.h)])]
    case Cover => [Filter("scale", [Print(l.w), Print(l.h), INCREASE]), Filter("crop", [Print(l.w), Print(l.h)])]
    case Contain => [Filter("scale", [Print(l.w), Print(l.h), DECREASE])]
  }

  function FadeFilters(l: CompLayer): seq<Filter> {
    if l.opacity < OPAQUE
    then [Filter("format", ["yuva420p"]), Filter("colorchannelmixer", ["aa=" + FixedPoint(l.opacity)])]
    else []
  }

  function PlaceText(fit: Fit, p: int, box: int, dim: string): string {
    if fit.Contain? then Print(p) + "+(" + Print(box) + "-" + dim + ")/2" else Print(p)
  }

  function BaseChain(width: nat, height: nat, fps: nat): Chain {
    Chain([], [Filter("color", ["c=black", "s=" + Print(width) + "x" + Print(height), "r=" + Print(fps)])], "base")
  }

  function LayerChain(l: CompLayer, i: nat): Chain {
    Chain([Print(i) + ":v"], [Filter("setpts", ["PTS-STARTPTS"])] + FitFilters(l) + FadeFilters(l), "l" + Print(i))
  }

  /** The label that carries the picture after n layers. */
  function Label(n: nat): string { if n == 0 then "base" else "s" + Print(n - 1) }

  function OverlayChain(l: CompLayer, i: nat): Chain {
    Chain([Label(i), "l" + Print(i)],
          [Filter("overlay",
                  ["x=" + PlaceText(l.fit, l.x, l.w, "w"), "y=" + PlaceText(l.fit, l.y, l.h, "h"), "eof_action=pass"])],
          Label(i + 1))
  }

  function Compile(layers: seq<CompLayer>, width: nat, height: nat, fps: nat): seq<Chain> {
    if layers == [] then [BaseChain(width, height, fps)]
    else
      var n := |layers| - 1;
      Compile(layers[..n], width, height, fps) + [LayerChain(layers[n], n), OverlayChain(layers[n], n)]
  }

  /** The filters that scale a layer, and the overlay offsets, as text. */
  function FitFilter(fit: Fit, x: int, y: int, w: nat, h: nat): (string, string, string) {
    match fit
    case Fill => ("scale=" + Print(w) + ":" + Print(h), Print(x), Print(y))
    case Cover => ("scale=" + Print(w) + ":" + Print(h) + ":" + INCREASE + "," + "crop=" + Print(w) + ":" + Print(h),
                   Print(x), Print(y))
    case Contain => ("scale=" + Print(w) + ":" + Print(h) + ":" + DECREASE,
                     Print(x) + "+(" + Print(w) + "-" + "w" + ")/2", Print(y) + "+(" + Print(h) + "-" + "h" + ")/2")
  }

  lemma Joins(a: string, b: string, c: string, sep: char)
    ensures Join([a], sep) == a
    ensures Join([a, b], sep) == a + [sep] + b
    ensures Join([a, b, c], sep) == a + [sep] + b + [sep] + c
  {
    assert [a, b][1..] == [b] && [a, b, c][1..] == [b, c] && [b, c][1..] == [c];
    assert Join([b, c], sep) == b + [sep] + c;
    assert a + [sep] + (b + [sep] + c) == a + [sep] + b + [sep] + c;
  }

  lemma FilterTexts(name: string, a: string, b: string, c: string)
    ensures PrintFilter(Filter(name, [a])) == name + "=" + a
    ensures PrintFilter(Filter(name, [a, b])) == name + "=" + a + ":" + b
    ensures PrintFilter(Filter(name, [a, b, c])) == name + "=" + a + ":" + b + ":" + c
  {
    hide Join;
    Joins(a, b, c, ':');
    assert name + "=" + (a + ":" + b) == name + "=" + a + ":" + b;
    assert name + "=" + (a + ":" + b + ":" + c) == name + "=" + a + ":" + b + ":" + c;
  }

  lemma FiltersText(f: Filter, g: Filter)
    ensures Join(PrintFilters([f]), ',') == PrintFilter(f)
    ensures Join(PrintFilters([f, g]), ',') == PrintFilter(f) + "," + PrintFilter(g)
  {
    hide Join, PrintFilter;
    assert PrintFilters([f]) == [PrintFilter(f)] && PrintFilters([f, g]) == [PrintFilter(f), PrintFilter(g)];
    Joins(PrintFilter(f), PrintFilter(g), "", ',');
  }

  lemma FitFilterText(l: CompLayer)
    ensures FitFilter(l.fit, l.x, l.y, l.w, l.h) ==
            (Join(PrintFilters(FitFilters(l)), ','), PlaceText(l.fit, l.x, l.w, "w"), PlaceText(l.fit, l.y, l.h, "h"))
  {
    hide Print, Join, PrintFilter, PrintFilters;
    var w, h := Print(l.w), Print(l.h);
    var fs := FitFilters(l);
    FiltersText(fs[0], fs[|fs| - 1]);
    FilterTexts("scale", w, h, INCREASE);
    FilterTexts("scale", w, h, DECREASE);
    assert "scale" + "=" == "scale=" && "crop" + "=" == "crop=";
    if l.fit.Cover? {
      FilterTexts("crop", w, h, "");
      var scale := "scale=" + w + ":" + h + ":" + INCREASE;
      assert scale + "," + ("crop=" + w + ":" + h) == scale + "," + "crop=" + w + ":" + h;
    }
  }

  lemma FiltersConcat(a: seq<Filter>, b: seq<Filter>)
    requires a != [] && b != []
    ensures Join(PrintFilters(a + b), ',') == Join(PrintFilters(a), ',') + "," + Join(PrintFilters(b), ',')
  {
    assert PrintFilters(a + b) == PrintFilters(a) + PrintFilters(b);
    JoinConcat(PrintFilters(a), PrintFilters(b), ',');
  }

  /** The two filters that fade a layer, as text. */
  function FadeText(opacity: real): string {
    "format=yuva420p" + "," + "colorchannelmixer=aa=" + FixedPoint(opacity)
  }

  lemma FadeFiltersText(l: CompLayer)
    requires l.opacity < OPAQUE
    ensures Join(PrintFilters(FadeFilters(l)), ',') == FadeText(l.opacity)
  {
    hide Join, PrintFilters, PrintFilter, FixedPoint;
    var fade, alpha := FadeFilters(l), FixedPoint(l.opacity);
    FilterTexts("format", "yuva420p", "", "");
    FilterTexts("colorchannelmixer", "aa=" + alpha, "", "");
    FiltersText(fade[0], fade[1]);
    assert "format" + "=" + "yuva420p" == "format=yuva420p";
    assert "colorchannelmixer" + "=" + "aa=" == "colorchannelmixer=aa=";
    assert "colorchannelmixer" + "=" + ("aa=" + alpha) == "colorchannelmixer" + "=" + "aa=" + alpha;
    assert "format=yuva420p" + "," + ("colorchannelmixer=aa=" + alpha) == FadeText(l.opacity);
  }

  /** The filters of a layer's chain, as text. */
  function LayerText(scale: string, opacity: real): string {
    "setpts=PTS-STARTPTS" + "," + scale + (if opacity < OPAQUE then "," + FadeText(opacity) else "")
  }

  lemma ThreeParts(a: seq<Filter>, b: seq<Filter>, c: seq<Filter>)
    requires a != [] && b != []
    ensures Join(PrintFilters(a + b + c), ',') ==
              Join(PrintFilters(a), ',') + "," + Join(PrintFilters(b), ',')
                  + (if c != [] then "," + Join(PrintFilters(c), ',') else "")
  {
    hide Join, PrintFilters;
    FiltersConcat(a, b);
    var front := Join(PrintFilters(a + b), ',');
    if c == [] {
      assert a + b + c == a + b;
      assert front + "" == front;
    } else {
      FiltersConcat(a + b, c);
      assert front + "," + Join(PrintFilters(c), ',') == front + ("," + Join(PrintFilters(c), ','));
    }
  }

  lemma SetptsText()
    ensures Join(PrintFilters([Filter("setpts", ["PTS-STARTPTS"])]), ',') == "setpts=PTS-STARTPTS"
  {
    hide Join, PrintFilters, PrintFilter;
    var f := Filter("setpts", ["PTS-STARTPTS"]);
    FilterTexts("setpts", "PTS-STARTPTS", "", "");
    FiltersText(f, f);
    assert "setpts" + "=" + "PTS-STARTPTS" == "setpts=PTS-STARTPTS";
  }

  lemma LayerFiltersText(l: CompLayer, i: nat)
    ensures Join(PrintFilters(LayerChain(l, i).filters), ',')
        == LayerText(FitFilter(l.fit, l.x, l.y, l.w, l.h).0, l.opacity)
  {
    hide Join, PrintFilters, FitFilter, FadeText, FitFilters, FadeFilters;
    FitFilterText(l);
    FitFiltersSome(l);
    SetptsText();
    ThreeParts([Filter("setpts", ["PTS-STARTPTS"])], FitFilters(l), FadeFilters(l));
    if l.opacity < OPAQUE {
      FadeFiltersText(l);
    }
  }

  lemma FitFiltersSome(l: CompLayer)
    ensures FitFilters(l) != [] && (l.opacity < OPAQUE <==> FadeFilters(l) != [])
  {
  }

  lemma LabelsText(a: string, b: string)
    ensures PrintLabels([]) == "" && PrintLabels([a]) == "[" + a + "]"
        && PrintLabels([a, b]) == "[" + a + "]" + "[" + b + "]"
  {
    SingleLabel(a);
    SingleLabel(b);
    assert [a, b][1..] == [b];
  }

  lemma OverlayText(l: CompLayer, i: nat)
    ensures var (_, ox, oy) := FitFilter(l.fit, l.x, l.y, l.w, l.h);
            PrintChain(OverlayChain(l, i)) ==
              "[" + Label(i) + "]" + "[" + "l" + Print(i) + "]" + "overlay=x=" + ox + ":y=" + oy + ":eof_action=pass"
                  + "[" + Label(i + 1) + "]"
  {
    hide Join, PrintFilters, PrintFilter, FitFilter, Print, Label, PrintLabels, PlaceText;
    FitFilterText(l);
    var (_, ox, oy) := FitFilter(l.fit, l.x, l.y, l.w, l.h);
    var f := OverlayChain(l, i).filters[0];
    FiltersText(f, f);
    FilterTexts("overlay", "x=" + ox, "y=" + oy, "eof_action=pass");
    LabelsText(Label(i), "l" + Print(i));
    assert "overlay" + "=" + ("x=" + ox) + ":" + ("y=" + oy) + ":" + "eof_action=pass"
        == "overlay=x=" + ox + ":y=" + oy + ":eof_action=pass" by {
      assert "overlay" + "=" + "x=" == "overlay=x=" && ":" + "y=" == ":y="
          && ":" + "eof_action=pass" == ":eof_action=pass";
      assert "overlay" + "=" + ("x=" + ox) == "overlay" + "=" + "x=" + ox;
      var a := "overlay=x=" + ox;
      assert a + ":" + ("y=" + oy) == a + (":" + "y=") + oy;
      var b := a + ":y=" + oy;
      assert b + ":" + "eof_action=pass" == b + (":" + "eof_action=pass");
    }
    var body := "overlay=x=" + ox + ":y=" + oy + ":eof_action=pass";
    var labels := "[" + Label(i) + "]" + "[" + ("l" + Print(i)) + "]";
    assert labels + body == labels + "overlay=x=" + ox + ":y=" + oy + ":eof_action=pass";
    assert labels == "[" + Label(i) + "]" + "[" + "l" + Print(i) + "]";
  }

  lemma LayerChainText(l: CompLayer, i: nat)
    ensures PrintChain(LayerChain(l, i)) ==
              "[" + (Print(i) + ":v") + "]" + LayerText(FitFilter(l.fit, l.x, l.y, l.w, l.h).0, l.opacity) + "["
                  + ("l" + Print(i)) + "]"
  {
    hide Join, PrintFilters, FitFilter, Print, LayerText, PrintLabels;
    LayerFiltersText(l, i);
    LabelsText(Print(i) + ":v", "");
  }

  lemma BaseChainText(width: nat, height: nat, fps: nat)
    ensures PrintChain(BaseChain(width, height, fps)) ==
              "color=c=black:s=" + Print(width) + "x" + Print(height) + ":r=" + Print(fps) + "[" + "base" + "]"
  {
    hide Join, PrintFilters, PrintFilter, Print, PrintLabels;
    var w, h, r := Print(width), Print(height), Print(fps);
    var f := BaseChain(width, height, fps).filters[0];
    LabelsText("base", "");
    FiltersText(f, f);
    FilterTexts("color", "c=black", "s=" + w + "x" + h, "r=" + r);
    assert "color" + "=" + "c=black" + ":" + "s=" == "color=c=black:s=" && ":" + "r=" == ":r=";
    var front := "color" + "=" + "c=black";
    assert front + ":" + ("s=" + w + "x" + h) == front + ":" + "s=" + w + "x" + h;
    var size := "color=c=black:s=" + w + "x" + h;
    assert size + ":" + ("r=" + r) == size + (":" + "r=") + r;
    var body := size + ":r=" + r;
    assert "" + body == body;
  }

  // ---------- the imperative compiler ----------

  method BuildFilterGraph(layers: seq<CompLayer>, width: nat, height: nat, fps: nat)
      returns (text: string, finalLabel: string)
    ensures text == PrintGraph(Compile(layers, width, height, fps))
    ensures finalLabel == Label(|layers|)
  {
    hide Join, PrintChain, LayerText, FitFilter, Compile, Print;
    var graph := ["color=c=black:s=" + Print(width) + "x" + Print(height) + ":r=" + Print(fps) + "[" + "base" + "]"];
    var prev := "base";
    BaseChainText(width, height, fps);
    CompiledBase(width, height, fps);
    for i := 0 to |layers|
      invariant graph == PrintChains(Compile(layers[..i], width, height, fps))
      invariant prev == Label(i)
    {
      var layer := layers[i];
      var (scale, ox, oy) := FitFilter(layer.fit, layer.x, layer.y, layer.w, layer.h);
      LayerChainText(layer, i);
      OverlayText(layer, i);
      CompiledStep(layers, i, width, height, fps);
      graph := graph + ["[" + (Print(i) + ":v") + "]" + LayerText(scale, layer.opacity) + "[" + ("l" + Print(i)) + "]"];
      var out := "s" + Print(i);
      graph := graph + ["[" + prev + "]" + "[" + "l" + Print(i) + "]" + "overlay=x=" + ox + ":y=" + oy
          + ":eof_action=pass" + "[" + out + "]"];
      prev := out;
    }
    assert layers[..|layers|] == layers;
    text, finalLabel := Join(graph, ';'), prev;
  }

  lemma CompiledBase(width: nat, height: nat, fps: nat)
    ensures PrintChains(Compile([], width, height, fps)) == [PrintChain(BaseChain(width, height, fps))]
  {
  }

  lemma CompiledStep(layers: seq<CompLayer>, i: nat, width: nat, height: nat, fps: nat)
    requires i < |layers|
    ensures Compile(layers[..i + 1], width, height, fps)
         == Compile(layers[..i], width, height, fps) + [LayerChain(layers[i], i), OverlayChain(layers[i], i)]
    ensures PrintChains(Compile(layers[..i + 1], width, height, fps))
         == PrintChains(Compile(layers[..i], width, height, fps)) + [PrintChain(LayerChain(layers[i], i))]
             + [PrintChain(OverlayChain(layers[i], i))]
  {
    hide PrintChain, LayerChain, OverlayChain;
    assert layers[..i + 1][..i] == layers[..i];
    PrintTwoMore(Compile(layers[..i], width, height, fps), LayerChain(layers[i], i), OverlayChain(layers[i], i));
  }

  lemma PrintTwoMore(g: seq<Chain>, c: Chain, d: Chain)
    ensures PrintChains(g + [c, d]) == PrintChains(g) + [PrintChain(c)] + [PrintChain(d)]
  {
    hide PrintChain;
  }
}
