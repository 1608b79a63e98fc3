/** The text of the filter graph and of the argument list, letter by letter, and the layers it is built from, told from
  * the stored rows alone. */
module CompositorText {
  import opened Wrappers
  import opened TagReader
  import opened Decimal
  import opened Splitting
  import opened GraphText
  import opened SceneCompositor
  import opened GraphMeaning
  import opened CompositorArguments

  // ---------- numbers ----------

  /** Printing is decimal, without leading zeros. */
  lemma PrintsDecimal(n: nat)
    ensures n < 10 ==> Print(n) == ["0123456789"[n]]
    ensures n >= 10 ==> Print(n) == Print(n / 10) + ["0123456789"[n % 10]]
    ensures n > 0 ==> Print(0 - n) == "-" + Print(n)
  {
  }

  /** A fixed-point number is its whole part, a point and three decimal digits. */
  lemma FixedPointText(t: nat)
    ensures FixedNat(t) == Print(t / 1000) + "." + ["0123456789"[t / 100 % 10], "0123456789"[t / 10 % 10],
        "0123456789"[t % 10]]
  {
    hide Fixed, Digit, PrintNat;
    ThreeDigits(t);
    LastThree(t % 1000);
    DigitLetter(t / 100 % 10);
    DigitLetter(t / 10 % 10);
    DigitLetter(t % 10);
  }

  lemma DigitLetter(d: nat)
    requires d < 10
    ensures "0123456789"[d] == Digit(d)
  {
  }

  lemma ThreeDigits(t: nat)
    ensures t % 1000 / 100 == t / 100 % 10 && t % 1000 / 10 % 10 == t / 10 % 10 && t % 1000 % 10 == t % 10
  {
    var q, u := t / 1000, t % 1000;
    assert t == 1000 * q + u;
    assert t / 100 == 10 * q + u / 100;
    assert t / 10 == 10 * (10 * q) + u / 10;
    assert t == 10 * (100 * q) + u;
    TenfoldLeavesDigit(q, u / 100);
    TenfoldLeavesDigit(10 * q, u / 10);
    TenfoldLeavesDigit(100 * q, u);
  }

  lemma TenfoldLeavesDigit(q: nat, r: nat)
    ensures (10 * q + r) % 10 == r % 10
  {
    assert 10 * q + r == 10 * (q + r / 10) + r % 10;
  }

  lemma LastThree(u: nat)
    requires u < 1000
    ensures Fixed(u, 3) == [Digit(u / 100), Digit(u / 10 % 10), Digit(u % 10)]
  {
    hide Digit, Fixed;
    HundredsDigit(u);
    OneMoreDigit(u, 2);
    OneMoreDigit(u / 10, 1);
    OneMoreDigit(u / 10 / 10, 0);
    NoDigits(u / 10 / 10 / 10);
    var h := u / 10 / 10;
    assert Fixed(h, 1) == [] + [Digit(h % 10)] == [Digit(u / 100)];
  }

  lemma HundredsDigit(u: nat)
    requires u < 1000
    ensures u / 10 / 10 == u / 100 < 10 && u / 10 / 10 % 10 == u / 100
  {
  }

  lemma OneMoreDigit(n: nat, width: nat)
    ensures Fixed(n, width + 1) == Fixed(n / 10, width) + [Digit(n % 10)]
  {
  }

  lemma NoDigits(n: nat)
    ensures Fixed(n, 0) == []
  {
  }

  /** A negative number has a sign in front, and only that. */
  lemma FixedPointSign(r: real)
    ensures r < 0.0 ==> exists n: nat | Nearest(n, -1000.0 * r) :: FixedPoint(r) == "-" + FixedNat(n)
    ensures r >= 0.0 ==> exists n: nat | Nearest(n, 1000.0 * r) :: FixedPoint(r) == FixedNat(n)
  {
    hide FixedNat, RoundHalfEven;
    RoundsToNearest(-r * 1000.0);
    RoundsToNearest(r * 1000.0);
    if r < 0.0 {
      var n: nat := RoundHalfEven(-r * 1000.0);
      assert Nearest(n, -1000.0 * r) && FixedPoint(r) == "-" + FixedNat(n);
    } else {
      var n: nat := RoundHalfEven(r * 1000.0);
      assert Nearest(n, 1000.0 * r) && FixedPoint(r) == FixedNat(n);
    }
  }

  /** The threshold is the real number that 0.999 is rounded to in 24 binary digits. */
  lemma OpaqueIsNearest()
    ensures Nearest(16760439, 0.999 * 16777216.0) && OPAQUE * 16777216.0 == 16760439.0
  {
  }

  // ---------- the graph ----------

  function FitText(l: CompLayer): string {
    match l.fit
    case Fill => ""
    case Cover => ":force_original_aspect_ratio=increase,crop=" + Print(l.w) + ":" + Print(l.h)
    case Contain => ":force_original_aspect_ratio=decrease"
  }

  function OffsetText(l: CompLayer, p: int, box: nat, dim: string): string {
    if l.fit == Contain then Print(p) + "+(" + Print(box) + "-" + dim + ")/2" else Print(p)
  }

  lemma ScaleText(l: CompLayer)
    ensures FitFilter(l.fit, l.x, l.y, l.w, l.h).0 == "scale=" + Print(l.w) + ":" + Print(l.h) + FitText(l)
    ensures FitFilter(l.fit, l.x, l.y, l.w, l.h).1 == OffsetText(l, l.x, l.w, "w")
    ensures FitFilter(l.fit, l.x, l.y, l.w, l.h).2 == OffsetText(l, l.y, l.h, "h")
  {
    hide Print, INCREASE, DECREASE;
    AspectLetters();
    var w, h := Print(l.w), Print(l.h);
    var size := "scale=" + w + ":" + h;
    match l.fit
    case Fill => assert size + "" == size;
    case Cover => Regroup(size, ":", INCREASE, ",", "crop=", w, ":", h);
    case Contain => assert size + ":" + DECREASE == size + (":" + DECREASE);
  }

  lemma AspectLetters()
    ensures ":" + INCREASE + "," + "crop=" == ":force_original_aspect_ratio=increase,crop="
    ensures ":" + DECREASE == ":force_original_aspect_ratio=decrease"
  {
    hide INCREASE, DECREASE;
    CropLetters(":" + INCREASE);
    IncreaseLetters();
    DecreaseLetters();
    CropFollows();
  }

  lemma IncreaseLetters()
    ensures ":" + INCREASE == ":force_original_aspect_ratio=increase"
  {
  }

  lemma DecreaseLetters()
    ensures ":" + DECREASE == ":force_original_aspect_ratio=decrease"
  {
  }

  lemma CropFollows()
    ensures ":force_original_aspect_ratio=increase" + ",crop=" == ":force_original_aspect_ratio=increase,crop="
  {
  }

  lemma CropLetters(s: string)
    ensures s + "," + "crop=" == s + ",crop="
  {
    assert "," + "crop=" == ",crop=";
  }

  lemma Regroup(s: string, a: string, b: string, c: string, d: string, e: string, f: string, g: string)
    ensures s + a + b + c + d + e + f + g == s + (a + b + c + d + e + f + g)
  {
  }

  lemma LayerTextParts(scale: string, opacity: real)
    ensures LayerText(scale, opacity)
         == "setpts=PTS-STARTPTS," + scale
            + (if opacity < OPAQUE then ",format=yuva420p,colorchannelmixer=aa=" + FixedPoint(opacity) else "")
  {
    hide FixedPoint;
    FilterLetters();
    var head, fade := "setpts=PTS-STARTPTS" + "," + scale, FixedPoint(opacity);
    Regroup("", ",", "format=yuva420p", ",", "colorchannelmixer=aa=", fade, "", "");
    Regroup(head, ",", "format=yuva420p", ",", "colorchannelmixer=aa=", fade, "", "");
  }

  lemma FilterLetters()
    ensures "setpts=PTS-STARTPTS" + "," == "setpts=PTS-STARTPTS,"
    ensures "," + "format=yuva420p" + "," + "colorchannelmixer=aa=" == ",format=yuva420p,colorchannelmixer=aa="
  {
    MixerLetters("," + "format=yuva420p");
    assert "," + "format=yuva420p" == ",format=yuva420p";
  }

  lemma MixerLetters(s: string)
    ensures s + "," + "colorchannelmixer=aa=" == s + ",colorchannelmixer=aa="
  {
    assert "," + "colorchannelmixer=aa=" == ",colorchannelmixer=aa=";
  }

  /** The chain of layer i: rebased, scaled to its box, and faded if it is not opaque. */
  lemma LayerChainLetters(l: CompLayer, i: nat)
    ensures PrintChain(LayerChain(l, i))
         == "[" + Print(i) + ":v]setpts=PTS-STARTPTS,"
            + ("scale=" + Print(l.w) + ":" + Print(l.h) + FitText(l))
            + (if l.opacity < OPAQUE then ",format=yuva420p,colorchannelmixer=aa=" + FixedPoint(l.opacity) else "")
            + "[l" + Print(i) + "]"
  {
    hide Print, FixedPoint, FitText, FitFilter, LayerText, PrintChain, LayerChain;
    LayerChainText(l, i);
    ScaleText(l);
    LayerTextParts(FitFilter(l.fit, l.x, l.y, l.w, l.h).0, l.opacity);
    var scale := "scale=" + Print(l.w) + ":" + Print(l.h) + FitText(l);
    var fade := if l.opacity < OPAQUE then ",format=yuva420p,colorchannelmixer=aa=" + FixedPoint(l.opacity) else "";
    Brackets(Print(i), "setpts=PTS-STARTPTS,", scale, fade, Print(i));
  }

  lemma Brackets(i: string, head: string, scale: string, fade: string, j: string)
    ensures "[" + (i + ":v") + "]" + (head + scale + fade) + "[" + ("l" + j) + "]"
         == "[" + i + ":v]" + head + scale + fade + "[l" + j + "]"
    ensures "[" + i + ":v]" + "setpts=PTS-STARTPTS," == "[" + i + ":v]setpts=PTS-STARTPTS,"
  {
    assert ":v" + "]" == ":v]" && "[" + "l" == "[l";
    assert ":v]" + "setpts=PTS-STARTPTS," == ":v]setpts=PTS-STARTPTS,";
  }

  /** The overlay of layer i on what is below it: the base, or the result of layer i - 1. */
  lemma OverlayChainLetters(l: CompLayer, i: nat)
    ensures PrintChain(OverlayChain(l, i))
         == "[" + (if i == 0 then "base" else "s" + Print(i - 1)) + "][l" + Print(i) + "]overlay=x="
            + OffsetText(l, l.x, l.w, "w") + ":y=" + OffsetText(l, l.y, l.h, "h") + ":eof_action=pass[s" + Print(i)
                + "]"
  {
    hide Print, OffsetText, FitFilter, PrintChain, OverlayChain;
    OverlayText(l, i);
    ScaleText(l);
    var below := if i == 0 then "base" else "s" + Print(i - 1);
    var (_, ox, oy) := FitFilter(l.fit, l.x, l.y, l.w, l.h);
    assert Label(i) == below && Label(i + 1) == "s" + Print(i);
    OverlayLetters(below, Print(i), ox, oy);
  }

  lemma OverlayLetters(below: string, i: string, ox: string, oy: string)
    ensures "[" + below + "]" + "[" + "l" + i + "]" + "overlay=x=" + ox + ":y=" + oy + ":eof_action=pass" + "["
        + ("s" + i) + "]"
         == "[" + below + "][l" + i + "]overlay=x=" + ox + ":y=" + oy + ":eof_action=pass[s" + i + "]"
  {
    assert "]" + "[" + "l" == "][l" && "]" + "overlay=x=" == "]overlay=x="
        && ":eof_action=pass" + "[" + "s" == ":eof_action=pass[s";
  }

  /** The whole graph: the black canvas, then for every layer its chain and its overlay, separated by semicolons. */
  lemma GraphLetters(layers: seq<CompLayer>, width: nat, height: nat, fps: nat)
    ensures var parts := Split(PrintGraph(Compile(layers, width, height, fps)), ';');
            && |parts| == 1 + 2 * |layers|
            && parts[0] == "color=c=black:s=" + Print(width) + "x" + Print(height) + ":r=" + Print(fps) + "[base]"
            && forall i | 0 <= i < |layers| ::
                 parts[2 * i + 1] == PrintChain(LayerChain(layers[i], i))
                 && parts[2 * i + 2] == PrintChain(OverlayChain(layers[i], i))
  {
    hide Print, PrintChain, LayerChain, OverlayChain, BaseChain, CleanChain, Compile, Split, PrintGraph, ParseGraph;
    var g := Compile(layers, width, height, fps);
    CompiledClean(layers, width, height, fps);
    GraphReadsBack(g);
    CompiledChains(layers, width, height, fps);
    CanvasLetters(width, height, fps);
  }

  lemma CanvasLetters(width: nat, height: nat, fps: nat)
    ensures PrintChain(BaseChain(width, height, fps))
         == "color=c=black:s=" + Print(width) + "x" + Print(height) + ":r=" + Print(fps) + "[base]"
  {
    hide Print, PrintChain, BaseChain;
    BaseChainText(width, height, fps);
    assert "[" + "base" + "]" == "[base]";
    var canvas := "color=c=black:s=" + Print(width) + "x" + Print(height) + ":r=" + Print(fps);
    assert canvas + "[" + "base" + "]" == canvas + ("[" + "base" + "]");
  }

  lemma {:induction false} CompiledChains(layers: seq<CompLayer>, width: nat, height: nat, fps: nat)
    ensures var g := Compile(layers, width, height, fps);
            && |g| == 1 + 2 * |layers| && g[0] == BaseChain(width, height, fps)
            && forall i | 0 <= i < |layers| ::
                 g[2 * i + 1] == LayerChain(layers[i], i) && g[2 * i + 2] == OverlayChain(layers[i], i)
  {
    hide LayerChain, OverlayChain, BaseChain;
    if layers != [] {
      CompiledChains(layers[..|layers| - 1], width, height, fps);
    }
  }

  // ---------- the layers ----------

  /** The low 32 bits of n, read as signed or unsigned. */
  ghost predicate LowBits(m: int, n: int, least: int) {
    least <= m < least + 0x1_0000_0000 && exists k: int :: n == m + k * 0x1_0000_0000
  }

  /** What a stored row becomes: offsets cut to 32 bits, sizes too and at least 2, the fit as named and else filling. */
  lemma LayerByRow(row: Row)
    requires row.sourceId.Some?
    ensures var l := LayerOf(row);
            && Some(l.sourceId) == row.sourceId && l.opacity == row.opacity
            && LowBits(l.x, row.x, -0x8000_0000) && LowBits(l.y, row.y, -0x8000_0000)
            && l.w >= 2 && (l.w > 2 ==> LowBits(l.w, row.width, 0))
            && l.h >= 2 && (l.h > 2 ==> LowBits(l.h, row.height, 0))
            && (l.w == 2 ==> LowBits(0, row.width, 0) || LowBits(1, row.width, 0) || LowBits(2, row.width, 0))
            && (l.h == 2 ==> LowBits(0, row.height, 0) || LowBits(1, row.height, 0) || LowBits(2, row.height, 0))
            && (row.fit == "cover" <==> l.fit == Cover) && (row.fit == "contain" <==> l.fit == Contain)
  {
    Remainder(row.x);
    Remainder(row.y);
    Remainder(row.width);
    Remainder(row.height);
  }

  lemma Remainder(n: int)
    ensures LowBits(AsU32(n), n, 0) && LowBits(AsI32(n), n, -0x8000_0000)
  {
    var k := n / 0x1_0000_0000;
    assert n == AsU32(n) + k * 0x1_0000_0000;
    if AsI32(n) != AsU32(n) {
      assert n == AsI32(n) + (k + 1) * 0x1_0000_0000;
    }
  }

  /** The row has a source, and its look-ups found a relay and a cached video header. */
  predicate Kept(v: Visit) {
    match v.row.sourceId
    case None => false
    case Some(id) => id in v.live.relays && id in v.live.headers && v.live.headers[id].video != None
  }

  lemma LiveIsKept(v: Visit)
    ensures IsLive(v) <==> Kept(v)
    ensures Kept(v) ==> v.row.sourceId.Some?
  {
  }

  predicate FromRow(l: CompLayer, row: Row) { row.sourceId.Some? && l == LayerOf(row) }

  /** The layers come from exactly the rows that are kept, in their order; `rows` says which. */
  ghost predicate Selects(visits: seq<Visit>, rows: seq<nat>, layers: seq<CompLayer>) {
    && |rows| == |layers|
    && (forall k | 0 <= k < |rows| :: rows[k] < |visits| && FromRow(layers[k], visits[rows[k]].row))
    && (forall j, k | 0 <= j < k < |rows| :: rows[j] < rows[k])
    && (forall i | 0 <= i < |visits| :: i in rows <==> Kept(visits[i]))
  }

  lemma SelectsOneMore(visits: seq<Visit>, v: Visit, rows: seq<nat>, layers: seq<CompLayer>, l: CompLayer)
    requires Selects(visits, rows, layers)
    ensures !Kept(v) ==> Selects(visits + [v], rows, layers)
    ensures Kept(v) && FromRow(l, v.row) ==> Selects(visits + [v], rows + [|visits|], layers + [l])
  {
    hide Kept, FromRow;
    var n := |visits|;
    assert forall i | 0 <= i < n :: i in rows + [n] <==> i in rows;
    assert n !in rows;
  }

  lemma {:induction false} LayersInOrder(visits: seq<Visit>) returns (rows: seq<nat>)
    ensures Selects(visits, rows, LiveLayers(visits))
  {
    hide LayerOf, IsLive, Kept, Selects;
    if visits == [] {
      rows := [];
      NoneSelected();
    } else {
      var n := |visits| - 1;
      var v := visits[n];
      rows := LayersInOrder(visits[..n]);
      LiveIsKept(v);
      assert visits == visits[..n] + [v];
      if IsLive(v) {
        SelectsOneMore(visits[..n], v, rows, LiveLayers(visits[..n]), LayerOf(v.row));
        rows := rows + [n];
      } else {
        SelectsOneMore(visits[..n], v, rows, LiveLayers(visits[..n]), CompLayer(0, 0, 0, 2, 2, 1.0, Fill));
        assert LiveLayers(visits[..n]) + [] == LiveLayers(visits[..n]);
      }
    }
  }

  lemma NoneSelected()
    ensures Selects([], [], [])
  {
  }

  // ---------- the arguments ----------

  /** The eight arguments of input i, and those around the inputs. */
  lemma ArgumentLetters(layers: seq<CompLayer>, ports: seq<nat>, width: nat, height: nat, fps: nat)
    requires |ports| == |layers|
    ensures var args, n := Arguments(layers, ports, width, height, fps), |ports|;
            && |args| == 3 + 8 * n + 10
            && args[..3] == ["-hide_banner", "-loglevel", "warning"]
            && (forall i | 0 <= i < n ::
                  args[3 + 8 * i..3 + 8 * i + 8]
                  == ["-analyzeduration", "500000", "-probesize", "500000", "-f", "flv", "-i",
                      "tcp://127.0.0.1:" + Print(ports[i])])
            && args[3 + 8 * n..3 + 8 * n + 5]
               == ["-f", "lavfi", "-i", "anullsrc=r=48000:cl=stereo", "-filter_complex"]
            && args[3 + 8 * n + 5] == PrintGraph(Compile(layers, width, height, fps))
            && args[3 + 8 * n + 6..]
               == ["-map", "[" + (if n == 0 then "base" else "s" + Print(n - 1)) + "]", "-map", Print(n) + ":a"]
  {
    hide Print, PrintGraph, Compile, LayerInput;
    InputLetters(ports);
    var args, n := Arguments(layers, ports, width, height, fps), |ports|;
    var inputs := LayerInputs(ports);
    var tail := ["-f", "lavfi", "-i", SILENCE] + GraphSection(layers, width, height, fps);
    TailLetters(layers, width, height, fps);
    assert args == BANNER + inputs + tail;
    assert args[3 + 8 * n..3 + 8 * n + 5] == tail[..5] && args[3 + 8 * n + 6..] == tail[6..];
    forall i | 0 <= i < n
      ensures args[3 + 8 * i..3 + 8 * i + 8]
           == ["-analyzeduration", "500000", "-probesize", "500000", "-f", "flv", "-i",
               "tcp://127.0.0.1:" + Print(ports[i])]
    {
      InputLetter(ports[i]);
      assert args[3 + 8 * i..3 + 8 * i + 8] == inputs[8 * i..8 * i + 8];
    }
  }

  lemma TailLetters(layers: seq<CompLayer>, width: nat, height: nat, fps: nat)
    ensures var tail, n := ["-f", "lavfi", "-i", SILENCE] + GraphSection(layers, width, height, fps), |layers|;
            && |tail| == 10 && tail[5] == PrintGraph(Compile(layers, width, height, fps))
            && tail[..5] == ["-f", "lavfi", "-i", "anullsrc=r=48000:cl=stereo", "-filter_complex"]
            && tail[6..] == ["-map", "[" + (if n == 0 then "base" else "s" + Print(n - 1)) + "]", "-map",
                  Print(n) + ":a"]
  {
    hide Print, PrintGraph, Compile;
  }

  lemma InputLetter(port: nat)
    ensures LayerInput(port)
         == ["-analyzeduration", "500000", "-probesize", "500000", "-f", "flv", "-i", "tcp://127.0.0.1:" + Print(port)]
  {
    hide Print;
  }

  lemma {:induction false} InputLetters(ports: seq<nat>)
    ensures |LayerInputs(ports)| == 8 * |ports|
    ensures forall i | 0 <= i < |ports| :: LayerInputs(ports)[8 * i..8 * i + 8] == LayerInput(ports[i])
  {
    hide LayerInput;
    if ports != [] {
      var n := |ports| - 1;
      InputLetters(ports[..n]);
      InputLetter(ports[n]);
      forall i | 0 <= i < |ports| ensures LayerInputs(ports)[8 * i..8 * i + 8] == LayerInput(ports[i]) {
        if i < n {
          assert LayerInputs(ports)[8 * i..8 * i + 8] == LayerInputs(ports[..n])[8 * i..8 * i + 8];
        }
      }
    }
  }
}
