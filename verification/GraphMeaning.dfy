/** The meaning of a filter graph, computed from its text, and the theorem that compilation preserves it. */
module GraphMeaning {
  import opened Wrappers
  import opened TagReader
  import opened Decimal
  import opened Splitting
  import opened GraphText
  import opened SceneCompositor

  // ---------- reading filter arguments ----------

  /** The rest of s after a prefix. */
  function After(prefix: string, s: string): Option<string> {
    if prefix <= s then Some(s[|prefix|..]) else None
  }

  function Before(s: string, suffix: string): Option<string> {
    if |s| >= |suffix| && s[|s| - |suffix|..] == suffix then Some(s[..|s| - |suffix|]) else None
  }

  function IntAfter(prefix: string, s: string): Option<int> {
    match After(prefix, s)
    case Some(rest) => Parse(rest)
    case None => None
  }

  /** "640x360" as two numbers. */
  function ParseSize(s: string): Option<(int, int)> {
    var parts := Split(s, 'x');
    if |parts| == 2 && Parse(parts[0]).Some? && Parse(parts[1]).Some?
        then Some((Parse(parts[0]).value, Parse(parts[1]).value)) else None
  }

  /** A number, or "p+(box-dim)/2" where dim is the overlay's own size along this axis. */
  function ParseOffset(s: string, dim: string): Option<Offset> {
    var parts := Split(s, '+');
    if Parse(parts[0]).None? then None
    else if |parts| == 1 then Some(At(Parse(parts[0]).value))
    else if |parts| == 2 then
      match After("(", parts[1])
      case Some(inner) =>
        (match Before(inner, "-" + dim + ")/2")
         case Some(box) => if Parse(box).Some? then Some(Centred(Parse(parts[0]).value, Parse(box).value)) else None
         case None => None)
      case None => None
    else None
  }

  /** A decimal with three places, in thousandths. */
  function ParseFixedPoint(s: string): Option<int> {
    if s != "" && s[0] == '-' then
      match ParseFixedNat(s[1..])
      case Some(n) => Some(0 - n)
      case None => None
    else ParseFixedNat(s)
  }

  function ParseFixedNat(s: string): Option<int> {
    var parts := Split(s, '.');
    if |parts| == 2 && |parts[1]| == 3 && ParseNat(parts[0]).Some? && ParseNat(parts[1]).Some?
    then Some(ParseNat(parts[0]).value * 1000 + ParseNat(parts[1]).value) else None
  }

  function ParseAspect(s: string): Option<Aspect> {
    if s == INCREASE then Some(Increase) else if s == DECREASE then Some(Decrease) else None
  }

  // ---------- the meaning of filters and chains ----------

  function ApplyUnary(name: string, args: seq<string>, img: Image): Option<Image> {
    if name == "setpts" then
      if args == ["PTS-STARTPTS"] then Some(Rebased(img)) else None
    else if name == "scale" then ApplyScale(args, img)
    else if name == "crop" then
      if |args| == 2 && Parse(args[0]).Some? && Parse(args[1]).Some?
      then Some(Cropped(img, Parse(args[0]).value, Parse(args[1]).value)) else None
    else if name == "format" then
      if args == ["yuva420p"] then Some(WithAlpha(img)) else None
    else if name == "colorchannelmixer" then
      if |args| == 1 && After("aa=", args[0]).Some? && ParseFixedPoint(After("aa=", args[0]).value).Some?
      then Some(Faded(img, ParseFixedPoint(After("aa=", args[0]).value).value)) else None
    else None
  }

  function ApplyScale(args: seq<string>, img: Image): Option<Image> {
    if |args| < 2 || Parse(args[0]).None? || Parse(args[1]).None? then None
    else
      var w, h := Parse(args[0]).value, Parse(args[1]).value;
      if |args| == 2 then Some(Scaled(img, w, h, Stretch))
      else if |args| == 3 && ParseAspect(args[2]).Some? then Some(Scaled(img, w, h, ParseAspect(args[2]).value))
      else None
  }

  function ApplyColor(args: seq<string>): Option<Image> {
    if |args| != 3 || args[0] != "c=black" || After("s=", args[1]).None? then None
    else
      var size, rate := ParseSize(After("s=", args[1]).value), IntAfter("r=", args[2]);
      if size.Some? && rate.Some? then Some(Black(size.value.0, size.value.1, rate.value)) else None
  }

  function ApplyOverlay(args: seq<string>, below: Image, above: Image): Option<Image> {
    if |args| != 3 || args[2] != "eof_action=pass" || After("x=", args[0]).None? || After("y=", args[1]).None? then None
    else
      var x, y := ParseOffset(After("x=", args[0]).value, "w"), ParseOffset(After("y=", args[1]).value, "h");
      if x.Some? && y.Some? then Some(Overlaid(below, above, x.value, y.value)) else None
  }

  function Apply(f: Filter, imgs: seq<Image>): Option<Image> {
    if |imgs| == 0 then (if f.name == "color" then ApplyColor(f.args) else None)
    else if |imgs| == 1 then ApplyUnary(f.name, f.args, imgs[0])
    else if |imgs| == 2 then (if f.name == "overlay" then ApplyOverlay(f.args, imgs[0], imgs[1]) else None)
    else None
  }

  /** Filters in a row: the first takes the chain's inputs, each later one the result so far. */
  function ApplyAll(fs: seq<Filter>, imgs: seq<Image>): Option<Image> {
    if fs == [] then (if |imgs| == 1 then Some(imgs[0]) else None)
    else
      match Apply(fs[0], imgs)
      case Some(img) => ApplyAll(fs[1..], [img])
      case None => None
  }

  type Env = map<string, Image>

  /** The number of the input file whose video pad a label names. */
  function InputPad(l: string): Option<nat> {
    match Before(l, ":v")
    case Some(n) => ParseNat(n)
    case None => None
  }

  /** Reading an input pad leaves the links alone; reading a link uses it up. */
  function Take(env: Env, l: string): Option<(Image, Env)> {
    if InputPad(l).Some? then Some((Input(InputPad(l).value), env))
    else if l in env then Some((env[l], env - {l}))
    else None
  }

  function TakeAll(env: Env, labels: seq<string>): Option<(seq<Image>, Env)> {
    if labels == [] then Some(([], env))
    else
      match Take(env, labels[0])
      case None => None
      case Some((img, env1)) =>
        match TakeAll(env1, labels[1..])
        case None => None
        case Some((imgs, env2)) => Some(([img] + imgs, env2))
  }

  /** One chain: a link it defines must not be open already. */
  function EvalChain(env: Env, c: Chain): Option<Env> {
    match TakeAll(env, c.inputs)
    case None => None
    case Some((imgs, rest)) =>
      match ApplyAll(c.filters, imgs)
      case None => None
      case Some(img) => if c.output in rest then None else Some(rest[c.output := img])
  }

  /** The open links after all chains. */
  function Eval(g: seq<Chain>): Option<Env> {
    if g == [] then Some(map[])
    else
      match Eval(g[..|g| - 1])
      case None => None
      case Some(env) => EvalChain(env, g[|g| - 1])
  }

  /** The meaning of a graph's text at a label, which must be the only open link. */
  function Meaning(text: string, at: string): Option<Image> {
    match ParseGraph(text)
    case None => None
    case Some(g) =>
      match Eval(g)
      case None => None
      case Some(env) => if env.Keys == {at} then Some(env[at]) else None
  }

  // ---------- arguments are read back ----------

  lemma PrefixReads(prefix: string, rest: string)
    ensures After(prefix, prefix + rest) == Some(rest)
    ensures Before(rest + prefix, prefix) == Some(rest)
  {
    assert prefix <= prefix + rest;
  }

  lemma SizeReads(w: nat, h: nat)
    ensures ParseSize(Print(w) + "x" + Print(h)) == Some((w as int, h as int))
  {
    hide Print, Parse;
    var parts := [Print(w), Print(h)];
    Joins(Print(w), Print(h), "", 'x');
    SplitJoined(parts, 'x');
    ParsePrinted(w);
    ParsePrinted(h);
  }

  lemma OffsetReads(fit: Fit, p: int, box: nat, dim: string)
    requires dim == "w" || dim == "h"
    ensures ParseOffset(PlaceText(fit, p, box, dim), dim) == Some(Place(fit, p, box))
  {
    hide Print, Parse;
    ParsePrinted(p);
    ParsePrinted(box);
    if fit.Contain? {
      var suffix := "-" + dim + ")/2";
      var second := "(" + (Print(box) + suffix);
      Joins(Print(p), second, "", '+');
      assert PlaceText(fit, p, box, dim) == Print(p) + ['+'] + second;
      assert '+' !in suffix;
      SplitJoined([Print(p), second], '+');
      PrefixReads("(", Print(box) + suffix);
      PrefixReads(suffix, Print(box));
    } else {
      Joins(Print(p), "", "", '+');
      SplitJoined([Print(p)], '+');
    }
  }

  lemma FixedNatReads(t: nat)
    ensures ParseFixedNat(FixedNat(t)) == Some(t as int)
    ensures FixedNat(t) != "" && FixedNat(t)[0] != '-'
  {
    hide PrintNat, ValueOf, Fixed;
    var whole, part := PrintNat(t / 1000), Fixed(t % 1000, 3);
    Joins(whole, part, "", '.');
    assert '.' !in whole && '.' !in part;
    SplitJoined([whole, part], '.');
    ValueOfPrinted(t / 1000);
    assert Pow10(3) == 1000;
    ValueOfFixed(t % 1000, 3);
    assert FixedNat(t)[0] == whole[0];
  }

  /** The text of a real, read back, is the nearest number of thousandths, ties to even. */
  lemma FixedPointReads(r: real)
    ensures ParseFixedPoint(FixedPoint(r)) == Some(Thousandths(r))
    ensures Nearest(ParseFixedPoint(FixedPoint(r)).value, 1000.0 * r)
  {
    ThousandthsAreNearest(r);
    hide RoundHalfEven, ParseFixedNat, FixedNat;
    if r < 0.0 {
      FixedNatReads(RoundHalfEven(-r * 1000.0));
      assert FixedPoint(r)[1..] == FixedNat(RoundHalfEven(-r * 1000.0));
    } else {
      FixedNatReads(RoundHalfEven(r * 1000.0));
    }
  }

  lemma ThousandthsAreNearest(r: real)
    ensures Nearest(Thousandths(r), 1000.0 * r)
  {
    hide RoundHalfEven;
    RoundsToNearest(-r * 1000.0);
    RoundsToNearest(r * 1000.0);
    if r < 0.0 {
      var n := RoundHalfEven(-r * 1000.0);
      assert 2.0 * ((-n) as real - 1000.0 * r) == -(2.0 * (n as real - (-r * 1000.0)));
      assert (-n) % 2 == 0 <==> n % 2 == 0;
    }
  }

  // ---------- filters mean what the layer asks for ----------

  lemma {:induction false} ApplyAllConcat(a: seq<Filter>, b: seq<Filter>, imgs: seq<Image>)
    requires a != []
    ensures ApplyAll(a + b, imgs) == match ApplyAll(a, imgs)
                                     case Some(img) => ApplyAll(b, [img])
                                     case None => None
  {
    hide Apply;
    assert (a + b)[1..] == a[1..] + b;
    var first := Apply(a[0], imgs);
    if first.Some? && |a| > 1 {
      ApplyAllConcat(a[1..], b, [first.value]);
    } else if first.Some? {
      assert a[1..] + b == b;
    }
  }

  lemma ApplyOne(f: Filter, imgs: seq<Image>)
    ensures ApplyAll([f], imgs) == Apply(f, imgs)
  {
    assert [f][1..] == [];
  }

  lemma SetptsMeans(img: Image)
    ensures ApplyAll([Filter("setpts", ["PTS-STARTPTS"])], [img]) == Some(Rebased(img))
  {
    ApplyOne(Filter("setpts", ["PTS-STARTPTS"]), [img]);
  }

  lemma FitMeans(l: CompLayer, input: Image)
    ensures ApplyAll(FitFilters(l), [Rebased(input)]) == Some(Fitted(l, input))
  {
    hide Print, Parse, ApplyAll;
    var fs := FitFilters(l);
    ParsePrinted(l.w);
    ParsePrinted(l.h);
    ApplyOne(fs[0], [Rebased(input)]);
    assert INCREASE != DECREASE;
    if l.fit.Cover? {
      var scaled := Scaled(Rebased(input), l.w, l.h, Increase);
      ApplyOne(fs[1], [scaled]);
      assert fs == [fs[0]] + [fs[1]];
      ApplyAllConcat([fs[0]], [fs[1]], [Rebased(input)]);
    }
  }

  lemma FadeMeans(l: CompLayer, img: Image)
    ensures ApplyAll(FadeFilters(l), [img]) == Some(Opacified(l, img))
  {
    hide FixedPoint, ParseFixedPoint;
    if l.opacity < OPAQUE {
      var fs := FadeFilters(l);
      FixedPointReads(l.opacity);
      PrefixReads("aa=", FixedPoint(l.opacity));
      ApplyOne(fs[0], [img]);
      ApplyOne(fs[1], [WithAlpha(img)]);
      assert fs == [fs[0]] + [fs[1]];
      ApplyAllConcat([fs[0]], [fs[1]], [img]);
    }
  }

  lemma LayerMeans(l: CompLayer, i: nat)
    ensures ApplyAll(LayerChain(l, i).filters, [Input(i)]) == Some(Opacified(l, Fitted(l, Input(i))))
  {
    hide FitFilters, FadeFilters, Fitted, Opacified, ApplyAll;
    var setpts := [Filter("setpts", ["PTS-STARTPTS"])];
    SetptsMeans(Input(i));
    FitMeans(l, Input(i));
    FadeMeans(l, Fitted(l, Input(i)));
    ApplyAllConcat(setpts, FitFilters(l), [Input(i)]);
    ApplyAllConcat(setpts + FitFilters(l), FadeFilters(l), [Input(i)]);
  }

  lemma OverlayMeans(l: CompLayer, i: nat, below: Image, above: Image)
    ensures ApplyAll(OverlayChain(l, i).filters, [below, above])
         == Some(Overlaid(below, above, Place(l.fit, l.x, l.w), Place(l.fit, l.y, l.h)))
  {
    hide PlaceText, ParseOffset, Place;
    var x, y := PlaceText(l.fit, l.x, l.w, "w"), PlaceText(l.fit, l.y, l.h, "h");
    OffsetReads(l.fit, l.x, l.w, "w");
    OffsetReads(l.fit, l.y, l.h, "h");
    PrefixReads("x=", x);
    PrefixReads("y=", y);
    ApplyOne(OverlayChain(l, i).filters[0], [below, above]);
  }

  lemma BaseMeans(width: nat, height: nat, fps: nat)
    ensures ApplyAll(BaseChain(width, height, fps).filters, []) == Some(Black(width, height, fps))
  {
    hide Print, Parse, ParseSize;
    var size := Print(width) + "x" + Print(height);
    SizeReads(width, height);
    ParsePrinted(fps);
    assert "s=" + Print(width) + "x" + Print(height) == "s=" + size;
    PrefixReads("s=", size);
    PrefixReads("r=", Print(fps));
    ApplyOne(BaseChain(width, height, fps).filters[0], []);
  }

  // ---------- labels ----------

  lemma PadReads(i: nat)
    ensures InputPad(Print(i) + ":v") == Some(i)
  {
    PrefixReads(":v", Print(i));
    ValueOfPrinted(i);
  }

  /** Link labels are no input pads, links of layers and of intermediate pictures never clash with one another, and
    * different numbers give different links. */
  lemma LinksAreLinks(i: nat, j: nat)
    ensures InputPad(Label(i)).None? && InputPad("l" + Print(j)).None? && Label(i) != "l" + Print(j)
    ensures Label(i) == Label(j) <==> i == j
    ensures "l" + Print(i) == "l" + Print(j) <==> i == j
  {
    assert Label(i)[0] == (if i == 0 then 'b' else 's') && ("l" + Print(j))[0] == 'l';
    assert Label(j)[0] == if j == 0 then 'b' else 's';
    NoPad(Label(i));
    NoPad("l" + Print(j));
    if i > 0 && j > 0 && Label(i) == Label(j) {
      assert Label(i)[1..] == Print(i - 1) && Label(j)[1..] == Print(j - 1);
      PrintIsInjective(i - 1, j - 1);
    }
    if "l" + Print(i) == "l" + Print(j) {
      assert ("l" + Print(i))[1..] == Print(i) && ("l" + Print(j))[1..] == Print(j);
      PrintIsInjective(i, j);
    }
  }

  lemma NoPad(l: string)
    requires |l| >= 1 && !('0' <= l[0] <= '9')
    ensures InputPad(l).None?
  {
    var n := Before(l, ":v");
    if n.Some? && n.value != "" {
      assert n.value[0] == l[0];
    }
  }

  // ---------- the theorem ----------

  lemma TakeOne(env: Env, l: string, img: Image, rest: Env)
    requires Take(env, l) == Some((img, rest))
    ensures TakeAll(env, [l]) == Some(([img], rest))
  {
    hide Take;
    assert [l][1..] == [];
    assert TakeAll(rest, []) == Some(([], rest));
    assert [img] + [] == [img];
  }

  lemma LayerChainMeans(l: CompLayer, i: nat, below: Image)
    ensures EvalChain(map[Label(i) := below], LayerChain(l, i))
         == Some(map[Label(i) := below, "l" + Print(i) := Opacified(l, Fitted(l, Input(i)))])
  {
    hide ApplyAll, Label, Print, InputPad, Opacified, Fitted;
    LinksAreLinks(i, i);
    LinksAreLinks(i + 1, i);
    PadReads(i);
    LayerMeans(l, i);
    var env, c := map[Label(i) := below], LayerChain(l, i);
    TakeOne(env, Print(i) + ":v", Input(i), env);
  }

  lemma OverlayChainMeans(l: CompLayer, i: nat, below: Image, above: Image)
    ensures EvalChain(map[Label(i) := below, "l" + Print(i) := above], OverlayChain(l, i))
         == Some(map[Label(i + 1) := Overlaid(below, above, Place(l.fit, l.x, l.w), Place(l.fit, l.y, l.h))])
  {
    hide ApplyAll, Label, Print, InputPad, Place;
    LinksAreLinks(i, i);
    LinksAreLinks(i + 1, i);
    OverlayMeans(l, i, below, above);
    var a, b := Label(i), "l" + Print(i);
    var env, c := map[a := below, b := above], OverlayChain(l, i);
    assert c.inputs[1..] == [b];
    assert env - {a} == map[b := above];
    assert map[b := above] - {b} == map[];
    TakeOne(map[b := above], b, above, map[]);
    assert TakeAll(env, c.inputs) == Some(([below] + [above], map[]));
    assert [below] + [above] == [below, above];
  }

  function AndThen(env: Option<Env>, c: Chain): Option<Env> { if env.Some? then EvalChain(env.value, c) else None }

  lemma EvalOneMore(g: seq<Chain>, c: Chain)
    ensures Eval(g + [c]) == AndThen(Eval(g), c)
  {
    hide EvalChain;
    assert (g + [c])[..|g|] == g;
  }

  lemma EvalTwoMore(g: seq<Chain>, c: Chain, d: Chain)
    ensures Eval(g + [c, d]) == AndThen(AndThen(Eval(g), c), d)
  {
    hide Eval, EvalChain;
    EvalOneMore(g, c);
    EvalOneMore(g + [c], d);
    assert g + [c, d] == (g + [c]) + [d];
  }

  /** The compiled chains leave exactly one open link, and it carries the composite. */
  lemma {:induction false} CompiledMeans(layers: seq<CompLayer>, width: nat, height: nat, fps: nat)
    ensures Eval(Compile(layers, width, height, fps))
         == Some(map[Label(|layers|) := Composite(layers, width, height, fps)])
  {
    hide EvalChain, LayerChain, OverlayChain, Opacified, Fitted, Place;
    var n := |layers| - 1;
    if layers == [] {
      BaseEvaluates(width, height, fps);
    } else {
      var l, below := layers[n], Composite(layers[..n], width, height, fps);
      var above := Opacified(l, Fitted(l, Input(n)));
      CompiledMeans(layers[..n], width, height, fps);
      LayerChainMeans(l, n, below);
      OverlayChainMeans(l, n, below, above);
      EvalTwoMore(Compile(layers[..n], width, height, fps), LayerChain(l, n), OverlayChain(l, n));
      assert Compile(layers, width, height, fps) == Compile(layers[..n], width, height, fps)
          + [LayerChain(l, n), OverlayChain(l, n)];
    }
  }

  lemma BaseEvaluates(width: nat, height: nat, fps: nat)
    ensures Eval([BaseChain(width, height, fps)]) == Some(map["base" := Black(width, height, fps)])
  {
    hide ApplyAll;
    var c := BaseChain(width, height, fps);
    BaseMeans(width, height, fps);
    assert [c][..0] == [];
    assert Eval([]) == Some(map[]);
    assert TakeAll(map[], c.inputs) == Some(([], map[]));
  }

  // ---------- well-formed text ----------

  predicate Plain(c: char) { c != '[' && c != ']' && c != ';' && c != ',' && c != ':' }

  predicate AllPlain(s: string) { forall i | 0 <= i < |s| :: Plain(s[i]) }

  lemma LayerChainClean(l: CompLayer, i: nat)
    ensures CleanChain(LayerChain(l, i)) && CleanChain(OverlayChain(l, i))
  {
    hide Print, CleanFilter, FitFilters, FadeFilters, PlaceText;
    FitClean(l);
    FadeClean(l);
    PlaceClean(l.fit, l.x, l.w, "w");
    PlaceClean(l.fit, l.y, l.h, "h");
    assert CleanFilter(Filter("setpts", ["PTS-STARTPTS"])) by {
      OneArgClean("setpts", "PTS-STARTPTS");
    }
    assert CleanFilter(OverlayChain(l, i).filters[0]) by {
      ThreeArgsClean("overlay", "x=" + PlaceText(l.fit, l.x, l.w, "w"), "y=" + PlaceText(l.fit, l.y, l.h, "h"),
          "eof_action=pass");
    }
  }

  lemma OneArgClean(name: string, a: string)
    requires AllPlain(name) && '=' !in name && AllPlain(a)
    ensures CleanFilter(Filter(name, [a]))
  {
  }

  lemma ThreeArgsClean(name: string, a: string, b: string, c: string)
    requires AllPlain(name) && '=' !in name && AllPlain(a) && AllPlain(b) && AllPlain(c)
    ensures CleanFilter(Filter(name, [a, b])) && CleanFilter(Filter(name, [a, b, c]))
  {
  }

  lemma PlaceClean(fit: Fit, p: int, box: nat, dim: string)
    requires AllPlain(dim)
    ensures AllPlain(PlaceText(fit, p, box, dim))
  {
    hide Print;
  }

  lemma FitClean(l: CompLayer)
    ensures forall f | f in FitFilters(l) :: CleanFilter(f)
  {
    hide Print, CleanFilter;
    ThreeArgsClean("scale", Print(l.w), Print(l.h), INCREASE);
    ThreeArgsClean("scale", Print(l.w), Print(l.h), DECREASE);
    ThreeArgsClean("crop", Print(l.w), Print(l.h), "");
  }

  lemma FadeClean(l: CompLayer)
    ensures forall f | f in FadeFilters(l) :: CleanFilter(f)
  {
    hide CleanFilter, FixedPoint;
    FixedPointPlain(l.opacity);
    OneArgClean("format", "yuva420p");
    OneArgClean("colorchannelmixer", "aa=" + FixedPoint(l.opacity));
  }

  lemma FixedPointPlain(r: real)
    ensures AllPlain(FixedPoint(r))
  {
    hide RoundHalfEven, PrintNat, Fixed;
  }

  lemma BaseClean(width: nat, height: nat, fps: nat)
    ensures CleanChain(BaseChain(width, height, fps))
  {
    hide Print, CleanFilter;
    ThreeArgsClean("color", "c=black", "s=" + Print(width) + "x" + Print(height), "r=" + Print(fps));
  }

  lemma {:induction false} CompiledClean(layers: seq<CompLayer>, width: nat, height: nat, fps: nat)
    ensures Compile(layers, width, height, fps) != []
    ensures forall c | c in Compile(layers, width, height, fps) :: CleanChain(c)
  {
    hide CleanChain, LayerChain, OverlayChain;
    var n := |layers| - 1;
    if layers == [] {
      BaseClean(width, height, fps);
    } else {
      CompiledClean(layers[..n], width, height, fps);
      LayerChainClean(layers[n], n);
    }
  }

  /** The emitted text is well formed: split on ';' and parsed it gives the compiled chains back. */
  lemma CompiledTextReadsBack(layers: seq<CompLayer>, width: nat, height: nat, fps: nat)
    ensures ParseGraph(PrintGraph(Compile(layers, width, height, fps))) == Some(Compile(layers, width, height, fps))
    ensures |Split(PrintGraph(Compile(layers, width, height, fps)), ';')| == 1 + 2 * |layers|
  {
    hide CleanChain;
    CompiledClean(layers, width, height, fps);
    GraphReadsBack(Compile(layers, width, height, fps));
    CompiledLength(layers, width, height, fps);
  }

  lemma {:induction false} CompiledLength(layers: seq<CompLayer>, width: nat, height: nat, fps: nat)
    ensures |Compile(layers, width, height, fps)| == 1 + 2 * |layers|
  {
    if layers != [] {
      CompiledLength(layers[..|layers| - 1], width, height, fps);
    }
  }

  /** Compilation preserves meaning: for any layers, the text of the graph means, at the returned label, the layers
    * painted bottom first on black, and every other link it defines has been used exactly once. */
  lemma CompilationPreservesMeaning(layers: seq<CompLayer>, width: nat, height: nat, fps: nat)
    ensures Meaning(PrintGraph(Compile(layers, width, height, fps)), Label(|layers|))
        == Some(Composite(layers, width, height, fps))
  {
    hide ParseGraph, PrintGraph, Eval, Compile, Composite, Label;
    CompiledTextReadsBack(layers, width, height, fps);
    CompiledMeans(layers, width, height, fps);
  }

  // ---------- layers that are not live ----------

  /** Painting every row in z order, a row that was not live when looked up being painted as the identity. */
  function PaintRows(visits: seq<Visit>, width: nat, height: nat, fps: nat): Image {
    if visits == [] then Black(width, height, fps)
    else
      var before, last := visits[..|visits| - 1], visits[|visits| - 1];
      var below := PaintRows(before, width, height, fps);
      if IsLive(last) then Paint(below, LayerOf(last.row), |LiveLayers(before)|) else below
  }

  lemma {:induction false} SkippingIsIdentity(visits: seq<Visit>, width: nat, height: nat, fps: nat)
    ensures Composite(LiveLayers(visits), width, height, fps) == PaintRows(visits, width, height, fps)
  {
    hide Paint;
    if visits != [] {
      var before := visits[..|visits| - 1];
      SkippingIsIdentity(before, width, height, fps);
      var layers := LiveLayers(visits);
      if IsLive(visits[|visits| - 1]) {
        assert layers[..|layers| - 1] == LiveLayers(before);
      } else {
        assert layers == LiveLayers(before);
      }
    }
  }

  /** From stored rows to picture: the text built for the live layers means all rows painted in order, those that are
    * not live as the identity. */
  lemma SceneMeansItsLiveRows(visits: seq<Visit>, width: nat, height: nat, fps: nat)
    ensures var layers := LiveLayers(visits);
            Meaning(PrintGraph(Compile(layers, width, height, fps)), Label(|layers|))
            == Some(PaintRows(visits, width, height, fps))
  {
    SkippingIsIdentity(visits, width, height, fps);
    CompilationPreservesMeaning(LiveLayers(visits), width, height, fps);
  }

  // ---------- each link once ----------

  /** The output label of chain k: the base, then a layer and a picture in turn. */
  function OutputLabel(k: nat): string {
    if k == 0 then "base" else (if k % 2 == 1 then "l" else "s") + Print(LabelNumber(k))
  }

  function LabelNumber(k: nat): nat { if k == 0 then 0 else (k - 1) / 2 }

  lemma StepOutputs(l: CompLayer, n: nat)
    ensures LayerChain(l, n).output == OutputLabel(2 * n + 1) && OverlayChain(l, n).output == OutputLabel(2 * n + 2)
  {
    hide Print;
    assert LabelNumber(2 * n + 1) == n && LabelNumber(2 * n + 2) == n;
  }

  lemma {:induction false} CompiledOutputs(layers: seq<CompLayer>, width: nat, height: nat, fps: nat)
    ensures var g := Compile(layers, width, height, fps);
            |g| == 1 + 2 * |layers| && forall k | 0 <= k < |g| :: g[k].output == OutputLabel(k)
  {
    hide OutputLabel, LayerChain, OverlayChain;
    var n := |layers| - 1;
    if layers == [] {
      assert OutputLabel(0) == "base" by {
        BaseOutput();
      }
    } else {
      CompiledOutputs(layers[..n], width, height, fps);
      StepOutputs(layers[n], n);
      var h := Compile(layers[..n], width, height, fps);
      assert |h| == 2 * n + 1;
    }
  }

  lemma BaseOutput()
    ensures OutputLabel(0) == "base"
  {
  }

  lemma OutputLabelShape(k: nat)
    ensures OutputLabel(k) != "" && OutputLabel(k)[0] == (if k == 0 then 'b' else if k % 2 == 1 then 'l' else 's')
    ensures k > 0 ==> OutputLabel(k)[1..] == Print(LabelNumber(k))
  {
  }

  lemma OutputLabelsDiffer(j: nat, k: nat)
    requires OutputLabel(j) == OutputLabel(k)
    ensures j == k
  {
    hide OutputLabel, Print;
    OutputLabelShape(j);
    OutputLabelShape(k);
    if j > 0 {
      PrintIsInjective(LabelNumber(j), LabelNumber(k));
    }
  }

  /** No two chains of a compiled graph define the same link; with CompiledMeans, each is defined and used once. */
  lemma EachLinkDefinedOnce(layers: seq<CompLayer>, width: nat, height: nat, fps: nat)
    ensures var g := Compile(layers, width, height, fps); forall j, k | 0 <= j < k < |g| :: g[j].output != g[k].output
  {
    hide Compile, OutputLabel;
    var g := Compile(layers, width, height, fps);
    CompiledOutputs(layers, width, height, fps);
    forall j, k | 0 <= j < k < |g| ensures g[j].output != g[k].output {
      if g[j].output == g[k].output {
        OutputLabelsDiffer(j, k);
      }
    }
  }
}
