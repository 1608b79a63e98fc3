/** The compositor's ffmpeg command line as far as the graph depends on it: one input per layer, in order, and the
  * silent audio after them. */
module CompositorArguments {
  import opened Wrappers
  import opened Decimal
  import opened Splitting
  import opened GraphText
  import opened SceneCompositor
  import opened GraphMeaning

  const SILENCE := "anullsrc=r=48000:cl=stereo"

  function Url(port: nat): string { "tcp://127.0.0.1:" + Print(port) }

  function LayerInput(port: nat): seq<string> {
    ["-analyzeduration", "500000", "-probesize", "500000", "-f", "flv", "-i", Url(port)]
  }

  function LayerInputs(ports: seq<nat>): seq<string> {
    if ports == [] then [] else LayerInputs(ports[..|ports| - 1]) + LayerInput(ports[|ports| - 1])
  }

  function InputSection(ports: seq<nat>): seq<string> { LayerInputs(ports) + ["-f", "lavfi", "-i", SILENCE] }

  const BANNER := ["-hide_banner", "-loglevel", "warning"]

  function GraphSection(layers: seq<CompLayer>, width: nat, height: nat, fps: nat): seq<string> {
    ["-filter_complex", PrintGraph(Compile(layers, width, height, fps)),
     "-map", "[" + Label(|layers|) + "]", "-map", Print(|layers|) + ":a"]
  }

  /** The command line up to the two maps. */
  function Arguments(layers: seq<CompLayer>, ports: seq<nat>, width: nat, height: nat, fps: nat): seq<string> {
    BANNER + InputSection(ports) + GraphSection(layers, width, height, fps)
  }

  method BuildArguments(layers: seq<CompLayer>, ports: seq<nat>, width: nat, height: nat, fps: nat)
    returns (args: seq<string>)
    requires |ports| == |layers|
    ensures args == Arguments(layers, ports, width, height, fps)
  {
    hide Url, PrintGraph, Compile, Label, Print;
    args := ["-hide_banner", "-loglevel", "warning"];
    ghost var head := args;
    for i := 0 to |ports|
      invariant args == head + LayerInputs(ports[..i])
    {
      assert ports[..i + 1][..i] == ports[..i];
      args := args + ["-analyzeduration", "500000", "-probesize", "500000"];
      args := args + ["-f", "flv", "-i", Url(ports[i])];
    }
    assert ports[..|ports|] == ports;
    args := args + ["-f", "lavfi", "-i", SILENCE];
    assert args == head + InputSection(ports);
    var filter, finalLabel := BuildFilterGraph(layers, width, height, fps);
    var audioIdx := |layers|;
    args := args + ["-filter_complex", filter, "-map", "[" + finalLabel + "]", "-map", Print(audioIdx) + ":a"];
  }

  /** The inputs in ffmpeg's numbering: what follows each -i. */
  function InputsOf(args: seq<string>): seq<string>
    decreases |args|
  {
    if |args| < 2 then []
    else if args[0] == "-i" then [args[1]] + InputsOf(args[2..])
    else InputsOf(args[1..])
  }

  lemma {:induction false} SkipOptions(options: seq<string>, rest: seq<string>)
    requires forall k | 0 <= k < |options| :: options[k] != "-i"
    requires |rest| >= 2
    ensures InputsOf(options + rest) == InputsOf(rest)
  {
    if options == [] {
      assert options + rest == rest;
    } else {
      assert (options + rest)[1..] == options[1..] + rest;
      SkipOptions(options[1..], rest);
    }
  }

  lemma OneInput(options: seq<string>, file: string, rest: seq<string>)
    requires forall k | 0 <= k < |options| :: options[k] != "-i"
    ensures InputsOf(options + (["-i", file] + rest)) == [file] + InputsOf(rest)
  {
    SkipOptions(options, ["-i", file] + rest);
    assert (["-i", file] + rest)[2..] == rest;
  }

  lemma {:induction false} LayerInputsInOrder(ports: seq<nat>, rest: seq<string>)
    ensures var inputs := InputsOf(LayerInputs(ports) + rest);
            && |inputs| == |ports| + |InputsOf(rest)|
            && (forall i | 0 <= i < |ports| :: inputs[i] == Url(ports[i]))
            && inputs[|ports|..] == InputsOf(rest)
  {
    hide InputsOf, Url;
    if ports == [] {
      assert LayerInputs(ports) + rest == rest;
    } else {
      var init, port := ports[..|ports| - 1], ports[|ports| - 1];
      var options := ["-analyzeduration", "500000", "-probesize", "500000", "-f", "flv"];
      assert LayerInputs(ports) + rest == LayerInputs(init) + (options + (["-i", Url(port)] + rest));
      OneInput(options, Url(port), rest);
      LayerInputsInOrder(init, options + (["-i", Url(port)] + rest));
    }
  }

  /** The file number of the audio a -map argument selects. */
  function AudioPad(l: string): Option<nat> {
    match Before(l, ":a")
    case Some(n) => ParseNat(n)
    case None => None
  }

  /** What follows each -map. */
  function MapsOf(args: seq<string>): seq<string>
    decreases |args|
  {
    if |args| < 2 then []
    else if args[0] == "-map" then [args[1]] + MapsOf(args[2..])
    else MapsOf(args[1..])
  }

  lemma {:induction false} EndsInBracket(parts: seq<string>)
    requires parts != [] && forall p | p in parts :: p != "" && p[|p| - 1] == ']'
    ensures Join(parts, ';') != "" && Join(parts, ';')[|Join(parts, ';')| - 1] == ']'
  {
    if |parts| > 1 {
      EndsInBracket(parts[1..]);
    }
  }

  /** No argument of the graph section can be taken for an input option. */
  lemma NoInputsInGraph(layers: seq<CompLayer>, width: nat, height: nat, fps: nat)
    ensures var s := GraphSection(layers, width, height, fps);
            (forall k | 0 <= k < |s| :: s[k] != "-i") && s[1] != "-map"
    ensures InputsOf(GraphSection(layers, width, height, fps)) == []
  {
    hide Print, Compile, Label, PrintChain, InputsOf;
    var g := Compile(layers, width, height, fps);
    CompiledLength(layers, width, height, fps);
    forall p | p in PrintChains(g) ensures p != "" && p[|p| - 1] == ']' {
      var i :| 0 <= i < |g| && PrintChains(g)[i] == p;
      ChainEndsInBracket(g[i]);
    }
    EndsInBracket(PrintChains(g));
    assert (Print(|layers|) + ":a")[|Print(|layers|)| + 1] == 'a';
    assert ("[" + Label(|layers|) + "]")[0] == '[';
    var s := GraphSection(layers, width, height, fps);
    NoInputOption(s);
  }

  lemma ChainEndsInBracket(c: Chain)
    ensures PrintChain(c) != "" && PrintChain(c)[|PrintChain(c)| - 1] == ']'
  {
  }

  lemma {:induction false} NoInputOption(args: seq<string>)
    requires forall k | 0 <= k < |args| :: args[k] != "-i"
    ensures InputsOf(args) == []
    decreases |args|
  {
    if |args| >= 2 {
      NoInputOption(args[1..]);
    }
  }

  /** Of the whole command line: input i is layer i's port, and the label of layer i's chain names input i; the last
    * input is the silent one, and it is the one whose audio the second map selects. The first map selects the
    * graph's result. */
  lemma ArgumentsMatchGraph(layers: seq<CompLayer>, ports: seq<nat>, width: nat, height: nat, fps: nat)
    requires |ports| == |layers|
    ensures var args := Arguments(layers, ports, width, height, fps);
            var inputs := InputsOf(args);
            && |inputs| == |layers| + 1
            && (forall i | 0 <= i < |layers| ::
                  inputs[i] == Url(ports[i]) && InputPad(LayerChain(layers[i], i).inputs[0]) == Some(i))
            && inputs[|layers|] == SILENCE
            && |MapsOf(args)| == 2 && MapsOf(args)[0] == "[" + Label(|layers|) + "]"
            && AudioPad(MapsOf(args)[1]) == Some(|layers|)
  {
    hide InputsOf, InputPad, MapsOf, GraphSection, LayerInputs, Url, AudioPad;
    InputsMatchGraph(layers, ports, width, height, fps);
    MapsMatchGraph(layers, ports, width, height, fps);
    forall i | 0 <= i < |layers| ensures InputPad(LayerChain(layers[i], i).inputs[0]) == Some(i) {
      LayerReadsInput(layers[i], i);
    }
  }

  lemma LayerReadsInput(l: CompLayer, i: nat)
    ensures InputPad(LayerChain(l, i).inputs[0]) == Some(i)
  {
    hide InputPad;
    PadReads(i);
  }

  lemma InputsMatchGraph(layers: seq<CompLayer>, ports: seq<nat>, width: nat, height: nat, fps: nat)
    requires |ports| == |layers|
    ensures var inputs := InputsOf(Arguments(layers, ports, width, height, fps));
            && |inputs| == |layers| + 1 && inputs[|layers|] == SILENCE
            && forall i | 0 <= i < |layers| :: inputs[i] == Url(ports[i])
  {
    hide InputsOf, GraphSection, LayerInputs, Url;
    var graph := GraphSection(layers, width, height, fps);
    var rest := ["-f", "lavfi"] + (["-i", SILENCE] + graph);
    var args := Arguments(layers, ports, width, height, fps);
    assert args == BANNER + (LayerInputs(ports) + rest);
    SkipOptions(BANNER, LayerInputs(ports) + rest);
    LayerInputsInOrder(ports, rest);
    OneInput(["-f", "lavfi"], SILENCE, graph);
    NoInputsInGraph(layers, width, height, fps);
  }

  // ---------- the maps ----------

  lemma {:induction false} SkipToMaps(options: seq<string>, rest: seq<string>)
    requires forall k | 0 <= k < |options| :: options[k] != "-map"
    requires |rest| >= 2
    ensures MapsOf(options + rest) == MapsOf(rest)
  {
    if options == [] {
      assert options + rest == rest;
    } else {
      assert (options + rest)[1..] == options[1..] + rest;
      SkipToMaps(options[1..], rest);
    }
  }

  lemma {:induction false} NoMapsInInputs(ports: seq<nat>)
    ensures forall k | 0 <= k < |LayerInputs(ports)| :: LayerInputs(ports)[k] != "-map"
  {
    if ports != [] {
      NoMapsInInputs(ports[..|ports| - 1]);
      assert Url(ports[|ports| - 1])[0] == 't';
    }
  }

  lemma TwoMaps(a: string, b: string)
    ensures MapsOf(["-map", a, "-map", b]) == [a, b]
  {
    assert ["-map", a, "-map", b][2..] == ["-map", b] && ["-map", b][2..] == [];
    assert MapsOf([]) == [];
    assert MapsOf(["-map", b]) == [b];
  }

  lemma AudioMapReads(n: nat)
    ensures AudioPad(Print(n) + ":a") == Some(n)
  {
    PrefixReads(":a", Print(n));
    ValueOfPrinted(n);
  }

  lemma MapsMatchGraph(layers: seq<CompLayer>, ports: seq<nat>, width: nat, height: nat, fps: nat)
    ensures var maps := MapsOf(Arguments(layers, ports, width, height, fps));
            |maps| == 2 && maps[0] == "[" + Label(|layers|) + "]" && AudioPad(maps[1]) == Some(|layers|)
  {
    hide MapsOf, LayerInputs, AudioPad, PrintGraph, Compile, Label, Print, InputsOf;
    var graph := GraphSection(layers, width, height, fps);
    NoInputsInGraph(layers, width, height, fps);
    NoMapsInInputs(ports);
    var options := BANNER + InputSection(ports) + [graph[0], graph[1]];
    var maps := ["-map", "[" + Label(|layers|) + "]", "-map", Print(|layers|) + ":a"];
    assert Arguments(layers, ports, width, height, fps) == options + maps;
    SkipToMaps(options, maps);
    TwoMaps("[" + Label(|layers|) + "]", Print(|layers|) + ":a");
    AudioMapReads(|layers|);
  }
}
