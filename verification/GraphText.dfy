/** The text form of an ffmpeg filter graph: chains separated by ';', each with bracketed input labels, filters
  * separated by ',', and a bracketed output label; a filter is a name and ':'-separated arguments. */
module GraphText {
  import opened Wrappers
  import opened Splitting

  datatype Filter = Filter(name: string, args: seq<string>)

  datatype Chain = Chain(inputs: seq<string>, filters: seq<Filter>, output: string)

  // ---------- printing ----------

  function PrintFilter(f: Filter): string { f.name + "=" + Join(f.args, ':') }

  function PrintFilters(fs: seq<Filter>): (r: seq<string>)
    ensures |r| == |fs| && forall i | 0 <= i < |fs| :: r[i] == PrintFilter(fs[i])
  {
    seq(|fs|, i requires 0 <= i < |fs| => PrintFilter(fs[i]))
  }

  function PrintLabels(labels: seq<string>): string {
    if labels == [] then "" else "[" + labels[0] + "]" + PrintLabels(labels[1..])
  }

  function PrintChain(c: Chain): string {
    PrintLabels(c.inputs) + Join(PrintFilters(c.filters), ',') + "[" + c.output + "]"
  }

  function PrintChains(g: seq<Chain>): (r: seq<string>)
    ensures |r| == |g| && forall i | 0 <= i < |g| :: r[i] == PrintChain(g[i])
  {
    seq(|g|, i requires 0 <= i < |g| => PrintChain(g[i]))
  }

  function PrintGraph(g: seq<Chain>): string { Join(PrintChains(g), ';') }

  // ---------- parsing ----------

  function ParseFilter(s: string): Filter {
    var n := IndexOf(s, '=');
    if n == |s| then Filter(s, []) else Filter(s[..n], Split(s[n + 1..], ':'))
  }

  function ParseFilters(parts: seq<string>): (fs: seq<Filter>)
    ensures |fs| == |parts| && forall i | 0 <= i < |parts| :: fs[i] == ParseFilter(parts[i])
  {
    seq(|parts|, i requires 0 <= i < |parts| => ParseFilter(parts[i]))
  }

  /** The bracketed labels at the front, and what follows them. */
  function ParseLabels(s: string): (seq<string>, string)
    decreases |s|
  {
    if s == [] || s[0] != '[' || IndexOf(s[1..], ']') == |s| - 1 then ([], s)
    else
      var n := IndexOf(s[1..], ']');
      var (labels, rest) := ParseLabels(s[n + 2..]);
      ([s[1..n + 1]] + labels, rest)
  }

  function ParseChain(s: string): Option<Chain> {
    var (inputs, rest) := ParseLabels(s);
    var n := IndexOf(rest, '[');
    var (outputs, tail) := ParseLabels(rest[n..]);
    if |outputs| == 1 && tail == "" then Some(Chain(inputs, ParseFilters(Split(rest[..n], ',')), outputs[0])) else None
  }

  function ParseChains(parts: seq<string>): Option<seq<Chain>> {
    if parts == [] then Some([])
    else
      var first, rest := ParseChain(parts[0]), ParseChains(parts[1..]);
      if first.Some? && rest.Some? then Some([first.value] + rest.value) else None
  }

  function ParseGraph(s: string): Option<seq<Chain>> { ParseChains(Split(s, ';')) }

  // ---------- the round trip ----------

  predicate CleanLabel(s: string) { '[' !in s && ']' !in s && ';' !in s }

  predicate CleanArg(s: string) { CleanLabel(s) && ',' !in s && ':' !in s }

  predicate CleanFilter(f: Filter) {
    && f.args != [] && CleanArg(f.name) && '=' !in f.name
    && forall a | a in f.args :: CleanArg(a)
  }

  predicate CleanChain(c: Chain) {
    && c.filters != [] && CleanLabel(c.output)
    && (forall l | l in c.inputs :: CleanLabel(l))
    && (forall f | f in c.filters :: CleanFilter(f))
  }

  lemma FilterReadsBack(f: Filter)
    requires CleanFilter(f)
    ensures ParseFilter(PrintFilter(f)) == f
    ensures ',' !in PrintFilter(f) && CleanLabel(PrintFilter(f))
  {
    var args := Join(f.args, ':');
    IndexOfAfter(f.name, '=', args);
    assert PrintFilter(f)[..|f.name|] == f.name && PrintFilter(f)[|f.name| + 1..] == args;
    SplitJoined(f.args, ':');
    CharsOfJoin(f.args, ':', ',');
    CharsOfJoin(f.args, ':', '[');
    CharsOfJoin(f.args, ':', ']');
    CharsOfJoin(f.args, ':', ';');
  }

  lemma FiltersReadBack(fs: seq<Filter>)
    requires fs != [] && forall f | f in fs :: CleanFilter(f)
    ensures ParseFilters(Split(Join(PrintFilters(fs), ','), ',')) == fs
    ensures CleanLabel(Join(PrintFilters(fs), ','))
    ensures Join(PrintFilters(fs), ',') != ""
  {
    var parts := PrintFilters(fs);
    forall p | p in parts ensures ',' !in p && CleanLabel(p) {
      var i :| 0 <= i < |parts| && parts[i] == p;
      FilterReadsBack(fs[i]);
    }
    SplitJoined(parts, ',');
    CharsOfJoin(parts, ',', '[');
    CharsOfJoin(parts, ',', ']');
    CharsOfJoin(parts, ',', ';');
    forall i | 0 <= i < |fs| ensures ParseFilter(parts[i]) == fs[i] {
      FilterReadsBack(fs[i]);
    }
    assert parts[0] == PrintFilter(fs[0]) != "";
  }

  lemma FirstLabel(l: string, more: string)
    requires ']' !in l
    ensures var s := "[" + l + "]" + more;
            && s != "" && s[0] == '[' && IndexOf(s[1..], ']') == |l| < |s| - 1
            && s[1..|l| + 1] == l && s[|l| + 2..] == more
  {
    var s := "[" + l + "]" + more;
    assert s[1..] == l + [']'] + more;
    IndexOfAfter(l, ']', more);
  }

  lemma {:induction false} LabelsReadBack(labels: seq<string>, rest: string)
    requires (forall l | l in labels :: CleanLabel(l)) && (rest == "" || rest[0] != '[')
    ensures ParseLabels(PrintLabels(labels) + rest) == (labels, rest)
  {
    hide IndexOf;
    if labels == [] {
      assert PrintLabels(labels) + rest == rest;
    } else {
      var l, more := labels[0], PrintLabels(labels[1..]) + rest;
      assert l in labels;
      assert PrintLabels(labels) + rest == "[" + l + "]" + more;
      FirstLabel(l, more);
      LabelsReadBack(labels[1..], rest);
      assert [l] + labels[1..] == labels;
    }
  }

  lemma SingleLabel(l: string)
    ensures PrintLabels([l]) == "[" + l + "]"
  {
    assert [l][1..] == [];
    assert PrintLabels([]) == "";
  }

  lemma {:induction false} CharsOfLabels(labels: seq<string>)
    requires forall l | l in labels :: CleanLabel(l)
    ensures ';' !in PrintLabels(labels)
  {
    if labels != [] {
      assert labels[0] in labels;
      CharsOfLabels(labels[1..]);
    }
  }

  lemma ChainReadsBack(c: Chain)
    requires CleanChain(c)
    ensures ParseChain(PrintChain(c)) == Some(c)
    ensures ';' !in PrintChain(c)
  {
    hide Join, Split, ParseLabels, IndexOf;
    var body, out := Join(PrintFilters(c.filters), ','), PrintLabels([c.output]);
    SingleLabel(c.output);
    FiltersReadBack(c.filters);
    assert PrintChain(c) == PrintLabels(c.inputs) + (body + out);
    assert body[0] in body;
    LabelsReadBack(c.inputs, body + out);
    assert body + out == body + ['['] + (c.output + "]");
    IndexOfAfter(body, '[', c.output + "]");
    assert (body + out)[..|body|] == body && (body + out)[|body|..] == out + "";
    LabelsReadBack([c.output], "");
    CharsOfLabels(c.inputs);
  }

  lemma {:induction false} ChainsReadBack(g: seq<Chain>)
    requires forall c | c in g :: CleanChain(c)
    ensures ParseChains(PrintChains(g)) == Some(g)
  {
    hide PrintChain, ParseChain, CleanChain;
    if g != [] {
      assert g[0] in g;
      ChainReadsBack(g[0]);
      ChainsReadBack(g[1..]);
      assert PrintChains(g)[1..] == PrintChains(g[1..]);
      assert [g[0]] + g[1..] == g;
    }
  }

  /** Splitting the printed graph on ';' and parsing the pieces gives the chains back. */
  lemma GraphReadsBack(g: seq<Chain>)
    requires g != [] && forall c | c in g :: CleanChain(c)
    ensures Split(PrintGraph(g), ';') == PrintChains(g)
    ensures ParseGraph(PrintGraph(g)) == Some(g)
  {
    forall p | p in PrintChains(g) ensures ';' !in p {
      var i :| 0 <= i < |g| && PrintChains(g)[i] == p;
      ChainReadsBack(g[i]);
    }
    SplitJoined(PrintChains(g), ';');
    ChainsReadBack(g);
  }
}
