/** The circuit text format written back out: a reference renderer for the format that
    `load_from_reader` reads, and the proof that loading what it writes gives the circuit back.

    The text is the depth on the first line, then one line per layer: the gate count, then
    type code, id, `u` and `v` of each gate in order, every token followed by one space. */
module CircuitText {
  import opened Wrappers
  import opened Ints
  import opened Text
  import opened Gates
  import opened Parse
  import ParseFacts

  /** The tokens, each followed by one space. */
  function Spaced(ts: seq<string>): string
    decreases |ts|
  {
    if ts == [] then "" else ts[0] + " " + Spaced(ts[1..])
  }

  /** Integer `j` of the gate block of a layer: type code, id, `u`, `v` of gate `j / 4`. */
  function GateInt(gates: seq<Gate>, j: nat): nat
    requires j < 4 * |gates|
  {
    var i := j / 4;
    var g := gates[i];
    if j % 4 == 0 then Code(g.ty)
    else if j % 4 == 1 then i
    else if j % 4 == 2 then g.u
    else g.v
  }

  /** The `4n` integers of a layer of `n` gates. */
  function GateInts(gates: seq<Gate>): (ints: seq<nat>)
    ensures |ints| == 4 * |gates|
  {
    seq(4 * |gates|, j requires 0 <= j < 4 * |gates| => GateInt(gates, j))
  }

  function LayerTokens(l: Layer): seq<string> {
    var ints := GateInts(l.gates);
    [Decimal(|l.gates|)] + seq(|ints|, j requires 0 <= j < |ints| => Decimal(ints[j]))
  }

  function LayerLine(l: Layer): string {
    Spaced(LayerTokens(l)) + "\n"
  }

  /** The lines of the text of `c`, as successive `read_line` calls return them. */
  function Render(c: Circuit): seq<string> {
    [Decimal(|c.layers|) + "\n"] + seq(|c.layers|, k requires 0 <= k < |c.layers| => LayerLine(c.layers[k]))
  }

  /** What a circuit needs for its text to load back: fewer than `2^USIZE_BITS` layers, each
      with the shape the parser gives a layer. */
  predicate Renderable(c: Circuit) {
    |c.layers| < USIZE_LIMIT && forall k :: 0 <= k < |c.layers| ==> ParsedLayer(c.layers[k])
  }

  // ---------------------------------------------------------------------------
  // The round trip
  // ---------------------------------------------------------------------------

  /** Loading the text of a renderable circuit gives the circuit back. */
  lemma LoadRender(c: Circuit)
    requires Renderable(c)
    ensures Load(Render(c)) == Ok(c)
  {
    var lines := Render(c);
    RenderedDepth(c);
    forall j | 0 <= j < |c.layers|
      ensures LoadLayer(lines, j + 1, j) == Ok((c.layers[j], j + 2))
    {
      RenderedLayerLoads(c, j);
    }
    LoadSuccessiveLayers(lines, c.layers, 0);
    WholeSuffix(c.layers);
    LoadOf(lines, c);
  }

  /** `load_from_reader` on a depth line and the layers after it. */
  lemma LoadOf(lines: seq<string>, c: Circuit)
    requires ParseUsize(Trim(ReadLine(lines, 0).0)) == Ok(|c.layers|)
    requires LoadLayers(lines, ReadLine(lines, 0).1, 0, |c.layers|) == Ok(c.layers)
    ensures Load(lines) == Ok(c)
  {
  }

  lemma WholeSuffix(ls: seq<Layer>)
    ensures ls[0..] == ls
  {
  }

  /** Line `j + 1` of the text loads back to layer `j`, and the reader moves to line `j + 2`. */
  lemma RenderedLayerLoads(c: Circuit, j: nat)
    requires Renderable(c) && j < |c.layers|
    ensures LoadLayer(Render(c), j + 1, j) == Ok((c.layers[j], j + 2))
  {
    assert Render(c)[j + 1] == LayerLine(c.layers[j]);
    LoadRenderedLayer(Render(c), j + 1, j, c.layers[j]);
  }

  /** The first line of the text holds the depth, which parses back. */
  lemma RenderedDepth(c: Circuit)
    requires |c.layers| < USIZE_LIMIT
    ensures ReadLine(Render(c), 0) == (Decimal(|c.layers|) + "\n", 1)
    ensures ParseUsize(Trim(ReadLine(Render(c), 0).0)) == Ok(|c.layers|)
  {
    TrimDecimalLine(|c.layers|);
    ParseUsizeDecimal(|c.layers|);
  }

  /** Every circuit the parser produces is renderable, so its text loads back to it: the text
      of `Render` is a normal form of the inputs that load. */
  lemma LoadedRenders(lines: seq<string>)
    requires Load(lines).Ok?
    ensures Renderable(Load(lines).value)
    ensures Load(Render(Load(lines).value)) == Load(lines)
  {
    LoadRender(Load(lines).value);
  }

  /** When line `j + 1` holds layer `j` for each `j` from `k` on, the layer loop run from line
      `k + 1` loads exactly those layers. */
  lemma {:induction false} LoadSuccessiveLayers(lines: seq<string>, ls: seq<Layer>, k: nat)
    requires k <= |ls|
    requires forall j :: k <= j < |ls| ==> LoadLayer(lines, j + 1, j) == Ok((ls[j], j + 2))
    ensures LoadLayers(lines, k + 1, k, |ls|) == Ok(ls[k..])
    decreases |ls| - k
  {
    if k < |ls| {
      LoadLayersOk(lines, k + 1, k, |ls|, ls[k], k + 2);
      LoadSuccessiveLayers(lines, ls, k + 1);
      PrependAt(ls, k);
    } else {
      assert ls[k..] == [];
    }
  }

  lemma PrependAt(ls: seq<Layer>, k: nat)
    requires k < |ls|
    ensures Prepend([ls[k]], Ok(ls[k + 1..])) == Ok(ls[k..])
  {
    assert ls[k..] == [ls[k]] + ls[k + 1..];
  }

  /** A layer's line loads back to the layer, and the reader moves past that one line. */
  lemma LoadRenderedLayer(lines: seq<string>, pos: nat, layer: nat, l: Layer)
    requires ParsedLayer(l) && pos < |lines| && lines[pos] == LayerLine(l)
    ensures LoadLayer(lines, pos, layer) == Ok((l, pos + 1))
  {
    var n := |l.gates|;
    var ints := GateInts(l.gates);
    var ts := LayerTokens(l);
    DecimalsAreTokens(ts);
    SplitSpaced(ts);
    assert SplitWhitespace(ReadLine(lines, pos).0) == ts;
    ParseUsizeDecimal(n);
    assert ts[1..] == seq(|ints|, j requires 0 <= j < |ints| => Decimal(ints[j]));
    var xs := ParseDecimals(l.gates);
    assert Gather(lines, pos + 1, 4 * n, xs) == Ok((xs, pos + 1));
    DecodeRendered(xs, layer, l.gates);
    assert Layer(l.gates, BitLength(n)) == l;
  }

  /** The tokens of a layer's gate block parse to its integers. */
  lemma ParseDecimals(gates: seq<Gate>) returns (xs: seq<I64>)
    requires |gates| < USIZE_LIMIT
    ensures |xs| == 4 * |gates| && forall j :: 0 <= j < |xs| ==> xs[j] == GateInts(gates)[j]
    ensures var ints := GateInts(gates);
      ParseInts(seq(|ints|, j requires 0 <= j < |ints| => Decimal(ints[j]))) == Ok(xs)
  {
    var ints := GateInts(gates);
    var ts := seq(|ints|, j requires 0 <= j < |ints| => Decimal(ints[j]));
    Pow2Limits();
    forall j | 0 <= j < |ints|
      ensures ParseI64(ts[j]) == Ok(ints[j])
    {
      GateIntBound(gates, j);
      ParseI64Decimal(ints[j]);
    }
    ParseIntsCases(ts);
    xs := ParseInts(ts).value;
  }

  lemma GateIntBound(gates: seq<Gate>, j: nat)
    requires |gates| < USIZE_LIMIT && j < 4 * |gates|
    ensures GateInt(gates, j) < USIZE_LIMIT && GateInt(gates, j) <= I64_MAX
  {
    assert j / 4 < |gates|;
  }

  /** The gate block decodes to the gates it was written from. */
  lemma DecodeRendered(xs: seq<I64>, layer: nat, gates: seq<Gate>)
    requires |gates| < USIZE_LIMIT
    requires |xs| == 4 * |gates| && forall j :: 0 <= j < |xs| ==> xs[j] == GateInts(gates)[j]
    ensures DecodeGates(xs, layer, 0) == Ok(gates)
  {
    forall i | 0 <= i < |gates|
      ensures DecodeGate(xs, layer, i) == Ok(gates[i])
    {
      DecodeRenderedGate(xs, layer, gates, i);
    }
    Quarter(|gates|, 0);
    ParseFacts.DecodeGatesCases(xs, layer, 0);
    var r := DecodeGates(xs, layer, 0);
    assert r.Ok?;
    assert forall i :: 0 <= i < |gates| ==> r.value[i] == gates[i];
    assert r.value == gates;
  }

  lemma DecodeRenderedGate(xs: seq<I64>, layer: nat, gates: seq<Gate>, i: nat)
    requires |gates| < USIZE_LIMIT && i < |gates|
    requires |xs| == 4 * |gates| && forall j :: 0 <= j < |xs| ==> xs[j] == GateInts(gates)[j]
    ensures DecodeGate(xs, layer, i) == Ok(gates[i])
  {
    GateIntsAt(gates, i);
    assert xs[4 * i] == Code(gates[i].ty) && xs[4 * i + 1] == i;
    assert xs[4 * i + 2] == gates[i].u && xs[4 * i + 3] == gates[i].v;
    ParseFacts.DecodeGateCases(xs, layer, i);
  }

  lemma GateIntsAt(gates: seq<Gate>, i: nat)
    requires i < |gates|
    ensures GateInts(gates)[4 * i] == Code(gates[i].ty)
    ensures GateInts(gates)[4 * i + 1] == i
    ensures GateInts(gates)[4 * i + 2] == gates[i].u
    ensures GateInts(gates)[4 * i + 3] == gates[i].v
  {
    Quarter(i, 0);
    Quarter(i, 1);
    Quarter(i, 2);
    Quarter(i, 3);
  }

  lemma Quarter(i: nat, r: nat)
    requires r < 4
    ensures (4 * i + r) / 4 == i && (4 * i + r) % 4 == r
  {
  }

  // ---------------------------------------------------------------------------
  // Splitting and trimming rendered text
  // ---------------------------------------------------------------------------

  lemma DecimalsAreTokens(ts: seq<string>)
    requires forall i :: 0 <= i < |ts| ==> |ts[i]| >= 1 && forall j :: 0 <= j < |ts[i]| ==> IsDigit(ts[i][j])
    ensures forall i :: 0 <= i < |ts| ==> IsToken(ts[i])
  {
  }

  /** `split_whitespace` takes the spaced tokens apart again. */
  lemma {:induction false} SplitSpaced(ts: seq<string>)
    requires forall i :: 0 <= i < |ts| ==> IsToken(ts[i])
    ensures SplitWhitespace(Spaced(ts) + "\n") == ts
    decreases |ts|
  {
    if ts == [] {
      assert Spaced(ts) + "\n" == "\n";
      assert SplitWhitespace("\n") == SplitWhitespace("");
    } else {
      var rest := Spaced(ts[1..]) + "\n";
      var u := " " + rest;
      assert Spaced(ts) + "\n" == ts[0] + u;
      SplitAfterToken(ts[0], u);
      assert u[1..] == rest;
      SplitSpaced(ts[1..]);
      assert [ts[0]] + ts[1..] == ts;
    }
  }

  /** A token followed by whitespace is split off as the first token. */
  lemma SplitAfterToken(t: string, u: string)
    requires IsToken(t) && u != [] && IsWhitespace(u[0])
    ensures SplitWhitespace(t + u) == [t] + SplitWhitespace(u[1..])
  {
    var s := t + u;
    TokenLengthOf(t, u);
    assert s[..|t|] == t;
    assert s[|t|..] == u;
  }

  /** A token followed by whitespace is one run. */
  lemma {:induction false} TokenLengthOf(t: string, rest: string)
    requires IsToken(t) && rest != [] && IsWhitespace(rest[0])
    ensures TokenLength(t + rest) == |t|
    decreases |t|
  {
    if |t| > 1 {
      assert (t + rest)[1..] == t[1..] + rest;
      TokenLengthOf(t[1..], rest);
    } else {
      assert (t + rest)[1..] == rest;
    }
  }

  /** The depth line trims to the depth's digits. */
  lemma TrimDecimalLine(d: nat)
    ensures Trim(Decimal(d) + "\n") == Decimal(d)
  {
    var s := Decimal(d) + "\n";
    assert TrimStart(s) == s;
    assert s[..|s| - 1] == Decimal(d);
    assert TrimEnd(s) == TrimEnd(Decimal(d));
  }
}
