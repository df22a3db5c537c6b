/** Properties of `load_from_reader` (circuit/src/parse.rs), stated about its specification `Parse.Load`. */
module ParseFacts {
  import opened Wrappers
  import opened Ints
  import opened Text
  import opened Gates
  import opened Parse

  // ---------------------------------------------------------------------------
  // Depth line
  // ---------------------------------------------------------------------------

  /** The whole first line, trimmed, must parse as a `usize`, which is the number of layers;
      otherwise loading fails with "invalid depth". */
  lemma DepthLine(lines: seq<string>)
    ensures Load(lines).Ok? ==> ParseUsize(Trim(ReadLine(lines, 0).0)) == Ok(|Load(lines).value.layers|)
    ensures ParseUsize(Trim(ReadLine(lines, 0).0)).Err? ==>
      Load(lines) == Err(Parse("invalid depth: " + ParseUsize(Trim(ReadLine(lines, 0).0)).error.Message()))
  {
  }

  // ---------------------------------------------------------------------------
  // Header line of a layer
  // ---------------------------------------------------------------------------

  /** A layer header without tokens (a blank line, or end of input) is "missing gate count";
      a first token that is not a `usize` is "invalid gate count"; a count `n` whose `4 * n`
      overflows `usize` panics before any integer is read. */
  lemma HeaderErrors(lines: seq<string>, pos: nat, layer: nat)
    ensures SplitWhitespace(ReadLine(lines, pos).0) == [] ==>
      LoadLayer(lines, pos, layer) == Err(Parse("missing gate count"))
    ensures var parts := SplitWhitespace(ReadLine(lines, pos).0);
      parts != [] && ParseUsize(parts[0]).Err? ==>
      LoadLayer(lines, pos, layer) == Err(Parse("invalid gate count: " + ParseUsize(parts[0]).error.Message()))
    ensures var parts := SplitWhitespace(ReadLine(lines, pos).0);
      parts != [] && ParseUsize(parts[0]).Ok? && 4 * ParseUsize(parts[0]).value >= USIZE_LIMIT ==>
      LoadLayer(lines, pos, layer) == Err(Panic("attempt to multiply with overflow"))
  {
  }

  /** A layer with gate count 0 reaches `gates.len() - 1` on an empty vector: when its header
      holds nothing else, loading panics with an arithmetic underflow. */
  lemma EmptyLayerPanics(lines: seq<string>, pos: nat, layer: nat)
    requires |SplitWhitespace(ReadLine(lines, pos).0)| == 1
    requires ParseUsize(SplitWhitespace(ReadLine(lines, pos).0)[0]) == Ok(0)
    ensures LoadLayer(lines, pos, layer) == Err(Panic("attempt to subtract with overflow"))
  {
    var parts := SplitWhitespace(ReadLine(lines, pos).0);
    assert parts[1..] == [];
  }

  // ---------------------------------------------------------------------------
  // Gathering the integers of a layer
  // ---------------------------------------------------------------------------

  /** The integers of lines `a .. b - 1`, in order; the first token that is not an `i64`
      gives the error. */
  function LineInts(lines: seq<string>, a: nat, b: nat): (r: Result<seq<I64>, Error>)
    requires a <= b <= |lines|
    decreases b - a
  {
    if a == b then Ok([])
    else
      match ParseInts(SplitWhitespace(lines[a]))
      case Err(e) => Err(e)
      case Ok(xs) => Prepend(xs, LineInts(lines, a + 1, b))
  }

  /** How a run of the integer-gathering loop that started at `pos` holding `ints` ended with
      `got` at reader position `after`: it read the non-empty lines `pos .. stop - 1`, whose
      integers follow `ints` in `got`; it stopped because it held at least `need`, or at end of
      input, or on a read of 0 bytes (which it consumed); and before it read the last of those
      lines it still held fewer than `need` (so before each of them, the count only growing). */
  predicate ReadAsNeeded(lines: seq<string>, pos: nat, need: nat, ints: seq<I64>,
                         got: seq<I64>, after: nat, stop: nat)
  {
    pos <= stop <= |lines| &&
    LineInts(lines, pos, stop).Ok? &&
    got == ints + LineInts(lines, pos, stop).value &&
    (|got| >= need || stop == |lines| || |lines[stop]| == 0) &&
    after == (if stop < |lines| && |got| < need then stop + 1 else stop) &&
    (forall j :: pos <= j < stop ==> |lines[j]| > 0) &&
    (pos < stop ==> LineInts(lines, pos, stop - 1).Ok? && |ints| + |LineInts(lines, pos, stop - 1).value| < need)
  }

  /** The `while ints.len() < 4 * n` loop reads lines only while it needs more integers. */
  lemma {:induction false} GatherReadsWhatIsNeeded(lines: seq<string>, pos: nat, need: nat, ints: seq<I64>)
    requires pos <= |lines|
    requires Gather(lines, pos, need, ints).Ok?
    ensures exists stop :: ReadAsNeeded(lines, pos, need, ints,
      Gather(lines, pos, need, ints).value.0, Gather(lines, pos, need, ints).value.1, stop)
    decreases |lines| - pos
  {
    var got := Gather(lines, pos, need, ints).value.0;
    var after := Gather(lines, pos, need, ints).value.1;
    if |ints| >= need || pos == |lines| || |lines[pos]| == 0 {
      assert ints + [] == ints;
      assert ReadAsNeeded(lines, pos, need, ints, got, after, pos);
    } else {
      var more := ParseInts(SplitWhitespace(lines[pos])).value;
      assert Gather(lines, pos, need, ints) == Gather(lines, pos + 1, need, ints + more);
      GatherReadsWhatIsNeeded(lines, pos + 1, need, ints + more);
      var stop: nat :| ReadAsNeeded(lines, pos + 1, need, ints + more, got, after, stop);
      ReadOneMore(lines, pos, need, ints, more, got, after, stop);
    }
  }

  /** `ReadAsNeeded` extends back over one non-empty line read while too few were held. */
  lemma ReadOneMore(lines: seq<string>, pos: nat, need: nat, ints: seq<I64>, more: seq<I64>,
                    got: seq<I64>, after: nat, stop: nat)
    requires pos < |lines| && |lines[pos]| > 0 && |ints| < need
    requires ParseInts(SplitWhitespace(lines[pos])) == Ok(more)
    requires ReadAsNeeded(lines, pos + 1, need, ints + more, got, after, stop)
    ensures ReadAsNeeded(lines, pos, need, ints, got, after, stop)
  {
    var rest := LineInts(lines, pos + 1, stop).value;
    LineIntsCons(lines, pos, stop, more);
    assert LineInts(lines, pos, stop).value == more + rest;
    ConcatAssoc(ints, more, rest);
    if stop == pos + 1 {
      assert LineInts(lines, pos, pos) == Ok([]);
    } else {
      LineIntsCons(lines, pos, stop - 1, more);
    }
  }

  lemma ConcatAssoc<T>(a: seq<T>, b: seq<T>, c: seq<T>)
    ensures (a + b) + c == a + (b + c)
  {
  }

  lemma LineIntsCons(lines: seq<string>, pos: nat, j: nat, more: seq<I64>)
    requires pos < j <= |lines| && ParseInts(SplitWhitespace(lines[pos])) == Ok(more)
    ensures LineInts(lines, pos, j) == Prepend(more, LineInts(lines, pos + 1, j))
  {
  }

  // ---------------------------------------------------------------------------
  // Decoding the gates of a layer
  // ---------------------------------------------------------------------------

  /** A gate decodes exactly when the low byte of its type integer is a known type code and
      its id integer, cast to `usize`, is its position; it then takes its type from that code
      and `u` and `v` from the third and fourth integers, cast to `usize`. */
  lemma DecodeGateCases(ints: seq<I64>, layer: nat, i: nat)
    requires 4 * i + 3 < |ints|
    ensures DecodeGate(ints, layer, i).Ok? <==> AsU8(ints[4 * i]) <= 10 && AsUsize(ints[4 * i + 1]) == i
    ensures DecodeGate(ints, layer, i).Ok? ==>
      DecodeGate(ints, layer, i).value ==
        Gate(TryFrom(AsU8(ints[4 * i])).value, AsUsize(ints[4 * i + 2]), AsUsize(ints[4 * i + 3]))
    ensures AsU8(ints[4 * i]) > 10 ==>
      DecodeGate(ints, layer, i) == Err(Parse("unknown gate type " + Decimal(AsU8(ints[4 * i]))))
    ensures AsU8(ints[4 * i]) <= 10 && AsUsize(ints[4 * i + 1]) != i ==>
      DecodeGate(ints, layer, i) ==
        Err(Parse("layer " + Decimal(layer) + ": gate IDs must be sorted & dense (got " +
                  Decimal(AsUsize(ints[4 * i + 1])) + ", expected " + Decimal(i) + ")"))
  {
  }

  /** The gates from position `i` on decode exactly when each of them does, and then they are
      the decoded gates in order; otherwise the error is that of the first gate that fails. */
  lemma DecodeGatesCases(ints: seq<I64>, layer: nat, i: nat)
    requires |ints| % 4 == 0 && i <= |ints| / 4
    ensures DecodeGates(ints, layer, i).Ok? <==>
      forall j :: i <= j < |ints| / 4 ==> DecodeGate(ints, layer, j).Ok?
    ensures DecodeGates(ints, layer, i).Ok? ==>
      forall j :: i <= j < |ints| / 4 ==> DecodeGates(ints, layer, i).value[j - i] == DecodeGate(ints, layer, j).value
    ensures DecodeGates(ints, layer, i).Err? ==>
      exists j :: i <= j < |ints| / 4 && DecodeGate(ints, layer, j) == Err(DecodeGates(ints, layer, i).error) &&
        forall m :: i <= m < j ==> DecodeGate(ints, layer, m).Ok?
  {
    DecodedGates(ints, layer, i);
    if DecodeGates(ints, layer, i).Ok? {
      DecodedGatesInOrder(ints, layer, i);
    }
    if DecodeGates(ints, layer, i).Err? {
      var j := FirstFailingGate(ints, layer, i);
    }
  }

  lemma {:induction false} DecodedGates(ints: seq<I64>, layer: nat, i: nat)
    requires |ints| % 4 == 0 && i <= |ints| / 4
    ensures DecodeGates(ints, layer, i).Ok? <==>
      forall j :: i <= j < |ints| / 4 ==> DecodeGate(ints, layer, j).Ok?
    decreases |ints| / 4 - i
  {
    if i < |ints| / 4 {
      DecodedGates(ints, layer, i + 1);
    }
  }

  lemma {:induction false} DecodedGatesInOrder(ints: seq<I64>, layer: nat, i: nat)
    requires |ints| % 4 == 0 && i <= |ints| / 4
    requires DecodeGates(ints, layer, i).Ok?
    ensures forall j :: i <= j < |ints| / 4 ==> DecodeGate(ints, layer, j) == Ok(DecodeGates(ints, layer, i).value[j - i])
    decreases |ints| / 4 - i
  {
    if i < |ints| / 4 {
      DecodedGatesInOrder(ints, layer, i + 1);
      var g := DecodeGate(ints, layer, i).value;
      var rest := DecodeGates(ints, layer, i + 1).value;
      var gs := DecodeGates(ints, layer, i).value;
      assert gs == [g] + rest;
      forall j | i < j < |ints| / 4
        ensures DecodeGate(ints, layer, j) == Ok(gs[j - i])
      {
        PrependIndex(g, rest, j - i);
      }
    }
  }

  lemma {:induction false} FirstFailingGate(ints: seq<I64>, layer: nat, i: nat) returns (j: nat)
    requires |ints| % 4 == 0 && i <= |ints| / 4
    requires DecodeGates(ints, layer, i).Err?
    ensures i <= j < |ints| / 4 && DecodeGate(ints, layer, j) == Err(DecodeGates(ints, layer, i).error)
    ensures forall m :: i <= m < j ==> DecodeGate(ints, layer, m).Ok?
    decreases |ints| / 4 - i
  {
    if DecodeGate(ints, layer, i).Err? {
      j := i;
    } else {
      j := FirstFailingGate(ints, layer, i + 1);
    }
  }

  /** The gate at position `j` carries an id other than `j` while every earlier gate decodes and
      its own type code is known: the layer is rejected as not sorted and dense. */
  lemma DenseIdsRequired(ints: seq<I64>, layer: nat, j: nat)
    requires |ints| % 4 == 0 && j < |ints| / 4
    requires forall m :: 0 <= m < j ==> DecodeGate(ints, layer, m).Ok?
    requires AsU8(ints[4 * j]) <= 10 && AsUsize(ints[4 * j + 1]) != j
    ensures DecodeGates(ints, layer, 0) ==
      Err(Parse("layer " + Decimal(layer) + ": gate IDs must be sorted & dense (got " +
                Decimal(AsUsize(ints[4 * j + 1])) + ", expected " + Decimal(j) + ")"))
  {
    DecodeGatesCases(ints, layer, 0);
    DecodeGateCases(ints, layer, j);
  }

  /** The type integer is truncated to its low byte before decoding: 256 is `Add` and -253 is
      `Input`. A negative operand wraps modulo `2^USIZE_BITS`. On the 32-bit target an id of
      `2^32` is taken for 0. A low byte above 10 is an unknown type. */
  lemma CastExamples()
    ensures DecodeGate([256, 0, 5, 7], 0, 0) == Ok(Gate(Add, 5, 7))
    ensures DecodeGate([-253, 0, 5, 0], 0, 0) == Ok(Gate(Input, 5, 0))
    ensures DecodeGate([3, 0, -1, 0], 0, 0) == Ok(Gate(Input, USIZE_LIMIT - 1, 0))
    ensures DecodeGate([2, 0x1_0000_0000, 0, 0], 0, 0) == Ok(Gate(Dummy, 0, 0))
    ensures DecodeGate([11, 0, 0, 0], 0, 0) == Err(Parse("unknown gate type 11"))
  {
    assert DigitChar(1) == '1';
    assert Decimal(11) == "11";
    assert AsU8(11) == 11;
    assert TryFrom(11).error == "unknown gate type " + Decimal(11) == "unknown gate type 11";
    assert [11, 0, 0, 0][4 * 0] == 11;
  }

  // ---------------------------------------------------------------------------
  // A successful layer
  // ---------------------------------------------------------------------------

  /** `gates` are read from `ints`, four integers each: gate `i` has id `i` and takes its type,
      `u` and `v` from integers `4i`, `4i+2` and `4i+3`. */
  predicate GatesFrom(ints: seq<I64>, gates: seq<Gate>) {
    |ints| == 4 * |gates| &&
    forall i :: 0 <= i < |gates| ==>
      AsUsize(ints[4 * i + 1]) == i && TryFrom(AsU8(ints[4 * i])) == Ok(gates[i].ty) &&
      gates[i].u == AsUsize(ints[4 * i + 2]) && gates[i].v == AsUsize(ints[4 * i + 3])
  }

  lemma DecodedGatesFrom(ints: seq<I64>, layer: nat)
    requires |ints| % 4 == 0 && DecodeGates(ints, layer, 0).Ok?
    ensures GatesFrom(ints, DecodeGates(ints, layer, 0).value)
  {
    DecodeGatesCases(ints, layer, 0);
    var gates := DecodeGates(ints, layer, 0).value;
    forall i | 0 <= i < |gates|
      ensures AsUsize(ints[4 * i + 1]) == i && TryFrom(AsU8(ints[4 * i])) == Ok(gates[i].ty) &&
        gates[i].u == AsUsize(ints[4 * i + 2]) && gates[i].v == AsUsize(ints[4 * i + 3])
    {
      DecodeGateCases(ints, layer, i);
    }
  }

  /** A layer that loads has as many gates as its header's first token says; its integers,
      gathered from the rest of the header and the lines after it, number exactly four per
      gate and are decoded in order into its gates; the reader ends where the gathering
      stopped. */
  lemma LayerFromTokens(lines: seq<string>, pos: nat, layer: nat)
    requires LoadLayer(lines, pos, layer).Ok?
    ensures var l := LoadLayer(lines, pos, layer).value.0;
      var parts := SplitWhitespace(ReadLine(lines, pos).0);
      parts != [] && ParseUsize(parts[0]) == Ok(|l.gates|) && ParseInts(parts[1..]).Ok? &&
      exists ints :: GatesFrom(ints, l.gates) &&
        Gather(lines, ReadLine(lines, pos).1, 4 * |l.gates|, ParseInts(parts[1..]).value) ==
          Ok((ints, LoadLayer(lines, pos, layer).value.1))
  {
    var next := ReadLine(lines, pos).1;
    var parts := SplitWhitespace(ReadLine(lines, pos).0);
    var n: nat := ParseUsize(parts[0]).value;
    var first := ParseInts(parts[1..]).value;
    var g := Gather(lines, next, 4 * n, first).value;
    assert LoadLayer(lines, pos, layer) == LayerOf(g.0, g.1, layer, n);
    LayerOfGates(g.0, g.1, layer, n);
  }

  /** The layer `LayerOf` builds holds the gates decoded from its integers. */
  lemma LayerOfGates(ints: seq<I64>, after: nat, layer: nat, n: nat)
    requires 4 * n < USIZE_LIMIT && LayerOf(ints, after, layer, n).Ok?
    ensures |LayerOf(ints, after, layer, n).value.0.gates| == n
    ensures GatesFrom(ints, LayerOf(ints, after, layer, n).value.0.gates)
  {
    DecodedGatesFrom(ints, layer);
  }

  /** Too few integers before end of input, or surplus integers on the last line read, reject
      the layer with the count message. */
  lemma CountMismatchRejected(lines: seq<string>, pos: nat, layer: nat)
    requires var parts := SplitWhitespace(ReadLine(lines, pos).0);
      parts != [] && ParseUsize(parts[0]).Ok? && 4 * ParseUsize(parts[0]).value < USIZE_LIMIT &&
      ParseInts(parts[1..]).Ok? &&
      Gather(lines, ReadLine(lines, pos).1, 4 * ParseUsize(parts[0]).value, ParseInts(parts[1..]).value).Ok?
    requires var parts := SplitWhitespace(ReadLine(lines, pos).0);
      |Gather(lines, ReadLine(lines, pos).1, 4 * ParseUsize(parts[0]).value, ParseInts(parts[1..]).value).value.0|
        != 4 * ParseUsize(parts[0]).value
    ensures var parts := SplitWhitespace(ReadLine(lines, pos).0);
      var n := ParseUsize(parts[0]).value;
      LoadLayer(lines, pos, layer) ==
        Err(Parse(CountMessage(layer, n, |Gather(lines, ReadLine(lines, pos).1, 4 * n, ParseInts(parts[1..]).value).value.0|)))
  {
  }

  // ---------------------------------------------------------------------------
  // A successful load
  // ---------------------------------------------------------------------------

  /** Layers `ls` are what the layer loop loads one after the other, starting with layer number
      `layer`: the first from reader position `ps[0]` to `ps[1]`, the rest in turn from there. */
  predicate LoadedInTurn(lines: seq<string>, ps: seq<nat>, layer: nat, ls: seq<Layer>)
    decreases |ls|
  {
    |ps| == |ls| + 1 &&
    (|ls| > 0 ==>
      LoadLayer(lines, ps[0], layer) == Ok((ls[0], ps[1])) && LoadedInTurn(lines, ps[1..], layer + 1, ls[1..]))
  }

  /** A run of layers that loads was read one layer after the other, from `pos` on. */
  lemma {:induction false} LoadedLayers(lines: seq<string>, pos: nat, layer: nat, d: nat) returns (ps: seq<nat>)
    requires layer <= d
    requires LoadLayers(lines, pos, layer, d).Ok?
    ensures |ps| >= 1 && ps[0] == pos && LoadedInTurn(lines, ps, layer, LoadLayers(lines, pos, layer, d).value)
    decreases d - layer
  {
    if layer == d {
      ps := [pos];
    } else {
      LoadLayersStep(lines, pos, layer, d);
      var (l, next) := LoadLayer(lines, pos, layer).value;
      var qs := LoadedLayers(lines, next, layer + 1, d);
      ConsLoaded(lines, pos, qs, layer, l, LoadLayers(lines, next, layer + 1, d).value);
      ps := [pos] + qs;
    }
  }

  lemma ConsLoaded(lines: seq<string>, pos: nat, qs: seq<nat>, layer: nat, l: Layer, rest: seq<Layer>)
    requires |qs| >= 1 && LoadLayer(lines, pos, layer) == Ok((l, qs[0]))
    requires LoadedInTurn(lines, qs, layer + 1, rest)
    ensures LoadedInTurn(lines, [pos] + qs, layer, [l] + rest)
  {
    assert ([pos] + qs)[1..] == qs;
    assert ([l] + rest)[1..] == rest;
  }

  lemma PrependIndex<T>(x: T, xs: seq<T>, k: nat)
    requires 0 < k <= |xs|
    ensures ([x] + xs)[k] == xs[k - 1]
  {
  }

  /** The depth line is followed by exactly that many layers, each loaded by the layer loop. */
  lemma LoadedCircuit(lines: seq<string>)
    requires Load(lines).Ok?
    ensures var c := Load(lines).value;
      ParseUsize(Trim(ReadLine(lines, 0).0)) == Ok(|c.layers|) &&
      exists ps: seq<nat> :: |ps| >= 1 && ps[0] == ReadLine(lines, 0).1 && LoadedInTurn(lines, ps, 0, c.layers)
  {
    var d := ParseUsize(Trim(ReadLine(lines, 0).0)).value;
    var ps := LoadedLayers(lines, ReadLine(lines, 0).1, 0, d);
  }
}
