/** The circuit text parser (circuit/src/parse.rs): layers, circuits and `load_from_reader`.

    The reader is modelled by the sequence of strings that successive `read_line` calls
    return: each is one line of the input with its trailing '\n' (the last may lack it).
    Once the sequence is exhausted `read_line` reads 0 bytes and leaves the buffer empty. */
module Parse {
  import opened Wrappers
  import opened Ints
  import opened Text
  import opened Gates

  /** A layer: its gates in id order, and the number of bits of a gate index. */
  datatype Layer = Layer(gates: seq<Gate>, bitLength: Usize)

  /** A circuit: its layers, layer 0 being the inputs. */
  datatype Circuit = Circuit(layers: seq<Layer>)

  /** How loading fails. `Parse` is `circuit::Error::Parse` with its message; `Panic` stands
      for a panic of the parser (the source has no such variant: it aborts). */
  datatype Error = Parse(message: string) | Panic(message: string)

  // ---------------------------------------------------------------------------
  // The bit length of a layer (parse.rs:65-67)
  // ---------------------------------------------------------------------------

  /** `max_gate`: 1 for a single gate, otherwise the largest gate index. */
  function MaxGate(n: nat): (m: nat)
    requires n >= 1
    ensures m >= 1 && m <= n
  {
    if n == 1 then 1 else n - 1
  }

  /** The formula as written, on a target with `usize::BITS == usizeBits`:
      `usize::BITS - (max_gate as u32).leading_zeros()`. */
  function BitLengthOn(usizeBits: nat, n: nat): (r: int)
    requires n >= 1
    ensures r == usizeBits - 32 + BitWidth(MaxGate(n) % U32_LIMIT)
  {
    usizeBits - LeadingZeros32(MaxGate(n) % U32_LIMIT)
  }

  /** The intended bit length: the number of bits of `max_gate`, that is the least `k >= 1`
      with `n <= 2^k` (so 1 for one or two gates, and the ceiling of log2 n from two on). */
  function BitLength(n: nat): (r: nat)
    requires n >= 1
    ensures r >= 1 && n <= Pow2(r)
    ensures r > 1 ==> Pow2(r - 1) < n
    ensures n <= 2 ==> r == 1
  {
    BitWidth(MaxGate(n))
  }

  lemma BitLengthBound(n: nat)
    requires 1 <= n < USIZE_LIMIT
    ensures BitLength(n) <= USIZE_BITS
  {
    Pow2Limits();
    BitWidthAtMost(MaxGate(n), USIZE_BITS);
  }

  /** On the model's 32-bit target the formula as written is the intended bit length. */
  lemma BitLengthOnTarget(n: nat)
    requires 1 <= n < USIZE_LIMIT
    ensures BitLengthOn(USIZE_BITS, n) == BitLength(n)
  {
    MaxGateFits(n);
  }

  /** On a 64-bit target the formula as written is 32 more than intended. */
  lemma BitLengthOn64Offset(n: nat)
    requires 1 <= n < USIZE_LIMIT
    ensures BitLengthOn(64, n) == 32 + BitLength(n)
  {
    MaxGateFits(n);
  }

  /** `max_gate as u32` keeps the value of a gate index. */
  lemma MaxGateFits(n: nat)
    requires 1 <= n < USIZE_LIMIT
    ensures MaxGate(n) % U32_LIMIT == MaxGate(n)
  {
    var m := MaxGate(n);
    assert 0 <= m < U32_LIMIT;
  }

  /** For example two gates get 33 bits on a 64-bit target instead of 1. */
  lemma BitLengthOn64Example()
    ensures BitLengthOn(64, 2) == 33 && BitLength(2) == 1
  {
    BitLengthOn64Offset(2);
  }

  // ---------------------------------------------------------------------------
  // Specification of `load_from_reader`
  // ---------------------------------------------------------------------------

  /** One `read_line` call on a reader positioned at `pos`: the text read and the new position. */
  function ReadLine(lines: seq<string>, pos: nat): (string, nat) {
    if pos < |lines| then (lines[pos], pos + 1) else ("", pos)
  }

  /** `xs` in front of the list that `r` holds; an error is passed through. */
  function Prepend<T>(xs: seq<T>, r: Result<seq<T>, Error>): (r': Result<seq<T>, Error>)
    ensures r'.Ok? <==> r.Ok?
    ensures r.Ok? ==> r'.value == xs + r.value
    ensures r.Err? ==> r' == Err(r.error)
    ensures xs == [] ==> r' == r
  {
    match r
    case Ok(ys) =>
      assert xs == [] ==> xs + ys == ys;
      Ok(xs + ys)
    case Err(e) => Err(e)
  }

  lemma PrependPrepend<T>(xs: seq<T>, ys: seq<T>, r: Result<seq<T>, Error>)
    ensures Prepend(xs, Prepend(ys, r)) == Prepend(xs + ys, r)
  {
    if r.Ok? {
      assert xs + (ys + r.value) == (xs + ys) + r.value;
    }
  }

  lemma PrependNil<T>(xs: seq<T>)
    ensures Prepend(xs, Ok([])) == Ok(xs)
  {
    assert xs + [] == xs;
  }

  /** Each token parsed as an `i64`; the first token that does not parse gives the error,
      with the `ParseIntError` text as message. */
  function ParseInts(tokens: seq<string>): (r: Result<seq<I64>, Error>)
    ensures r.Ok? ==> |r.value| == |tokens|
  {
    if tokens == [] then Ok([])
    else
      match ParseI64(tokens[0])
      case Err(e) => Err(Parse(e.Message()))
      case Ok(x) => Prepend([x], ParseInts(tokens[1..]))
  }

  /** The tokens parse exactly when each of them is an `i64`, and then to those values. */
  lemma {:induction false} ParseIntsCases(tokens: seq<string>)
    ensures ParseInts(tokens).Ok? <==> forall i :: 0 <= i < |tokens| ==> ParseI64(tokens[i]).Ok?
    ensures ParseInts(tokens).Ok? ==>
      forall i :: 0 <= i < |tokens| ==> ParseI64(tokens[i]) == Ok(ParseInts(tokens).value[i])
    decreases |tokens|
  {
    if tokens != [] {
      ParseIntsCases(tokens[1..]);
      if ParseI64(tokens[0]).Ok? && ParseInts(tokens[1..]).Ok? {
        var xs := ParseInts(tokens).value;
        forall i | 0 <= i < |tokens|
          ensures ParseI64(tokens[i]) == Ok(xs[i])
        {
          if i > 0 {
            assert tokens[i] == tokens[1..][i - 1];
          }
        }
      } else if ParseI64(tokens[0]).Ok? {
        var i :| 0 <= i < |tokens[1..]| && ParseI64(tokens[1..][i]).Err?;
        assert tokens[i + 1] == tokens[1..][i];
      }
    }
  }

  /** The `while ints.len() < 4 * n` loop: while fewer than `need` integers are held, read the
      next line and append its integers; stop early at end of input (0 bytes read). Returns
      the integers and the reader position. */
  function Gather(lines: seq<string>, pos: nat, need: nat, ints: seq<I64>): (r: Result<(seq<I64>, nat), Error>)
    ensures r.Ok? ==> pos <= r.value.1
    decreases |lines| - pos
  {
    if |ints| >= need then Ok((ints, pos))
    else
      var (line, next) := ReadLine(lines, pos);
      if |line| == 0 then Ok((ints, next))
      else
        match ParseInts(SplitWhitespace(line))
        case Err(e) => Err(e)
        case Ok(more) => Gather(lines, next, need, ints + more)
  }

  /** The gate at position `i` of layer `layer`, from integers `4i .. 4i+3` (type, id, u, v):
      the type code is truncated to its low byte and decoded, the id must be `i`. */
  function DecodeGate(ints: seq<I64>, layer: nat, i: nat): (r: Result<Gate, Error>)
    requires 4 * i + 3 < |ints|
  {
    match TryFrom(AsU8(ints[4 * i]))
    case Err(e) => Err(Parse(e))
    case Ok(ty) =>
      var g := AsUsize(ints[4 * i + 1]);
      if g != i then
        Err(Parse("layer " + Decimal(layer) + ": gate IDs must be sorted & dense (got " +
                  Decimal(g) + ", expected " + Decimal(i) + ")"))
      else Ok(Gate(ty, AsUsize(ints[4 * i + 2]), AsUsize(ints[4 * i + 3])))
  }

  /** The gates from position `i` on; the first gate that does not decode gives the error. */
  function DecodeGates(ints: seq<I64>, layer: nat, i: nat): (r: Result<seq<Gate>, Error>)
    requires |ints| % 4 == 0 && i <= |ints| / 4
    ensures r.Ok? ==> |r.value| == |ints| / 4 - i
    decreases |ints| / 4 - i
  {
    if i == |ints| / 4 then Ok([])
    else
      match DecodeGate(ints, layer, i)
      case Err(e) => Err(e)
      case Ok(g) => Prepend([g], DecodeGates(ints, layer, i + 1))
  }

  function CountMessage(layer: nat, n: nat, found: nat): string {
    "layer " + Decimal(layer) + ": expected " + Decimal(n) + " gates (" + Decimal(4 * n) +
    " ints) but found " + Decimal(found)
  }

  /** What every parsed layer satisfies: at least one gate, a gate count whose `4 * n` fits
      `usize`, and the intended bit length, so that `2^bitLength` slots hold all its gates. */
  predicate ParsedLayer(l: Layer) {
    1 <= |l.gates| && 4 * |l.gates| < USIZE_LIMIT && l.bitLength == BitLength(|l.gates|)
  }

  /** One iteration of the layer loop, for layer `layer` with the reader at `pos`:
      header line, gate count, integers, count check, gates, bit length. Returns the layer
      and the reader position after it. */
  function LoadLayer(lines: seq<string>, pos: nat, layer: nat): (r: Result<(Layer, nat), Error>)
    ensures r.Ok? ==> pos < r.value.1 || (pos == r.value.1 == |lines|)
    ensures r.Ok? ==> ParsedLayer(r.value.0)
  {
    var (header, next) := ReadLine(lines, pos);
    var parts := SplitWhitespace(header);
    if parts == [] then Err(Parse("missing gate count"))
    else
      match ParseUsize(parts[0])
      case Err(e) => Err(Parse("invalid gate count: " + e.Message()))
      case Ok(n) =>
        if 4 * n >= USIZE_LIMIT then Err(Panic("attempt to multiply with overflow"))
        else
          match ParseInts(parts[1..])
          case Err(e) => Err(e)
          case Ok(first) =>
            match Gather(lines, next, 4 * n, first)
            case Err(e) => Err(e)
            case Ok((ints, after)) => LayerOf(ints, after, layer, n)
  }

  /** The rest of the layer loop once the integers are gathered, with the reader at `after`:
      count check, gates, bit length. */
  function LayerOf(ints: seq<I64>, after: nat, layer: nat, n: nat): (r: Result<(Layer, nat), Error>)
    requires 4 * n < USIZE_LIMIT
    ensures r.Ok? ==> ParsedLayer(r.value.0) && r.value.1 == after
  {
    if |ints| != 4 * n then Err(Parse(CountMessage(layer, n, |ints|)))
    else
      match DecodeGates(ints, layer, 0)
      case Err(e) => Err(e)
      case Ok(gates) =>
        assert |gates| == n by {
          assert |ints| / 4 == n;
        }
        if n == 0 then Err(Panic("attempt to subtract with overflow"))
        else
          BitLengthBound(n);
          Ok((Layer(gates, BitLength(n)), after))
  }

  /** Layers `layer .. d - 1`, read from position `pos` on. */
  function LoadLayers(lines: seq<string>, pos: nat, layer: nat, d: nat): (r: Result<seq<Layer>, Error>)
    requires layer <= d
    ensures r.Ok? ==> |r.value| == d - layer
    ensures r.Ok? ==> forall i :: 0 <= i < |r.value| ==> ParsedLayer(r.value[i])
    decreases d - layer
  {
    if layer == d then Ok([])
    else
      match LoadLayer(lines, pos, layer)
      case Err(e) => Err(e)
      case Ok((l, next)) => Prepend([l], LoadLayers(lines, next, layer + 1, d))
  }

  lemma LoadLayersStep(lines: seq<string>, pos: nat, layer: nat, d: nat)
    requires layer < d
    ensures LoadLayer(lines, pos, layer).Err? ==>
      LoadLayers(lines, pos, layer, d) == Err(LoadLayer(lines, pos, layer).error)
    ensures LoadLayer(lines, pos, layer).Ok? ==>
      var (l, next) := LoadLayer(lines, pos, layer).value;
      LoadLayers(lines, pos, layer, d) == Prepend([l], LoadLayers(lines, next, layer + 1, d))
  {
  }

  /** A layer that loads is followed by the layers loaded after it. */
  lemma LoadLayersOk(lines: seq<string>, pos: nat, layer: nat, d: nat, l: Layer, next: nat)
    requires layer < d && LoadLayer(lines, pos, layer) == Ok((l, next))
    ensures LoadLayers(lines, pos, layer, d) == Prepend([l], LoadLayers(lines, next, layer + 1, d))
  {
  }

  /** `LoadLayersStep` behind the layers already read. */
  lemma LoadLayersAfter(lines: seq<string>, pos: nat, layer: nat, d: nat, done: seq<Layer>)
    requires layer < d
    ensures LoadLayer(lines, pos, layer).Err? ==>
      Prepend(done, LoadLayers(lines, pos, layer, d)) == Err(LoadLayer(lines, pos, layer).error)
    ensures LoadLayer(lines, pos, layer).Ok? ==>
      var (l, next) := LoadLayer(lines, pos, layer).value;
      Prepend(done, LoadLayers(lines, pos, layer, d)) == Prepend(done + [l], LoadLayers(lines, next, layer + 1, d))
  {
    LoadLayersStep(lines, pos, layer, d);
    if LoadLayer(lines, pos, layer).Ok? {
      var (l, next) := LoadLayer(lines, pos, layer).value;
      PrependPrepend(done, [l], LoadLayers(lines, next, layer + 1, d));
    }
  }

  /** `load_from_reader`: the depth from the trimmed first line, then that many layers. */
  function Load(lines: seq<string>): (r: Result<Circuit, Error>)
    ensures r.Ok? ==> ParseUsize(Trim(ReadLine(lines, 0).0)) == Ok(|r.value.layers|)
    ensures r.Ok? ==> forall i :: 0 <= i < |r.value.layers| ==> ParsedLayer(r.value.layers[i])
  {
    var (first, next) := ReadLine(lines, 0);
    match ParseUsize(Trim(first))
    case Err(e) => Err(Parse("invalid depth: " + e.Message()))
    case Ok(d) =>
      AsCircuit(LoadLayers(lines, next, 0, d))
  }

  function AsCircuit(r: Result<seq<Layer>, Error>): Result<Circuit, Error> {
    match r
    case Err(e) => Err(e)
    case Ok(layers) => Ok(Circuit(layers))
  }

  // ---------------------------------------------------------------------------
  // The parser as the source runs it
  // ---------------------------------------------------------------------------

  /** `for p in parts { ints.push(p.parse()?) }`, and the `collect::<Result<Vec<_>, _>>()` of
      each further line: parse the tokens in order, stopping at the first failure. */
  method ParseTokens(tokens: seq<string>) returns (r: Result<seq<I64>, Error>)
    ensures r == ParseInts(tokens)
  {
    var ints: seq<I64> := [];
    assert tokens[0..] == tokens;
    for i := 0 to |tokens|
      invariant ParseInts(tokens) == Prepend(ints, ParseInts(tokens[i..]))
    {
      assert tokens[i..][1..] == tokens[i + 1..];
      var x := ParseI64(tokens[i]);
      if x.Err? {
        return Err(Parse(x.error.Message()));
      }
      PrependPrepend(ints, [x.value], ParseInts(tokens[i + 1..]));
      ints := ints + [x.value];
    }
    assert tokens[|tokens|..] == [];
    PrependNil(ints);
    return Ok(ints);
  }

  /** The `for i in 0..n` loop that decodes the gates of layer `layer` from `4n` integers. */
  method BuildGates(ints: seq<I64>, layer: nat) returns (r: Result<seq<Gate>, Error>)
    requires |ints| % 4 == 0
    ensures r == DecodeGates(ints, layer, 0)
  {
    var gates: seq<Gate> := [];
    for i := 0 to |ints| / 4
      invariant DecodeGates(ints, layer, 0) == Prepend(gates, DecodeGates(ints, layer, i))
    {
      var ty := TryFrom(AsU8(ints[4 * i]));
      if ty.Err? {
        return Err(Parse(ty.error));
      }
      var g := AsUsize(ints[4 * i + 1]);
      var u := AsUsize(ints[4 * i + 2]);
      var v := AsUsize(ints[4 * i + 3]);
      if g != i {
        return Err(Parse("layer " + Decimal(layer) + ": gate IDs must be sorted & dense (got " +
                         Decimal(g) + ", expected " + Decimal(i) + ")"));
      }
      PrependPrepend(gates, [Gate(ty.value, u, v)], DecodeGates(ints, layer, i + 1));
      gates := gates + [Gate(ty.value, u, v)];
    }
    PrependNil(gates);
    return Ok(gates);
  }

  /** The `while ints.len() < 4 * n` loop, with the `line` buffer cleared before each read. */
  method ReadInts(lines: seq<string>, pos: nat, need: nat, first: seq<I64>) returns (r: Result<(seq<I64>, nat), Error>)
    ensures r == Gather(lines, pos, need, first)
  {
    var ints := first;
    var cursor := pos;
    while |ints| < need
      invariant Gather(lines, pos, need, first) == Gather(lines, cursor, need, ints)
      decreases |lines| - cursor
    {
      var (line, next) := ReadLine(lines, cursor);
      cursor := next;
      if |line| == 0 {
        break;
      }
      var more := ParseTokens(SplitWhitespace(line));
      if more.Err? {
        return Err(more.error);
      }
      ints := ints + more.value;
    }
    return Ok((ints, cursor));
  }

  /** The body of the layer loop of `load_from_reader`. */
  method ReadLayer(lines: seq<string>, pos: nat, layer: nat) returns (r: Result<(Layer, nat), Error>)
    ensures r == LoadLayer(lines, pos, layer)
  {
    var (line, cursor) := ReadLine(lines, pos);
    var parts := SplitWhitespace(line);
    if parts == [] {
      return Err(Parse("missing gate count"));
    }
    var count := ParseUsize(parts[0]);
    if count.Err? {
      return Err(Parse("invalid gate count: " + count.error.Message()));
    }
    var n: nat := count.value;
    if 4 * n >= USIZE_LIMIT {
      return Err(Panic("attempt to multiply with overflow"));
    }
    var first := ParseTokens(parts[1..]);
    if first.Err? {
      return Err(first.error);
    }
    var gathered := ReadInts(lines, cursor, 4 * n, first.value);
    if gathered.Err? {
      return Err(gathered.error);
    }
    r := FinishLayer(gathered.value.0, gathered.value.1, layer, n);
  }

  /** The count check, the gate loop and `bit_length` of the layer loop. */
  method FinishLayer(ints: seq<I64>, after: nat, layer: nat, n: nat) returns (r: Result<(Layer, nat), Error>)
    requires 4 * n < USIZE_LIMIT
    ensures r == LayerOf(ints, after, layer, n)
  {
    if |ints| != 4 * n {
      return Err(Parse(CountMessage(layer, n, |ints|)));
    }
    var gates := BuildGates(ints, layer);
    if gates.Err? {
      return Err(gates.error);
    }
    assert |gates.value| == n by {
      assert |ints| / 4 == n;
    }
    if n == 0 {
      return Err(Panic("attempt to subtract with overflow"));
    }
    BitLengthBound(n);
    BitLengthOnTarget(n);
    var bitLength := BitLengthOn(USIZE_BITS, |gates.value|);
    return Ok((Layer(gates.value, bitLength), after));
  }

  /** `load_from_reader`. */
  method LoadFromReader(lines: seq<string>) returns (r: Result<Circuit, Error>)
    ensures r == Load(lines)
  {
    var (line, pos) := ReadLine(lines, 0);
    var depth := ParseUsize(Trim(line));
    if depth.Err? {
      return Err(Parse("invalid depth: " + depth.error.Message()));
    }
    var d := depth.value;
    ghost var all := LoadLayers(lines, pos, 0, d);
    assert Load(lines) == AsCircuit(all);
    var layers: seq<Layer> := [];
    for k := 0 to d
      invariant all == Prepend(layers, LoadLayers(lines, pos, k, d))
    {
      var layer := ReadLayer(lines, pos, k);
      LoadLayersAfter(lines, pos, k, d, layers);
      if layer.Err? {
        return Err(layer.error);
      }
      layers := layers + [layer.value.0];
      pos := layer.value.1;
    }
    PrependNil(layers);
    return Ok(Circuit(layers));
  }
}
