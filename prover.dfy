/** The evaluator of the prover (prover/src/lib.rs): `Prover::evaluate` computes, bottom-up,
    one zero-padded vector of field elements per layer of a circuit, and `Prover::outputs`
    returns the last of them.

    A panic of the evaluator is an `Err(Panic)` result here, in the order the source reaches
    it: indexing a circuit without layers, shifting `1 << bit_length` past the width of
    `usize`, a gate of layer 0 that is neither `Input` nor `Dummy`, and an index outside a
    vector. */
module Evaluation {
  import opened Wrappers
  import opened Ints
  import Field
  import opened Gates
  import Parse

  type Fe = Field.Fe

  /** The ways evaluation aborts. `IndexOutOfBounds` carries the vector length and the index,
      as Rust's message does. */
  datatype Panic =
    | IndexOutOfBounds(len: nat, index: nat)
    | ShiftOverflow
    | NotInputOrDummy
    | UnwrapNone

  /** The prover's state: `values[layer][gate id]`. */
  datatype Prover = Prover(values: seq<seq<Fe>>) {
    /** `outputs`: the last layer's vector; `unwrap` of an absent last layer panics. */
    function Outputs(): (r: Result<seq<Fe>, Panic>)
      ensures r.Ok? <==> |values| > 0
      ensures r.Ok? ==> r.value == values[|values| - 1]
    {
      if |values| == 0 then Err(UnwrapNone) else Ok(values[|values| - 1])
    }
  }

  // ---------------------------------------------------------------------------
  // The value of one gate
  // ---------------------------------------------------------------------------

  /** `values[i - 1][j]`. */
  function Operand(prev: seq<Fe>, j: nat): (r: Result<Fe, Panic>)
    ensures r.Ok? <==> j < |prev|
  {
    if j < |prev| then Ok(prev[j]) else Err(IndexOutOfBounds(|prev|, j))
  }

  /** The accumulator of a `Sum` gate after adding `prev[u..v]` in index order. */
  function RangeSum(prev: seq<Fe>, u: nat, v: nat): Fe
    requires v <= |prev|
    decreases v
  {
    if v <= u then Field.Zero else Field.Add(RangeSum(prev, u, v - 1), prev[v - 1])
  }

  /** A `Sum` gate: the loop over `u..v` reads each index in turn, so it aborts at the first
      index past the end of `prev`; an empty range gives 0. */
  function SumGate(prev: seq<Fe>, u: nat, v: nat): (r: Result<Fe, Panic>)
    ensures r.Ok? <==> v <= u || v <= |prev|
  {
    if v <= u then Ok(Field.Zero)
    else if v <= |prev| then Ok(RangeSum(prev, u, v))
    else Err(IndexOutOfBounds(|prev|, if u >= |prev| then u else |prev|))
  }

  /** The value of a gate of layer 0. */
  function InputValue(g: Gate): (r: Result<Fe, Panic>)
    ensures r.Ok? <==> g.ty == Input || g.ty == Dummy
  {
    match g.ty
    case Input => Ok(Field.FromU64(g.u))
    case Dummy => Ok(Field.Zero)
    case _ => Err(NotInputOrDummy)
  }

  /** The value of a gate of a later layer, from the previous layer's vector `prev`. Operands
      are read `u` first, then `v`. */
  function GateValue(g: Gate, prev: seq<Fe>): (r: Result<Fe, Panic>)
  {
    match g.ty
    case Add =>
      var x :- Operand(prev, g.u);
      var y :- Operand(prev, g.v);
      Ok(Field.Add(x, y))
    case Mul =>
      var x :- Operand(prev, g.u);
      var y :- Operand(prev, g.v);
      Ok(Field.Mul(x, y))
    case Dummy => Ok(Field.Zero)
    case Input => Ok(Field.FromU64(g.u))
    case DirectRelay => Operand(prev, g.u)
    case Relay => Operand(prev, g.u)
    case Sum => SumGate(prev, g.u, g.v)
    case Not =>
      var x :- Operand(prev, g.u);
      Ok(Field.Sub(Field.One, x))
    case Minus =>
      var x :- Operand(prev, g.u);
      var y :- Operand(prev, g.v);
      Ok(Field.Sub(x, y))
    case Xor =>
      var x :- Operand(prev, g.u);
      var y :- Operand(prev, g.v);
      Ok(Field.Sub(Field.Add(x, y), Field.Mul(Field.Mul(Field.FromU64(2), x), y)))
    case Naab =>
      var x :- Operand(prev, g.u);
      var y :- Operand(prev, g.v);
      Ok(Field.Sub(y, Field.Mul(x, y)))
  }

  /** The value of a gate of layer 0 (`first`) or of a later layer. */
  function Out(first: bool, g: Gate, prev: seq<Fe>): Result<Fe, Panic> {
    if first then InputValue(g) else GateValue(g, prev)
  }

  // ---------------------------------------------------------------------------
  // The vector of one layer
  // ---------------------------------------------------------------------------

  /** The gate loop from gate `id` on, over the partly written vector `cur`: each gate's value
      is computed, then stored at its id, which must be inside the vector. */
  function Fill(gates: seq<Gate>, prev: seq<Fe>, first: bool, cur: seq<Fe>, id: nat): Result<seq<Fe>, Panic>
    requires id <= |gates|
    decreases |gates| - id
  {
    if id == |gates| then Ok(cur)
    else
      var out :- Out(first, gates[id], prev);
      if id < |cur| then Fill(gates, prev, first, cur[id := out], id + 1)
      else Err(IndexOutOfBounds(|cur|, id))
  }

  /** `n` zeros. */
  function Zeros(n: nat): (z: seq<Fe>)
    ensures |z| == n && forall j :: 0 <= j < n ==> z[j] == Field.Zero
  {
    seq(n, _ => Field.Zero)
  }

  /** The vector of a layer: `1 << bit_length` zeros, then the gate loop. */
  function LayerValues(l: Parse.Layer, prev: seq<Fe>, first: bool): Result<seq<Fe>, Panic> {
    if l.bitLength >= USIZE_BITS then Err(ShiftOverflow)
    else Fill(l.gates, prev, first, Zeros(Pow2(l.bitLength)), 0)
  }

  // ---------------------------------------------------------------------------
  // The whole evaluation
  // ---------------------------------------------------------------------------

  /** The vectors of the layers of `layers`, bottom-up: layer 0 from its inputs and every later
      layer from the one below it. */
  function Trace(layers: seq<Parse.Layer>): (r: Result<seq<seq<Fe>>, Panic>)
    ensures r.Ok? ==> |r.value| == |layers|
    decreases |layers|
  {
    if |layers| == 0 then Err(IndexOutOfBounds(0, 0))
    else if |layers| == 1 then
      var v0 :- LayerValues(layers[0], [], true);
      Ok([v0])
    else
      var below :- Trace(layers[..|layers| - 1]);
      var cur :- LayerValues(layers[|layers| - 1], below[|below| - 1], false);
      Ok(below + [cur])
  }

  /** `Prover::evaluate`, as a value. */
  function Evaluated(c: Parse.Circuit): Result<Prover, Panic> {
    var values :- Trace(c.layers);
    Ok(Prover(values))
  }

  // ---------------------------------------------------------------------------
  // The imperative evaluator
  // ---------------------------------------------------------------------------

  /** The accumulator loop of a `Sum` gate. */
  method SumRange(prev: seq<Fe>, u: nat, v: nat) returns (r: Result<Fe, Panic>)
    ensures r == SumGate(prev, u, v)
  {
    var acc := Field.Zero;
    var idx := u;
    while idx < v
      invariant u <= idx && (idx <= v || idx == u)
      invariant idx <= |prev| || idx == u
      invariant idx == u ==> acc == Field.Zero
      invariant idx <= |prev| ==> acc == RangeSum(prev, u, idx)
      decreases v - idx
    {
      if idx >= |prev| {
        return Err(IndexOutOfBounds(|prev|, idx));
      }
      acc := Field.Add(acc, prev[idx]);
      idx := idx + 1;
    }
    return Ok(acc);
  }

  /** The match on the gate type of a later layer. */
  method EvaluateGate(g: Gate, prev: seq<Fe>) returns (r: Result<Fe, Panic>)
    ensures r == GateValue(g, prev)
  {
    if g.ty == Sum {
      r := SumRange(prev, g.u, g.v);
    } else {
      r := GateValue(g, prev);
    }
  }

  /** One layer: a zero-filled array of `1 << bit_length` elements, written by gate id. */
  method EvaluateLayer(l: Parse.Layer, prev: seq<Fe>, first: bool) returns (r: Result<seq<Fe>, Panic>)
    ensures r == LayerValues(l, prev, first)
  {
    if l.bitLength >= USIZE_BITS {
      return Err(ShiftOverflow);
    }
    var cur := new Fe[Pow2(l.bitLength)](_ => Field.Zero);
    assert cur[..] == Zeros(Pow2(l.bitLength));
    for id := 0 to |l.gates|
      invariant LayerValues(l, prev, first) == Fill(l.gates, prev, first, cur[..], id)
    {
      var out: Result<Fe, Panic>;
      if first {
        out := InputValue(l.gates[id]);
      } else {
        out := EvaluateGate(l.gates[id], prev);
      }
      if out.Err? {
        return Err(out.error);
      }
      if id >= cur.Length {
        return Err(IndexOutOfBounds(cur.Length, id));
      }
      cur[id] := out.value;
    }
    return Ok(cur[..]);
  }

  /** `Prover::evaluate`: layer 0, then every later layer from the one below it. */
  method Evaluate(c: Parse.Circuit) returns (r: Result<Prover, Panic>)
    ensures r == Evaluated(c)
  {
    if |c.layers| == 0 {
      return Err(IndexOutOfBounds(0, 0));
    }
    var layer0 := EvaluateLayer(c.layers[0], [], true);
    if layer0.Err? {
      TraceAborts(c.layers, 1);
      return Err(layer0.error);
    }
    var values := [layer0.value];
    assert c.layers[..1] == [c.layers[0]];
    for i := 1 to |c.layers|
      invariant Trace(c.layers[..i]) == Ok(values)
    {
      assert c.layers[..i + 1][..i] == c.layers[..i];
      var cur := EvaluateLayer(c.layers[i], values[i - 1], false);
      if cur.Err? {
        TraceAborts(c.layers, i + 1);
        return Err(cur.error);
      }
      values := values + [cur.value];
    }
    assert c.layers[..|c.layers|] == c.layers;
    return Ok(Prover(values));
  }

  /** A failure in the first `k` layers is the failure of the whole evaluation. */
  lemma {:induction false} TraceAborts(layers: seq<Parse.Layer>, k: nat)
    requires 1 <= k <= |layers|
    requires Trace(layers[..k]).Err?
    ensures Trace(layers) == Trace(layers[..k])
    decreases |layers| - k
  {
    if k == |layers| {
      assert layers[..k] == layers;
    } else {
      assert layers[..k + 1][..k] == layers[..k];
      TraceAborts(layers, k + 1);
    }
  }
}
