/** What the evaluator computes: which circuits it evaluates without aborting, the shape of
    the value vectors, the zero padding, and the per-gate formulas as integer identities. */
module EvaluationFacts {
  import opened Wrappers
  import opened Ints
  import Field
  import opened Gates
  import Parse
  import opened Evaluation

  // ---------------------------------------------------------------------------
  // Which circuits evaluate
  // ---------------------------------------------------------------------------

  /** The operands a gate of a later layer reads lie inside a previous vector of length `n`. */
  predicate OperandsInRange(g: Gate, n: nat) {
    match g.ty
    case Add => g.u < n && g.v < n
    case Mul => g.u < n && g.v < n
    case Minus => g.u < n && g.v < n
    case Xor => g.u < n && g.v < n
    case Naab => g.u < n && g.v < n
    case DirectRelay => g.u < n
    case Relay => g.u < n
    case Not => g.u < n
    case Sum => g.v <= g.u || g.v <= n
    case Dummy => true
    case Input => true
  }

  /** A layer whose vector can be allocated and holds all its gates, whose gates are inputs or
      dummies (layer 0, `first`) or read inside a previous vector of length `prevLen`. */
  predicate LayerWellFormed(l: Parse.Layer, prevLen: nat, first: bool) {
    l.bitLength < USIZE_BITS && |l.gates| <= Pow2(l.bitLength) &&
    forall j :: 0 <= j < |l.gates| ==>
      if first then l.gates[j].ty == Input || l.gates[j].ty == Dummy
      else OperandsInRange(l.gates[j], prevLen)
  }

  /** A circuit the evaluator runs through: it has a layer 0, and every layer is well formed
      against the vector of the layer below it. */
  predicate WellFormed(layers: seq<Parse.Layer>) {
    |layers| >= 1 && LayerWellFormed(layers[0], 0, true) &&
    forall k :: 1 <= k < |layers| ==> LayerWellFormed(layers[k], Pow2(layers[k - 1].bitLength), false)
  }

  /** A gate of a later layer has a value exactly when its operands are in range. */
  lemma GateValueDefined(g: Gate, prev: seq<Field.Fe>)
    ensures GateValue(g, prev).Ok? <==> OperandsInRange(g, |prev|)
  {
  }

  /** The gate loop from `id` on succeeds exactly when every remaining gate has a value and an
      id inside the vector; it then writes each remaining gate's value at its id and leaves
      every other entry as it was. */
  lemma {:induction false} FillSpec(gates: seq<Gate>, prev: seq<Field.Fe>, first: bool, cur: seq<Field.Fe>, id: nat)
    requires id <= |gates|
    ensures Fill(gates, prev, first, cur, id).Ok? <==>
      (id < |gates| ==> |gates| <= |cur|) && forall j :: id <= j < |gates| ==> Out(first, gates[j], prev).Ok?
    ensures Fill(gates, prev, first, cur, id).Ok? ==>
      var w := Fill(gates, prev, first, cur, id).value;
      |w| == |cur| &&
      (forall j :: id <= j < |gates| ==> w[j] == Out(first, gates[j], prev).value) &&
      (forall j :: 0 <= j < |cur| && !(id <= j < |gates|) ==> w[j] == cur[j])
    decreases |gates| - id
  {
    if id < |gates| {
      if id < |cur| && Out(first, gates[id], prev).Ok? {
        var next := cur[id := Out(first, gates[id], prev).value];
        FillSpec(gates, prev, first, next, id + 1);
      }
    }
  }

  /** A layer's vector exists exactly when its shift fits `usize`, its gates fit the vector and
      each has a value; it then has `2^bit_length` entries, gate `j`'s value at `j`, and zeros
      after the last gate. */
  lemma LayerValuesSpec(l: Parse.Layer, prev: seq<Field.Fe>, first: bool)
    ensures LayerValues(l, prev, first).Ok? <==>
      l.bitLength < USIZE_BITS && |l.gates| <= Pow2(l.bitLength) &&
      forall j :: 0 <= j < |l.gates| ==> Out(first, l.gates[j], prev).Ok?
    ensures LayerValues(l, prev, first).Ok? ==>
      var w := LayerValues(l, prev, first).value;
      |w| == Pow2(l.bitLength) &&
      forall j :: 0 <= j < |w| ==>
        w[j] == if j < |l.gates| then Out(first, l.gates[j], prev).value else Field.Zero
  {
    if l.bitLength < USIZE_BITS {
      FillSpec(l.gates, prev, first, Zeros(Pow2(l.bitLength)), 0);
    }
  }

  /** A layer's vector exists exactly when the layer is well formed against `prev`. */
  lemma LayerValuesDefined(l: Parse.Layer, prev: seq<Field.Fe>, first: bool)
    ensures LayerValues(l, prev, first).Ok? <==> LayerWellFormed(l, |prev|, first)
  {
    LayerValuesSpec(l, prev, first);
    forall j | 0 <= j < |l.gates|
      ensures Out(first, l.gates[j], prev).Ok? <==>
        if first then l.gates[j].ty == Input || l.gates[j].ty == Dummy
        else OperandsInRange(l.gates[j], |prev|)
    {
      GateValueDefined(l.gates[j], prev);
    }
  }

  /** `vs` holds one vector per layer of `layers`, each of `2^bit_length` entries, layer 0's
      computed from its inputs and every later layer's from the vector below it. */
  predicate LayeredFrom(layers: seq<Parse.Layer>, vs: seq<seq<Field.Fe>>) {
    |vs| == |layers| >= 1 &&
    (forall k :: 0 <= k < |layers| ==> |vs[k]| == Pow2(layers[k].bitLength)) &&
    LayerValues(layers[0], [], true) == Ok(vs[0]) &&
    forall k :: 1 <= k < |layers| ==> LayerValues(layers[k], vs[k - 1], false) == Ok(vs[k])
  }

  /** Evaluation succeeds exactly on well-formed circuits, and then gives the vectors of the
      layers, each computed from the one below it. */
  lemma {:induction false} TraceSpec(layers: seq<Parse.Layer>)
    ensures Trace(layers).Ok? <==> WellFormed(layers)
    ensures Trace(layers).Ok? ==> LayeredFrom(layers, Trace(layers).value)
    decreases |layers|
  {
    if |layers| == 1 {
      LayerValuesSpec(layers[0], [], true);
      LayerValuesDefined(layers[0], [], true);
    } else if |layers| > 1 {
      var n := |layers|;
      var below := layers[..n - 1];
      TraceSpec(below);
      assert forall k :: 0 <= k < n - 1 ==> below[k] == layers[k];
      assert WellFormed(layers) <==>
        WellFormed(below) && LayerWellFormed(layers[n - 1], Pow2(layers[n - 2].bitLength), false);
      if Trace(below).Ok? {
        var vs := Trace(below).value;
        LayerValuesSpec(layers[n - 1], vs[n - 2], false);
        LayerValuesDefined(layers[n - 1], vs[n - 2], false);
        if Trace(layers).Ok? {
          ExtendLayered(layers, vs, Trace(layers).value);
        }
      }
    }
  }

  lemma ExtendLayered(layers: seq<Parse.Layer>, vs: seq<seq<Field.Fe>>, ws: seq<seq<Field.Fe>>)
    requires |layers| >= 2 && LayeredFrom(layers[..|layers| - 1], vs)
    requires LayerValues(layers[|layers| - 1], vs[|vs| - 1], false).Ok?
    requires ws == vs + [LayerValues(layers[|layers| - 1], vs[|vs| - 1], false).value]
    ensures LayeredFrom(layers, ws)
  {
    var n := |layers|;
    assert forall k :: 0 <= k < n - 1 ==> layers[..n - 1][k] == layers[k];
    LayerValuesSpec(layers[n - 1], vs[n - 2], false);
  }

  /** The vector of layer `k` as the evaluator leaves it: gate `j`'s value at `j` — its input
      in layer 0, its formula over the layer below otherwise — and zeros from the gate count
      up to `2^bit_length`. */
  lemma EvaluatedValues(c: Parse.Circuit, k: nat)
    requires Evaluated(c).Ok? && k < |c.layers|
    ensures var vs := Evaluated(c).value.values;
      |vs| == |c.layers| && |vs[k]| == Pow2(c.layers[k].bitLength) &&
      forall j :: 0 <= j < |vs[k]| ==>
        if j >= |c.layers[k].gates| then vs[k][j] == Field.Zero
        else if k == 0 then InputValue(c.layers[0].gates[j]) == Ok(vs[k][j])
        else GateValue(c.layers[k].gates[j], vs[k - 1]) == Ok(vs[k][j])
  {
    var vs := Evaluated(c).value.values;
    TraceSpec(c.layers);
    if k == 0 {
      LayerValuesSpec(c.layers[0], [], true);
    } else {
      LayerValuesSpec(c.layers[k], vs[k - 1], false);
    }
  }

  // ---------------------------------------------------------------------------
  // The formula table, over the integers
  // ---------------------------------------------------------------------------

  /** The integer sum of a sequence of field elements' representatives, from the front. */
  function SeqSum(s: seq<Field.Fe>): int {
    if |s| == 0 then 0 else s[0] + SeqSum(s[1..])
  }

  lemma {:induction false} SeqSumSnoc(s: seq<Field.Fe>, x: Field.Fe)
    ensures SeqSum(s + [x]) == SeqSum(s) + x
  {
    if |s| > 0 {
      assert (s + [x])[1..] == s[1..] + [x];
      SeqSumSnoc(s[1..], x);
    }
  }

  /** The accumulator of a `Sum` gate is the residue of the sum of `prev[u..v]`. */
  lemma {:induction false} RangeSumIsSum(prev: seq<Field.Fe>, u: nat, v: nat)
    requires u <= v <= |prev|
    ensures RangeSum(prev, u, v) == Field.Reduce(SeqSum(prev[u..v]))
    decreases v
  {
    if u == v {
      assert prev[u..v] == [];
    } else {
      RangeSumIsSum(prev, u, v - 1);
      assert prev[u..v] == prev[u..v - 1] + [prev[v - 1]];
      SeqSumSnoc(prev[u..v - 1], prev[v - 1]);
      Field.ReduceCanonical(prev[v - 1]);
      Field.AddReduce(SeqSum(prev[u..v - 1]), prev[v - 1]);
    }
  }

  /** Each gate type's value, where its operands are in range, as the residue of an integer
      formula over its operands `x = prev[u]` and `y = prev[v]`. */
  lemma GateFormulas(g: Gate, prev: seq<Field.Fe>)
    requires OperandsInRange(g, |prev|)
    ensures GateValue(g, prev).Ok?
    ensures g.ty == Add ==> GateValue(g, prev).value == Field.Reduce(prev[g.u] as int + prev[g.v])
    ensures g.ty == Mul ==> GateValue(g, prev).value == Field.Reduce(prev[g.u] as int * prev[g.v])
    ensures g.ty == Minus ==> GateValue(g, prev).value == Field.Reduce(prev[g.u] as int - prev[g.v])
    ensures g.ty == Not ==> GateValue(g, prev).value == Field.Reduce(1 - prev[g.u] as int)
    ensures g.ty == Xor ==>
      GateValue(g, prev).value == Field.Reduce(prev[g.u] as int + prev[g.v] - 2 * (prev[g.u] as int) * prev[g.v])
    ensures g.ty == Naab ==> GateValue(g, prev).value == Field.Reduce(prev[g.v] as int - (prev[g.u] as int) * prev[g.v])
    ensures g.ty in {DirectRelay, Relay} ==> GateValue(g, prev).value == prev[g.u]
    ensures g.ty == Sum ==>
      GateValue(g, prev).value == if g.v <= g.u then 0 else Field.Reduce(SeqSum(prev[g.u..g.v]))
    ensures g.ty == Dummy ==> GateValue(g, prev).value == 0
    ensures g.ty == Input ==> GateValue(g, prev).value == g.u
  {
    GateValueDefined(g, prev);
    if g.ty in {Xor, Naab} {
      Field.ReduceCanonical(prev[g.u]);
      Field.ReduceCanonical(prev[g.v]);
      XorIdentity(prev[g.u], prev[g.v]);
      NaabIdentity(prev[g.u], prev[g.v]);
    } else if g.ty == Sum && g.u < g.v {
      RangeSumIsSum(prev, g.u, g.v);
    }
  }

  /** The field expression of `Xor` denotes the integer one, for operands given as any integers. */
  lemma XorIdentity(x: int, y: int)
    ensures Field.Sub(Field.Add(Field.Reduce(x), Field.Reduce(y)),
                      Field.Mul(Field.Mul(Field.FromU64(2), Field.Reduce(x)), Field.Reduce(y))) ==
      Field.Reduce(x + y - 2 * x * y)
  {
    Field.AddReduce(x, y);
    Field.MulReduce(2, x);
    Field.MulReduce(2 * x, y);
    Field.SubReduce(x + y, 2 * x * y);
  }

  /** The field expression of `Naab` denotes the integer one. */
  lemma NaabIdentity(x: int, y: int)
    ensures Field.Sub(Field.Reduce(y), Field.Mul(Field.Reduce(x), Field.Reduce(y))) == Field.Reduce(y - x * y)
  {
    Field.MulReduce(x, y);
    Field.SubReduce(y, x * y);
  }

  /** On boolean operands the arithmetised gates are the boolean ones: `Xor` is exclusive or,
      `Naab` is "not x and y", `Not` is negation, `Mul` is conjunction. */
  lemma BooleanGates(g: Gate, prev: seq<Field.Fe>)
    requires g.u < |prev| && g.v < |prev|
    requires prev[g.u] in {0, 1} && prev[g.v] in {0, 1}
    ensures g.ty == Xor ==> GateValue(g, prev) == Ok(if prev[g.u] != prev[g.v] then 1 else 0)
    ensures g.ty == Naab ==> GateValue(g, prev) == Ok(if prev[g.u] == 0 && prev[g.v] == 1 then 1 else 0)
    ensures g.ty == Not ==> GateValue(g, prev) == Ok(1 - prev[g.u])
    ensures g.ty == Mul ==> GateValue(g, prev) == Ok(if prev[g.u] == 1 && prev[g.v] == 1 then 1 else 0)
  {
    GateFormulas(g, prev);
  }

  /** An input gate of layer 0 holds its `u` unchanged, since `u < 2^64 < P`. */
  lemma InputGateValue(g: Gate)
    requires g.ty == Input
    ensures InputValue(g) == Ok(g.u)
  {
  }
}
