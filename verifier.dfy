/** The verifier (verifier/src/lib.rs): it re-evaluates the circuit and accepts exactly when
    the prover's output layer equals the fresh one. A panic of the re-evaluation, or of
    `outputs` on a prover without layers, aborts instead of answering. */
module Verification {
  import opened Wrappers
  import opened Gates
  import Field
  import Parse
  import opened Evaluation

  /** `Verifier::verify`: evaluate `c` afresh, then compare `p.outputs()` with the fresh
      outputs. */
  function Verify(c: Parse.Circuit, p: Prover): Result<bool, Panic> {
    var again :- Evaluated(c);
    var mine :- p.Outputs();
    var theirs :- again.Outputs();
    Ok(mine == theirs)
  }

  /** The verdict: an answer exactly when the circuit evaluates and the prover has a layer;
      acceptance exactly when the prover's last layer is the evaluation's last layer. */
  lemma VerifySpec(c: Parse.Circuit, p: Prover)
    ensures Verify(c, p).Ok? <==> Evaluated(c).Ok? && |p.values| > 0
    ensures Verify(c, p).Ok? ==>
      var vs := Evaluated(c).value.values;
      |vs| == |c.layers| >= 1 &&
      (Verify(c, p).value <==> p.values[|p.values| - 1] == vs[|vs| - 1])
  {
  }

  /** A failure of the re-evaluation aborts the verifier, whatever the prover holds. */
  lemma FailureAborts(c: Parse.Circuit, p: Prover)
    requires Evaluated(c).Err?
    ensures Verify(c, p) == Err(Evaluated(c).error)
  {
  }

  /** Completeness: the honest prover is accepted. */
  lemma Completeness(c: Parse.Circuit)
    requires Evaluated(c).Ok?
    ensures Verify(c, Evaluated(c).value) == Ok(true)
  {
  }

  /** Only the output layer is compared: provers with the same last layer get the same
      verdict, and so a change to any other layer changes nothing. */
  lemma OnlyOutputsMatter(c: Parse.Circuit, p: Prover, q: Prover)
    requires |p.values| > 0 && |q.values| > 0
    requires p.values[|p.values| - 1] == q.values[|q.values| - 1]
    ensures Verify(c, p) == Verify(c, q)
  {
  }

  lemma InnerLayerIgnored(c: Parse.Circuit, p: Prover, k: nat, w: seq<Field.Fe>)
    requires k + 1 < |p.values|
    ensures Verify(c, Prover(p.values[k := w])) == Verify(c, p)
  {
    OnlyOutputsMatter(c, Prover(p.values[k := w]), p);
  }

  /** Soundness of the comparison: changing one entry of the honest output layer, or giving
      an output layer of another length, is rejected. */
  lemma CorruptedOutputRejected(c: Parse.Circuit, j: nat, x: Field.Fe)
    requires Evaluated(c).Ok?
    requires var vs := Evaluated(c).value.values; j < |vs[|vs| - 1]| && x != vs[|vs| - 1][j]
    ensures var vs := Evaluated(c).value.values;
      var bad: seq<Field.Fe> := vs[|vs| - 1][j := x];
      Verify(c, Prover(vs[|vs| - 1 := bad])) == Ok(false)
  {
    var vs := Evaluated(c).value.values;
    var bad: seq<Field.Fe> := vs[|vs| - 1][j := x];
    assert bad[j] != vs[|vs| - 1][j];
  }

  lemma ResizedOutputRejected(c: Parse.Circuit, p: Prover)
    requires Evaluated(c).Ok? && |p.values| > 0
    requires var vs := Evaluated(c).value.values; |p.values[|p.values| - 1]| != |vs[|vs| - 1]|
    ensures Verify(c, p) == Ok(false)
  {
  }

  /** The circuit that adds the inputs 5 and 7. */
  function AddCircuit(): Parse.Circuit {
    Parse.Circuit([
      Parse.Layer([Gate(Input, 5, 0), Gate(Input, 7, 0)], 1),
      Parse.Layer([Gate(Add, 0, 1)], 1)])
  }

  /** It evaluates to `[5, 7]` then `[12, 0]`; the honest output is accepted and the output
      corrupted from 12 to 13 is rejected. */
  lemma AddCircuitExample()
    ensures Evaluated(AddCircuit()) == Ok(Prover([[5, 7], [12, 0]]))
    ensures Verify(AddCircuit(), Prover([[5, 7], [12, 0]])) == Ok(true)
    ensures Verify(AddCircuit(), Prover([[5, 7], [13, 0]])) == Ok(false)
  {
    var c := AddCircuit();
    assert c.layers[..1] == [c.layers[0]];
    var z: seq<Field.Fe> := [0, 0];
    var five: seq<Field.Fe> := [5, 0];
    var inputs: seq<Field.Fe> := [5, 7];
    var sum: seq<Field.Fe> := [12, 0];
    assert Zeros(2) == z;
    assert LayerValues(c.layers[0], [], true) == Ok(inputs) by {
      assert Out(true, Gate(Input, 5, 0), []) == Ok(5);
      assert Out(true, Gate(Input, 7, 0), []) == Ok(7);
      assert z[0 := 5] == five;
      assert five[1 := 7] == inputs;
    }
    assert LayerValues(c.layers[1], inputs, false) == Ok(sum) by {
      assert Out(false, Gate(Add, 0, 1), inputs) == Ok(12);
      assert z[0 := 12] == sum;
    }
    assert Trace(c.layers[..1]) == Ok([inputs]);
    assert Trace(c.layers) == Ok([inputs] + [sum]);
    assert [inputs] + [sum] == [inputs, sum];
    assert Evaluated(c) == Ok(Prover([inputs, sum]));
    var bad: seq<Field.Fe> := [13, 0];
    assert bad != [12, 0] by {
      assert bad[0] != 12;
    }
  }
}
