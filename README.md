# linear-gkr-rs in Dafny

A verified model of the core of `linear-gkr-rs`, a Rust port of a layered arithmetic-circuit
prover and verifier over the BN254 scalar field. These parts are modelled:

- **Gate types** (`circuit/src/gate.rs`, module `Gates`): the eleven gate types, their `u8`
  discriminants and `GateType::try_from`.
- **Circuit text parser** (`circuit/src/parse.rs`, modules `Parse` and `ParseFacts`):
  `load_from_reader`, with the reader given as the sequence of lines that successive `read_line`
  calls return. The parser reads the depth line and, per layer, the gate count, the `4n`
  integers spread over as many lines as needed, the count check, the dense-id check, the
  `as u8` / `as usize` casts and the bit length.
  - A functional specification `Load` is proved equal to the imperative `LoadFromReader`.
  - Lemmas state each error case and where every gate comes from.
  - A reference renderer (module `CircuitText`) writes circuits back out; loading its output
    gives the circuit back.
- **Evaluator** (`prover/src/lib.rs`, modules `Evaluation` and `EvaluationFacts`):
  `Prover::evaluate` and `outputs`. The imperative evaluator fills a zero-padded array of
  `1 << bit_length` field elements per layer, and is proved equal to the functional `Evaluated`.
  - Every panic of the evaluator is an explicit `Err(Panic)` result, in the order the source
    reaches it: no layers, a shift past the width of `usize`, a non-input gate in layer 0, and an
    index outside a vector.
  - `TraceSpec` proves that evaluation succeeds exactly on well-formed circuits.
  - The per-gate formulas are proved as integer identities mod P.
- **Verifier** (`verifier/src/lib.rs`, module `Verification`): `Verifier::verify` re-evaluates
  the circuit and compares the output layers. Proved: completeness, soundness of the
  comparison, the fact that only the output layer matters, and the worked example of adding
  5 and 7.
- **Polynomials** (`polynomial/src/lib.rs`, module `Polynomial`, constant coefficient first;
  `polynomial/src/quad.rs`, module `Quad`, leading coefficient first):
  - Horner evaluation, proved equal to the power sum of each doc comment.
  - Coefficient-wise `+` and `+=`, with linearity of evaluation.
  - The zero `Default`.
  - `LinearPoly × LinearPoly → QuadraticPoly`, whose value is the product of the values.
  - Both files' types share the dense-coefficient model of module `Coefficients`.
- **Field** (`field/src/lib.rs`, module `Field`):
  - Elements are the integers in `[0, P)`, with P the BN254 scalar order, and arithmetic is
    mod P.
  - `u64::fe`.
  - `bit_stream` and `to_bits_le`, as the little-endian bits of the canonical integer.

Supporting modules:

- `Wrappers`: the `Result` type.
- `Ints`: machine-integer casts, powers of two, bit width and `u32::leading_zeros`.
- `Text`: the parts of Rust's string library the parser uses: `trim`, `split_whitespace`,
  `parse` for `usize`/`i64` with the `ParseIntError` messages, and decimal formatting.

Modelling choices:

- `usize` is 32 bits wide (`Ints.USIZE_BITS`). On such a target the bit-length formula gives
  the intended value; the 64-bit behaviour is recorded under "Findings". Negative `u`/`v`
  tokens therefore wrap modulo 2^32, not 2^64.
- Panics of the parser (debug-build arithmetic overflow) are `Parse.Error.Panic` results.
  Panics of the evaluator are `Evaluation.Panic` results: the index and length of an
  out-of-bounds access, a shift overflow, a non-input gate in layer 0, and `unwrap` of
  `None`.
- Where the design text and the code differ, the model follows the code:
  - The verifier only re-evaluates and compares; there is no β-tensor, multilinear extension
    or sum-check reduction in the code.
  - Output vectors are zero-padded to `2^bit_length`, so the example's output layer is
    `[12, 0]`.
  - Malformed circuits make the code abort rather than fail with a typed error.

## Model

| member | source | states |
|---|---|---|
| Gates.Code | linear-gkr-rs/circuit/src/gate.rs:5-17 | every gate type has its `#[repr(u8)]` discriminant in 0..=10, and decoding that discriminant gives the type back |
| Gates.TryFrom | linear-gkr-rs/circuit/src/gate.rs:21-37 | decoding succeeds exactly for codes <= 10; any other code is the error `unknown gate type v` with v in decimal |
| Gates.TryFromInvertsCode | linear-gkr-rs/circuit/src/gate.rs:23-34 | on 0..=10 decoding is the exact inverse of the discriminant |
| Gates.TryFromInjective | linear-gkr-rs/circuit/src/gate.rs:24-34 | distinct codes in 0..=10 decode to distinct gate types |
| Parse.MaxGate | linear-gkr-rs/circuit/src/parse.rs:66 | `max_gate` is between 1 and the gate count |
| Parse.BitLengthOn | linear-gkr-rs/circuit/src/parse.rs:67 | the formula as written is `usize::BITS - 32 + bitwidth(max_gate as u32)` on a target of any `usize` width |
| Parse.BitLength | linear-gkr-rs/circuit/src/parse.rs:65-67 | the intended bit length is the least k >= 1 with n <= 2^k: 1 for one or two gates, otherwise 2^(k-1) < n |
| Parse.BitLengthBound | linear-gkr-rs/circuit/src/parse.rs:65-67 | for a gate count below 2^32 the bit length is at most 32 |
| Parse.BitLengthOnTarget | linear-gkr-rs/circuit/src/parse.rs:67 | with a 32-bit `usize` the formula as written is the intended bit length |
| Parse.BitLengthOn64Offset | linear-gkr-rs/circuit/src/parse.rs:67 | with a 64-bit `usize` the formula as written is 32 more than the intended bit length |
| Parse.BitLengthOn64Example | linear-gkr-rs/circuit/src/parse.rs:67 | two gates get bit length 33 on a 64-bit target, not the intended 1 |
| Parse.ParseInts | linear-gkr-rs/circuit/src/parse.rs:43 | on success there is one value per token |
| Parse.ParseIntsCases | linear-gkr-rs/circuit/src/parse.rs:43 | the tokens parse exactly when each parses as an `i64`, and then the values are the parsed tokens in order |
| Parse.ParseTokens | linear-gkr-rs/circuit/src/parse.rs:43 | the token loop returns exactly `ParseInts` of the tokens, stopping at the first token that does not parse |
| Parse.Gather | linear-gkr-rs/circuit/src/parse.rs:44-51 | the reader never moves backwards (what the loop reads is stated by `ParseFacts.GatherReadsWhatIsNeeded`) |
| Parse.ReadInts | linear-gkr-rs/circuit/src/parse.rs:44-51 | the imperative `while ints.len() < 4 * n` loop (read a line, stop at end of input, parse and append its tokens) returns exactly `Gather` |
| Parse.DecodeGates | linear-gkr-rs/circuit/src/parse.rs:55-64 | on success there is one gate per 4 integers |
| Parse.BuildGates | linear-gkr-rs/circuit/src/parse.rs:55-64 | the gate loop returns exactly `DecodeGates` of the integers |
| Parse.LayerOf | linear-gkr-rs/circuit/src/parse.rs:52-67 | after the count check, the gate loop and the bit length, a layer that passes has at least one gate, a count n with 4n below 2^32 and the intended bit length, and the reader stays where the integer loop left it |
| Parse.FinishLayer | linear-gkr-rs/circuit/src/parse.rs:52-67 | the imperative count check, gate loop and bit length return exactly `LayerOf` |
| Parse.LoadLayer | linear-gkr-rs/circuit/src/parse.rs:33-68 | a layer that loads has at least one gate, a count n with 4n below 2^32 and the intended bit length; the reader moves forward |
| Parse.ReadLayer | linear-gkr-rs/circuit/src/parse.rs:33-69 | the imperative body of the layer loop (line buffer, the `while ints.len() < 4 * n` loop, count check, gate loop, bit length) returns exactly `LoadLayer` |
| Parse.LoadLayers | linear-gkr-rs/circuit/src/parse.rs:32-70 | on success there are exactly d - layer layers, each with the shape of `ParsedLayer` |
| Parse.Load | linear-gkr-rs/circuit/src/parse.rs:24-72 | a circuit that loads has as many layers as the trimmed first line says, each with the shape of `ParsedLayer` |
| Parse.LoadFromReader | linear-gkr-rs/circuit/src/parse.rs:24-72 | the imperative `load_from_reader` returns exactly `Load` of the lines |
| ParseFacts.DepthLine | linear-gkr-rs/circuit/src/parse.rs:27-28 | the trimmed first line is the depth; if it is not a `usize`, loading fails with `invalid depth: ` and the `ParseIntError` text |
| ParseFacts.HeaderErrors | linear-gkr-rs/circuit/src/parse.rs:33-40 | a header without tokens gives `missing gate count`, a bad first token gives `invalid gate count: ...`, and a count whose 4n overflows `usize` panics |
| ParseFacts.EmptyLayerPanics | linear-gkr-rs/circuit/src/parse.rs:66 | a layer with gate count 0 panics at `gates.len() - 1` |
| ParseFacts.GatherReadsWhatIsNeeded | linear-gkr-rs/circuit/src/parse.rs:44-51 | the integer loop reads whole lines, one after the other, only while fewer than 4n integers are held, and stops at the first line that is empty (end of input) |
| ParseFacts.DecodeGateCases | linear-gkr-rs/circuit/src/parse.rs:56-62 | gate i decodes exactly when its type code's low byte is <= 10 and its id cast to `usize` is i; the exact error messages otherwise; the gate's type, u and v are read from tokens 4i, 4i+2 and 4i+3 |
| ParseFacts.DecodeGatesCases | linear-gkr-rs/circuit/src/parse.rs:55-64 | the gates decode exactly when each gate does; the values come in order, and a failure is the error of the first gate that fails |
| ParseFacts.DenseIdsRequired | linear-gkr-rs/circuit/src/parse.rs:60-62 | the first gate whose id is not its position is rejected with the `sorted & dense` message |
| ParseFacts.CastExamples | linear-gkr-rs/circuit/src/parse.rs:56-59 | code 256 decodes as Add and -253 as Input (low byte); u of -1 wraps to 2^32 - 1; an id of 2^32 is 0 after the cast; code 11 is `unknown gate type 11` |
| ParseFacts.DecodedGatesFrom | linear-gkr-rs/circuit/src/parse.rs:55-64 | decoded gate i has the type, u and v of tokens 4i, 4i+2 and 4i+3, and its id token casts to i |
| ParseFacts.LayerFromTokens | linear-gkr-rs/circuit/src/parse.rs:33-64 | a loaded layer's gate count is the header's first token, and its gates come, in order, from the integers read for it |
| ParseFacts.CountMismatchRejected | linear-gkr-rs/circuit/src/parse.rs:52-54 | if end of input comes before 4n integers, or the last line holds surplus integers, the layer is rejected with the count message |
| ParseFacts.LoadedLayers | linear-gkr-rs/circuit/src/parse.rs:32-70 | the layers that load were read one after the other, each from the reader position where the previous one ended |
| ParseFacts.LoadedCircuit | linear-gkr-rs/circuit/src/parse.rs:24-72 | a loaded circuit has the depth of the first line, and its layers were loaded one after the other from the second line on |
| CircuitText.LoadRender | linear-gkr-rs/circuit/src/parse.rs:24-72 | loading the reference rendering of any circuit with parser-shaped layers gives that circuit back |
| CircuitText.LoadedRenders | linear-gkr-rs/circuit/src/parse.rs:24-72 | every circuit the parser produces has that shape, so re-rendering and re-loading gives the same result |
| CircuitText.LoadRenderedLayer | linear-gkr-rs/circuit/src/parse.rs:33-69 | one rendered layer line loads back to the layer and consumes exactly one line |
| CircuitText.LoadSuccessiveLayers | linear-gkr-rs/circuit/src/parse.rs:32-70 | when each line from k + 1 on holds the next layer, the layer loop loads exactly those layers |
| CircuitText.SplitSpaced | linear-gkr-rs/circuit/src/parse.rs:34 | `split_whitespace` recovers the tokens of a space-separated line |
| Evaluation.Prover.Outputs | linear-gkr-rs/prover/src/lib.rs:65-67 | `outputs` is the last layer's vector, and it panics (`unwrap` of `None`) exactly when there are no layers |
| Evaluation.Operand | linear-gkr-rs/prover/src/lib.rs:31 | reading `values[i-1][j]` succeeds exactly when j is inside the previous vector |
| Evaluation.SumGate | linear-gkr-rs/prover/src/lib.rs:36-42 | a Sum gate succeeds exactly when u..v is empty or ends inside the previous vector (and 0 for an empty range) |
| Evaluation.InputValue | linear-gkr-rs/prover/src/lib.rs:17-22 | a layer-0 gate has a value exactly when it is Input or Dummy |
| Evaluation.Trace | linear-gkr-rs/prover/src/lib.rs:12-62 | a successful evaluation has one vector per layer |
| Evaluation.SumRange | linear-gkr-rs/prover/src/lib.rs:36-42 | the `acc` loop gives exactly `SumGate`, including the panic at the first index past the end |
| Evaluation.EvaluateGate | linear-gkr-rs/prover/src/lib.rs:30-55 | the match on the gate type gives exactly `GateValue` |
| Evaluation.EvaluateLayer | linear-gkr-rs/prover/src/lib.rs:27-58 | the zero-filled array of `1 << bit_length` elements, written gate by gate, gives exactly `LayerValues` |
| Evaluation.Evaluate | linear-gkr-rs/prover/src/lib.rs:12-62 | `Prover::evaluate` (layer 0, then each later layer from the one below) gives exactly `Evaluated` |
| Evaluation.TraceAborts | linear-gkr-rs/prover/src/lib.rs:27-58 | a failure in the first k layers is the failure of the whole evaluation |
| EvaluationFacts.GateValueDefined | linear-gkr-rs/prover/src/lib.rs:30-55 | a gate of a later layer has a value exactly when the operands it reads are inside the previous vector |
| EvaluationFacts.FillSpec | linear-gkr-rs/prover/src/lib.rs:29-57 | the gate loop succeeds exactly when every gate has a value and its id fits the vector; it writes gate j's value at j and leaves the other entries unchanged |
| EvaluationFacts.LayerValuesSpec | linear-gkr-rs/prover/src/lib.rs:28-57 | a layer's vector exists exactly when the shift fits `usize`, its gates fit and each has a value; it has 2^bit_length entries, gate j's value at j, and zeros after the last gate |
| EvaluationFacts.LayerValuesDefined | linear-gkr-rs/prover/src/lib.rs:28-57 | for gates that fit, a layer's vector exists exactly when every gate is well formed (Input/Dummy in layer 0, operands in range later) |
| EvaluationFacts.TraceSpec | linear-gkr-rs/prover/src/lib.rs:12-62 | evaluation succeeds exactly on well-formed circuits, and then layer 0 is computed from its inputs and every later layer from the vector below |
| EvaluationFacts.EvaluatedValues | linear-gkr-rs/prover/src/lib.rs:12-62 | entry j of layer k is gate j's input value (layer 0) or formula over layer k-1, and 0 from the gate count up to 2^bit_length |
| EvaluationFacts.RangeSumIsSum | linear-gkr-rs/prover/src/lib.rs:36-42 | the Sum accumulator is the residue of the integer sum of `prev[u..v]` |
| EvaluationFacts.GateFormulas | linear-gkr-rs/prover/src/lib.rs:30-55 | with operands in range, each gate type is its formula: Add x+y, Mul xy, Minus x-y, Not 1-x, Xor x+y-2xy, Naab y-xy, the relays x, Sum over u..v (0 if empty), Dummy 0, Input u |
| EvaluationFacts.XorIdentity | linear-gkr-rs/prover/src/lib.rs:45-49 | for any integers x and y, the field expression of Xor on their residues is the residue of x + y - 2xy |
| EvaluationFacts.NaabIdentity | linear-gkr-rs/prover/src/lib.rs:50-54 | for any integers x and y, the field expression of Naab on their residues is the residue of y - xy |
| EvaluationFacts.BooleanGates | linear-gkr-rs/prover/src/lib.rs:43-54 | on operands in {0, 1}, Xor is exclusive or, Naab is `not x and y`, Not is negation and Mul is conjunction |
| EvaluationFacts.InputGateValue | linear-gkr-rs/prover/src/lib.rs:19 | an Input gate holds its u unchanged, since u < 2^64 < P |
| Verification.VerifySpec | linear-gkr-rs/verifier/src/lib.rs:11-15 | verify answers exactly when the re-evaluation succeeds and the prover has a layer; it accepts exactly when the prover's last layer equals the fresh last layer |
| Verification.FailureAborts | linear-gkr-rs/verifier/src/lib.rs:13 | a failed re-evaluation aborts verify whatever the prover holds |
| Verification.Completeness | linear-gkr-rs/verifier/src/lib.rs:12-14 | the honest prover `evaluate(c)` is accepted whenever evaluation succeeds |
| Verification.OnlyOutputsMatter | linear-gkr-rs/verifier/src/lib.rs:14 | provers with the same last layer get the same verdict |
| Verification.InnerLayerIgnored | linear-gkr-rs/verifier/src/lib.rs:14 | replacing any layer but the last does not change the verdict |
| Verification.CorruptedOutputRejected | linear-gkr-rs/verifier/src/lib.rs:14 | changing one entry of the honest output layer is rejected |
| Verification.ResizedOutputRejected | linear-gkr-rs/verifier/src/lib.rs:14 | an output layer of the wrong length is rejected |
| Verification.AddCircuitExample | linear-gkr-rs/verifier/src/lib.rs:11-15 | the circuit adding inputs 5 and 7 evaluates to [5, 7] then [12, 0]; the honest output is accepted and the output corrupted to 13 is rejected |
| Field.FromU64 | linear-gkr-rs/field/src/lib.rs:26 | `FieldElement::from(n)` of a `u64` is n itself, since P > 2^64 |
| Field.IntoFe | linear-gkr-rs/field/src/lib.rs:23-28 | `n.fe()` is `FieldElement::from(n)`, which is n |
| Field.BitStream | linear-gkr-rs/field/src/lib.rs:71-78 | `bit_stream` succeeds exactly when bits <= 256 (the assertion); it then returns exactly `bits` booleans, entry i being bit i of the canonical integer |
| Field.ToBitsLe | linear-gkr-rs/field/src/lib.rs:52-55 | `to_bits_le` is `bit_stream` and succeeds exactly when bits <= 256 |
| Field.BitStreamPrefix | linear-gkr-rs/field/src/lib.rs:76 | for k <= m <= 256 the first k bits are a prefix of the first m bits |
| Field.BitStreamU64RoundTrip | linear-gkr-rs/field/src/lib.rs:72-77 | the 64 bits of `x.fe()` for a `u64` x denote x again |
| Field.BitsLeValue | linear-gkr-rs/field/src/lib.rs:75 | the k low bits of n, read back as a number, are n mod 2^k |
| Ints.AsU8 | linear-gkr-rs/circuit/src/parse.rs:56 | `as u8` on an `i64` keeps values in 0..256 and is congruent mod 256 |
| Ints.AsUsize | linear-gkr-rs/circuit/src/parse.rs:57-59 | `as usize` on an `i64` keeps values in 0..2^32 and is congruent mod 2^32 |
| Ints.LeadingZeros32 | linear-gkr-rs/circuit/src/parse.rs:67 | `u32::leading_zeros` is 32 minus the bit width |
| Text.ParseUsizeDecimal | linear-gkr-rs/circuit/src/parse.rs:28 | a `usize` written in decimal parses back to itself |
| Text.ParseI64Decimal | linear-gkr-rs/circuit/src/parse.rs:43 | a non-negative `i64` written in decimal parses back to itself |
| Coefficients.PowerSum2 | linear-gkr-rs/polynomial/src/lib.rs:6 | the power sum of two coefficients is the polynomial c0 + c1·x of the doc comment |
| Coefficients.PowerSum3 | linear-gkr-rs/polynomial/src/lib.rs:33 | the power sum of three coefficients is c0 + c1·x + c2·x² |
| Coefficients.PowerSum4 | linear-gkr-rs/polynomial/src/lib.rs:62 | the power sum of four coefficients is c0 + c1·x + c2·x² + c3·x³ |
| Coefficients.PowerSum5 | linear-gkr-rs/polynomial/src/lib.rs:94 | the power sum of five coefficients is c0 + c1·x + … + c4·x⁴ |
| Coefficients.PowerSum6 | linear-gkr-rs/polynomial/src/lib.rs:127 | the power sum of six coefficients is c0 + c1·x + … + c5·x⁵ |
| Polynomial.Linear.EvalIsHorner | linear-gkr-rs/polynomial/src/lib.rs:14-16 | `evaluate` is Horner's rule on the coefficients, from the leading one down |
| Polynomial.Linear.EvalIsPowerSum | linear-gkr-rs/polynomial/src/lib.rs:6-16 | evaluation is the power sum of its coefficients [a, b], a + b·x, mod P |
| Polynomial.Linear.AddIsCoefficientwise | linear-gkr-rs/polynomial/src/lib.rs:18-26 | `+` adds coefficient by coefficient |
| Polynomial.Linear.AddIsLinear | linear-gkr-rs/polynomial/src/lib.rs:18-26 | (p + q)(x) = p(x) + q(x) for every x |
| Polynomial.Linear.AddAssign | linear-gkr-rs/polynomial/src/lib.rs:27-31 | `p += q` leaves `p + q`: coefficient-wise sums, and its value at every x is p(x) + q(x) |
| Polynomial.Linear.DefaultIsZero | linear-gkr-rs/polynomial/src/lib.rs:7 | the derived `Default` (all zero) evaluates to 0 everywhere |
| Polynomial.Linear.DefaultIsIdentity | linear-gkr-rs/polynomial/src/lib.rs:7 | `Default` is a two-sided identity of `+` |
| Polynomial.Linear.EvalAtZero | linear-gkr-rs/polynomial/src/lib.rs:14-16 | at 0 the value is the constant coefficient `a` |
| Polynomial.Quadratic.EvalIsHorner | linear-gkr-rs/polynomial/src/lib.rs:42-44 | `evaluate` is Horner's rule on the coefficients, from the leading one down |
| Polynomial.Quadratic.EvalIsPowerSum | linear-gkr-rs/polynomial/src/lib.rs:33-44 | evaluation is the power sum of its coefficients [a, b, c], a + b·x + c·x², mod P |
| Polynomial.Quadratic.AddIsCoefficientwise | linear-gkr-rs/polynomial/src/lib.rs:46-55 | `+` adds coefficient by coefficient |
| Polynomial.Quadratic.AddIsLinear | linear-gkr-rs/polynomial/src/lib.rs:46-55 | (p + q)(x) = p(x) + q(x) for every x |
| Polynomial.Quadratic.AddAssign | linear-gkr-rs/polynomial/src/lib.rs:56-60 | `p += q` leaves `p + q`: coefficient-wise sums, and its value at every x is p(x) + q(x) |
| Polynomial.Quadratic.DefaultIsZero | linear-gkr-rs/polynomial/src/lib.rs:34 | the derived `Default` (all zero) evaluates to 0 everywhere |
| Polynomial.Quadratic.DefaultIsIdentity | linear-gkr-rs/polynomial/src/lib.rs:34 | `Default` is a two-sided identity of `+` |
| Polynomial.Quadratic.EvalAtZero | linear-gkr-rs/polynomial/src/lib.rs:42-44 | at 0 the value is the constant coefficient `a` |
| Polynomial.Cubic.EvalIsHorner | linear-gkr-rs/polynomial/src/lib.rs:72-75 | `evaluate` is Horner's rule on the coefficients, from the leading one down |
| Polynomial.Cubic.EvalIsPowerSum | linear-gkr-rs/polynomial/src/lib.rs:62-75 | evaluation is the power sum of its coefficients [a, …, d], a + b·x + c·x² + d·x³, mod P |
| Polynomial.Cubic.AddIsCoefficientwise | linear-gkr-rs/polynomial/src/lib.rs:77-87 | `+` adds coefficient by coefficient |
| Polynomial.Cubic.AddIsLinear | linear-gkr-rs/polynomial/src/lib.rs:77-87 | (p + q)(x) = p(x) + q(x) for every x |
| Polynomial.Cubic.AddAssign | linear-gkr-rs/polynomial/src/lib.rs:88-92 | `p += q` leaves `p + q`: coefficient-wise sums, and its value at every x is p(x) + q(x) |
| Polynomial.Cubic.DefaultIsZero | linear-gkr-rs/polynomial/src/lib.rs:63 | the derived `Default` (all zero) evaluates to 0 everywhere |
| Polynomial.Cubic.DefaultIsIdentity | linear-gkr-rs/polynomial/src/lib.rs:63 | `Default` is a two-sided identity of `+` |
| Polynomial.Cubic.EvalAtZero | linear-gkr-rs/polynomial/src/lib.rs:72-75 | at 0 the value is the constant coefficient `a` |
| Polynomial.Quadruple.EvalIsHorner | linear-gkr-rs/polynomial/src/lib.rs:105-107 | `evaluate` is Horner's rule on the coefficients, from the leading one down |
| Polynomial.Quadruple.EvalIsPowerSum | linear-gkr-rs/polynomial/src/lib.rs:94-107 | evaluation is the power sum of its coefficients [a, …, e], a + b·x + … + e·x⁴, mod P |
| Polynomial.Quadruple.AddIsCoefficientwise | linear-gkr-rs/polynomial/src/lib.rs:109-120 | `+` adds coefficient by coefficient |
| Polynomial.Quadruple.AddIsLinear | linear-gkr-rs/polynomial/src/lib.rs:109-120 | (p + q)(x) = p(x) + q(x) for every x |
| Polynomial.Quadruple.AddAssign | linear-gkr-rs/polynomial/src/lib.rs:121-125 | `p += q` leaves `p + q`: coefficient-wise sums, and its value at every x is p(x) + q(x) |
| Polynomial.Quadruple.DefaultIsZero | linear-gkr-rs/polynomial/src/lib.rs:95 | the derived `Default` (all zero) evaluates to 0 everywhere |
| Polynomial.Quadruple.DefaultIsIdentity | linear-gkr-rs/polynomial/src/lib.rs:95 | `Default` is a two-sided identity of `+` |
| Polynomial.Quadruple.EvalAtZero | linear-gkr-rs/polynomial/src/lib.rs:105-107 | at 0 the value is the constant coefficient `a` |
| Polynomial.Quintuple.EvalIsHorner | linear-gkr-rs/polynomial/src/lib.rs:139-141 | `evaluate` is Horner's rule on the coefficients, from the leading one down |
| Polynomial.Quintuple.EvalIsPowerSum | linear-gkr-rs/polynomial/src/lib.rs:127-141 | evaluation is the power sum of its coefficients [a, …, f], a + b·x + … + f·x⁵, mod P |
| Polynomial.Quintuple.AddIsCoefficientwise | linear-gkr-rs/polynomial/src/lib.rs:143-155 | `+` adds coefficient by coefficient |
| Polynomial.Quintuple.AddIsLinear | linear-gkr-rs/polynomial/src/lib.rs:143-155 | (p + q)(x) = p(x) + q(x) for every x |
| Polynomial.Quintuple.AddAssign | linear-gkr-rs/polynomial/src/lib.rs:156-160 | `p += q` leaves `p + q`: coefficient-wise sums, and its value at every x is p(x) + q(x) |
| Polynomial.Quintuple.DefaultIsZero | linear-gkr-rs/polynomial/src/lib.rs:128 | the derived `Default` (all zero) evaluates to 0 everywhere |
| Polynomial.Quintuple.DefaultIsIdentity | linear-gkr-rs/polynomial/src/lib.rs:128 | `Default` is a two-sided identity of `+` |
| Polynomial.Quintuple.EvalAtZero | linear-gkr-rs/polynomial/src/lib.rs:139-141 | at 0 the value is the constant coefficient `a` |
| Coefficients.HornerIsValue | linear-gkr-rs/polynomial/src/lib.rs:127-141 | Horner's rule on any non-empty coefficient sequence, constant first, is the power sum of the coefficients mod P |
| Coefficients.ValueAdd | linear-gkr-rs/polynomial/src/lib.rs:143-155 | the value of a coefficient-wise sum is the sum of the values |
| Quad.LinearPoly.EvalIsHorner | linear-gkr-rs/polynomial/src/quad.rs:20-22 | `evaluate` is Horner's rule on the coefficients, from the leading one down |
| Quad.LinearPoly.EvalIsPowerSum | linear-gkr-rs/polynomial/src/quad.rs:7-22 | evaluation is the power sum of its coefficients [b, a], a·x + b, mod P |
| Quad.LinearPoly.AddIsCoefficientwise | linear-gkr-rs/polynomial/src/quad.rs:24-29 | `+` adds coefficient by coefficient |
| Quad.LinearPoly.AddIsLinear | linear-gkr-rs/polynomial/src/quad.rs:24-29 | (p + q)(x) = p(x) + q(x) for every x |
| Quad.LinearPoly.AddAssign | linear-gkr-rs/polynomial/src/quad.rs:30-35 | `p += q` leaves `p + q`: coefficient-wise sums, and its value at every x is p(x) + q(x) |
| Quad.LinearPoly.DefaultIsZero | linear-gkr-rs/polynomial/src/quad.rs:8 | the derived `Default` (all zero) evaluates to 0 everywhere |
| Quad.LinearPoly.DefaultIsIdentity | linear-gkr-rs/polynomial/src/quad.rs:8 | `Default` is a two-sided identity of `+` |
| Quad.LinearPoly.EvalAtZero | linear-gkr-rs/polynomial/src/quad.rs:20-22 | at 0 the value is the constant coefficient `b` |
| Quad.LinearPoly.NewEval | linear-gkr-rs/polynomial/src/quad.rs:16-18 | `new` stores its arguments leading coefficient first, so the result denotes the power sum with those coefficients |
| Quad.QuadraticPoly.EvalIsHorner | linear-gkr-rs/polynomial/src/quad.rs:62-64 | `evaluate` is Horner's rule on the coefficients, from the leading one down |
| Quad.QuadraticPoly.EvalIsPowerSum | linear-gkr-rs/polynomial/src/quad.rs:48-64 | evaluation is the power sum of its coefficients [c, b, a], a·x² + b·x + c, mod P |
| Quad.QuadraticPoly.AddIsCoefficientwise | linear-gkr-rs/polynomial/src/quad.rs:66-71 | `+` adds coefficient by coefficient |
| Quad.QuadraticPoly.AddIsLinear | linear-gkr-rs/polynomial/src/quad.rs:66-71 | (p + q)(x) = p(x) + q(x) for every x |
| Quad.QuadraticPoly.AddAssign | linear-gkr-rs/polynomial/src/quad.rs:72-77 | `p += q` leaves `p + q`: coefficient-wise sums, and its value at every x is p(x) + q(x) |
| Quad.QuadraticPoly.DefaultIsZero | linear-gkr-rs/polynomial/src/quad.rs:49 | the derived `Default` (all zero) evaluates to 0 everywhere |
| Quad.QuadraticPoly.DefaultIsIdentity | linear-gkr-rs/polynomial/src/quad.rs:49 | `Default` is a two-sided identity of `+` |
| Quad.QuadraticPoly.EvalAtZero | linear-gkr-rs/polynomial/src/quad.rs:62-64 | at 0 the value is the constant coefficient `c` |
| Quad.QuadraticPoly.NewEval | linear-gkr-rs/polynomial/src/quad.rs:58-60 | `new` stores its arguments leading coefficient first, so the result denotes the power sum with those coefficients |
| Quad.QuintuplePoly.EvalIsHorner | linear-gkr-rs/polynomial/src/quad.rs:104-106 | `evaluate` is Horner's rule on the coefficients, from the leading one down |
| Quad.QuintuplePoly.EvalIsPowerSum | linear-gkr-rs/polynomial/src/quad.rs:80-106 | evaluation is the power sum of its coefficients [f, …, a], a·x⁵ + b·x⁴ + … + f, mod P |
| Quad.QuintuplePoly.AddIsCoefficientwise | linear-gkr-rs/polynomial/src/quad.rs:108-120 | `+` adds coefficient by coefficient |
| Quad.QuintuplePoly.AddIsLinear | linear-gkr-rs/polynomial/src/quad.rs:108-120 | (p + q)(x) = p(x) + q(x) for every x |
| Quad.QuintuplePoly.AddAssign | linear-gkr-rs/polynomial/src/quad.rs:121-129 | `p += q` leaves `p + q`: coefficient-wise sums, and its value at every x is p(x) + q(x) |
| Quad.QuintuplePoly.DefaultIsZero | linear-gkr-rs/polynomial/src/quad.rs:81 | the derived `Default` (all zero) evaluates to 0 everywhere |
| Quad.QuintuplePoly.DefaultIsIdentity | linear-gkr-rs/polynomial/src/quad.rs:81 | `Default` is a two-sided identity of `+` |
| Quad.QuintuplePoly.EvalAtZero | linear-gkr-rs/polynomial/src/quad.rs:104-106 | at 0 the value is the constant coefficient `f` |
| Quad.QuintuplePoly.NewEval | linear-gkr-rs/polynomial/src/quad.rs:93-102 | `new` stores its arguments leading coefficient first, so the result denotes the power sum with those coefficients |
| Quad.LinearPoly.MulEval | linear-gkr-rs/polynomial/src/quad.rs:36-46 | the product's value is the product of the values: (p·q)(x) = p(x)·q(x) |
| Quad.LinearPoly.MulCommutes | linear-gkr-rs/polynomial/src/quad.rs:40-44 | p * q == q * p coefficient by coefficient |
| Quad.ProductCongruent | linear-gkr-rs/polynomial/src/quad.rs:39-44 | the reduced coefficients (a₁a₂, a₁b₂ + a₂b₁, b₁b₂) in Horner form are congruent to (a₁x + b₁)(a₂x + b₂) |

## Left out

- Input/output errors of `read_line` and invalid UTF-8: the reader is a sequence of strings. An
  empty string in the sequence reads like end of input, as a real line always holds at least
  its `\n`.
- `load_from_path`: opening a file is I/O.
- The reader position is not part of the result of `Load`: a reader in Rust is consumed, and
  later reads by the caller are not modelled.
- Memory exhaustion and `Vec::with_capacity` capacity-overflow panics, in the parser and in
  the evaluator's `vec![zero; 1 << bit_length]`: the model has unbounded memory.
- Release builds: the model follows debug builds, in which arithmetic overflow panics; the
  wrapping results of a release build are not modelled.
- `Parse.Gather`: its own contract states only that the reader moves forward; what it reads is
  stated by `ParseFacts.GatherReadsWhatIsNeeded`.
- `Parse.Error.Panic` and `Evaluation.Panic` carry the panic's kind (and index and length
  where Rust prints them), not Rust's full panic message with its source location.
- The field's internals (Montgomery arithmetic, `into_bigint`), `random`, `random_with`,
  `to_le_bytes`, and `IntoField for &str`. These are foreign code, randomness and
  serialisation; the field is modelled by its integer semantics mod P.
- `circuit/src/lib.rs`: it only re-exports and declares the error type, which is modelled as
  `Parse.Error`.
- The command-line binaries (argument parsing, printing, exit codes) and the placeholder
  files of the legacy `src/` tree, which hold no logic.
- The β-tensor builder, multilinear-extension folding and sum-check reduction: they are not in
  the code, which re-evaluates instead.
- `Clone`, `Copy`, `Debug`, `Serialize`, `Deserialize` and `PartialEq` derives. The
  polynomial and prover types are Dafny values, so copying is implicit and equality is
  structural.

## Findings

| source | as written | input that shows it | evidently intended | confidence | as-written member | corrected member |
|---|---|---|---|---|---|---|
| linear-gkr-rs/circuit/src/parse.rs:67 | `usize::BITS - (max_gate as u32).leading_zeros()` subtracts a count of 32-bit leading zeros from the width of `usize` | a layer of 2 gates on a 64-bit target gets bit length 33, and `1 << 33` padding slots | the number of bits of `max_gate` (1 for 2 gates), as the comment at parse.rs:65 says | not executed; the 32-bit offset follows from the types | Parse.BitLengthOn64Offset | Parse.BitLength |
