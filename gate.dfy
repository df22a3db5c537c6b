/** Gate types and gates (circuit/src/gate.rs). */
module Gates {
  import opened Wrappers
  import opened Ints
  import opened Text

  /** The closed set of gate types; `Code` gives each its `#[repr(u8)]` discriminant. */
  datatype GateType =
    | Add | Mul | Dummy | Input | DirectRelay | Sum | Not | Minus | Xor | Naab | Relay

  /** `t as u8`, the discriminant of a gate type. Decoding it gives `t` back. */
  function Code(t: GateType): (c: U8)
    ensures c <= 10
    ensures TryFrom(c) == Ok(t)
  {
    match t
    case Add => 0
    case Mul => 1
    case Dummy => 2
    case Input => 3
    case DirectRelay => 4
    case Sum => 5
    case Not => 6
    case Minus => 7
    case Xor => 8
    case Naab => 9
    case Relay => 10
  }

  /** `GateType::try_from(v)`: the gate type with discriminant `v`, or the error
      "unknown gate type v". */
  function TryFrom(v: U8): (r: Result<GateType, string>)
    ensures r.Ok? <==> v <= 10
    ensures r.Err? ==> r.error == "unknown gate type " + Decimal(v)
  {
    match v
    case 0 => Ok(Add)
    case 1 => Ok(Mul)
    case 2 => Ok(Dummy)
    case 3 => Ok(Input)
    case 4 => Ok(DirectRelay)
    case 5 => Ok(Sum)
    case 6 => Ok(Not)
    case 7 => Ok(Minus)
    case 8 => Ok(Xor)
    case 9 => Ok(Naab)
    case 10 => Ok(Relay)
    case _ => Err("unknown gate type " + Decimal(v))
  }

  /** Decoding is the inverse of `Code` on 0..=10: a decoded type has the code it was decoded from. */
  lemma TryFromInvertsCode(v: U8)
    requires v <= 10
    ensures TryFrom(v).Ok? && Code(TryFrom(v).value) == v
  {
  }

  /** Distinct codes decode to distinct gate types. */
  lemma TryFromInjective(v: U8, w: U8)
    requires TryFrom(v).Ok? && TryFrom(w).Ok? && v != w
    ensures TryFrom(v).value != TryFrom(w).value
  {
    TryFromInvertsCode(v);
    TryFromInvertsCode(w);
  }

  /** A gate: its type and two operands (`usize`), whose meaning depends on the type.
      A gate carries no id; its identity is its position in its layer. */
  datatype Gate = Gate(ty: GateType, u: Usize, v: Usize)
}
