/** Conversion between protobuf values and JSON values in the job runner. */
module ProtoValues {
  import opened Types

  /** A double: finite, or one of the values JSON cannot express. */
  datatype Double = Finite(r: real) | NotFinite

  datatype Proto =
    | Unset
    | NullValue(code: int)
    | BoolValue(b: bool)
    | NumberValue(n: Double)
    | StringValue(s: string)
    | ListValue(values: seq<Proto>)
    | StructValue(fields: map<string, Proto>)

  function ToJson(v: Proto): Value {
    match v
    case Unset => Null
    case NullValue(_) => Null
    case BoolValue(b) => Bool(b)
    case NumberValue(Finite(r)) => Number(r)
    case NumberValue(NotFinite) => Null
    case StringValue(s) => Text(s)
    case ListValue(values) => List(seq(|values|, i requires 0 <= i < |values| => ToJson(values[i])))
    case StructValue(fields) => Object(map k | k in fields :: ToJson(fields[k]))
  }

  function FromJson(v: Value): Proto {
    match v
    case Null => NullValue(0)
    case Bool(b) => BoolValue(b)
    case Number(r) => NumberValue(Finite(r))
    case Text(s) => StringValue(s)
    case List(items) => ListValue(seq(|items|, i requires 0 <= i < |items| => FromJson(items[i])))
    case Object(fields) => StructValue(map k | k in fields :: FromJson(fields[k]))
  }

  /** Kinds are set, nulls carry code 0 and numbers are finite, at every depth. */
  predicate WellFormed(v: Proto) {
    match v
    case Unset => false
    case NullValue(code) => code == 0
    case BoolValue(_) => true
    case NumberValue(n) => n.Finite?
    case StringValue(_) => true
    case ListValue(values) => forall i | 0 <= i < |values| :: WellFormed(values[i])
    case StructValue(fields) => forall k | k in fields :: WellFormed(fields[k])
  }

  function Relay(v: Proto): Proto {
    FromJson(ToJson(v))
  }

  /** Whatever comes in, what comes out is well formed. */
  lemma {:induction false} RelayIsWellFormed(v: Proto)
    ensures WellFormed(Relay(v))
  {
    match v
    case ListValue(values) =>
      forall i | 0 <= i < |values| ensures WellFormed(Relay(values[i])) { RelayIsWellFormed(values[i]); }
    case StructValue(fields) =>
      forall k | k in fields ensures WellFormed(Relay(fields[k])) { RelayIsWellFormed(fields[k]); }
    case _ =>
  }

  lemma {:induction false} WellFormedIsKept(v: Proto)
    requires WellFormed(v)
    ensures Relay(v) == v
  {
    match v
    case ListValue(values) =>
      forall i | 0 <= i < |values| ensures Relay(values[i]) == values[i] { WellFormedIsKept(values[i]); }
      assert Relay(v).values == values;
    case StructValue(fields) =>
      forall k | k in fields ensures Relay(fields[k]) == fields[k] { WellFormedIsKept(fields[k]); }
      assert Relay(v).fields == fields;
    case _ =>
  }

  /** The value with everything JSON cannot say made null: unset kinds, numbers that are not finite, null codes. */
  function Normal(v: Proto): Proto {
    match v
    case ListValue(values) => ListValue(seq(|values|, i requires 0 <= i < |values| => Normal(values[i])))
    case StructValue(fields) => StructValue(map k | k in fields :: Normal(fields[k]))
    case _ => if v.Unset? || v.NullValue? || v == NumberValue(NotFinite) then NullValue(0) else v
  }

  lemma {:induction false} RelayNormalises(v: Proto)
    ensures Relay(v) == Normal(v)
  {
    match v
    case ListValue(values) =>
      forall i | 0 <= i < |values| ensures Relay(values[i]) == Normal(values[i]) { RelayNormalises(values[i]); }
      assert Relay(v).values == Normal(v).values;
    case StructValue(fields) =>
      forall k | k in fields ensures Relay(fields[k]) == Normal(fields[k]) { RelayNormalises(fields[k]); }
      assert Relay(v).fields == Normal(v).fields;
    case _ =>
  }

  /** The round trip through JSON is the identity exactly on well-formed values, and everywhere an
      idempotent normalisation. */
  lemma RoundTripExactly(v: Proto)
    ensures Relay(v) == v <==> WellFormed(v)
    ensures Relay(Relay(v)) == Relay(v)
  {
    hide Relay;
    RelayIsWellFormed(v);
    WellFormedIsKept(Relay(v));
    if WellFormed(v) { WellFormedIsKept(v); }
  }

  /** From the JSON side nothing is lost, for numbers that are doubles. */
  lemma {:induction false} JsonRoundTrip(j: Value)
    ensures ToJson(FromJson(j)) == j
  {
    match j
    case List(items) =>
      forall i | 0 <= i < |items| ensures ToJson(FromJson(items[i])) == items[i] { JsonRoundTrip(items[i]); }
      assert ToJson(FromJson(j)).items == items;
    case Object(fields) =>
      forall k | k in fields ensures ToJson(FromJson(fields[k])) == fields[k] { JsonRoundTrip(fields[k]); }
      assert ToJson(FromJson(j)).fields == fields;
    case _ =>
  }
}
