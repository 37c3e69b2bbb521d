/**
 `NNStreamer.TensorType` and the by-name lookup `TensorType.valueOf` that the
 `enumTensorType` test exercises.
 */
module TensorTypes {
  import opened Wrappers

  /** The element types of a tensor; UNKNOWN marks a type not yet set. */
  datatype TensorType =
    | INT32 | UINT32 | INT16 | UINT16 | INT8 | UINT8
    | FLOAT64 | FLOAT32 | INT64 | UINT64 | UNKNOWN

  /** The exception `valueOf` throws for a name no constant has. */
  datatype LookupError = IllegalArgument(name: string)

  /** Every constant, in the order the `enumTensorType` test checks them. */
  const Values: seq<TensorType> :=
    [INT32, UINT32, INT16, UINT16, INT8, UINT8, FLOAT64, FLOAT32, INT64, UINT64, UNKNOWN]

  /** The declared name of a constant, `name()`. */
  function Name(t: TensorType): string {
    match t
    case INT32 => "INT32"
    case UINT32 => "UINT32"
    case INT16 => "INT16"
    case UINT16 => "UINT16"
    case INT8 => "INT8"
    case UINT8 => "UINT8"
    case FLOAT64 => "FLOAT64"
    case FLOAT32 => "FLOAT32"
    case INT64 => "INT64"
    case UINT64 => "UINT64"
    case UNKNOWN => "UNKNOWN"
  }

  /** `Values` lists every constant exactly once. */
  lemma ValuesComplete(t: TensorType)
    ensures t in Values
    ensures multiset(Values)[t] == 1
  {
  }

  /** `Values` holds every constant. */
  lemma AllInValues()
    ensures forall t :: t in Values
  {
    forall t | true
      ensures t in Values
    {
      ValuesComplete(t);
    }
  }

  /** No two constants share a name. */
  lemma NameInjective(t: TensorType, u: TensorType)
    requires Name(t) == Name(u)
    ensures t == u
  {
  }

  /** The first constant in `candidates` whose name is exactly `name`. */
  function Find(name: string, candidates: seq<TensorType>): (r: Option<TensorType>)
    ensures r.Some? ==> r.value in candidates && Name(r.value) == name
    ensures r.None? ==> forall t :: t in candidates ==> Name(t) != name
    decreases |candidates|
  {
    if |candidates| == 0 then None
    else if Name(candidates[0]) == name then Some(candidates[0])
    else Find(name, candidates[1..])
  }

  /**
   `TensorType.valueOf(name)`: the constant whose name is exactly `name`
   (case-sensitive), or `IllegalArgument` when there is none.
   */
  function ValueOf(name: string): (r: Result<TensorType, LookupError>)
    ensures r.Success? ==> Name(r.value) == name
    ensures r.Failure? ==> r.error == IllegalArgument(name) && forall t :: Name(t) != name
  {
    match Find(name, Values)
    case Some(t) => Success(t)
    case None =>
      AllInValues();
      Failure(IllegalArgument(name))
  }

  /** Looking up a constant's own name returns that constant. */
  lemma ValueOfName(t: TensorType)
    ensures ValueOf(Name(t)) == Success(t)
  {
    ValuesComplete(t);
    var r := ValueOf(Name(t));
    if r.Success? {
      NameInjective(r.value, t);
    }
  }

  /** `valueOf` succeeds exactly on the eleven declared names. */
  lemma ValueOfSucceedsIffDeclared(name: string)
    ensures ValueOf(name).Success? <==> exists t :: Name(t) == name
  {
    if ValueOf(name).Success? {
      assert Name(ValueOf(name).value) == name;
    }
  }

  /** The `enumTensorType` test: each of the eleven names yields the like-named constant. */
  lemma EnumTensorType()
    ensures ValueOf("INT32") == Success(INT32)
    ensures ValueOf("UINT32") == Success(UINT32)
    ensures ValueOf("INT16") == Success(INT16)
    ensures ValueOf("UINT16") == Success(UINT16)
    ensures ValueOf("INT8") == Success(INT8)
    ensures ValueOf("UINT8") == Success(UINT8)
    ensures ValueOf("FLOAT64") == Success(FLOAT64)
    ensures ValueOf("FLOAT32") == Success(FLOAT32)
    ensures ValueOf("INT64") == Success(INT64)
    ensures ValueOf("UINT64") == Success(UINT64)
    ensures ValueOf("UNKNOWN") == Success(UNKNOWN)
  {
    ValueOfName(INT32);
    ValueOfName(UINT32);
    ValueOfName(INT16);
    ValueOfName(UINT16);
    ValueOfName(INT8);
    ValueOfName(UINT8);
    ValueOfName(FLOAT64);
    ValueOfName(FLOAT32);
    ValueOfName(INT64);
    ValueOfName(UINT64);
    ValueOfName(UNKNOWN);
  }

  /** The lookup is case-sensitive: a lower-case spelling is rejected. */
  lemma ValueOfCaseSensitive()
    ensures ValueOf("uint8") == Failure(IllegalArgument("uint8"))
  {
  }
}
