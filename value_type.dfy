/**
 * The one-byte discriminant that tags a stored value as raw bytes or as a
 * vector of IEEE 754 binary32 floats.
 */
module ValueTypes {
  import opened Wrappers
  import opened Bytes

  datatype ValueType = RawBytes | VectorFloat32

  /** The constants in declaration order, as `values()` returns them. */
  const AllValueTypes: seq<ValueType> := [RawBytes, VectorFloat32]

  /** `getTypeId`: the byte each constant is declared with. */
  function TypeId(t: ValueType): JByte
  {
    match t
    case RawBytes => 0
    case VectorFloat32 => 1
  }

  /** The loop of an enum's `fromTypeId`: the first constant, in declaration
      order, whose id is the one asked for, or the `IllegalArgumentException`
      thrown after the loop. */
  function FindById<T>(constants: seq<T>, id: JByte, typeId: T -> JByte): (r: Result<T>)
    ensures r.Ok? ==> r.value in constants && typeId(r.value) == id
    ensures r.Err? ==> r.error == IllegalArgument && forall t :: t in constants ==> typeId(t) != id
  {
    if constants == [] then Err(IllegalArgument)
    else if typeId(constants[0]) == id then Ok(constants[0])
    else FindById(constants[1..], id, typeId)
  }

  /** `fromTypeId`. */
  function FromTypeId(id: JByte): Result<ValueType>
  {
    FindById(AllValueTypes, id, TypeId)
  }

  /** The two tags are 0 and 1, hence distinct. */
  lemma TypeIdsAreDistinct()
    ensures TypeId(RawBytes) == 0 && TypeId(VectorFloat32) == 1
    ensures forall a, b :: TypeId(a) == TypeId(b) ==> a == b
  {
  }

  /** Decoding the id of a constant gives that constant back. */
  lemma FromTypeIdInvertsTypeId(t: ValueType)
    ensures FromTypeId(TypeId(t)) == Ok(t)
  {
    assert AllValueTypes[1..] == [VectorFloat32];
  }

  /** Exactly the ids 0 and 1 decode, and they decode to the constant with that id;
      every other byte is rejected with IllegalArgument. */
  lemma FromTypeIdAccepts(id: JByte)
    ensures FromTypeId(id).Ok? <==> id == 0 || id == 1
    ensures FromTypeId(id).Ok? ==> TypeId(FromTypeId(id).value) == id
    ensures FromTypeId(id).Err? ==> FromTypeId(id).error == IllegalArgument
  {
    if id == 0 { FromTypeIdInvertsTypeId(RawBytes); }
    else if id == 1 { FromTypeIdInvertsTypeId(VectorFloat32); }
    else {
      assert forall t :: t in AllValueTypes ==> TypeId(t) != id;
    }
  }
}
