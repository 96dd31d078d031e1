/** The input tree of the ABI v2 fuzzer: the protobuf messages the converter
    walks. Every `oneof` becomes a datatype with an explicit "not set"
    alternative; a singular message field that is absent is its default
    instance, which is how an empty declaration reaches the converter. */
module AbiV2Proto {

  /** Protobuf `uint32`. */
  type uint32 = x: int | 0 <= x < 0x1_0000_0000

  datatype IntegerType = IntegerType(isSigned: bool, width: uint32)

  datatype FixedByteType = FixedByteType(width: uint32)

  datatype AddressType = AddressType(payable: bool)

  datatype ValueType =
    | Inty(inty: IntegerType)
    | Byty(byty: FixedByteType)
    | Adty(adty: AddressType)
    | ValueTypeNotSet

  datatype DynamicByteArrayKind = Bytes | String

  datatype DynamicByteArrayType = DynamicByteArrayType(kind: DynamicByteArrayKind)

  /** One array dimension: its fuzzed length seed and whether it is static. */
  datatype ArrayDimensionInfo = ArrayDimensionInfo(length: uint32, isStatic: bool)

  datatype ArrayBaseType =
    | BaseInty(inty: IntegerType)
    | BaseByty(byty: FixedByteType)
    | BaseAdty(adty: AddressType)
    | BaseStty(stty: StructType)
    | BaseNotSet

  /** `info` lists the dimensions in declaration order: the last one is the
      outermost bracket of the rendered type. */
  datatype ArrayType = ArrayType(base: ArrayBaseType, info: seq<ArrayDimensionInfo>)

  datatype StructType = StructType(fields: seq<Type>)

  datatype NonValueType =
    | Dynbytearray(dynbytearray: DynamicByteArrayType)
    | Arrtype(arrtype: ArrayType)
    | Stype(stype: StructType)
    | NonValueTypeNotSet

  datatype Type =
    | Vtype(vtype: ValueType)
    | Nvtype(nvtype: NonValueType)
    | TypeNotSet

  datatype VarDecl = VarDecl(varType: Type)

  datatype TestFunction = TestFunction(localVars: VarDecl)

  datatype Contract = Contract(stateVars: VarDecl, testFunction: TestFunction)

  /** The base types an array expansion can produce a value for. */
  predicate IsValueBase(b: ArrayBaseType)
  {
    b.BaseInty? || b.BaseByty? || b.BaseAdty?
  }
}
