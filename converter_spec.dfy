/** The ProtoConverter's member state as a value, and one reference function
    per converter operation: each takes the state before the call and gives
    the state after it (and the value the call returns, if any). The class
    ProtoToAbiV2.ProtoConverter is proved to follow these functions, and the
    properties of the generator are proved about them in ConverterProperties. */
module ConverterSpec {
  import opened Text
  import opened AbiV2Proto
  import opened ProtoStatics

  /** m_output, m_statebuffer, m_checks, m_typedParamsExternal,
      m_typedParamsPublic, m_returnValue, m_isStateVar, m_counter, m_varCounter. */
  datatype Gen = Gen(
    output: string,
    stateBuffer: string,
    checks: string,
    paramsExternal: string,
    paramsPublic: string,
    returnValue: nat,
    isStateVar: bool,
    counter: nat,
    varCounter: nat)

  /** The state the constructor establishes. */
  const Initial: Gen := Gen("", "", "", "", "", 1, true, 0, 0)

  /** The name of the k-th declared variable. */
  function VarName(k: nat): string
  {
    "x_" + DecimalString(k)
  }

  // ---------------------------------------------------------------------
  // Rendered fragments

  /** `<type>[ <qualifier>] <varName>;` on a new line. */
  function DeclLine(typeString: string, varName: string, qualifier: string): string
  {
    "\n\t" + typeString + (if qualifier != "" then " " + qualifier else "") + " " + varName + ";"
  }

  /** `<varName> = <rhs>;` on a new line. */
  function DefLine(lhs: string, rhs: string): string
  {
    "\n\t\t" + lhs + " = " + rhs + ";"
  }

  /** `if (<cond>) return <id>;` on a new line. */
  function CheckLine(cond: string, id: nat): string
  {
    "\n\t\tif (" + cond + ") return " + DecimalString(id) + ";"
  }

  /** A parameter type as the public (memory) or external (calldata) callee declares it. */
  function QualifiedType(callee: CalleeType, isValueType: bool, typeString: string): string
  {
    if isValueType then typeString
    else match callee
      case Public => typeString + " memory"
      case External => typeString + " calldata"
  }

  function TypedParam(callee: CalleeType, isValueType: bool, typeString: string, varName: string, d: Delimiter): string
  {
    DelimiterToString(d) + QualifiedType(callee, isValueType, typeString) + " " + varName
  }

  // ---------------------------------------------------------------------
  // Counters

  /** getNextCounter: the current seed, then the seed is advanced. */
  function NextCounter(g: Gen): (nat, Gen)
  {
    (g.counter, g.(counter := g.counter + 1))
  }

  /** newVarName: the next variable name, then the name counter is advanced. */
  function NewVarName(g: Gen): (string, Gen)
  {
    (VarName(g.varCounter), g.(varCounter := g.varCounter + 1))
  }

  // ---------------------------------------------------------------------
  // Buffer utilities

  function AppendChecks(g: Gen, t: DataType, varName: string, rhs: string): Gen
    requires t != ArrayData
  {
    g.(checks := g.checks + CheckLine(CheckCondition(t, varName, rhs), g.returnValue),
       returnValue := g.returnValue + 1)
  }

  function AddVarDef(g: Gen, varName: string, rhs: string): Gen
  {
    if g.isStateVar then g.(stateBuffer := g.stateBuffer + DefLine(varName, rhs))
    else g.(output := g.output + DefLine(varName, rhs))
  }

  function AddCheckedVarDef(g: Gen, t: DataType, varName: string, rhs: string): Gen
    requires t != ArrayData
  {
    AppendChecks(AddVarDef(g, varName, rhs), t, varName, rhs)
  }

  /** checkResizeOp: the length check of one array dimension. */
  function CheckResizeOp(g: Gen, varName: string, len: nat): Gen
  {
    AppendChecks(g, ValueData, varName + ".length", DecimalString(len))
  }

  function AppendVarDeclToOutput(g: Gen, typeString: string, varName: string, qualifier: string): Gen
  {
    g.(output := g.output + DeclLine(typeString, varName, qualifier))
  }

  function AppendTypedParams(g: Gen, callee: CalleeType, isValueType: bool, typeString: string, varName: string, d: Delimiter): Gen
  {
    match callee
    case Public => g.(paramsPublic := g.paramsPublic + TypedParam(Public, isValueType, typeString, varName, d))
    case External => g.(paramsExternal := g.paramsExternal + TypedParam(External, isValueType, typeString, varName, d))
  }

  /** Declare a fresh variable and add it to both callee parameter lists; the
      first variable ever declared gets no leading delimiter. */
  function CreateDeclAndParamList(g: Gen, typeString: string, t: DataType): (string, Gen)
  {
    var (varName, g1) := NewVarName(g);
    var g2 := AppendVarDeclToOutput(g1, typeString, varName, GetQualifier(t, g1.isStateVar));
    var d := if g2.varCounter == 1 then Skip else Add;
    var g3 := AppendTypedParams(g2, Public, IsValueType(t), typeString, varName, d);
    (varName, AppendTypedParams(g3, External, IsValueType(t), typeString, varName, d))
  }

  // ---------------------------------------------------------------------
  // Leaf visitors

  /** visitType: declare, assign and check one variable of a non-array type. */
  function VisitLeaf(g: Gen, t: DataType, typeString: string, value: string): Gen
    requires t != ArrayData
  {
    var (varName, g1) := CreateDeclAndParamList(g, typeString, t);
    AddCheckedVarDef(g1, t, varName, value)
  }

  function VisitInteger(g: Gen, keccak: Keccak256, x: IntegerType): Gen
  {
    var (c, g1) := NextCounter(g);
    VisitLeaf(g1, ValueData, GetIntTypeAsString(x), IntegerValueAsString(keccak, x.isSigned, GetIntWidth(x), c))
  }

  function VisitAddress(g: Gen, keccak: Keccak256, x: AddressType): Gen
  {
    var (c, g1) := NextCounter(g);
    VisitLeaf(g1, ValueData, GetAddressTypeAsString(x), AddressValueAsString(keccak, c))
  }

  function VisitFixedByte(g: Gen, keccak: Keccak256, x: FixedByteType): Gen
  {
    var (c, g1) := NextCounter(g);
    VisitLeaf(g1, ValueData, GetFixedByteTypeAsString(x), FixedByteValueAsString(keccak, GetFixedByteWidth(x), c))
  }

  function VisitValueType(g: Gen, keccak: Keccak256, x: ValueType): Gen
  {
    match x
    case Inty(t) => VisitInteger(g, keccak, t)
    case Byty(t) => VisitFixedByte(g, keccak, t)
    case Adty(t) => VisitAddress(g, keccak, t)
    case ValueTypeNotSet => g
  }

  function VisitDynamicByteArray(g: Gen, keccak: Keccak256, x: DynamicByteArrayType): Gen
  {
    var (c, g1) := NextCounter(g);
    VisitLeaf(g1, if x.kind == Bytes then BytesData else StringData,
              BytesArrayTypeAsString(x), BytesArrayValueAsString(keccak, c))
  }

  // ---------------------------------------------------------------------
  // Arrays

  /** resizeDimension: resolve the length of one dimension, resize it if it
      is dynamic, check its length, and give the length back. */
  function ResizeDimension(g: Gen, isStatic: bool, arrayLen: nat, varName: string, typeString: string): (nat, Gen)
  {
    if isStatic then
      (arrayLen, CheckResizeOp(g, varName, arrayLen))
    else
      var (c, g1) := NextCounter(g);
      var length := GetArrayLengthFromFuzz(arrayLen, c);
      var g2 :=
        if g1.isStateVar then AddVarDef(g1, varName + ".length", DecimalString(length))
        else AddVarDef(g1, varName, "new " + typeString + "(" + DecimalString(length) + ")");
      (length, CheckResizeOp(g2, varName, length))
  }

  /** The name of element i of an array expression. */
  function ElementName(varName: string, i: nat): string
  {
    varName + "[" + DecimalString(i) + "]"
  }

  /** resizeHelper: with no dimension left, assign and check one element;
      otherwise resize the last (outermost) remaining dimension and expand
      each of its elements over the remaining dimensions. `typeStrings` holds
      the base type followed by one bracket text per remaining dimension. */
  function Expand(g: Gen, keccak: Keccak256, base: ArrayBaseType, typeStrings: seq<string>,
                  dims: seq<DimInfo>, varName: string): Gen
    requires IsValueBase(base) && |typeStrings| == |dims| + 1
    decreases |dims|, 1, 0
  {
    if dims == [] then
      var (c, g1) := NextCounter(g);
      AddCheckedVarDef(g1, ValueData, varName, ValueByBaseType(keccak, base, c))
    else
      var dim := dims[|dims| - 1];
      var (length, g1) := ResizeDimension(g, dim.isStatic, dim.length, varName, Concat(typeStrings));
      ExpandElements(g1, keccak, base, typeStrings[..|typeStrings| - 1], dims[..|dims| - 1], varName, 0, length)
  }

  /** The loop of resizeHelper: expand elements i, i+1, ..., length-1 in order. */
  function ExpandElements(g: Gen, keccak: Keccak256, base: ArrayBaseType, typeStrings: seq<string>,
                          dims: seq<DimInfo>, varName: string, i: nat, length: nat): Gen
    requires IsValueBase(base) && |typeStrings| == |dims| + 1
    decreases |dims| + 1, 0, length - i
  {
    if i >= length then g
    else
      var g1 := Expand(g, keccak, base, typeStrings, dims, ElementName(varName, i));
      ExpandElements(g1, keccak, base, typeStrings, dims, varName, i + 1, length)
  }

  function ResizeInitArray(g: Gen, keccak: Keccak256, x: ArrayType, baseType: string, varName: string): Gen
    requires IsValueBase(x.base)
  {
    Expand(g, keccak, x.base, [baseType] + DimStrings(x.info), DimPairs(x.info), varName)
  }

  function VisitArrayType(g: Gen, keccak: Keccak256, baseType: string, x: ArrayType): Gen
    requires IsValueBase(x.base) && |x.info| > 0
  {
    var (varName, g1) := CreateDeclAndParamList(g, ArrayTypeAsString(baseType, x.info), ArrayData);
    ResizeInitArray(g1, keccak, x, baseType, varName)
  }

  /** visit(ArrayType): arrays with no dimension, too many dimensions, or a
      base type that is a struct or unset are skipped. */
  function VisitArray(g: Gen, keccak: Keccak256, x: ArrayType): Gen
  {
    if |x.info| == 0 || |x.info| > MaxArrayDimensions then g
    else match x.base
      case BaseStty(_) => g
      case BaseNotSet => g
      case _ => VisitArrayType(g, keccak, BaseTypeAsString(x.base), x)
  }

  // ---------------------------------------------------------------------
  // Dispatch

  function VisitNonValueType(g: Gen, keccak: Keccak256, x: NonValueType): Gen
  {
    match x
    case Dynbytearray(t) => VisitDynamicByteArray(g, keccak, t)
    case Arrtype(t) => VisitArray(g, keccak, t)
    case Stype(_) => g
    case NonValueTypeNotSet => g
  }

  function VisitType(g: Gen, keccak: Keccak256, x: Type): Gen
  {
    match x
    case Vtype(t) => VisitValueType(g, keccak, t)
    case Nvtype(t) => VisitNonValueType(g, keccak, t)
    case TypeNotSet => g
  }

  function VisitVarDecl(g: Gen, keccak: Keccak256, x: VarDecl): Gen
  {
    VisitType(g, keccak, x.varType)
  }

  // ---------------------------------------------------------------------
  // Program assembly

  /** `x_0, x_1, ..., x_{n-1}` (suffixedVariableNameList("x_", 0, n)). */
  function SuffixedVariableNameList(n: nat): string
  {
    if n == 0 then ""
    else SuffixedVariableNameList(n - 1) + (if n == 1 then "" else ", ") + VarName(n - 1)
  }

  const TestFunctionHeader: string := "\n\tfunction f() public returns (uint) {\n\t"

  /** The end of f(): call the public callee, return its code if nonzero,
      else 1000 plus the external callee's code. */
  function TestFunctionTail(names: string): string
  {
    "\n\t\tuint returnVal = this.g_public(" + names + ");\n\t\tif (returnVal != 0)\n\t\t\treturn returnVal;"
    + "\n\t\treturn (uint(1000) + this.g_external(" + names + "));\n\t}\n\t"
  }

  function VisitTestFunction(g: Gen, keccak: Keccak256, x: TestFunction): Gen
  {
    var g1 := g.(output := g.output + TestFunctionHeader + g.stateBuffer);
    var g2 := VisitVarDecl(g1, keccak, x.localVars);
    g2.(output := g2.output + TestFunctionTail(SuffixedVariableNameList(g2.varCounter)))
  }

  const StringCompareFunction: string :=
    "\n\tfunction stringCompare(string memory a, string memory b) internal pure returns (bool) {"
    + "\n\t\tif(bytes(a).length != bytes(b).length)\n\t\t\treturn false;\n\t\telse"
    + "\n\t\t\treturn keccak256(bytes(a)) == keccak256(bytes(b));\n\t}\n\t"

  const BytesCompareFunction: string :=
    "\n\tfunction bytesCompare(bytes memory a, bytes memory b) internal pure returns (bool) {"
    + "\n\t\tif(a.length != b.length)\n\t\t\treturn false;\n\t\tfor (uint i = 0; i < a.length; i++)"
    + "\n\t\t\tif (a[i] != b[i])\n\t\t\t\treturn false;\n\t\treturn true;\n\t}\n\t"

  /** The two callees: the same checks behind a memory and a calldata parameter list. */
  function CalleeFunctions(paramsPublic: string, checks: string, paramsExternal: string): string
  {
    "\n\tfunction g_public(" + paramsPublic + ") public view returns (uint) {\n\t\t" + checks
    + "\n\t\treturn 0;\n\t}\n\n\tfunction g_external(" + paramsExternal
    + ") external view returns (uint) {\n\t\t" + checks + "\n\t\treturn 0;\n\t}\n\t"
  }

  function WriteHelperFunctions(g: Gen): Gen
  {
    g.(output := g.output + StringCompareFunction + BytesCompareFunction
       + CalleeFunctions(g.paramsPublic, g.checks, g.paramsExternal))
  }

  const ContractHeader: string :=
    "pragma solidity >=0.0;\npragma experimental ABIEncoderV2;\n\ncontract Factory {"
    + "\n\tfunction test() external returns (uint) {\n\t\tC c = new C();\n\t\treturn c.f();\n\t}\n}"
    + "\n\ncontract C {\n"

  /** visit(Contract): the state declaration in state scope, then the test
      function in local scope, then the helper functions. */
  function VisitContract(g: Gen, keccak: Keccak256, x: Contract): Gen
  {
    var g1 := g.(output := g.output + ContractHeader);
    var g2 := VisitVarDecl(g1, keccak, x.stateVars);
    var g3 := g2.(isStateVar := false);
    var g4 := VisitTestFunction(g3, keccak, x.testFunction);
    var g5 := WriteHelperFunctions(g4);
    g5.(output := g5.output + "\n}")
  }

  function ContractToString(keccak: Keccak256, x: Contract): string
  {
    VisitContract(Initial, keccak, x).output
  }
}
