/** Properties of the program generator, proved about the reference
    functions of ConverterSpec: distinct names, what an array expansion
    appends and leaves alone, how many checks and seeds it uses, that
    malformed arrays are skipped without effect, and that one whole
    conversion stays below the return-code limit of 1000. */
module ConverterProperties {
  import opened Text
  import opened AbiV2Proto
  import opened ProtoStatics
  import opened ConverterSpec

  /** Variable names x_0, x_1, ... are pairwise distinct. */
  lemma VarNamesDistinct(i: nat, j: nat)
    requires i != j
    ensures VarName(i) != VarName(j)
  {
    DecimalStringInjective(i, j);
    assert VarName(i)[2..] == DecimalString(i);
    assert VarName(j)[2..] == DecimalString(j);
  }

  lemma PrefixTransitive(a: string, b: string, c: string)
    requires a <= b && b <= c
    ensures a <= c
  {
    assert c[..|b|][..|a|] == c[..|a|];
  }

  // ---------------------------------------------------------------------
  // What an expansion touches

  /** From g to r only the value counters grew and the checks and the
      buffer of the current scope were appended to; the other buffer, the
      parameter lists, the name counter and the scope flag are unchanged. */
  ghost predicate ExpansionFrame(g: Gen, r: Gen)
  {
    && r.paramsPublic == g.paramsPublic
    && r.paramsExternal == g.paramsExternal
    && r.varCounter == g.varCounter
    && r.isStateVar == g.isStateVar
    && g.checks <= r.checks
    && g.counter <= r.counter
    && g.returnValue <= r.returnValue
    && (g.isStateVar ==> r.output == g.output && g.stateBuffer <= r.stateBuffer)
    && (!g.isStateVar ==> r.stateBuffer == g.stateBuffer && g.output <= r.output)
  }

  lemma ExpansionFrameTransitive(a: Gen, b: Gen, c: Gen)
    requires ExpansionFrame(a, b) && ExpansionFrame(b, c)
    ensures ExpansionFrame(a, c)
  {
    PrefixTransitive(a.checks, b.checks, c.checks);
    if a.isStateVar {
      PrefixTransitive(a.stateBuffer, b.stateBuffer, c.stateBuffer);
    } else {
      PrefixTransitive(a.output, b.output, c.output);
    }
  }

  /** The fewest and the most nodes (one check each) an expansion over d
      dimensions of lengths in [2, 4] can produce. */
  function MinNodes(d: nat): nat
  {
    if d == 0 then 1 else 1 + 2 * MinNodes(d - 1)
  }

  function MaxNodes(d: nat): nat
  {
    if d == 0 then 1 else 1 + 4 * MaxNodes(d - 1)
  }

  lemma {:induction false} MaxNodesMonotone(d: nat, e: nat)
    requires d <= e
    ensures MaxNodes(d) <= MaxNodes(e)
  {
    if d < e {
      MaxNodesMonotone(d, e - 1);
    }
  }

  predicate LengthsInRange(dims: seq<DimInfo>)
  {
    forall i :: 0 <= i < |dims| ==> 2 <= dims[i].length <= 4
  }

  /** resizeDimension: a static dimension keeps its length and writes no
      assignment; a dynamic one draws a seed, gets a length in [2, 4] and one
      assignment in the buffer of its scope; either way exactly one length
      check with the next id follows. */
  lemma ResizeDimensionEffect(g: Gen, isStatic: bool, arrayLen: nat, varName: string, typeString: string)
    ensures var (len, r) := ResizeDimension(g, isStatic, arrayLen, varName, typeString);
      && r.checks == g.checks + CheckLine(varName + ".length" + " != " + DecimalString(len), g.returnValue)
      && r.returnValue == g.returnValue + 1
      && (isStatic ==>
            len == arrayLen && r.counter == g.counter
            && r.output == g.output && r.stateBuffer == g.stateBuffer)
      && (!isStatic ==>
            2 <= len <= 4 && r.counter == g.counter + 1
            && (g.isStateVar ==>
                  r.output == g.output
                  && r.stateBuffer == g.stateBuffer + DefLine(varName + ".length", DecimalString(len)))
            && (!g.isStateVar ==>
                  r.stateBuffer == g.stateBuffer
                  && r.output == g.output + DefLine(varName, "new " + typeString + "(" + DecimalString(len) + ")")))
  {
    var (len, r) := ResizeDimension(g, isStatic, arrayLen, varName, typeString);
    if isStatic {
      assert r == CheckResizeOp(g, varName, arrayLen);
    } else {
      var g1 := g.(counter := g.counter + 1);
      assert len == GetArrayLengthFromFuzz(arrayLen, g.counter);
      if g.isStateVar {
        assert r == CheckResizeOp(AddVarDef(g1, varName + ".length", DecimalString(len)), varName, len);
      } else {
        assert r == CheckResizeOp(AddVarDef(g1, varName, "new " + typeString + "(" + DecimalString(len) + ")"), varName, len);
      }
    }
    assert CheckCondition(ValueData, varName + ".length", DecimalString(len)) == varName + ".length" + " != " + DecimalString(len);
  }

  /** The part of ResizeDimensionEffect the expansion proofs use. */
  lemma ResizeDimensionFrame(g: Gen, isStatic: bool, arrayLen: nat, varName: string, typeString: string)
    ensures var (len, r) := ResizeDimension(g, isStatic, arrayLen, varName, typeString);
      && ExpansionFrame(g, r)
      && r.returnValue == g.returnValue + 1
      && (isStatic ==> len == arrayLen && r.counter == g.counter)
      && (!isStatic ==> 2 <= len <= 4 && r.counter == g.counter + 1)
  {
  }

  /** k copies of p added up; kept apart from `*` so that the expansion
      proofs stay linear. */
  function Times(k: nat, p: nat): nat
  {
    if k == 0 then 0 else p + Times(k - 1, p)
  }

  lemma {:induction false} TimesIsProduct(k: nat, p: nat)
    ensures Times(k, p) == k * p
  {
    if k > 0 {
      TimesIsProduct(k - 1, p);
    }
  }

  lemma TimesRange(k: nat, lo: nat, hi: nat)
    requires 2 <= k <= 4
    ensures 2 * lo <= Times(k, lo) && Times(k, hi) <= 4 * hi
  {
    assert Times(k, lo) == k * lo && Times(k, hi) == k * hi by {
      TimesIsProduct(k, lo);
      TimesIsProduct(k, hi);
    }
  }

  /** An expansion writes only the checks and the buffer of the current
      scope, and only appends to them. */
  lemma {:induction false} ExpandFrame(g: Gen, keccak: Keccak256, base: ArrayBaseType, typeStrings: seq<string>,
                                       dims: seq<DimInfo>, varName: string)
    requires IsValueBase(base) && |typeStrings| == |dims| + 1
    ensures ExpansionFrame(g, Expand(g, keccak, base, typeStrings, dims, varName))
    decreases |dims|, 1, 0
  {
    if dims != [] {
      var dim := dims[|dims| - 1];
      var (length, g1) := ResizeDimension(g, dim.isStatic, dim.length, varName, Concat(typeStrings));
      ResizeDimensionFrame(g, dim.isStatic, dim.length, varName, Concat(typeStrings));
      var front := dims[..|dims| - 1];
      ExpandElementsFrame(g1, keccak, base, typeStrings[..|typeStrings| - 1], front, varName, 0, length);
      var r := ExpandElements(g1, keccak, base, typeStrings[..|typeStrings| - 1], front, varName, 0, length);
      ExpansionFrameTransitive(g, g1, r);
    }
  }

  lemma {:induction false} ExpandElementsFrame(g: Gen, keccak: Keccak256, base: ArrayBaseType, typeStrings: seq<string>,
                                               dims: seq<DimInfo>, varName: string, i: nat, length: nat)
    requires IsValueBase(base) && |typeStrings| == |dims| + 1
    ensures ExpansionFrame(g, ExpandElements(g, keccak, base, typeStrings, dims, varName, i, length))
    decreases |dims| + 1, 0, length - i
  {
    if i < length {
      var g1 := Expand(g, keccak, base, typeStrings, dims, ElementName(varName, i));
      ExpandFrame(g, keccak, base, typeStrings, dims, ElementName(varName, i));
      var r := ExpandElements(g1, keccak, base, typeStrings, dims, varName, i + 1, length);
      ExpandElementsFrame(g1, keccak, base, typeStrings, dims, varName, i + 1, length);
      assert ExpandElements(g, keccak, base, typeStrings, dims, varName, i, length) == r;
      ExpansionFrameTransitive(g, g1, r);
    }
  }

  /** An expansion over d dimensions emits between MinNodes(d) and
      MaxNodes(d) checks and draws at most MaxNodes(d) seeds. */
  lemma {:induction false} ExpandBounds(g: Gen, keccak: Keccak256, base: ArrayBaseType, typeStrings: seq<string>,
                                        dims: seq<DimInfo>, varName: string)
    requires IsValueBase(base) && |typeStrings| == |dims| + 1 && LengthsInRange(dims)
    ensures var r := Expand(g, keccak, base, typeStrings, dims, varName);
      && g.returnValue + MinNodes(|dims|) <= r.returnValue <= g.returnValue + MaxNodes(|dims|)
      && g.counter <= r.counter <= g.counter + MaxNodes(|dims|)
    decreases |dims|, 1, 0
  {
    if dims != [] {
      var dim := dims[|dims| - 1];
      var (length, g1) := ResizeDimension(g, dim.isStatic, dim.length, varName, Concat(typeStrings));
      ResizeDimensionFrame(g, dim.isStatic, dim.length, varName, Concat(typeStrings));
      var front := dims[..|dims| - 1];
      assert LengthsInRange(front);
      ExpandElementsBounds(g1, keccak, base, typeStrings[..|typeStrings| - 1], front, varName, 0, length);
      TimesRange(length, MinNodes(|front|), MaxNodes(|front|));
    }
  }

  lemma {:induction false} ExpandElementsBounds(g: Gen, keccak: Keccak256, base: ArrayBaseType, typeStrings: seq<string>,
                                                dims: seq<DimInfo>, varName: string, i: nat, length: nat)
    requires IsValueBase(base) && |typeStrings| == |dims| + 1 && LengthsInRange(dims) && i <= length
    ensures var r := ExpandElements(g, keccak, base, typeStrings, dims, varName, i, length);
      && g.returnValue + Times(length - i, MinNodes(|dims|)) <= r.returnValue
      && r.returnValue <= g.returnValue + Times(length - i, MaxNodes(|dims|))
      && g.counter <= r.counter <= g.counter + Times(length - i, MaxNodes(|dims|))
    decreases |dims| + 1, 0, length - i
  {
    if i < length {
      var g1 := Expand(g, keccak, base, typeStrings, dims, ElementName(varName, i));
      ExpandBounds(g, keccak, base, typeStrings, dims, ElementName(varName, i));
      var r := ExpandElements(g1, keccak, base, typeStrings, dims, varName, i + 1, length);
      ExpandElementsBounds(g1, keccak, base, typeStrings, dims, varName, i + 1, length);
      assert ExpandElements(g, keccak, base, typeStrings, dims, varName, i, length) == r;
    }
  }

  // ---------------------------------------------------------------------
  // Arrays whose dimensions are all static

  predicate AllStatic(dims: seq<DimInfo>)
  {
    forall i :: 0 <= i < |dims| ==> dims[i].isStatic
  }

  /** The product of the dimension lengths: the number of elements. */
  function Product(dims: seq<DimInfo>): nat
  {
    if dims == [] then 1 else Times(dims[|dims| - 1].length, Product(dims[..|dims| - 1]))
  }

  /** Nodes of the expansion tree: one per element plus one per sub-array. */
  function StaticNodes(dims: seq<DimInfo>): nat
  {
    if dims == [] then 1 else 1 + Times(dims[|dims| - 1].length, StaticNodes(dims[..|dims| - 1]))
  }

  /** With static dimensions only, exactly one seed is drawn per element, so
      the element checks equal the product of the lengths, and the checks in
      all are one per node of the expansion tree. */
  lemma {:induction false} ExpandStatic(g: Gen, keccak: Keccak256, base: ArrayBaseType, typeStrings: seq<string>,
                                        dims: seq<DimInfo>, varName: string)
    requires IsValueBase(base) && |typeStrings| == |dims| + 1 && AllStatic(dims)
    ensures var r := Expand(g, keccak, base, typeStrings, dims, varName);
      && r.counter == g.counter + Product(dims)
      && r.returnValue == g.returnValue + StaticNodes(dims)
    decreases |dims|, 1, 0
  {
    if dims != [] {
      var dim := dims[|dims| - 1];
      var (length, g1) := ResizeDimension(g, dim.isStatic, dim.length, varName, Concat(typeStrings));
      ResizeDimensionFrame(g, dim.isStatic, dim.length, varName, Concat(typeStrings));
      var front := dims[..|dims| - 1];
      assert AllStatic(front);
      ExpandElementsStatic(g1, keccak, base, typeStrings[..|typeStrings| - 1], front, varName, 0, length);
    }
  }

  lemma {:induction false} ExpandElementsStatic(g: Gen, keccak: Keccak256, base: ArrayBaseType, typeStrings: seq<string>,
                                                dims: seq<DimInfo>, varName: string, i: nat, length: nat)
    requires IsValueBase(base) && |typeStrings| == |dims| + 1 && AllStatic(dims) && i <= length
    ensures var r := ExpandElements(g, keccak, base, typeStrings, dims, varName, i, length);
      && r.counter == g.counter + Times(length - i, Product(dims))
      && r.returnValue == g.returnValue + Times(length - i, StaticNodes(dims))
    decreases |dims| + 1, 0, length - i
  {
    if i < length {
      var g1 := Expand(g, keccak, base, typeStrings, dims, ElementName(varName, i));
      ExpandStatic(g, keccak, base, typeStrings, dims, ElementName(varName, i));
      var r := ExpandElements(g1, keccak, base, typeStrings, dims, varName, i + 1, length);
      ExpandElementsStatic(g1, keccak, base, typeStrings, dims, varName, i + 1, length);
      assert ExpandElements(g, keccak, base, typeStrings, dims, varName, i, length) == r;
    }
  }

  /** With only the outermost dimension dynamic, its length L is drawn from
      the next seed, and then every one of the L sub-arrays expands as a
      static one: one seed for the length plus one per element, and one
      length check plus the static sub-arrays' checks. */
  lemma ExpandOuterDynamic(g: Gen, keccak: Keccak256, base: ArrayBaseType, typeStrings: seq<string>,
                           front: seq<DimInfo>, seed: nat, varName: string)
    requires IsValueBase(base) && |typeStrings| == |front| + 2 && AllStatic(front)
    ensures var dims := front + [DimInfo(false, seed)];
      var r := Expand(g, keccak, base, typeStrings, dims, varName);
      var len := GetArrayLengthFromFuzz(seed, g.counter);
      && r.counter == g.counter + 1 + Times(len, Product(front))
      && r.returnValue == g.returnValue + 1 + Times(len, StaticNodes(front))
  {
    var dims := front + [DimInfo(false, seed)];
    assert dims[|dims| - 1] == DimInfo(false, seed) && dims[..|dims| - 1] == front;
    var (len, g1) := ResizeDimension(g, false, seed, varName, Concat(typeStrings));
    ResizeDimensionEffect(g, false, seed, varName, Concat(typeStrings));
    ExpandElementsStatic(g1, keccak, base, typeStrings[..|typeStrings| - 1], front, varName, 0, len);
  }

  // ---------------------------------------------------------------------
  // Visitors

  /** The array shapes the converter expands; all others are skipped. */
  predicate AcceptedArray(x: ArrayType)
  {
    0 < |x.info| <= MaxArrayDimensions && IsValueBase(x.base)
  }

  lemma DimPairsInRange(info: seq<ArrayDimensionInfo>)
    ensures LengthsInRange(DimPairs(info))
  {
  }

  /** visit(ArrayType) skips malformed arrays without any effect; an accepted
      array declares exactly one variable, emits between MinNodes and
      MaxNodes of its dimension count checks and draws at most that many seeds. */
  lemma VisitArrayEffect(g: Gen, keccak: Keccak256, x: ArrayType)
    ensures var r := VisitArray(g, keccak, x);
      && (!AcceptedArray(x) ==> r == g)
      && (AcceptedArray(x) ==>
            && r.varCounter == g.varCounter + 1
            && r.isStateVar == g.isStateVar
            && g.returnValue + MinNodes(|x.info|) <= r.returnValue <= g.returnValue + MaxNodes(|x.info|)
            && g.counter <= r.counter <= g.counter + MaxNodes(|x.info|))
  {
    if AcceptedArray(x) {
      var baseType := BaseTypeAsString(x.base);
      var (varName, g1) := CreateDeclAndParamList(g, ArrayTypeAsString(baseType, x.info), ArrayData);
      DimPairsInRange(x.info);
      ExpandFrame(g1, keccak, x.base, [baseType] + DimStrings(x.info), DimPairs(x.info), varName);
      ExpandBounds(g1, keccak, x.base, [baseType] + DimStrings(x.info), DimPairs(x.info), varName);
    }
  }

  /** visitType declares, assigns and checks exactly one variable. */
  lemma VisitLeafEffect(g: Gen, t: DataType, typeString: string, value: string)
    requires t != ArrayData
    ensures var r := VisitLeaf(g, t, typeString, value);
      && r.varCounter == g.varCounter + 1
      && r.returnValue == g.returnValue + 1
      && r.counter == g.counter
      && r.isStateVar == g.isStateVar
  {
  }

  /** What visiting one declared type may do: nothing at all, or declare
      exactly one variable using at most MaxNodes(4) checks and seeds. */
  ghost predicate DeclarationEffect(g: Gen, r: Gen)
  {
    && r.isStateVar == g.isStateVar
    && (r.varCounter == g.varCounter ==> r == g)
    && (r.varCounter != g.varCounter ==>
          && r.varCounter == g.varCounter + 1
          && g.returnValue < r.returnValue <= g.returnValue + MaxNodes(MaxArrayDimensions)
          && g.counter <= r.counter <= g.counter + MaxNodes(MaxArrayDimensions))
  }

  lemma VisitValueTypeEffect(g: Gen, keccak: Keccak256, x: ValueType)
    ensures DeclarationEffect(g, VisitValueType(g, keccak, x))
  {
    var g1 := g.(counter := g.counter + 1);
    match x
    case Inty(t) =>
      VisitLeafEffect(g1, ValueData, GetIntTypeAsString(t), IntegerValueAsString(keccak, t.isSigned, GetIntWidth(t), g.counter));
    case Byty(t) =>
      VisitLeafEffect(g1, ValueData, GetFixedByteTypeAsString(t), FixedByteValueAsString(keccak, GetFixedByteWidth(t), g.counter));
    case Adty(t) =>
      VisitLeafEffect(g1, ValueData, GetAddressTypeAsString(t), AddressValueAsString(keccak, g.counter));
    case ValueTypeNotSet =>
  }

  lemma VisitDynamicByteArrayEffect(g: Gen, keccak: Keccak256, x: DynamicByteArrayType)
    ensures var r := VisitDynamicByteArray(g, keccak, x);
      && r.varCounter == g.varCounter + 1
      && r.returnValue == g.returnValue + 1
      && r.counter == g.counter + 1
      && r.isStateVar == g.isStateVar
  {
    VisitLeafEffect(g.(counter := g.counter + 1), if x.kind == Bytes then BytesData else StringData,
                    BytesArrayTypeAsString(x), BytesArrayValueAsString(keccak, g.counter));
  }

  lemma VisitNonValueTypeEffect(g: Gen, keccak: Keccak256, x: NonValueType)
    ensures DeclarationEffect(g, VisitNonValueType(g, keccak, x))
  {
    match x
    case Dynbytearray(t) =>
      VisitDynamicByteArrayEffect(g, keccak, t);
    case Arrtype(a) =>
      VisitArrayEffect(g, keccak, a);
      if AcceptedArray(a) {
        MaxNodesMonotone(|a.info|, MaxArrayDimensions);
      }
    case Stype(_) =>
    case NonValueTypeNotSet =>
  }

  /** Visiting one declared type either changes nothing at all, or declares
      exactly one variable and uses at most MaxNodes(4) = 341 checks and seeds. */
  lemma VisitTypeEffect(g: Gen, keccak: Keccak256, x: Type)
    ensures DeclarationEffect(g, VisitType(g, keccak, x))
    ensures MaxNodes(MaxArrayDimensions) == 341
  {
    match x
    case Vtype(t) => VisitValueTypeEffect(g, keccak, t);
    case Nvtype(t) => VisitNonValueTypeEffect(g, keccak, t);
    case TypeNotSet =>
  }

  /** One conversion declares at most two variables and emits at most 682
      checks, so every check id lies in [1, 682]: a failing check in the
      public callee returns a code below 1000, and 1000 + k is unambiguous.
      The value seeds stay below 683 as well, far from 32-bit wrap-around. */
  lemma ConversionBounds(keccak: Keccak256, x: Contract)
    ensures var r := VisitContract(Initial, keccak, x);
      && r.varCounter <= 2
      && r.returnValue <= 683
      && r.counter <= 682
      && !r.isStateVar
  {
    var g1 := Initial.(output := Initial.output + ContractHeader);
    VisitTypeEffect(g1, keccak, x.stateVars.varType);
    var g2 := VisitVarDecl(g1, keccak, x.stateVars);
    var g3 := g2.(isStateVar := false);
    var g4 := g3.(output := g3.output + TestFunctionHeader + g3.stateBuffer);
    VisitTypeEffect(g4, keccak, x.testFunction.localVars.varType);
  }

  // ---------------------------------------------------------------------
  // Concrete programs

  /** The first declaration, a state `uint8`, is named x_0, gets no location,
      is assigned in the state buffer, and is guarded by check 1 against the
      low two hexadecimal digits of the hash of "0". */
  lemma FirstUint8StateVariable(keccak: Keccak256)
    ensures var r := VisitType(Initial, keccak, Vtype(Inty(IntegerType(false, 0))));
      var lit := UintValueAsString(keccak, 8, 0);
      && r.output == DeclLine("uint8", "x_0", "")
      && r.stateBuffer == DefLine("x_0", lit)
      && r.checks == CheckLine("x_0" + " != " + lit, 1)
      && r.paramsPublic == "uint8 x_0" && r.paramsExternal == "uint8 x_0"
      && r.returnValue == 2 && r.counter == 1 && r.varCounter == 1
      && HexValue(lit[2..]) == HashUnsignedInt(keccak, 0) % 256
  {
    var x := IntegerType(false, 0);
    assert GetIntWidth(x) == 8;
    assert DecimalString(8) == "8";
    assert GetIntTypeAsString(x) == "uint8";
    var lit := UintValueAsString(keccak, 8, 0);
    assert IntegerValueAsString(keccak, false, 8, 0) == lit;
    var g1 := Initial.(counter := 1);
    assert DecimalString(0) == "0";
    assert VarName(0) == "x_0";
    var ng := NewVarName(g1);
    assert ng.0 == "x_0";
    var g2 := AppendVarDeclToOutput(ng.1, "uint8", "x_0", GetQualifier(ValueData, true));
    assert GetQualifier(ValueData, true) == "";
    assert g2.output == DeclLine("uint8", "x_0", "");
    var g3 := AppendTypedParams(g2, Public, true, "uint8", "x_0", Skip);
    assert g3.paramsPublic == "uint8 x_0";
    var g4 := AppendTypedParams(g3, External, true, "uint8", "x_0", Skip);
    assert g4.paramsExternal == "uint8 x_0";
    assert CreateDeclAndParamList(g1, "uint8", ValueData) == ("x_0", g4);
    assert VisitInteger(Initial, keccak, x) == AddCheckedVarDef(g4, ValueData, "x_0", lit);
    assert CheckCondition(ValueData, "x_0", lit) == "x_0" + " != " + lit;
    UintLiteralBound(keccak, 8, 0);
    assert Pow2(8) == 256;
  }

  /** A contract with no usable declaration still renders the whole skeleton:
      f() calls both callees with empty argument lists, and both callees have
      no parameter and no check. */
  lemma EmptyContractSkeleton(keccak: Keccak256)
    ensures ContractToString(keccak, Contract(VarDecl(TypeNotSet), TestFunction(VarDecl(TypeNotSet))))
      == ContractHeader + TestFunctionHeader + TestFunctionTail("")
         + StringCompareFunction + BytesCompareFunction + CalleeFunctions("", "", "") + "\n}"
  {
    var x := Contract(VarDecl(TypeNotSet), TestFunction(VarDecl(TypeNotSet)));
    var g1 := Initial.(output := Initial.output + ContractHeader);
    assert g1.output == ContractHeader;
    var g2 := VisitVarDecl(g1, keccak, x.stateVars);
    assert g2 == g1;
    var g3 := g2.(isStateVar := false);
    var g4 := VisitTestFunction(g3, keccak, x.testFunction);
    assert SuffixedVariableNameList(0) == "";
    assert g3.output + TestFunctionHeader + g3.stateBuffer == ContractHeader + TestFunctionHeader;
    assert g4.output == ContractHeader + TestFunctionHeader + TestFunctionTail("");
    assert g4.paramsPublic == "" && g4.checks == "" && g4.paramsExternal == "";
  }
}
