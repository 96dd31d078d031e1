/** The ProtoConverter itself: an object whose text buffers and counters are
    updated in place while it walks a Contract message. Every method is
    proved to change the state exactly as the matching reference function of
    ConverterSpec says, and to keep the class invariant Valid(): the checks
    buffer is a list of numbered checks whose next number is m_returnValue,
    and both callee parameter lists declare exactly the variables x_0, x_1,
    ... that have been named so far. */
module ProtoToAbiV2 {
  import opened Text
  import opened AbiV2Proto
  import opened ProtoStatics
  import opened ConverterSpec

  /** One declared variable as a callee parameter: its type and whether it
      is a value type (and so carries no data location). */
  datatype ParamDecl = ParamDecl(typeString: string, isValueType: bool)

  /** The parameter list of one callee for the given declarations: the k-th
      is named x_k, and only the first has no leading delimiter. */
  function ParamList(ps: seq<ParamDecl>, callee: CalleeType): string
  {
    if ps == [] then ""
    else
      var n := |ps| - 1;
      ParamList(ps[..n], callee)
      + TypedParam(callee, ps[n].isValueType, ps[n].typeString, VarName(n), if n == 0 then Skip else Add)
  }

  /** The checks buffer for the given failing conditions: the k-th
      condition (from 0) returns k + 1. */
  function CheckList(conds: seq<string>): string
  {
    if conds == [] then ""
    else CheckList(conds[..|conds| - 1]) + CheckLine(conds[|conds| - 1], |conds|)
  }

  /** Value-type parameters carry no data location, so the public and the
      external callee declare them identically. */
  lemma {:induction false} ValueParamsAgree(ps: seq<ParamDecl>)
    requires forall i :: 0 <= i < |ps| ==> ps[i].isValueType
    ensures ParamList(ps, Public) == ParamList(ps, External)
  {
    if ps != [] {
      ValueParamsAgree(ps[..|ps| - 1]);
    }
  }

  /** Declaring one more variable appends exactly its parameter to a list. */
  lemma ParamListSnoc(ps: seq<ParamDecl>, p: ParamDecl, callee: CalleeType)
    ensures ParamList(ps + [p], callee)
         == ParamList(ps, callee) + TypedParam(callee, p.isValueType, p.typeString, VarName(|ps|), if |ps| == 0 then Skip else Add)
  {
    assert (ps + [p])[..|ps|] == ps;
  }

  /** Declaring the next variable in both lists keeps them in agreement
      with the recorded declarations. */
  lemma ParamsAgreeSnoc(paramsPublic: string, paramsExternal: string, varCounter: nat, params: seq<ParamDecl>, p: ParamDecl)
    requires ParamsAgree(paramsPublic, paramsExternal, varCounter, params)
    ensures
      var d := if varCounter == 0 then Skip else Add;
      ParamsAgree(paramsPublic + TypedParam(Public, p.isValueType, p.typeString, VarName(varCounter), d),
                  paramsExternal + TypedParam(External, p.isValueType, p.typeString, VarName(varCounter), d),
                  varCounter + 1, params + [p])
  {
    ParamListSnoc(params, p, Public);
    ParamListSnoc(params, p, External);
  }

  /** Appending the check for one more condition keeps the checks buffer in
      agreement with the recorded conditions. */
  lemma ChecksAgreeSnoc(checks: string, returnValue: nat, conds: seq<string>, c: string)
    requires ChecksAgree(checks, returnValue, conds)
    ensures ChecksAgree(checks + CheckLine(c, returnValue), returnValue + 1, conds + [c])
  {
    assert (conds + [c])[..|conds|] == conds;
  }

  /** Earlier checks are never rewritten: the checks of a prefix of the
      conditions are a prefix of the checks buffer. */
  lemma {:induction false} CheckListPrefix(conds: seq<string>, k: nat)
    requires k <= |conds|
    ensures CheckList(conds[..k]) <= CheckList(conds)
  {
    if k < |conds| {
      var front := conds[..|conds| - 1];
      assert conds[..k] == front[..k];
      CheckListPrefix(front, k);
      assert CheckList(conds) == CheckList(front) + CheckLine(conds[|conds| - 1], |conds|);
    } else {
      assert conds[..k] == conds;
    }
  }

  /** The checks buffer holds one numbered check per recorded condition,
      and the next check gets the number after the last. */
  ghost predicate ChecksAgree(checks: string, returnValue: nat, conds: seq<string>)
  {
    checks == CheckList(conds) && returnValue == |conds| + 1
  }

  /** Both parameter lists declare exactly the recorded variables, and the
      name counter has advanced once per variable. */
  ghost predicate ParamsAgree(paramsPublic: string, paramsExternal: string, varCounter: nat, params: seq<ParamDecl>)
  {
    && paramsPublic == ParamList(params, Public)
    && paramsExternal == ParamList(params, External)
    && varCounter == |params|
  }

  class ProtoConverter {
    var output: string
    var stateBuffer: string
    var checks: string
    var typedParamsExternal: string
    var typedParamsPublic: string
    var returnValue: nat
    var isStateVar: bool
    var counter: nat
    var varCounter: nat
    /** The hash the generated values are derived from. */
    const keccak: Keccak256

    /** The failing conditions appended so far, in order. */
    ghost var conds: seq<string>
    /** The variables declared so far, in order. */
    ghost var params: seq<ParamDecl>

    function State(): Gen
      reads this
    {
      Gen(output, stateBuffer, checks, typedParamsExternal, typedParamsPublic,
          returnValue, isStateVar, counter, varCounter)
    }

    ghost predicate Valid()
      reads this
    {
      && ChecksAgree(checks, returnValue, conds)
      && ParamsAgree(typedParamsPublic, typedParamsExternal, varCounter, params)
    }

    constructor(keccak: Keccak256)
      ensures State() == Initial && this.keccak == keccak
      ensures Valid() && conds == [] && params == []
    {
      output, stateBuffer, checks := "", "", "";
      typedParamsExternal, typedParamsPublic := "", "";
      isStateVar := true;
      counter := 0;
      varCounter := 0;
      returnValue := 1;
      this.keccak := keccak;
      conds, params := [], [];
    }

    // -------------------------------------------------------------------
    // Counters

    method GetNextCounter() returns (c: nat)
      requires Valid()
      modifies this
      ensures Valid() && (c, State()) == NextCounter(old(State()))
    {
      c := counter;
      counter := counter + 1;
    }

    /** Not Valid() on its own: the caller declares the name as a parameter. */
    method NewVarName() returns (name: string)
      modifies this
      ensures (name, State()) == ConverterSpec.NewVarName(old(State()))
      ensures conds == old(conds) && params == old(params)
    {
      name := VarName(varCounter);
      varCounter := varCounter + 1;
    }

    method BytesArrayValueAsString() returns (s: string)
      requires Valid()
      modifies this
      ensures Valid() && State() == old(State()).(counter := old(counter) + 1)
      ensures s == ProtoStatics.BytesArrayValueAsString(keccak, old(counter))
    {
      var c := GetNextCounter();
      s := "\"" + HexDigits(HashUnsignedInt(keccak, c), 64) + "\"";
    }

    // -------------------------------------------------------------------
    // Buffers

    method AppendVarDeclToOutput(typeString: string, varName: string, qualifier: string)
      modifies this
      ensures State() == ConverterSpec.AppendVarDeclToOutput(old(State()), typeString, varName, qualifier)
      ensures conds == old(conds) && params == old(params)
    {
      output := output + DeclLine(typeString, varName, qualifier);
    }

    method BufferVarDef(varName: string, rhs: string)
      requires Valid()
      modifies this
      ensures Valid() && State() == old(State()).(stateBuffer := old(stateBuffer) + DefLine(varName, rhs))
    {
      stateBuffer := stateBuffer + DefLine(varName, rhs);
    }

    method AppendVarDefToOutput(varName: string, rhs: string)
      requires Valid()
      modifies this
      ensures Valid() && State() == old(State()).(output := old(output) + DefLine(varName, rhs))
    {
      output := output + DefLine(varName, rhs);
    }

    method AppendChecks(t: DataType, varName: string, rhs: string)
      requires Valid() && t != ArrayData
      modifies this
      ensures Valid() && State() == ConverterSpec.AppendChecks(old(State()), t, varName, rhs)
      ensures conds == old(conds) + [CheckCondition(t, varName, rhs)] && params == old(params)
    {
      var check := CheckCondition(t, varName, rhs);
      ChecksAgreeSnoc(checks, returnValue, conds, check);
      checks := checks + CheckLine(check, returnValue);
      returnValue := returnValue + 1;
      conds := conds + [check];
    }

    method AddVarDef(varName: string, rhs: string)
      requires Valid()
      modifies this
      ensures Valid() && State() == ConverterSpec.AddVarDef(old(State()), varName, rhs)
    {
      if isStateVar {
        BufferVarDef(varName, rhs);
      } else {
        AppendVarDefToOutput(varName, rhs);
      }
    }

    method AddCheckedVarDef(t: DataType, varName: string, rhs: string)
      requires Valid() && t != ArrayData
      modifies this
      ensures Valid() && State() == ConverterSpec.AddCheckedVarDef(old(State()), t, varName, rhs)
    {
      AddVarDef(varName, rhs);
      AppendChecks(t, varName, rhs);
    }

    method CheckResizeOp(varName: string, len: nat)
      requires Valid()
      modifies this
      ensures Valid() && State() == ConverterSpec.CheckResizeOp(old(State()), varName, len)
    {
      AppendChecks(ValueData, varName + ".length", DecimalString(len));
    }

    // -------------------------------------------------------------------
    // Callee parameter lists

    method AppendTypedParamsExternal(isValueType: bool, typeString: string, varName: string, d: Delimiter)
      modifies this
      ensures State() == ConverterSpec.AppendTypedParams(old(State()), External, isValueType, typeString, varName, d)
      ensures conds == old(conds) && params == old(params)
    {
      var qualifiedTypeString := if isValueType then typeString else typeString + " calldata";
      typedParamsExternal := typedParamsExternal + DelimiterToString(d) + qualifiedTypeString + " " + varName;
    }

    method AppendTypedParamsPublic(isValueType: bool, typeString: string, varName: string, d: Delimiter)
      modifies this
      ensures State() == ConverterSpec.AppendTypedParams(old(State()), Public, isValueType, typeString, varName, d)
      ensures conds == old(conds) && params == old(params)
    {
      var qualifiedTypeString := if isValueType then typeString else typeString + " memory";
      typedParamsPublic := typedParamsPublic + DelimiterToString(d) + qualifiedTypeString + " " + varName;
    }

    method AppendTypedParams(callee: CalleeType, isValueType: bool, typeString: string, varName: string, d: Delimiter)
      modifies this
      ensures State() == ConverterSpec.AppendTypedParams(old(State()), callee, isValueType, typeString, varName, d)
      ensures conds == old(conds) && params == old(params)
    {
      match callee
      case Public => AppendTypedParamsPublic(isValueType, typeString, varName, d);
      case External => AppendTypedParamsExternal(isValueType, typeString, varName, d);
    }

    /** Declare a fresh variable and add it to both parameter lists; the new
        parameter is recorded, which keeps the lists and the name counter in step. */
    method CreateDeclAndParamList(typeString: string, t: DataType) returns (varName: string)
      requires Valid()
      modifies this
      ensures Valid() && (varName, State()) == ConverterSpec.CreateDeclAndParamList(old(State()), typeString, t)
      ensures params == old(params) + [ParamDecl(typeString, IsValueType(t))] && conds == old(conds)
      ensures varName == VarName(|old(params)|)
    {
      ghost var p := ParamDecl(typeString, IsValueType(t));
      ParamsAgreeSnoc(typedParamsPublic, typedParamsExternal, varCounter, params, p);
      varName := NewVarName();
      AppendVarDeclToOutput(typeString, varName, GetQualifier(t, isStateVar));
      var d := if varCounter == 1 then Skip else Add;
      AppendTypedParams(Public, IsValueType(t), typeString, varName, d);
      AppendTypedParams(External, IsValueType(t), typeString, varName, d);
      params := params + [p];
    }

    // -------------------------------------------------------------------
    // Leaf visitors

    /** visitType: declare, assign and check one variable. */
    method VisitLeaf(t: DataType, typeString: string, value: string)
      requires Valid() && t != ArrayData
      modifies this
      ensures Valid() && State() == ConverterSpec.VisitLeaf(old(State()), t, typeString, value)
    {
      var varName := CreateDeclAndParamList(typeString, t);
      AddCheckedVarDef(t, varName, value);
    }

    method VisitInteger(x: IntegerType)
      requires Valid()
      modifies this
      ensures Valid() && State() == ConverterSpec.VisitInteger(old(State()), keccak, x)
    {
      var c := GetNextCounter();
      VisitLeaf(ValueData, GetIntTypeAsString(x), IntegerValueAsString(keccak, x.isSigned, GetIntWidth(x), c));
    }

    method VisitAddress(x: AddressType)
      requires Valid()
      modifies this
      ensures Valid() && State() == ConverterSpec.VisitAddress(old(State()), keccak, x)
    {
      var c := GetNextCounter();
      VisitLeaf(ValueData, GetAddressTypeAsString(x), AddressValueAsString(keccak, c));
    }

    method VisitFixedByte(x: FixedByteType)
      requires Valid()
      modifies this
      ensures Valid() && State() == ConverterSpec.VisitFixedByte(old(State()), keccak, x)
    {
      var c := GetNextCounter();
      VisitLeaf(ValueData, GetFixedByteTypeAsString(x), FixedByteValueAsString(keccak, GetFixedByteWidth(x), c));
    }

    method VisitValueType(x: ValueType)
      requires Valid()
      modifies this
      ensures Valid() && State() == ConverterSpec.VisitValueType(old(State()), keccak, x)
    {
      match x
      case Inty(t) => VisitInteger(t);
      case Byty(t) => VisitFixedByte(t);
      case Adty(t) => VisitAddress(t);
      case ValueTypeNotSet =>
    }

    method VisitDynamicByteArray(x: DynamicByteArrayType)
      requires Valid()
      modifies this
      ensures Valid() && State() == ConverterSpec.VisitDynamicByteArray(old(State()), keccak, x)
    {
      ghost var (c, g1) := NextCounter(State());
      var value := BytesArrayValueAsString();
      assert State() == g1 && value == ProtoStatics.BytesArrayValueAsString(keccak, c);
      VisitLeaf(if x.kind == Bytes then BytesData else StringData, BytesArrayTypeAsString(x), value);
    }

    // -------------------------------------------------------------------
    // Arrays

    /** The rendered dimensions, appended in declaration order. */
    static method ArrayDimensionsAsStringVector(x: ArrayType, vec: seq<string>) returns (r: seq<string>)
      requires |x.info| > 0
      ensures r == vec + DimStrings(x.info)
    {
      r := vec;
      for k := 0 to |x.info|
        invariant r == vec + DimStrings(x.info[..k])
      {
        assert x.info[..k + 1][..k] == x.info[..k];
        r := r + [ArrayDimInfoAsString(x.info[k])];
      }
      assert x.info[..|x.info|] == x.info;
    }

    /** The resolved dimensions, in declaration order. */
    static method ArrayDimensionsAsPairVector(x: ArrayType) returns (r: seq<DimInfo>)
      requires |x.info| > 0
      ensures r == DimPairs(x.info)
    {
      r := [];
      for k := 0 to |x.info|
        invariant r == DimPairs(x.info[..k])
      {
        assert x.info[..k + 1][..k] == x.info[..k];
        r := r + [ArrayDimInfoAsPair(x.info[k])];
      }
      assert x.info[..|x.info|] == x.info;
    }

    static method ArrayTypeAsString(baseType: string, x: ArrayType) returns (s: string)
      requires |x.info| > 0
      ensures s == ProtoStatics.ArrayTypeAsString(baseType, x.info)
    {
      var typeStringVec := ArrayDimensionsAsStringVector(x, [baseType]);
      s := Concat(typeStringVec);
    }

    method GetValueByBaseType(x: ArrayType) returns (value: string)
      requires Valid() && IsValueBase(x.base)
      modifies this
      ensures Valid() && State() == old(State()).(counter := old(counter) + 1)
      ensures value == ValueByBaseType(keccak, x.base, old(counter))
    {
      var c := GetNextCounter();
      value := match x.base
        case BaseInty(t) => IntegerValueAsString(keccak, t.isSigned, GetIntWidth(t), c)
        case BaseByty(t) => FixedByteValueAsString(keccak, GetFixedByteWidth(t), c)
        case BaseAdty(_) => AddressValueAsString(keccak, c);
    }

    method ResizeDimension(isStatic: bool, arrayLen: nat, varName: string, typeString: string) returns (length: nat)
      requires Valid()
      modifies this
      ensures Valid() && (length, State()) == ConverterSpec.ResizeDimension(old(State()), isStatic, arrayLen, varName, typeString)
    {
      if isStatic {
        length := arrayLen;
      } else {
        var c := GetNextCounter();
        length := GetArrayLengthFromFuzz(arrayLen, c);
        var lhs, rhs;
        if isStateVar {
          lhs := varName + ".length";
          rhs := DecimalString(length);
        } else {
          lhs := varName;
          rhs := "new " + typeString + "(" + DecimalString(length) + ")";
        }
        AddVarDef(lhs, rhs);
      }
      CheckResizeOp(varName, length);
    }

    /** Depth first: with no dimension left assign and check one element,
        otherwise resize the outermost remaining dimension and recurse into
        each of its elements. */
    method ResizeHelper(x: ArrayType, arrStrVec: seq<string>, arrInfoVec: seq<DimInfo>, varName: string)
      requires Valid() && IsValueBase(x.base) && |arrStrVec| == |arrInfoVec| + 1
      modifies this
      ensures Valid() && State() == Expand(old(State()), keccak, x.base, arrStrVec, arrInfoVec, varName)
      decreases |arrInfoVec|
    {
      if arrInfoVec == [] {
        var value := GetValueByBaseType(x);
        AddCheckedVarDef(ValueData, varName, value);
      } else {
        var dim := arrInfoVec[|arrInfoVec| - 1];
        var typeString := Concat(arrStrVec);
        var length := ResizeDimension(dim.isStatic, dim.length, varName, typeString);
        var strs := arrStrVec[..|arrStrVec| - 1];
        var infos := arrInfoVec[..|arrInfoVec| - 1];
        ghost var resized := State();
        assert Expand(old(State()), keccak, x.base, arrStrVec, arrInfoVec, varName)
            == ExpandElements(resized, keccak, x.base, strs, infos, varName, 0, length);
        for i := 0 to length
          invariant Valid()
          invariant ExpandElements(resized, keccak, x.base, strs, infos, varName, 0, length)
                 == ExpandElements(State(), keccak, x.base, strs, infos, varName, i, length)
        {
          ghost var before := State();
          ResizeHelper(x, strs, infos, varName + "[" + DecimalString(i) + "]");
          assert ExpandElements(before, keccak, x.base, strs, infos, varName, i, length)
              == ExpandElements(State(), keccak, x.base, strs, infos, varName, i + 1, length);
        }
      }
    }

    method ResizeInitArray(x: ArrayType, baseType: string, varName: string)
      requires Valid() && IsValueBase(x.base) && |x.info| > 0
      modifies this
      ensures Valid() && State() == ConverterSpec.ResizeInitArray(old(State()), keccak, x, baseType, varName)
    {
      var arrInfoVec := ArrayDimensionsAsPairVector(x);
      var arrStrVec := ArrayDimensionsAsStringVector(x, [baseType]);
      ResizeHelper(x, arrStrVec, arrInfoVec, varName);
    }

    method VisitArrayType(baseType: string, x: ArrayType)
      requires Valid() && IsValueBase(x.base) && |x.info| > 0
      modifies this
      ensures Valid() && State() == ConverterSpec.VisitArrayType(old(State()), keccak, baseType, x)
    {
      var t := ArrayTypeAsString(baseType, x);
      var varName := CreateDeclAndParamList(t, ArrayData);
      ResizeInitArray(x, baseType, varName);
    }

    method VisitArray(x: ArrayType)
      requires Valid()
      modifies this
      ensures Valid() && State() == ConverterSpec.VisitArray(old(State()), keccak, x)
    {
      if |x.info| == 0 || |x.info| > MaxArrayDimensions {
        return;
      }
      var baseType;
      match x.base {
        case BaseInty(t) => baseType := GetIntTypeAsString(t);
        case BaseByty(t) => baseType := GetFixedByteTypeAsString(t);
        case BaseAdty(t) => baseType := GetAddressTypeAsString(t);
        case BaseStty(_) => return;
        case BaseNotSet => return;
      }
      VisitArrayType(baseType, x);
    }

    // -------------------------------------------------------------------
    // Dispatch

    method VisitNonValueType(x: NonValueType)
      requires Valid()
      modifies this
      ensures Valid() && State() == ConverterSpec.VisitNonValueType(old(State()), keccak, x)
    {
      match x
      case Dynbytearray(t) => VisitDynamicByteArray(t);
      case Arrtype(t) => VisitArray(t);
      case Stype(_) =>
      case NonValueTypeNotSet =>
    }

    method VisitType(x: Type)
      requires Valid()
      modifies this
      ensures Valid() && State() == ConverterSpec.VisitType(old(State()), keccak, x)
    {
      match x
      case Vtype(t) => VisitValueType(t);
      case Nvtype(t) => VisitNonValueType(t);
      case TypeNotSet =>
    }

    method VisitVarDecl(x: VarDecl)
      requires Valid()
      modifies this
      ensures Valid() && State() == ConverterSpec.VisitVarDecl(old(State()), keccak, x)
    {
      VisitType(x.varType);
    }

    // -------------------------------------------------------------------
    // Program assembly

    method VisitTestFunction(x: TestFunction)
      requires Valid()
      modifies this
      ensures Valid() && State() == ConverterSpec.VisitTestFunction(old(State()), keccak, x)
    {
      ghost var g1 := State().(output := output + TestFunctionHeader + stateBuffer);
      output := output + TestFunctionHeader;
      output := output + stateBuffer;
      assert State() == g1;
      VisitVarDecl(x.localVars);
      ghost var g2 := State();
      assert g2 == ConverterSpec.VisitVarDecl(g1, keccak, x.localVars);
      output := output + TestFunctionTail(SuffixedVariableNameList(varCounter));
      assert State() == g2.(output := g2.output + TestFunctionTail(SuffixedVariableNameList(g2.varCounter)));
    }

    method WriteHelperFunctions()
      requires Valid()
      modifies this
      ensures Valid() && State() == ConverterSpec.WriteHelperFunctions(old(State()))
    {
      ghost var g0 := State();
      output := output + StringCompareFunction;
      output := output + BytesCompareFunction;
      output := output + CalleeFunctions(typedParamsPublic, checks, typedParamsExternal);
      assert State() == g0.(output := g0.output + StringCompareFunction + BytesCompareFunction
                                      + CalleeFunctions(g0.paramsPublic, g0.checks, g0.paramsExternal));
    }

    method VisitContract(x: Contract)
      requires Valid()
      modifies this
      ensures Valid() && State() == ConverterSpec.VisitContract(old(State()), keccak, x)
    {
      ghost var g0 := State();
      output := output + ContractHeader;
      ghost var g1 := State();
      assert g1 == g0.(output := g0.output + ContractHeader);
      VisitVarDecl(x.stateVars);
      ghost var g2 := State();
      assert g2 == ConverterSpec.VisitVarDecl(g1, keccak, x.stateVars);
      isStateVar := false;
      ghost var g3 := State();
      assert g3 == g2.(isStateVar := false);
      VisitTestFunction(x.testFunction);
      ghost var g4 := State();
      assert g4 == ConverterSpec.VisitTestFunction(g3, keccak, x.testFunction);
      WriteHelperFunctions();
      ghost var g5 := State();
      assert g5 == ConverterSpec.WriteHelperFunctions(g4);
      output := output + "\n}";
      assert State() == g5.(output := g5.output + "\n}");
    }

    /** The whole program for one input, from a freshly constructed converter. */
    method ContractToString(x: Contract) returns (s: string)
      requires Valid() && State() == Initial
      modifies this
      ensures Valid() && s == ConverterSpec.ContractToString(keccak, x)
    {
      ghost var g0 := State();
      VisitContract(x);
      assert State() == ConverterSpec.VisitContract(g0, keccak, x);
      s := output;
    }
  }
}
