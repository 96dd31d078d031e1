/** ContractABIUtils: how the test framework turns the type names of a
    function's outputs in a contract's JSON ABI into the slots it expects to
    read back. Every type becomes three ordered lists: head pointers (the
    "address" list), values read in place, and data read from the tail (the
    "dynamic" list). The expected parameters are laid out as the code builds
    them: each output's pointers, then its in-place values, then all tails in
    output order. For a tuple with a dynamic member this differs from the
    encoding of the Contract ABI Specification, which puts the tuple's values
    in the tail. The regular expressions of the classifier are written out
    as predicates on the name. */
module ContractAbiUtils {
  import opened Text

  datatype Option<T> = None | Some(value: T)

  /** ABIType::Type, for the kinds the classifier produces. */
  datatype AbiKind = Boolean | UnsignedDec | SignedDec | Hex | HexString | String

  datatype Align = AlignLeft | AlignRight

  /** MetaNone is the default of a slot that is neither a pointer nor string data. */
  datatype Meta = MetaNone | MetaPointer | MetaString

  datatype AbiType = AbiType(kind: AbiKind, align: Align, size: nat, meta: Meta)

  /** The three lists of fromTypeName, in the order of the returned tuple. */
  datatype Slots = Slots(address: seq<AbiType>, value: seq<AbiType>, dynamic: seq<AbiType>)

  /** One entry of "outputs" (or of a tuple's "components"); a missing
      "type" reads as the empty string and missing "components" as none. */
  datatype AbiOutput = AbiOutput(typeName: string, components: seq<AbiOutput>)

  /** One entry of the contract ABI; entries without a "name" (the
      constructor, the fallback) have None, which equals no function name. */
  datatype AbiFunction = AbiFunction(name: Option<string>, outputs: seq<AbiOutput>)

  /** A right-aligned 32-byte word. */
  function Word(kind: AbiKind): AbiType
  {
    AbiType(kind, AlignRight, 32, MetaNone)
  }

  const Pointer: AbiType := AbiType(Hex, AlignRight, 32, MetaPointer)
  const StringLength: AbiType := AbiType(UnsignedDec, AlignRight, 32, MetaString)
  const StringData: AbiType := AbiType(String, AlignLeft, 32, MetaString)
  const NoSlots: Slots := Slots([], [], [])

  // ---------------------------------------------------------------------
  // Type names (the regular expressions, matched against the whole name)

  predicate NameChar(c: char)
  {
    'a' <= c <= 'z' || '0' <= c <= '9'
  }

  /** `<p>\d*`: the prefix p followed by any number of decimal digits. */
  predicate PrefixDigits(s: string, p: string)
  {
    |p| <= |s| && s[..|p|] == p && AllDecimal(s[|p|..])
  }

  predicate IsBoolName(s: string) { s == "bool" }
  predicate IsUintName(s: string) { PrefixDigits(s, "uint") }
  predicate IsIntName(s: string) { PrefixDigits(s, "int") }
  /** `bytes\d+`: at least one digit. */
  predicate IsFixedBytesName(s: string) { |s| > 5 && PrefixDigits(s, "bytes") }
  /** `\bbytes\b` matched against the whole name: exactly `bytes`. */
  predicate IsDynBytesName(s: string) { s == "bytes" }
  predicate IsStringName(s: string) { s == "string" }
  predicate IsTupleName(s: string) { s == "tuple" }

  /** The element types of the array patterns. */
  datatype ElementName = BoolElem | UintElem | IntElem | StringElem | TupleElem

  predicate IsElementName(e: string, k: ElementName)
  {
    match k
    case BoolElem => IsBoolName(e)
    case UintElem => IsUintName(e)
    case IntElem => IsIntName(e)
    case StringElem => IsStringName(e)
    case TupleElem => IsTupleName(e)
  }

  /** The position of the first c in s, or |s| when there is none (string::npos). */
  function Find(s: string, c: char): (i: nat)
    ensures i <= |s| && (i < |s| ==> s[i] == c)
  {
    if s == [] || s[0] == c then 0 else 1 + Find(s[1..], c)
  }

  /** Find stops at the first c: a c-free prefix followed by a c is found. */
  lemma {:induction false} FindFirst(s: string, c: char, i: nat)
    requires i <= |s| && (i < |s| ==> s[i] == c)
    requires forall j :: 0 <= j < i ==> s[j] != c
    ensures Find(s, c) == i
  {
    if s != [] && s[0] != c {
      assert forall j :: 0 <= j < i - 1 ==> s[1..][j] == s[j + 1];
      FindFirst(s[1..], c, i - 1);
    }
  }

  /** `(<element>)(\[\d+\])`: an element name, then one bracketed non-empty
      decimal length. The element has no bracket, so it ends at the first '['. */
  predicate IsArrayName(s: string, k: ElementName)
  {
    var l := Find(s, '[');
    && l + 2 < |s| && s[|s| - 1] == ']'
    && AllDecimal(s[l + 1..|s| - 1])
    && IsElementName(s[..l], k)
  }

  /** Every pattern fromTypeName tries, in the order it tries them. */
  datatype NameClass =
    | BoolName | UintName | IntName | FixedBytesName | DynBytesName
    | StringName | TupleName | ArrayName(element: ElementName)

  predicate Matches(s: string, k: NameClass)
  {
    match k
    case BoolName => IsBoolName(s)
    case UintName => IsUintName(s)
    case IntName => IsIntName(s)
    case FixedBytesName => IsFixedBytesName(s)
    case DynBytesName => IsDynBytesName(s)
    case StringName => IsStringName(s)
    case TupleName => IsTupleName(s)
    case ArrayName(e) => IsArrayName(s, e)
  }

  // ---------------------------------------------------------------------
  // arraySize

  /** The digits between the first '[' and the first ']', parsed. `stoi`
      throws unless they form a number, so they must be digits. */
  function ArraySize(arrayType: string): (n: nat)
    requires var l, r := Find(arrayType, '['), Find(arrayType, ']');
      l + 1 < r < |arrayType| && AllDecimal(arrayType[l + 1..r])
  {
    var l, r := Find(arrayType, '['), Find(arrayType, ']');
    DecimalValue(arrayType[l + 1..r])
  }

  // ---------------------------------------------------------------------
  // fromTypeName, as a reference function

  /** `n` copies of one slot. */
  function Repeat(x: AbiType, n: nat): (r: seq<AbiType>)
    ensures |r| == n && forall i :: 0 <= i < n ==> r[i] == x
  {
    if n == 0 then [] else Repeat(x, n - 1) + [x]
  }

  /** `n` (length, data) pairs of string tails. */
  function StringPairs(n: nat): (r: seq<AbiType>)
    ensures |r| == 2 * n
    ensures forall i :: 0 <= i < |r| ==> r[i] == if i % 2 == 0 then StringLength else StringData
  {
    if n == 0 then [] else StringPairs(n - 1) + [StringLength, StringData]
  }

  function Join(a: Slots, b: Slots): Slots
  {
    Slots(a.address + b.address, a.value + b.value, a.dynamic + b.dynamic)
  }

  /** What a component adds to its tuple: nothing when it cannot be converted. */
  function Contribution(r: Option<Slots>): Slots
  {
    match r
    case Some(s) => s
    case None => NoSlots
  }

  /** The slots of one output, or None when its type is not supported. */
  function Classify(o: AbiOutput, isCompoundType: bool): Option<Slots>
    decreases o
  {
    var t := o.typeName;
    if IsBoolName(t) then Some(Slots([], [Word(Boolean)], []))
    else if IsUintName(t) then Some(Slots([], [Word(UnsignedDec)], []))
    else if IsIntName(t) then Some(Slots([], [Word(SignedDec)], []))
    else if IsFixedBytesName(t) then Some(Slots([], [Word(Hex)], []))
    else if IsDynBytesName(t) then
      Some(Slots([], [Word(UnsignedDec), Word(UnsignedDec), AbiType(HexString, AlignLeft, 32, MetaNone)], []))
    else if IsStringName(t) then
      Some(Slots([Pointer], [], (if isCompoundType then [Pointer] else []) + [StringLength, StringData]))
    else if IsTupleName(t) then Some(ClassifyComponents(o.components))
    else if IsArrayName(t, BoolElem) then Some(Slots([], Repeat(Word(Boolean), ArraySizeOf(t, BoolElem)), []))
    else if IsArrayName(t, UintElem) then Some(Slots([], Repeat(Word(UnsignedDec), ArraySizeOf(t, UintElem)), []))
    else if IsArrayName(t, IntElem) then Some(Slots([], Repeat(Word(SignedDec), ArraySizeOf(t, IntElem)), []))
    else if IsArrayName(t, StringElem) then
      var n := ArraySizeOf(t, StringElem);
      Some(Slots([Pointer], [], Repeat(Pointer, n) + StringPairs(n)))
    else None
  }

  /** The components of a tuple, classified as compound and joined in order. */
  function ClassifyComponents(cs: seq<AbiOutput>): Slots
    decreases cs
  {
    if cs == [] then NoSlots
    else Join(ClassifyComponents(cs[..|cs| - 1]), Contribution(Classify(cs[|cs| - 1], true)))
  }

  // ---------------------------------------------------------------------
  // Facts about names

  lemma PrefixDigitsChars(s: string, p: string)
    requires PrefixDigits(s, p) && forall i :: 0 <= i < |p| ==> NameChar(p[i])
    ensures forall i :: 0 <= i < |s| ==> NameChar(s[i])
  {
    forall i | 0 <= i < |s|
      ensures NameChar(s[i])
    {
      if i < |p| {
        assert s[i] == s[..|p|][i] == p[i];
      } else {
        assert s[i] == s[|p|..][i - |p|];
      }
    }
  }

  predicate IsScalarName(s: string)
  {
    IsBoolName(s) || IsUintName(s) || IsIntName(s) || IsFixedBytesName(s)
    || IsDynBytesName(s) || IsStringName(s) || IsTupleName(s)
  }

  /** How each scalar pattern starts, and that it only matches letters and digits. */
  lemma NameShape(s: string)
    ensures IsBoolName(s) ==> |s| == 4 && s[0] == 'b' && s[1] == 'o'
    ensures IsUintName(s) ==> |s| >= 4 && s[0] == 'u' && s[1] == 'i'
    ensures IsIntName(s) ==> |s| >= 3 && s[0] == 'i' && s[1] == 'n'
    ensures IsFixedBytesName(s) ==> |s| > 5 && s[0] == 'b' && s[1] == 'y'
    ensures IsDynBytesName(s) ==> |s| == 5 && s[0] == 'b' && s[1] == 'y'
    ensures IsStringName(s) ==> |s| == 6 && s[0] == 's'
    ensures IsTupleName(s) ==> |s| == 5 && s[0] == 't'
    ensures IsScalarName(s) ==> forall i :: 0 <= i < |s| ==> NameChar(s[i])
  {
    if IsUintName(s) {
      assert s[0] == s[..4][0] && s[1] == s[..4][1];
      PrefixDigitsChars(s, "uint");
    }
    if IsIntName(s) {
      assert s[0] == s[..3][0] && s[1] == s[..3][1];
      PrefixDigitsChars(s, "int");
    }
    if IsFixedBytesName(s) {
      assert s[0] == s[..5][0] && s[1] == s[..5][1];
      PrefixDigitsChars(s, "bytes");
    }
  }

  /** At most one pattern matches a name, so the order in which
      fromTypeName tries them does not decide the result. */
  lemma NameClassesDisjoint(s: string, k1: NameClass, k2: NameClass)
    requires k1 != k2 && Matches(s, k1)
    ensures !Matches(s, k2)
  {
    NameShape(s);
    NameShape(s[..Find(s, '[')]);
  }

  /** An array name has its only '[' before the digits and its only ']' at
      the end, so arraySize parses exactly the bracketed digits. */
  lemma ArrayNameBrackets(s: string, k: ElementName)
    requires IsArrayName(s, k)
    ensures Find(s, ']') == |s| - 1
  {
    var l := Find(s, '[');
    NameShape(s[..l]);
    CloseBracketAtEnd(s, l);
  }

  /** With letters and digits before the '[' and digits after it, the first
      ']' is the closing one. */
  lemma CloseBracketAtEnd(s: string, l: nat)
    requires l + 1 < |s| && s[l] == '[' && s[|s| - 1] == ']'
    requires forall j :: 0 <= j < l ==> NameChar(s[..l][j])
    requires AllDecimal(s[l + 1..|s| - 1])
    ensures Find(s, ']') == |s| - 1
  {
    forall j | 0 <= j < |s| - 1
      ensures s[j] != ']'
    {
      if j < l {
        assert s[j] == s[..l][j];
      } else if j > l {
        assert s[j] == s[l + 1..|s| - 1][j - l - 1];
      }
    }
    FindFirst(s, ']', |s| - 1);
  }

  /** The length of an array name. */
  function ArraySizeOf(s: string, k: ElementName): (n: nat)
    requires IsArrayName(s, k)
    ensures n == DecimalValue(s[Find(s, '[') + 1..|s| - 1])
  {
    ArrayNameBrackets(s, k);
    ArraySize(s)
  }

  /** Writing a length in brackets after an element name gives an array name
      whose parsed size is that length. */
  lemma ArrayNameRoundTrip(e: string, n: nat, k: ElementName)
    requires IsElementName(e, k)
    ensures var s := e + "[" + DecimalString(n) + "]";
      IsArrayName(s, k) && ArraySizeOf(s, k) == n
  {
    var d := DecimalString(n);
    var s := e + "[" + d + "]";
    NameShape(e);
    assert s[|e|] == '[';
    assert forall j :: 0 <= j < |e| ==> s[j] == e[j];
    FindFirst(s, '[', |e|);
    assert s[..|e|] == e;
    assert s[|e| + 1..|s| - 1] == d;
    DecimalRoundTrip(n);
  }

  // ---------------------------------------------------------------------
  // Facts about the classification

  /** bool, uint\d*, int\d* and bytes\d+ are one right-aligned 32-byte value. */
  lemma ScalarSlots(o: AbiOutput, isCompoundType: bool)
    requires IsBoolName(o.typeName) || IsUintName(o.typeName) || IsIntName(o.typeName) || IsFixedBytesName(o.typeName)
    ensures var r := Classify(o, isCompoundType);
      && r.Some? && r.value.address == [] && r.value.dynamic == []
      && |r.value.value| == 1 && r.value.value[0].align == AlignRight
      && r.value.value[0].size == 32 && r.value.value[0].meta == MetaNone
      && (IsBoolName(o.typeName) ==> r.value.value[0].kind == Boolean)
      && (IsUintName(o.typeName) ==> r.value.value[0].kind == UnsignedDec)
      && (IsIntName(o.typeName) ==> r.value.value[0].kind == SignedDec)
      && (IsFixedBytesName(o.typeName) ==> r.value.value[0].kind == Hex)
  {
    var t := o.typeName;
    if IsIntName(t) {
      NameClassesDisjoint(t, IntName, UintName);
    }
    if IsFixedBytesName(t) {
      NameClassesDisjoint(t, FixedBytesName, BoolName);
      NameClassesDisjoint(t, FixedBytesName, UintName);
      NameClassesDisjoint(t, FixedBytesName, IntName);
    }
  }

  /** `bytes` is its length twice and then its left-aligned data. */
  lemma DynamicBytesSlots(o: AbiOutput, isCompoundType: bool)
    requires o.typeName == "bytes"
    ensures var r := Classify(o, isCompoundType);
      && r.Some? && r.value.address == [] && r.value.dynamic == []
      && |r.value.value| == 3
      && r.value.value[0] == r.value.value[1] == Word(UnsignedDec)
      && r.value.value[2].kind == HexString && r.value.value[2].align == AlignLeft
  {
    NameClassesDisjoint(o.typeName, DynBytesName, UintName);
    NameClassesDisjoint(o.typeName, DynBytesName, IntName);
    NameClassesDisjoint(o.typeName, DynBytesName, FixedBytesName);
  }

  /** `string` is one head pointer; its tail is the length and the data,
      preceded by one more pointer exactly when it sits inside a tuple. */
  lemma StringSlots(o: AbiOutput, isCompoundType: bool)
    requires o.typeName == "string"
    ensures var r := Classify(o, isCompoundType);
      && r.Some? && r.value.address == [Pointer] && r.value.value == []
      && |r.value.dynamic| == (if isCompoundType then 3 else 2)
      && r.value.dynamic[|r.value.dynamic| - 2..] == [StringLength, StringData]
      && (r.value.dynamic[0] == Pointer <==> isCompoundType)
  {
    var d := (if isCompoundType then [Pointer] else []) + [StringLength, StringData];
    StringClassified(o, isCompoundType);
    assert d[|d| - 2..] == [StringLength, StringData];
  }

  lemma StringClassified(o: AbiOutput, isCompoundType: bool)
    requires o.typeName == "string"
    ensures Classify(o, isCompoundType)
         == Some(Slots([Pointer], [], (if isCompoundType then [Pointer] else []) + [StringLength, StringData]))
  {
    NameClassesDisjoint(o.typeName, StringName, UintName);
    NameClassesDisjoint(o.typeName, StringName, IntName);
    NameClassesDisjoint(o.typeName, StringName, FixedBytesName);
  }

  /** The slots of `T[n]` for a value element T: n values of T's kind. */
  function ElementKind(k: ElementName): AbiKind
    requires k == BoolElem || k == UintElem || k == IntElem
  {
    match k
    case BoolElem => Boolean
    case UintElem => UnsignedDec
    case IntElem => SignedDec
  }

  /** Array names are not scalar names: they end in ']'. */
  lemma ArrayNameIsNotScalar(s: string, k: ElementName)
    requires IsArrayName(s, k)
    ensures !IsBoolName(s) && !IsUintName(s) && !IsIntName(s) && !IsFixedBytesName(s)
    ensures !IsDynBytesName(s) && !IsStringName(s) && !IsTupleName(s)
  {
    NameShape(s);
  }

  /** `bool[n]`, `uint..[n]` and `int..[n]`, however the length is written,
      are n values of the element's kind, n being the parsed length. */
  lemma ValueArraySlots(o: AbiOutput, k: ElementName, isCompoundType: bool)
    requires k == BoolElem || k == UintElem || k == IntElem
    requires IsArrayName(o.typeName, k)
    ensures var r := Classify(o, isCompoundType);
      && r.Some? && r.value.address == [] && r.value.dynamic == []
      && |r.value.value| == ArraySizeOf(o.typeName, k)
      && forall i :: 0 <= i < |r.value.value| ==> r.value.value[i] == Word(ElementKind(k))
  {
    var s := o.typeName;
    ArrayNameIsNotScalar(s, k);
    if k != BoolElem { NameClassesDisjoint(s, ArrayName(k), ArrayName(BoolElem)); }
    if k != UintElem { NameClassesDisjoint(s, ArrayName(k), ArrayName(UintElem)); }
  }

  /** A name of the string-array pattern is classified with its parsed length. */
  lemma StringArrayClassified(o: AbiOutput, isCompoundType: bool)
    requires IsArrayName(o.typeName, StringElem)
    ensures var n := ArraySizeOf(o.typeName, StringElem);
      Classify(o, isCompoundType) == Some(Slots([Pointer], [], Repeat(Pointer, n) + StringPairs(n)))
  {
    var s := o.typeName;
    ArrayNameIsNotScalar(s, StringElem);
    NameClassesDisjoint(s, ArrayName(StringElem), ArrayName(BoolElem));
    NameClassesDisjoint(s, ArrayName(StringElem), ArrayName(UintElem));
    NameClassesDisjoint(s, ArrayName(StringElem), ArrayName(IntElem));
  }

  /** `string[n]` is one head pointer, then in the tail n pointers followed
      by n (length, data) pairs: 3n tail slots. */
  lemma StringArraySlots(o: AbiOutput, isCompoundType: bool)
    requires IsArrayName(o.typeName, StringElem)
    ensures var r, n := Classify(o, isCompoundType), ArraySizeOf(o.typeName, StringElem);
      && r.Some? && r.value.address == [Pointer] && r.value.value == []
      && |r.value.dynamic| == 3 * n
      && (forall i :: 0 <= i < n ==> r.value.dynamic[i] == Pointer)
      && (forall i :: 0 <= i < n ==> r.value.dynamic[n + 2 * i] == StringLength && r.value.dynamic[n + 2 * i + 1] == StringData)
  {
    StringArrayClassified(o, isCompoundType);
    StringArrayTail(ArraySizeOf(o.typeName, StringElem));
  }

  lemma StringArrayTail(n: nat)
    ensures var d := Repeat(Pointer, n) + StringPairs(n);
      && |d| == 3 * n
      && (forall i :: 0 <= i < n ==> d[i] == Pointer)
      && (forall i :: 0 <= i < n ==> d[n + 2 * i] == StringLength && d[n + 2 * i + 1] == StringData)
  {
    var r, p := Repeat(Pointer, n), StringPairs(n);
    var d := r + p;
    forall i | 0 <= i < n
      ensures d[n + 2 * i] == StringLength && d[n + 2 * i + 1] == StringData
    {
      var k := 2 * i;
      PairAt(n, k);
      assert d[n + k] == p[k] && d[n + k + 1] == p[k + 1];
    }
  }

  lemma PairAt(n: nat, k: nat)
    requires k + 1 < 2 * n && k % 2 == 0
    ensures StringPairs(n)[k] == StringLength && StringPairs(n)[k + 1] == StringData
  {
    assert (k + 1) % 2 == 1;
  }

  /** Arrays of tuples are not supported, whatever their length. */
  lemma TupleArrayUnsupported(o: AbiOutput, isCompoundType: bool)
    requires IsArrayName(o.typeName, TupleElem)
    ensures Classify(o, isCompoundType) == None
  {
    var s := o.typeName;
    ArrayNameIsNotScalar(s, TupleElem);
    NameClassesDisjoint(s, ArrayName(TupleElem), ArrayName(BoolElem));
    NameClassesDisjoint(s, ArrayName(TupleElem), ArrayName(UintElem));
    NameClassesDisjoint(s, ArrayName(TupleElem), ArrayName(IntElem));
    NameClassesDisjoint(s, ArrayName(TupleElem), ArrayName(StringElem));
  }

  /** A name no pattern matches is not supported. */
  lemma UnknownNameUnsupported(o: AbiOutput, isCompoundType: bool)
    requires forall k :: !Matches(o.typeName, k)
    ensures Classify(o, isCompoundType) == None
  {
    var t := o.typeName;
    assert !IsBoolName(t) by { assert !Matches(t, BoolName); }
    assert !IsUintName(t) by { assert !Matches(t, UintName); }
    assert !IsIntName(t) by { assert !Matches(t, IntName); }
    assert !IsFixedBytesName(t) by { assert !Matches(t, FixedBytesName); }
    assert !IsDynBytesName(t) by { assert !Matches(t, DynBytesName); }
    assert !IsStringName(t) by { assert !Matches(t, StringName); }
    assert !IsTupleName(t) by { assert !Matches(t, TupleName); }
    assert !IsArrayName(t, BoolElem) by { assert !Matches(t, ArrayName(BoolElem)); }
    assert !IsArrayName(t, UintElem) by { assert !Matches(t, ArrayName(UintElem)); }
    assert !IsArrayName(t, IntElem) by { assert !Matches(t, ArrayName(IntElem)); }
    assert !IsArrayName(t, StringElem) by { assert !Matches(t, ArrayName(StringElem)); }
  }

  lemma JoinAssociative(x: Slots, y: Slots, z: Slots)
    ensures Join(Join(x, y), z) == Join(x, Join(y, z))
  {
    assert (x.address + y.address) + z.address == x.address + (y.address + z.address);
    assert (x.value + y.value) + z.value == x.value + (y.value + z.value);
    assert (x.dynamic + y.dynamic) + z.dynamic == x.dynamic + (y.dynamic + z.dynamic);
  }

  /** A tuple's lists are its components' lists, concatenated in component
      order: splitting the components splits the lists. */
  lemma {:induction false} ComponentsAppend(a: seq<AbiOutput>, b: seq<AbiOutput>)
    ensures ClassifyComponents(a + b) == Join(ClassifyComponents(a), ClassifyComponents(b))
    decreases |b|
  {
    if b == [] {
      assert a + b == a;
      assert Join(ClassifyComponents(a), NoSlots) == ClassifyComponents(a);
    } else {
      var front, last := b[..|b| - 1], b[|b| - 1];
      var ab := a + b;
      assert ab[..|ab| - 1] == a + front && ab[|ab| - 1] == last;
      var x := Contribution(Classify(last, true));
      assert ClassifyComponents(ab) == Join(ClassifyComponents(a + front), x);
      assert ClassifyComponents(b) == Join(ClassifyComponents(front), x);
      ComponentsAppend(a, front);
      JoinAssociative(ClassifyComponents(a), ClassifyComponents(front), x);
    }
  }

  /** A component that cannot be converted leaves its tuple unchanged. */
  lemma UnconvertibleComponent(cs: seq<AbiOutput>, c: AbiOutput)
    requires Classify(c, true) == None
    ensures ClassifyComponents(cs + [c]) == ClassifyComponents(cs)
  {
    assert (cs + [c])[..|cs|] == cs;
  }

  /** Every list keeps its role: head entries are pointers, values carry no
      metadata, tail entries are pointers or string data, and all slots are
      32-byte words. */
  predicate WellFormed(s: Slots)
  {
    && (forall i :: 0 <= i < |s.address| ==> s.address[i] == Pointer)
    && (forall i :: 0 <= i < |s.value| ==> s.value[i].meta == MetaNone && s.value[i].size == 32)
    && (forall i :: 0 <= i < |s.dynamic| ==> s.dynamic[i].meta != MetaNone && s.dynamic[i].size == 32)
  }

  lemma JoinWellFormed(a: Slots, b: Slots)
    requires WellFormed(a) && WellFormed(b)
    ensures WellFormed(Join(a, b))
  {
    var j := Join(a, b);
    assert forall i :: |a.address| <= i < |j.address| ==> j.address[i] == b.address[i - |a.address|];
    assert forall i :: |a.value| <= i < |j.value| ==> j.value[i] == b.value[i - |a.value|];
    assert forall i :: |a.dynamic| <= i < |j.dynamic| ==> j.dynamic[i] == b.dynamic[i - |a.dynamic|];
  }

  lemma {:induction false} ClassifyWellFormed(o: AbiOutput, isCompoundType: bool)
    ensures Classify(o, isCompoundType).Some? ==> WellFormed(Classify(o, isCompoundType).value)
    decreases o
  {
    var t := o.typeName;
    if !IsBoolName(t) && !IsUintName(t) && !IsIntName(t) && !IsFixedBytesName(t)
      && !IsDynBytesName(t) && !IsStringName(t) && IsTupleName(t)
    {
      ComponentsWellFormed(o.components);
    } else if !IsBoolName(t) && !IsUintName(t) && !IsIntName(t) && !IsFixedBytesName(t)
      && !IsDynBytesName(t) && !IsStringName(t) && !IsTupleName(t)
      && !IsArrayName(t, BoolElem) && !IsArrayName(t, UintElem) && !IsArrayName(t, IntElem)
      && IsArrayName(t, StringElem)
    {
      StringArrayWellFormed(ArraySizeOf(t, StringElem));
    }
  }

  lemma StringArrayWellFormed(n: nat)
    ensures WellFormed(Slots([Pointer], [], Repeat(Pointer, n) + StringPairs(n)))
  {
    var d := Repeat(Pointer, n) + StringPairs(n);
    assert forall i :: n <= i < |d| ==> d[i] == StringPairs(n)[i - n];
  }

  lemma {:induction false} ComponentsWellFormed(cs: seq<AbiOutput>)
    ensures WellFormed(ClassifyComponents(cs))
    decreases cs
  {
    if cs != [] {
      ComponentsWellFormed(cs[..|cs| - 1]);
      ClassifyWellFormed(cs[|cs| - 1], true);
      JoinWellFormed(ClassifyComponents(cs[..|cs| - 1]), Contribution(Classify(cs[|cs| - 1], true)));
    }
  }

  // ---------------------------------------------------------------------
  // fromTypeName

  /** Classify one output, pushing its slots one at a time; a tuple
      classifies each component in turn. */
  method FromTypeName(o: AbiOutput, isCompoundType: bool) returns (r: Option<Slots>)
    ensures r == Classify(o, isCompoundType)
    decreases o
  {
    var addressTypes: seq<AbiType> := [];
    var valueTypes: seq<AbiType> := [];
    var dynamicTypes: seq<AbiType> := [];
    var t := o.typeName;
    if IsBoolName(t) {
      valueTypes := valueTypes + [Word(Boolean)];
      assert valueTypes == [Word(Boolean)];
    } else if IsUintName(t) {
      valueTypes := valueTypes + [Word(UnsignedDec)];
      assert valueTypes == [Word(UnsignedDec)];
    } else if IsIntName(t) {
      valueTypes := valueTypes + [Word(SignedDec)];
      assert valueTypes == [Word(SignedDec)];
    } else if IsFixedBytesName(t) {
      valueTypes := valueTypes + [Word(Hex)];
      assert valueTypes == [Word(Hex)];
    } else if IsDynBytesName(t) {
      valueTypes := valueTypes + [Word(UnsignedDec)];
      valueTypes := valueTypes + [Word(UnsignedDec)];
      valueTypes := valueTypes + [AbiType(HexString, AlignLeft, 32, MetaNone)];
      assert valueTypes == [Word(UnsignedDec), Word(UnsignedDec), AbiType(HexString, AlignLeft, 32, MetaNone)];
    } else if IsStringName(t) {
      addressTypes := addressTypes + [Pointer];
      if isCompoundType {
        dynamicTypes := dynamicTypes + [Pointer];
      }
      dynamicTypes := dynamicTypes + [StringLength];
      dynamicTypes := dynamicTypes + [StringData];
      assert addressTypes == [Pointer];
      assert dynamicTypes == (if isCompoundType then [Pointer] else []) + [StringLength, StringData];
    } else if IsTupleName(t) {
      var components := FromComponentTypes(o.components);
      addressTypes, valueTypes, dynamicTypes := components.address, components.value, components.dynamic;
    } else if IsArrayName(t, BoolElem) {
      for i := 0 to ArraySizeOf(t, BoolElem)
        invariant valueTypes == Repeat(Word(Boolean), i)
      {
        valueTypes := valueTypes + [Word(Boolean)];
      }
    } else if IsArrayName(t, UintElem) {
      for i := 0 to ArraySizeOf(t, UintElem)
        invariant valueTypes == Repeat(Word(UnsignedDec), i)
      {
        valueTypes := valueTypes + [Word(UnsignedDec)];
      }
    } else if IsArrayName(t, IntElem) {
      for i := 0 to ArraySizeOf(t, IntElem)
        invariant valueTypes == Repeat(Word(SignedDec), i)
      {
        valueTypes := valueTypes + [Word(SignedDec)];
      }
    } else if IsArrayName(t, StringElem) {
      addressTypes := addressTypes + [Pointer];
      assert addressTypes == [Pointer];
      var n := ArraySizeOf(t, StringElem);
      for i := 0 to n
        invariant dynamicTypes == Repeat(Pointer, i)
      {
        dynamicTypes := dynamicTypes + [Pointer];
      }
      for i := 0 to n
        invariant dynamicTypes == Repeat(Pointer, n) + StringPairs(i)
      {
        dynamicTypes := dynamicTypes + [StringLength];
        dynamicTypes := dynamicTypes + [StringData];
      }
    } else if IsArrayName(t, TupleElem) {
      return None;
    } else {
      return None;
    }
    return Some(Slots(addressTypes, valueTypes, dynamicTypes));
  }

  /** The tuple branch of fromTypeName: each component is converted as a
      compound type and, when it converts, its slots are appended. */
  method FromComponentTypes(cs: seq<AbiOutput>) returns (r: Slots)
    ensures r == ClassifyComponents(cs)
    decreases cs
  {
    var addressTypes: seq<AbiType> := [];
    var valueTypes: seq<AbiType> := [];
    var dynamicTypes: seq<AbiType> := [];
    for i := 0 to |cs|
      invariant Slots(addressTypes, valueTypes, dynamicTypes) == ClassifyComponents(cs[..i])
    {
      var componentTypes := FromTypeName(cs[i], true);
      assert cs[..i + 1][..i] == cs[..i];
      if componentTypes.Some? {
        addressTypes := addressTypes + componentTypes.value.address;
        valueTypes := valueTypes + componentTypes.value.value;
        dynamicTypes := dynamicTypes + componentTypes.value.dynamic;
      }
    }
    assert cs[..|cs|] == cs;
    return Slots(addressTypes, valueTypes, dynamicTypes);
  }

  // ---------------------------------------------------------------------
  // parametersFromJson

  /** The error reported for an output whose type cannot be converted. */
  function ConversionError(typeName: string): string
  {
    "Could not convert \"" + typeName + "\" to internal ABI type representation. Unable to update expectations."
  }

  /** The outputs of every function with the given name, in ABI order. */
  function MatchingOutputs(abi: seq<AbiFunction>, functionName: string): seq<AbiOutput>
  {
    if abi == [] then []
    else
      var f := abi[|abi| - 1];
      MatchingOutputs(abi[..|abi| - 1], functionName) + (if f.name == Some(functionName) then f.outputs else [])
  }

  /** One output after fromTypeName: its type name and its slots, if any. */
  datatype Converted = Converted(typeName: string, types: Option<Slots>)

  /** fromTypeName applied to each output, in order, outside any tuple. */
  function Convert(outs: seq<AbiOutput>): (r: seq<Converted>)
    ensures |r| == |outs|
  {
    if outs == [] then []
    else Convert(outs[..|outs| - 1]) + [Converted(outs[|outs| - 1].typeName, Classify(outs[|outs| - 1], false))]
  }

  /** The heads (each output's pointers, then its values), the tails and the
      errors gathered over a sequence of outputs. */
  datatype Collected = Collected(heads: seq<AbiType>, tails: seq<AbiType>, errors: seq<string>)

  /** What one converted output adds. */
  function Step(c: Collected, x: Converted): Collected
  {
    match x.types
    case Some(s) => Collected(c.heads + s.address + s.value, c.tails + s.dynamic, c.errors)
    case None => Collected(c.heads, c.tails, c.errors + [ConversionError(x.typeName)])
  }

  function Collect(xs: seq<Converted>): Collected
  {
    if xs == [] then Collected([], [], [])
    else Step(Collect(xs[..|xs| - 1]), xs[|xs| - 1])
  }

  /** The expected parameters of a function: all heads, then all tails. */
  function ParametersOf(abi: seq<AbiFunction>, functionName: string): (seq<AbiType>, seq<string>)
  {
    var c := Collect(Convert(MatchingOutputs(abi, functionName)));
    (c.heads + c.tails, c.errors)
  }

  /** One more output is one more step. */
  lemma CollectSnoc(outs: seq<AbiOutput>, o: AbiOutput)
    ensures Collect(Convert(outs + [o])) == Step(Collect(Convert(outs)), Converted(o.typeName, Classify(o, false)))
  {
    assert (outs + [o])[..|outs|] == outs;
    var xs := Convert(outs + [o]);
    assert xs[..|xs| - 1] == Convert(outs);
  }

  /** The outputs seen after one more function. */
  lemma MatchingOutputsSnoc(abi: seq<AbiFunction>, i: nat, name: string)
    requires i < |abi|
    ensures MatchingOutputs(abi[..i + 1], name)
         == MatchingOutputs(abi[..i], name) + (if abi[i].name == Some(name) then abi[i].outputs else [])
  {
    assert abi[..i + 1][..i] == abi[..i];
  }

  /** A converted output adds its pointers and values to the heads in one piece. */
  lemma StepConverted(c: Collected, x: Converted, s: Slots)
    requires x.types == Some(s)
    ensures Step(c, x) == Collected(c.heads + (s.address + s.value), c.tails + s.dynamic, c.errors)
  {
    assert c.heads + s.address + s.value == c.heads + (s.address + s.value);
  }

  /** Converting one more output of the current function is one more step. */
  lemma OutputStep(done: seq<AbiOutput>, outputs: seq<AbiOutput>, j: nat)
    requires j < |outputs|
    ensures Collect(Convert(done + outputs[..j + 1]))
         == Step(Collect(Convert(done + outputs[..j])), Converted(outputs[j].typeName, Classify(outputs[j], false)))
  {
    assert done + outputs[..j + 1] == (done + outputs[..j]) + [outputs[j]];
    CollectSnoc(done + outputs[..j], outputs[j]);
  }

  /** Walk the functions of the ABI and the outputs of every function with
      the given name; reported errors are returned in order. */
  method ParametersFromJson(contractAbi: seq<AbiFunction>, functionName: string)
    returns (params: seq<AbiType>, errors: seq<string>)
    ensures (params, errors) == ParametersOf(contractAbi, functionName)
  {
    var finalParams: seq<AbiType> := [];
    var dynamicTypeParams: seq<AbiType> := [];
    errors := [];
    for i := 0 to |contractAbi|
      invariant Collected(finalParams, dynamicTypeParams, errors) == Collect(Convert(MatchingOutputs(contractAbi[..i], functionName)))
    {
      var abiFunction := contractAbi[i];
      ghost var done := MatchingOutputs(contractAbi[..i], functionName);
      MatchingOutputsSnoc(contractAbi, i, functionName);
      if abiFunction.name == Some(functionName) {
        finalParams, dynamicTypeParams, errors := CollectOutputs(abiFunction.outputs, done, finalParams, dynamicTypeParams, errors);
      } else {
        assert done + [] == done;
      }
    }
    assert contractAbi[..|contractAbi|] == contractAbi;
    params := finalParams + dynamicTypeParams;
  }

  /** The inner loop of parametersFromJson over the outputs of one matching
      function. */
  method CollectOutputs(outputs: seq<AbiOutput>, ghost done: seq<AbiOutput>,
                        finalParams0: seq<AbiType>, dynamicTypeParams0: seq<AbiType>, errors0: seq<string>)
    returns (finalParams: seq<AbiType>, dynamicTypeParams: seq<AbiType>, errors: seq<string>)
    requires Collected(finalParams0, dynamicTypeParams0, errors0) == Collect(Convert(done))
    ensures Collected(finalParams, dynamicTypeParams, errors) == Collect(Convert(done + outputs))
  {
    finalParams, dynamicTypeParams, errors := finalParams0, dynamicTypeParams0, errors0;
    assert done + outputs[..0] == done;
    for j := 0 to |outputs|
      invariant Collected(finalParams, dynamicTypeParams, errors) == Collect(Convert(done + outputs[..j]))
    {
      finalParams, dynamicTypeParams, errors := AddOutput(outputs[j], finalParams, dynamicTypeParams, errors);
      OutputStep(done, outputs, j);
    }
    assert outputs[..|outputs|] == outputs;
  }

  /** One iteration of that loop: the output's pointers and values go to the
      heads at once, its tail slots are kept for the end, and an output whose
      type does not convert is reported. */
  method AddOutput(output: AbiOutput, finalParams0: seq<AbiType>, dynamicTypeParams0: seq<AbiType>, errors0: seq<string>)
    returns (finalParams: seq<AbiType>, dynamicTypeParams: seq<AbiType>, errors: seq<string>)
    ensures Collected(finalParams, dynamicTypeParams, errors)
         == Step(Collected(finalParams0, dynamicTypeParams0, errors0), Converted(output.typeName, Classify(output, false)))
  {
    var addressTypeParams: seq<AbiType> := [];
    var valueTypeParams: seq<AbiType> := [];
    finalParams, dynamicTypeParams, errors := finalParams0, dynamicTypeParams0, errors0;
    var types := FromTypeName(output, false);
    if types.Some? {
      addressTypeParams := addressTypeParams + types.value.address;
      valueTypeParams := valueTypeParams + types.value.value;
      dynamicTypeParams := dynamicTypeParams + types.value.dynamic;
      StepConverted(Collected(finalParams0, dynamicTypeParams0, errors0), Converted(output.typeName, types), types.value);
      assert addressTypeParams + valueTypeParams == types.value.address + types.value.value;
    } else {
      errors := errors + [ConversionError(output.typeName)];
      assert addressTypeParams + valueTypeParams == [];
    }
    finalParams := finalParams + (addressTypeParams + valueTypeParams);
  }

  // ---------------------------------------------------------------------
  // Facts about parametersFromJson

  /** The k-th converted output is the k-th output's classification. */
  lemma {:induction false} ConvertIndex(outs: seq<AbiOutput>, k: nat)
    requires k < |outs|
    ensures Convert(outs)[k] == Converted(outs[k].typeName, Classify(outs[k], false))
  {
    if k < |outs| - 1 {
      ConvertIndex(outs[..|outs| - 1], k);
    }
  }

  /** Collecting two runs of outputs one after the other concatenates
      their heads, their tails and their errors. */
  lemma {:induction false} CollectAppend(a: seq<Converted>, b: seq<Converted>)
    ensures var ca, cb, c := Collect(a), Collect(b), Collect(a + b);
      c == Collected(ca.heads + cb.heads, ca.tails + cb.tails, ca.errors + cb.errors)
    decreases |b|
  {
    if b == [] {
      assert a + b == a;
      assert Collect(b) == Collected([], [], []);
    } else {
      var front, last := b[..|b| - 1], b[|b| - 1];
      assert b == front + [last];
      assert a + b == (a + front) + [last];
      LastStep(a + front, last);
      assert Collect(b) == Step(Collect(front), last);
      CollectAppend(a, front);
      StepAssociates(Collect(a), Collect(front), last);
    }
  }

  lemma LastStep(xs: seq<Converted>, x: Converted)
    ensures Collect(xs + [x]) == Step(Collect(xs), x)
  {
    assert (xs + [x])[..|xs|] == xs;
  }

  /** A step after two runs only extends the second. */
  lemma StepAssociates(ca: Collected, cf: Collected, x: Converted)
    ensures var c := Step(cf, x);
      Step(Collected(ca.heads + cf.heads, ca.tails + cf.tails, ca.errors + cf.errors), x)
        == Collected(ca.heads + c.heads, ca.tails + c.tails, ca.errors + c.errors)
  {
    match x.types {
      case Some(s) =>
        assert ca.heads + cf.heads + s.address + s.value == ca.heads + (cf.heads + s.address + s.value);
        assert ca.tails + cf.tails + s.dynamic == ca.tails + (cf.tails + s.dynamic);
      case None =>
        var e := [ConversionError(x.typeName)];
        assert ca.errors + cf.errors + e == ca.errors + (cf.errors + e);
    }
  }

  /** The converted outputs whose type could not be converted. */
  function Unconvertible(xs: seq<Converted>): nat
  {
    if xs == [] then 0
    else Unconvertible(xs[..|xs| - 1]) + (if xs[|xs| - 1].types.None? then 1 else 0)
  }

  /** The message reports an output of `xs` whose type could not be converted. */
  predicate ReportsUnconvertible(xs: seq<Converted>, message: string)
  {
    exists j :: 0 <= j < |xs| && xs[j].types.None? && message == ConversionError(xs[j].typeName)
  }

  /** As many errors as unconvertible outputs, each naming the type of one
      of them; ErrorsInOrder pins down which error names which output. */
  lemma {:induction false} ErrorsReportUnconvertible(xs: seq<Converted>)
    ensures |Collect(xs).errors| == Unconvertible(xs)
    ensures forall i :: 0 <= i < |Collect(xs).errors| ==> ReportsUnconvertible(xs, Collect(xs).errors[i])
  {
    if xs == [] {
      assert Collect(xs).errors == [];
    } else {
      var front, last := xs[..|xs| - 1], xs[|xs| - 1];
      ErrorsReportUnconvertible(front);
      var e0, e := Collect(front).errors, Collect(xs).errors;
      assert e == e0 + (if last.types.None? then [ConversionError(last.typeName)] else []);
      forall i | 0 <= i < |e|
        ensures ReportsUnconvertible(xs, e[i])
      {
        if i < |e0| {
          assert ReportsUnconvertible(front, e0[i]);
          var j :| 0 <= j < |front| && front[j].types.None? && e0[i] == ConversionError(front[j].typeName);
          assert xs[j] == front[j] && e[i] == e0[i];
        } else {
          var j := |xs| - 1;
          assert xs[j].types.None? && e[i] == ConversionError(xs[j].typeName);
        }
      }
    }
  }

  /** The type names of the outputs that could not be converted, in output order. */
  function FailedTypeNames(xs: seq<Converted>): (names: seq<string>)
    ensures |names| == Unconvertible(xs)
  {
    if xs == [] then []
    else
      var last := xs[|xs| - 1];
      FailedTypeNames(xs[..|xs| - 1]) + (if last.types.None? then [last.typeName] else [])
  }

  /** The k-th error reports the k-th output that could not be converted. */
  lemma {:induction false} ErrorsInOrder(xs: seq<Converted>)
    ensures var e, f := Collect(xs).errors, FailedTypeNames(xs);
      |e| == |f| && forall k :: 0 <= k < |e| ==> e[k] == ConversionError(f[k])
  {
    if xs != [] {
      var front, last := xs[..|xs| - 1], xs[|xs| - 1];
      ErrorsInOrder(front);
      var e0, e := Collect(front).errors, Collect(xs).errors;
      var f0, f := FailedTypeNames(front), FailedTypeNames(xs);
      assert e == e0 + (if last.types.None? then [ConversionError(last.typeName)] else []);
      assert f == f0 + (if last.types.None? then [last.typeName] else []);
    }
  }

  /** Tails come after every head: when two outputs both convert, the
      parameters are the first's heads, the second's heads, then both tails. */
  lemma HeadsBeforeTails(x1: Converted, x2: Converted, s1: Slots, s2: Slots)
    requires x1.types == Some(s1) && x2.types == Some(s2)
    ensures Collect([x1, x2]) == Collected(s1.address + s1.value + s2.address + s2.value, s1.dynamic + s2.dynamic, [])
    ensures var c := Collect([x1, x2]);
      c.heads + c.tails == s1.address + s1.value + s2.address + s2.value + s1.dynamic + s2.dynamic
  {
    assert [x1, x2][..1] == [x1];
    assert [x1][..0] == [];
    assert Collect([x1]) == Collected([] + s1.address + s1.value, [] + s1.dynamic, []);
    assert [] + s1.address + s1.value == s1.address + s1.value;
  }

  /** Functions with other names, and those with no name, contribute nothing. */
  lemma OtherFunctionsIgnored(abi: seq<AbiFunction>, name: string)
    requires forall i :: 0 <= i < |abi| ==> abi[i].name != Some(name)
    ensures ParametersOf(abi, name) == ([], [])
  {
    NoMatchingOutputs(abi, name);
    var c := Collect(Convert(MatchingOutputs(abi, name)));
    assert Convert(MatchingOutputs(abi, name)) == [];
    assert c == Collected([], [], []);
    assert ParametersOf(abi, name) == (c.heads + c.tails, c.errors);
    assert c.heads + c.tails == [] && c.errors == [];
  }

  lemma {:induction false} NoMatchingOutputs(abi: seq<AbiFunction>, name: string)
    requires forall i :: 0 <= i < |abi| ==> abi[i].name != Some(name)
    ensures MatchingOutputs(abi, name) == []
  {
    if abi != [] {
      NoMatchingOutputs(abi[..|abi| - 1], name);
    }
  }
}
