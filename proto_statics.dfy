/** The static helpers of the ABI v2 program generator: type names, value
    literals derived from a hashed counter, array dimension rendering and
    the small text pieces (qualifiers, delimiters, check conditions). All of
    them are pure; the counters they are given are drawn by the converter. */
module ProtoStatics {
  import opened Text
  import opened AbiV2Proto

  /** Dynamic lengths are drawn modulo this, then shifted into [2, 4]. */
  const MaxArrayLength: nat := 3
  /** Arrays with more dimensions than this are skipped. */
  const MaxArrayDimensions: nat := 4

  /** keccak256 over the text of a counter, read as a big-endian number.
      The hash itself is not modelled: any function will do, and its result
      is reduced to 256 bits where it is used. */
  type Keccak256 = seq<char> -> nat

  datatype DataType = BytesData | StringData | ValueData | ArrayData

  datatype Delimiter = Add | Skip

  datatype CalleeType = Public | External

  predicate IsValueType(t: DataType)
  {
    t == ValueData
  }

  // ---------------------------------------------------------------------
  // Widths and type names

  /** The raw width is folded onto 8, 16, ..., 256. */
  function GetIntWidth(x: IntegerType): (w: nat)
    ensures 8 <= w <= 256 && w % 8 == 0
  {
    8 * ((x.width % 32) + 1)
  }

  /** The raw width is folded onto 1..32 bytes. */
  function GetFixedByteWidth(x: FixedByteType): (w: nat)
    ensures 1 <= w <= 32
  {
    (x.width % 32) + 1
  }

  function GetIntTypeAsString(x: IntegerType): string
  {
    (if x.isSigned then "int" else "uint") + DecimalString(GetIntWidth(x))
  }

  function GetFixedByteTypeAsString(x: FixedByteType): string
  {
    "bytes" + DecimalString(GetFixedByteWidth(x))
  }

  function GetAddressTypeAsString(x: AddressType): string
  {
    if x.payable then "address payable" else "address"
  }

  function BytesArrayTypeAsString(x: DynamicByteArrayType): string
  {
    match x.kind
    case Bytes => "bytes"
    case String => "string"
  }

  /** The element type name of an array whose base type is a value type. */
  function BaseTypeAsString(b: ArrayBaseType): string
    requires IsValueBase(b)
  {
    match b
    case BaseInty(t) => GetIntTypeAsString(t)
    case BaseByty(t) => GetFixedByteTypeAsString(t)
    case BaseAdty(t) => GetAddressTypeAsString(t)
  }

  // ---------------------------------------------------------------------
  // Hashing and masking

  /** keccak256 of the decimal text of the counter, as a 256-bit number.
      (Lower-casing that text changes nothing: it is all digits.) */
  function HashUnsignedInt(keccak: Keccak256, counter: nat): (h: nat)
    ensures h < Pow2(256)
  {
    keccak(DecimalString(counter)) % Pow2(256)
  }

  /** The hash AND-ed with the literal `0x` followed by `n` digits `f`. */
  function MaskUnsignedInt(keccak: Keccak256, counter: nat, numMaskOctets: nat): nat
  {
    BitAnd(HashUnsignedInt(keccak, counter), HexValue(AllF(numMaskOctets)))
  }

  /** The mask keeps exactly the lowest `n` hexadecimal digits of the hash. */
  lemma MaskUnsignedIntIsMod(keccak: Keccak256, counter: nat, n: nat)
    ensures MaskUnsignedInt(keccak, counter, n) == HashUnsignedInt(keccak, counter) % Pow16(n)
    ensures MaskUnsignedInt(keccak, counter, n) < Pow16(n)
  {
    MaskIsMod(HashUnsignedInt(keccak, counter), n);
  }

  /** `toHex(u256, HexPrefix::Add)`: `0x` and 64 zero-padded lower-case digits. */
  function ToHexPrefixed(v: nat): string
  {
    "0x" + HexDigits(v, 64)
  }

  function MaskUnsignedIntToHex(keccak: Keccak256, counter: nat, numMaskOctets: nat): string
  {
    ToHexPrefixed(MaskUnsignedInt(keccak, counter, numMaskOctets))
  }

  // ---------------------------------------------------------------------
  // Value literals

  function UintValueAsString(keccak: Keccak256, width: nat, counter: nat): string
    requires width % 8 == 0
  {
    MaskUnsignedIntToHex(keccak, counter, width / 4)
  }

  /** One nibble fewer than the width allows, so the value is a positive signed number. */
  function IntValueAsString(keccak: Keccak256, width: nat, counter: nat): string
    requires width % 8 == 0 && width >= 8
  {
    MaskUnsignedIntToHex(keccak, counter, width / 4 - 1)
  }

  function AddressValueAsString(keccak: Keccak256, counter: nat): string
  {
    "address(" + UintValueAsString(keccak, 160, counter) + ")"
  }

  /** The last `2 * width` digits of the 66-character masked hash, as `hex"..."`. */
  function FixedByteValueAsString(keccak: Keccak256, width: nat, counter: nat): string
    requires 1 <= width <= 32
  {
    var numMaskOctets := width * 2;
    var startPos := 66 - numMaskOctets;
    "hex\"" + MaskUnsignedIntToHex(keccak, counter, numMaskOctets)[startPos..startPos + numMaskOctets] + "\""
  }

  function IntegerValueAsString(keccak: Keccak256, sign: bool, width: nat, counter: nat): string
    requires width % 8 == 0 && width >= 8
  {
    if sign then IntValueAsString(keccak, width, counter) else UintValueAsString(keccak, width, counter)
  }

  /** The quoted 64 hexadecimal digits of the hash, for `bytes` and `string` alike. */
  function BytesArrayValueAsString(keccak: Keccak256, counter: nat): string
  {
    "\"" + HexDigits(HashUnsignedInt(keccak, counter), 64) + "\""
  }

  /** The value literal for one element of an array of base type `b`. */
  function ValueByBaseType(keccak: Keccak256, b: ArrayBaseType, counter: nat): string
    requires IsValueBase(b)
  {
    match b
    case BaseInty(t) => IntegerValueAsString(keccak, t.isSigned, GetIntWidth(t), counter)
    case BaseByty(t) => FixedByteValueAsString(keccak, GetFixedByteWidth(t), counter)
    case BaseAdty(_) => AddressValueAsString(keccak, counter)
  }

  /** A `0x` literal of `n` masked digits denotes the hash modulo 16^n. */
  lemma MaskedLiteral(keccak: Keccak256, counter: nat, n: nat)
    requires n <= 64
    ensures var r := MaskUnsignedIntToHex(keccak, counter, n);
      |r| == 66 && r[..2] == "0x" && AllHex(r[2..])
      && HexValue(r[2..]) == HashUnsignedInt(keccak, counter) % Pow16(n)
  {
    var r := MaskUnsignedIntToHex(keccak, counter, n);
    var m := MaskUnsignedInt(keccak, counter, n);
    assert r[2..] == HexDigits(m, 64);
    MaskUnsignedIntIsMod(keccak, counter, n);
    Pow16Monotone(n, 64);
    HexRoundTripExact(m, 64);
  }

  /** An unsigned literal of width w denotes the hash modulo 2^w, so it fits in w bits. */
  lemma UintLiteralBound(keccak: Keccak256, width: nat, counter: nat)
    requires width % 8 == 0 && width <= 256
    ensures var r := UintValueAsString(keccak, width, counter);
      |r| == 66 && r[..2] == "0x" && AllHex(r[2..])
      && HexValue(r[2..]) == HashUnsignedInt(keccak, counter) % Pow2(width)
      && HexValue(r[2..]) < Pow2(width)
  {
    var n := width / 4;
    assert 4 * n == width;
    MaskedLiteral(keccak, counter, n);
    Pow16IsPow2(n);
  }

  /** A signed literal of width w denotes the hash modulo 2^(w-4), below the signed maximum. */
  lemma IntLiteralBound(keccak: Keccak256, width: nat, counter: nat)
    requires width % 8 == 0 && 8 <= width <= 256
    ensures var r := IntValueAsString(keccak, width, counter);
      |r| == 66 && r[..2] == "0x" && AllHex(r[2..])
      && HexValue(r[2..]) == HashUnsignedInt(keccak, counter) % Pow2(width - 4)
      && HexValue(r[2..]) < Pow2(width - 4)
  {
    var n := width / 4 - 1;
    assert 4 * n == width - 4;
    MaskedLiteral(keccak, counter, n);
    Pow16IsPow2(n);
  }

  /** The last n characters of the 66-character rendering are the n low digits. */
  lemma PrefixedSuffix(v: nat, n: nat)
    requires n <= 64
    ensures ToHexPrefixed(v)[66 - n..66] == HexDigits(v, n)
  {
    var t := ToHexPrefixed(v);
    assert t[66 - n..66] == HexDigits(v, 64)[64 - n..];
    HexDigitsSuffix(v, 64, n);
  }

  /** The n low digits of the masked hash denote the hash modulo 16^n. */
  lemma MaskedLowDigits(keccak: Keccak256, counter: nat, n: nat)
    requires n <= 64
    ensures var digits := HexDigits(MaskUnsignedInt(keccak, counter, n), n);
      AllHex(digits) && HexValue(digits) == HashUnsignedInt(keccak, counter) % Pow16(n)
  {
    var m := MaskUnsignedInt(keccak, counter, n);
    MaskUnsignedIntIsMod(keccak, counter, n);
    HexRoundTripExact(m, n);
  }

  /** A `bytesN` literal is `hex"` and exactly 2N digits denoting the hash modulo 2^(8N). */
  lemma FixedByteLiteralShape(keccak: Keccak256, width: nat, counter: nat)
    requires 1 <= width <= 32
    ensures var r := FixedByteValueAsString(keccak, width, counter);
      |r| == 2 * width + 5 && r[..4] == "hex\"" && r[|r| - 1] == '"'
      && AllHex(r[4..|r| - 1])
      && HexValue(r[4..|r| - 1]) == HashUnsignedInt(keccak, counter) % Pow2(8 * width)
  {
    var n := width * 2;
    var m := MaskUnsignedInt(keccak, counter, n);
    PrefixedSuffix(m, n);
    var digits := HexDigits(m, n);
    var r := FixedByteValueAsString(keccak, width, counter);
    assert r == "hex\"" + digits + "\"";
    assert r[4..|r| - 1] == digits;
    MaskedLowDigits(keccak, counter, n);
    Pow16IsPow2(n);
    assert 4 * n == 8 * width;
  }

  // ---------------------------------------------------------------------
  // Array dimensions

  /** `((fuzz + counter) % s_maxArrayLength) + 2` with the addition done in
      32-bit unsigned arithmetic. */
  function GetArrayLengthFromFuzz(fuzz: nat, counter: nat): (r: nat)
    ensures 2 <= r <= 4
  {
    ((fuzz + counter) % 0x1_0000_0000) % MaxArrayLength + 2
  }

  /** A resolved dimension: static or dynamic, and its length. */
  datatype DimInfo = DimInfo(isStatic: bool, length: nat)

  function ArrayDimInfoAsPair(x: ArrayDimensionInfo): (d: DimInfo)
    ensures d.isStatic == x.isStatic && 2 <= d.length <= 4
  {
    DimInfo(x.isStatic, GetArrayLengthFromFuzz(x.length, 0))
  }

  function ArrayDimInfoAsString(x: ArrayDimensionInfo): string
  {
    var arrLength := GetArrayLengthFromFuzz(x.length, 0);
    if x.isStatic then "[" + DecimalString(arrLength) + "]" else "[]"
  }

  /** A static dimension prints, between its brackets, the length the expansion uses. */
  lemma DimStringShowsPairLength(x: ArrayDimensionInfo)
    requires x.isStatic
    ensures var s := ArrayDimInfoAsString(x);
      |s| >= 3 && s[0] == '[' && s[|s| - 1] == ']' && AllDecimal(s[1..|s| - 1])
      && DecimalValue(s[1..|s| - 1]) == ArrayDimInfoAsPair(x).length
  {
    var s := ArrayDimInfoAsString(x);
    var l := GetArrayLengthFromFuzz(x.length, 0);
    assert s[1..|s| - 1] == DecimalString(l);
    DecimalRoundTrip(l);
  }

  function DimStrings(info: seq<ArrayDimensionInfo>): (ss: seq<string>)
    ensures |ss| == |info|
    ensures forall i :: 0 <= i < |info| ==> ss[i] == ArrayDimInfoAsString(info[i])
  {
    if info == [] then [] else DimStrings(info[..|info| - 1]) + [ArrayDimInfoAsString(info[|info| - 1])]
  }

  function DimPairs(info: seq<ArrayDimensionInfo>): (ps: seq<DimInfo>)
    ensures |ps| == |info|
    ensures forall i :: 0 <= i < |info| ==> ps[i] == ArrayDimInfoAsPair(info[i])
  {
    if info == [] then [] else DimPairs(info[..|info| - 1]) + [ArrayDimInfoAsPair(info[|info| - 1])]
  }

  /** `std::accumulate` of strings: their concatenation in order. */
  function Concat(ss: seq<string>): string
  {
    if ss == [] then "" else Concat(ss[..|ss| - 1]) + ss[|ss| - 1]
  }

  /** The full array type: the base type, then one bracket per dimension. */
  function ArrayTypeAsString(baseType: string, info: seq<ArrayDimensionInfo>): string
    requires |info| > 0
  {
    Concat([baseType] + DimStrings(info))
  }

  // ---------------------------------------------------------------------
  // Small text pieces

  function DelimiterToString(d: Delimiter): string
  {
    match d
    case Add => ", "
    case Skip => ""
  }

  /** Local variables of reference type live in memory; state variables and
      value types get no location. */
  function GetQualifier(t: DataType, isStateVar: bool): (q: string)
    ensures q == "memory" <==> !IsValueType(t) && !isStateVar
    ensures q == "" <==> IsValueType(t) || isStateVar
  {
    if !(IsValueType(t) || isStateVar) then "memory" else ""
  }

  /** The failing condition of an equality check; arrays have none. */
  function CheckCondition(t: DataType, varName: string, rhs: string): string
    requires t != ArrayData
  {
    match t
    case StringData => "!stringCompare(" + varName + ", " + rhs + ")"
    case BytesData => "!bytesCompare(" + varName + ", " + rhs + ")"
    case ValueData => varName + " != " + rhs
  }
}
