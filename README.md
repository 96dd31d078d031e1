# ABI v2 fuzzer program generator and ABI expectation classifier

This project is a Dafny model of two pieces of the Solidity compiler's test
tooling.

**ProtoConverter** (`test/tools/ossfuzz/protoToAbiV2.cpp`, `.h`) is the program
generator of the ABI encoder v2 fuzzer. It walks a protobuf `Contract`
message: one state variable declaration, and one test function with one
local declaration. From it, it writes a Solidity program that:

- declares each variable and assigns it a value derived from keccak256 of a
  running counter;
- passes every variable to a `public` callee (memory parameters) and an
  `external` callee (calldata parameters);
- has each callee check every received value, returning a unique non-zero
  code on the first mismatch.

Arrays get per-dimension lengths in [2, 4]. They are expanded depth first.
Every array and every sub-array (each node of the expansion) gets one length
check, and every element gets its own value check. For example, a static
`T[2][3]` gets 1 + 3 length checks and 6 element checks.

**ContractABIUtils** (`test/libsolidity/util/ContractABIUtils.cpp`) turns the
output types of a function in a contract's JSON ABI into the slots the test
framework expects back from a call. `fromTypeName` classifies one type name
into three lists:

- head pointers;
- in-place values;
- tail data.

Tuples are handled by recursing into their components: a tuple's lists are
its components' lists, concatenated. `parametersFromJson` joins the slots of
all outputs. First comes each output's head part: its pointers, then its
in-place values. After all head parts come all the tails, in output order.
It reports one error, in output order, for each type it cannot convert.
This layout is the one the code builds. It does not match the Contract ABI
Specification's encoding for every type. For a tuple with a dynamic member,
the code places the tuple's values among the heads, but the ABI encodes them
in the tail.

Modules:

- `Text`: the decimal and hexadecimal renderings the generator uses
  (`std::to_string`, `toHex`), each with a parser, round-trip lemmas and the
  bit mask arithmetic.
- `AbiV2Proto`: the fuzzer's protobuf input tree. Every `oneof` is a datatype
  with an explicit "not set" case.
- `ProtoStatics`: the static helpers of the converter. This covers type
  names, widths, value literals, array dimension rendering and qualifiers.
- `ConverterSpec`: the converter's member state as a value `Gen`, with one
  reference function per converter operation, from the state before the
  call to the state after it.
- `ConverterProperties`: what the generator guarantees, proved about the
  reference functions. This includes:
  - distinct variable names;
  - the exact effect of resizing one dimension;
  - node, check and seed counts of array expansion;
  - bounds over a whole contract;
  - the generated text for concrete inputs.
- `ProtoToAbiV2`: the class `ProtoConverter`. Its fields are the ones the C++
  object updates in place. Each method is proved to change them exactly as
  its reference function says. The class invariant `Valid()` says two
  things. First, the checks buffer holds consecutively numbered checks that
  end just below `m_returnValue`. Second, both callee parameter lists name
  exactly the variables `x_0, x_1, ...` declared so far.
  - Every method that requires `Valid()` also ensures it.
  - Five intermediate steps neither require nor ensure it:
    - `NewVarName` advances the name counter before the parameter is
      appended, so on its own it breaks the invariant;
    - `AppendVarDeclToOutput` does not require it;
    - `AppendTypedParamsPublic`, `AppendTypedParamsExternal` and
      `AppendTypedParams` do not require it either.
  - Each of these five promises only its exact state change.
  - `CreateDeclAndParamList` combines them and restores `Valid()`.
- `ContractAbiUtils`:
  - the regular expressions as predicates on the name;
  - the reference classifier `Classify`;
  - the recursive method `FromTypeName` and the looping method
    `ParametersFromJson`, both proved equal to their references;
  - lemmas about the slot layout.

Where the documented behaviour and the code differ, the model follows the
code. In `arrayDimInfoAsPair` the code reduces every dimension's seed to
`(seed mod 3) + 2` before resizing. So a static dimension's length is not its
raw seed. A dynamic dimension's length is that already-reduced value, plus
the drawn counter, reduced again:
`((((seed mod 3) + 2) + counter) mod 3) + 2`.
It is not `((seed + counter) mod 3) + 2`.

## Model

| member | source | states |
|---|---|---|
| Text.DecimalString | test/tools/ossfuzz/protoToAbiV2.h:133-136 | `std::to_string` of a counter is a non-empty string of decimal digits |
| Text.DecimalRoundTrip | test/tools/ossfuzz/protoToAbiV2.h:133-136 | reading the decimal rendering back gives the number again |
| Text.DecimalStringInjective | test/tools/ossfuzz/protoToAbiV2.h:133-136 | distinct numbers have distinct decimal renderings |
| Text.HexDigits | test/tools/ossfuzz/protoToAbiV2.h:221-224 | the n-digit `toHex` rendering has exactly n hex digits |
| Text.HexRoundTrip | test/tools/ossfuzz/protoToAbiV2.h:221-224 | n hex digits denote the value modulo 16^n |
| Text.HexDigitsSuffix | test/tools/ossfuzz/protoToAbiV2.cpp:208-232 | the last k of n digits are the k-digit rendering, which is what the literal's `substr` relies on |
| Text.AllFValue | test/tools/ossfuzz/protoToAbiV2.h:214-217 | the mask of n `f` digits is 16^n - 1 |
| Text.BitAndLowOnes | test/tools/ossfuzz/protoToAbiV2.h:214-217 | AND with 2^k - 1 keeps the value modulo 2^k |
| Text.MaskIsMod | test/tools/ossfuzz/protoToAbiV2.h:214-217 | AND with n `f` digits keeps the value modulo 16^n |
| ProtoStatics.GetIntWidth | test/tools/ossfuzz/protoToAbiV2.h:173-176 | every fuzzed integer width is a multiple of 8 between 8 and 256 |
| ProtoStatics.GetFixedByteWidth | test/tools/ossfuzz/protoToAbiV2.h:188-191 | every fuzzed fixed-bytes width is between 1 and 32 |
| ProtoStatics.HashUnsignedInt | test/tools/ossfuzz/protoToAbiV2.h:204-212 | the hash of the counter's decimal text is a 256-bit unsigned value |
| ProtoStatics.MaskUnsignedIntIsMod | test/tools/ossfuzz/protoToAbiV2.h:214-217 | masking the hash with n `f` digits keeps its low n hex digits, and the result is below 16^n |
| ProtoStatics.MaskedLiteral | test/tools/ossfuzz/protoToAbiV2.h:221-224 | the masked literal is 66 characters: `0x`, then hex digits denoting the hash modulo 16^n |
| ProtoStatics.UintLiteralBound | test/tools/ossfuzz/protoToAbiV2.cpp:175-182 | a uintW literal is the hash modulo 2^W, so it fits in W bits |
| ProtoStatics.IntLiteralBound | test/tools/ossfuzz/protoToAbiV2.cpp:192-199 | an intW literal keeps W/4 - 1 hex digits, so it fits in W - 4 bits and is a valid positive intW |
| ProtoStatics.PrefixedSuffix | test/tools/ossfuzz/protoToAbiV2.cpp:208-232 | the last n characters of the 66-character literal (start position 66 - n) are its n low hex digits |
| ProtoStatics.MaskedLowDigits | test/tools/ossfuzz/protoToAbiV2.cpp:208-232 | those n digits denote the hash modulo 16^n |
| ProtoStatics.FixedByteLiteralShape | test/tools/ossfuzz/protoToAbiV2.cpp:208-232 | a bytesW literal is `hex"…"` around exactly 2W hex digits denoting the hash modulo 2^(8W) |
| ProtoStatics.GetArrayLengthFromFuzz | test/tools/ossfuzz/protoToAbiV2.h:226-229 | every array length is in [2, 4], for every seed and counter, with 32-bit wrap of their sum |
| ProtoStatics.ArrayDimInfoAsPair | test/tools/ossfuzz/protoToAbiV2.h:231-234 | a dimension's pair keeps its static flag and has a length in [2, 4] |
| ProtoStatics.DimStringShowsPairLength | test/tools/ossfuzz/protoToAbiV2.cpp:318-327 | a static dimension renders as `[n]`, where n is the same length its pair carries |
| ProtoStatics.DimStrings | test/tools/ossfuzz/protoToAbiV2.cpp:329-336 | one bracket text per dimension, in dimension order |
| ProtoStatics.DimPairs | test/tools/ossfuzz/protoToAbiV2.cpp:338-347 | one (static, length) pair per dimension, in dimension order |
| ProtoStatics.GetQualifier | test/tools/ossfuzz/protoToAbiV2.h:145-148 | `memory` exactly for a non-value type in function scope, and empty otherwise |
| ConverterProperties.VarNamesDistinct | test/tools/ossfuzz/protoToAbiV2.h:133-136 | different name counters give different variable names |
| ConverterProperties.ResizeDimensionEffect | test/tools/ossfuzz/protoToAbiV2.cpp:372-412 | a static dimension keeps its length and writes no assignment. A dynamic one draws one seed, gets a length in [2, 4], and writes `x.length = l` to the state buffer in contract scope or `x = new T(l)` to the output in function scope. Either way, one `x.length != l` check with the next code follows |
| ConverterProperties.ResizeDimensionFrame | test/tools/ossfuzz/protoToAbiV2.cpp:372-412 | resizing only appends to the checks and the current scope's buffer. It leaves names, parameter lists and scope alone and uses exactly one check |
| ConverterProperties.ExpansionFrameTransitive | test/tools/ossfuzz/protoToAbiV2.cpp:414-447 | append-only expansion steps compose |
| ConverterProperties.MaxNodesMonotone | test/tools/ossfuzz/protoToAbiV2.cpp:414-447 | more dimensions never allow fewer nodes |
| ConverterProperties.TimesIsProduct | test/tools/ossfuzz/protoToAbiV2.cpp:444-445 | running the element loop `length` times adds `length` times one element's count |
| ConverterProperties.TimesRange | test/tools/ossfuzz/protoToAbiV2.cpp:444-445 | with 2 to 4 elements, the loop's count lies between twice the lower and four times the upper element bound |
| ConverterProperties.ExpandFrame | test/tools/ossfuzz/protoToAbiV2.cpp:414-447 | the whole array expansion is append-only and does not touch parameters, names or scope |
| ConverterProperties.ExpandElementsFrame | test/tools/ossfuzz/protoToAbiV2.cpp:444-445 | the element loop is append-only |
| ConverterProperties.ExpandBounds | test/tools/ossfuzz/protoToAbiV2.cpp:414-447 | over d dimensions, the expansion appends between MinNodes(d) and MaxNodes(d) checks and draws at most MaxNodes(d) seeds |
| ConverterProperties.ExpandElementsBounds | test/tools/ossfuzz/protoToAbiV2.cpp:444-445 | the same bounds for the elements i..length-1 of one dimension |
| ConverterProperties.ExpandStatic | test/tools/ossfuzz/protoToAbiV2.cpp:414-447 | with only static dimensions, one seed is drawn per element (the product of the lengths) and one check is added per node of the expansion tree |
| ConverterProperties.ExpandOuterDynamic | test/tools/ossfuzz/protoToAbiV2.cpp:414-447 | when only the outermost dimension is dynamic, its length L is drawn from the next seed. Then each of the L sub-arrays expands as a static one. So the seeds grow by 1 + L times the elements per sub-array, and the checks by 1 + L times the nodes per sub-array |
| ConverterProperties.ExpandElementsStatic | test/tools/ossfuzz/protoToAbiV2.cpp:444-445 | the same exact counts for the element loop |
| ConverterProperties.DimPairsInRange | test/tools/ossfuzz/protoToAbiV2.cpp:338-347 | every resolved dimension length is in [2, 4] |
| ConverterProperties.VisitArrayEffect | test/tools/ossfuzz/protoToAbiV2.cpp:477-500 | an array with no dimension, more than 4, or a struct or unset base changes nothing. Any other array declares exactly one variable and adds between MinNodes and MaxNodes checks |
| ConverterProperties.VisitLeafEffect | test/tools/ossfuzz/protoToAbiV2.cpp:53-62 | a scalar declares one variable and adds one check, and draws no seed of its own |
| ConverterProperties.VisitValueTypeEffect | test/tools/ossfuzz/protoToAbiV2.cpp:286-302 | a value type declares one variable with one check and one seed, or nothing when unset |
| ConverterProperties.VisitDynamicByteArrayEffect | test/tools/ossfuzz/protoToAbiV2.cpp:304-312 | `bytes`/`string` declares one variable with one check and one seed |
| ConverterProperties.VisitNonValueTypeEffect | test/tools/ossfuzz/protoToAbiV2.cpp:502-518 | a non-value type declares at most one variable, with at most 341 checks and seeds, and structs add nothing |
| ConverterProperties.VisitTypeEffect | test/tools/ossfuzz/protoToAbiV2.cpp:520-533 | any declaration declares at most one variable with at most 341 checks and seeds, or changes nothing |
| ConverterProperties.ConversionBounds | test/tools/ossfuzz/protoToAbiV2.cpp:698-719 | over a whole contract: at most 2 variables, return codes at most 682 (the return-value counter ends at most 683), at most 682 seeds, and function scope at the end. So no 32-bit counter can wrap |
| ConverterProperties.FirstUint8StateVariable | test/tools/ossfuzz/protoToAbiV2.cpp:259-266 | a first `uint8` state variable yields exactly its declaration, its buffered assignment and its check `x_0 != lit` with code 1, plus `uint8 x_0` in both parameter lists. The literal is the hash of "0" modulo 256 |
| ConverterProperties.EmptyContractSkeleton | test/tools/ossfuzz/protoToAbiV2.cpp:698-724 | a contract with unset declarations renders as the fixed skeleton: Factory, `f()` calling both callees with no arguments, the two comparison helpers and empty callees |
| ProtoToAbiV2.ValueParamsAgree | test/tools/ossfuzz/protoToAbiV2.cpp:561-618 | value-type parameters carry no location, so the public and external parameter lists agree |
| ProtoToAbiV2.ParamListSnoc | test/tools/ossfuzz/protoToAbiV2.cpp:16-42 | declaring one more variable appends exactly its typed parameter, with a delimiter unless it is the first |
| ProtoToAbiV2.ParamsAgreeSnoc | test/tools/ossfuzz/protoToAbiV2.cpp:16-42 | appending to both lists keeps them equal to the lists of the declared variables |
| ProtoToAbiV2.ChecksAgreeSnoc | test/tools/ossfuzz/protoToAbiV2.cpp:101-139 | appending a check with the current code keeps the buffer a consecutively numbered list of checks |
| ProtoToAbiV2.CheckListPrefix | test/tools/ossfuzz/protoToAbiV2.cpp:101-139 | earlier checks are never rewritten: checks of a prefix of conditions are a prefix of the buffer |
| ProtoToAbiV2.ProtoConverter.constructor | test/tools/ossfuzz/protoToAbiV2.h:20-28 | contract scope, counters at 0, return value 1, and empty buffers |
| ProtoToAbiV2.ProtoConverter.GetNextCounter | test/tools/ossfuzz/protoToAbiV2.h:128-131 | returns the current seed and advances it |
| ProtoToAbiV2.ProtoConverter.NewVarName | test/tools/ossfuzz/protoToAbiV2.h:133-136 | returns `x_<n>` and advances the name counter |
| ProtoToAbiV2.ProtoConverter.BytesArrayValueAsString | test/tools/ossfuzz/protoToAbiV2.h:140-143 | quotes the hash of the current seed as 64 hex digits, advancing the seed and nothing else |
| ProtoToAbiV2.ProtoConverter.AppendVarDeclToOutput | test/tools/ossfuzz/protoToAbiV2.cpp:64-78 | appends `T [qualifier] x;` to the output and nothing else |
| ProtoToAbiV2.ProtoConverter.BufferVarDef | test/tools/ossfuzz/protoToAbiV2.cpp:80-88 | appends `x = v;` to the state buffer only |
| ProtoToAbiV2.ProtoConverter.AppendVarDefToOutput | test/tools/ossfuzz/protoToAbiV2.cpp:90-99 | appends `x = v;` to the output only |
| ProtoToAbiV2.ProtoConverter.AppendChecks | test/tools/ossfuzz/protoToAbiV2.cpp:101-139 | appends `if (<cond>) return <code>;`, where the condition compares strings and bytes through the helpers and values with `!=`. Then it increments the code, keeping the numbered-checks invariant |
| ProtoToAbiV2.ProtoConverter.AddVarDef | test/tools/ossfuzz/protoToAbiV2.cpp:141-150 | the assignment goes to the state buffer in contract scope and to the output in function scope |
| ProtoToAbiV2.ProtoConverter.AddCheckedVarDef | test/tools/ossfuzz/protoToAbiV2.cpp:152-159 | assignment, then its check |
| ProtoToAbiV2.ProtoConverter.CheckResizeOp | test/tools/ossfuzz/protoToAbiV2.cpp:162-165 | appends the `x.length != l` check |
| ProtoToAbiV2.ProtoConverter.AppendTypedParamsExternal | test/tools/ossfuzz/protoToAbiV2.cpp:581-598 | appends the parameter with `calldata` for non-value types to the external list only |
| ProtoToAbiV2.ProtoConverter.AppendTypedParamsPublic | test/tools/ossfuzz/protoToAbiV2.cpp:601-618 | appends the parameter with `memory` for non-value types to the public list only |
| ProtoToAbiV2.ProtoConverter.AppendTypedParams | test/tools/ossfuzz/protoToAbiV2.cpp:561-578 | dispatches on the callee |
| ProtoToAbiV2.ProtoConverter.CreateDeclAndParamList | test/tools/ossfuzz/protoToAbiV2.cpp:16-42 | declares the next variable `x_k` and appends it to both parameter lists, with no delimiter for the first. The lists still name exactly the declared variables |
| ProtoToAbiV2.ProtoConverter.VisitLeaf | test/tools/ossfuzz/protoToAbiV2.cpp:53-62 | declare, assign and check one variable |
| ProtoToAbiV2.ProtoConverter.VisitInteger | test/tools/ossfuzz/protoToAbiV2.cpp:259-266 | an `intW`/`uintW` variable with the masked hash of the next seed |
| ProtoToAbiV2.ProtoConverter.VisitAddress | test/tools/ossfuzz/protoToAbiV2.cpp:268-275 | an `address [payable]` variable with `address(<160-bit literal>)` |
| ProtoToAbiV2.ProtoConverter.VisitFixedByte | test/tools/ossfuzz/protoToAbiV2.cpp:277-284 | a `bytesW` variable with a `hex"…"` literal |
| ProtoToAbiV2.ProtoConverter.VisitValueType | test/tools/ossfuzz/protoToAbiV2.cpp:286-302 | dispatches on the value type; unset does nothing |
| ProtoToAbiV2.ProtoConverter.VisitDynamicByteArray | test/tools/ossfuzz/protoToAbiV2.cpp:304-312 | a `bytes` or `string` variable with a quoted hash, compared through the helper |
| ProtoToAbiV2.ProtoConverter.GetValueByBaseType | test/tools/ossfuzz/protoToAbiV2.cpp:349-364 | the literal for one element of the base type, drawn from the next seed |
| ProtoToAbiV2.ProtoConverter.ResizeDimension | test/tools/ossfuzz/protoToAbiV2.cpp:372-412 | returns the resolved length and makes the state change that ConverterProperties.ResizeDimensionEffect describes |
| ProtoToAbiV2.ProtoConverter.ResizeHelper | test/tools/ossfuzz/protoToAbiV2.cpp:414-447 | the recursive expansion: it resizes the outermost remaining dimension and expands elements 0..l-1 in order. It follows ConverterSpec.Expand, whose counts and frame are proved above |
| ProtoToAbiV2.ProtoConverter.ResizeInitArray | test/tools/ossfuzz/protoToAbiV2.cpp:451-461 | the expansion over all of an array's dimensions |
| ProtoToAbiV2.ProtoConverter.VisitArrayType | test/tools/ossfuzz/protoToAbiV2.cpp:44-51 | declares the array variable, then expands it |
| ProtoToAbiV2.ProtoConverter.VisitArray | test/tools/ossfuzz/protoToAbiV2.cpp:477-500 | arrays with 0 or more than 4 dimensions, or a struct or unset base, are skipped |
| ProtoToAbiV2.ProtoConverter.VisitNonValueType | test/tools/ossfuzz/protoToAbiV2.cpp:502-518 | dispatch; structs and unset do nothing |
| ProtoToAbiV2.ProtoConverter.VisitType | test/tools/ossfuzz/protoToAbiV2.cpp:520-533 | dispatch; unset does nothing |
| ProtoToAbiV2.ProtoConverter.VisitVarDecl | test/tools/ossfuzz/protoToAbiV2.cpp:535-538 | visits the declared type |
| ProtoToAbiV2.ProtoConverter.VisitTestFunction | test/tools/ossfuzz/protoToAbiV2.cpp:632-654 | `f()` with the buffered state assignments, then the local variable, then calls of both callees with `x_0, …, x_{n-1}`. It returns the public code if non-zero, and otherwise 1000 plus the external code |
| ProtoToAbiV2.ProtoConverter.WriteHelperFunctions | test/tools/ossfuzz/protoToAbiV2.cpp:656-696 | the two comparison helpers, then both callees around the same checks |
| ProtoToAbiV2.ProtoConverter.VisitContract | test/tools/ossfuzz/protoToAbiV2.cpp:698-719 | header, state declaration in contract scope, switch to function scope, test function, helpers, closing brace |
| ProtoToAbiV2.ProtoConverter.ContractToString | test/tools/ossfuzz/protoToAbiV2.cpp:721-724 | from a fresh converter, returns the program that ConverterSpec.ContractToString describes |
| ContractAbiUtils.Find | test/libsolidity/util/ContractABIUtils.cpp:43-44 | `find` returns a position holding the character, or the length when absent |
| ContractAbiUtils.FindFirst | test/libsolidity/util/ContractABIUtils.cpp:43-44 | `find` stops at the first occurrence |
| ContractAbiUtils.ArraySizeOf | test/libsolidity/util/ContractABIUtils.cpp:41-50 | for a name matching an array pattern, the size is the number between its brackets |
| ContractAbiUtils.ArrayNameBrackets | test/libsolidity/util/ContractABIUtils.cpp:41-50 | in a matching array name, the first `]` is the last character, so `arraySize` reads exactly the bracketed digits |
| ContractAbiUtils.ArrayNameRoundTrip | test/libsolidity/util/ContractABIUtils.cpp:115-119 | `<element>[n]` matches its array pattern, and its size reads back as n |
| ContractAbiUtils.NameShape | test/libsolidity/util/ContractABIUtils.cpp:107-113 | what each scalar pattern forces on the name's length and first letters |
| ContractAbiUtils.NameClassesDisjoint | test/libsolidity/util/ContractABIUtils.cpp:107-119 | no type name matches two of the patterns, so the order of the tests decides nothing |
| ContractAbiUtils.ArrayNameIsNotScalar | test/libsolidity/util/ContractABIUtils.cpp:107-119 | an array name matches none of the scalar, `bytes`, `string` or `tuple` patterns |
| ContractAbiUtils.Repeat | test/libsolidity/util/ContractABIUtils.cpp:166-180 | n copies of one slot |
| ContractAbiUtils.StringPairs | test/libsolidity/util/ContractABIUtils.cpp:188-192 | n alternating (length, data) string tails |
| ContractAbiUtils.ScalarSlots | test/libsolidity/util/ContractABIUtils.cpp:126-133 | `bool`, `uintN`, `intN` and `bytesN` give one right-aligned 32-byte value of the matching kind, and nothing in head or tail |
| ContractAbiUtils.DynamicBytesSlots | test/libsolidity/util/ContractABIUtils.cpp:134-139 | `bytes` gives two unsigned words and one left-aligned hex string, all as values |
| ContractAbiUtils.StringClassified | test/libsolidity/util/ContractABIUtils.cpp:140-149 | `string` gives one head pointer and the tail (pointer if inside a tuple, length, data) |
| ContractAbiUtils.StringSlots | test/libsolidity/util/ContractABIUtils.cpp:140-149 | the string's tail has the extra pointer exactly inside a tuple and always ends with length and data |
| ContractAbiUtils.ValueArraySlots | test/libsolidity/util/ContractABIUtils.cpp:166-180 | every name of the `bool[n]`, `uintN[n]` or `intN[n]` pattern gives n values of the element's kind, where n is the parsed length (also for spellings such as `uint[007]`) |
| ContractAbiUtils.StringArrayClassified | test/libsolidity/util/ContractABIUtils.cpp:181-193 | every name of the `string[n]` pattern gives one head pointer, then n tail pointers followed by n (length, data) pairs, where n is the parsed length |
| ContractAbiUtils.StringArraySlots | test/libsolidity/util/ContractABIUtils.cpp:181-193 | the same, per index: 3n tail slots, pointers first, then length and data alternating |
| ContractAbiUtils.StringArrayTail | test/libsolidity/util/ContractABIUtils.cpp:185-192 | the two loops' output, per index |
| ContractAbiUtils.TupleArrayUnsupported | test/libsolidity/util/ContractABIUtils.cpp:194-197 | no name of the `tuple[n]` pattern can be converted |
| ContractAbiUtils.UnknownNameUnsupported | test/libsolidity/util/ContractABIUtils.cpp:198-199 | a name matching no pattern cannot be converted |
| ContractAbiUtils.JoinAssociative | test/libsolidity/util/ContractABIUtils.cpp:150-165 | appending component lists is associative |
| ContractAbiUtils.ComponentsAppend | test/libsolidity/util/ContractABIUtils.cpp:150-165 | a tuple's lists are its components' lists, concatenated in component order |
| ContractAbiUtils.UnconvertibleComponent | test/libsolidity/util/ContractABIUtils.cpp:154-163 | a component that cannot be converted is silently dropped from its tuple |
| ContractAbiUtils.JoinWellFormed | test/libsolidity/util/ContractABIUtils.cpp:150-165 | joining keeps each list in its role |
| ContractAbiUtils.ClassifyWellFormed | test/libsolidity/util/ContractABIUtils.cpp:102-202 | every classified type keeps its roles: heads are pointers, values carry no metadata, tails are pointers or string data, and all slots are 32 bytes |
| ContractAbiUtils.StringArrayWellFormed | test/libsolidity/util/ContractABIUtils.cpp:181-193 | the string array's lists keep their roles |
| ContractAbiUtils.ComponentsWellFormed | test/libsolidity/util/ContractABIUtils.cpp:150-165 | a tuple's lists keep their roles |
| ContractAbiUtils.FromTypeName | test/libsolidity/util/ContractABIUtils.cpp:102-202 | the classifier, with its push-back loops and its recursion into tuples, computes the reference classification |
| ContractAbiUtils.FromComponentTypes | test/libsolidity/util/ContractABIUtils.cpp:150-165 | the tuple loop computes the components' joined classification |
| ContractAbiUtils.Convert | test/libsolidity/util/ContractABIUtils.cpp:69-73 | one conversion per output |
| ContractAbiUtils.ConvertIndex | test/libsolidity/util/ContractABIUtils.cpp:69-73 | the k-th conversion is the k-th output classified outside a tuple |
| ContractAbiUtils.CollectSnoc | test/libsolidity/util/ContractABIUtils.cpp:69-96 | one more output is one more step of the loop |
| ContractAbiUtils.MatchingOutputsSnoc | test/libsolidity/util/ContractABIUtils.cpp:66-69 | a further ABI entry contributes its outputs exactly when its name matches |
| ContractAbiUtils.StepConverted | test/libsolidity/util/ContractABIUtils.cpp:73-93 | a converted output adds its pointers and values to the heads and its dynamic part to the tails |
| ContractAbiUtils.OutputStep | test/libsolidity/util/ContractABIUtils.cpp:69-96 | the loop's state after one more output |
| ContractAbiUtils.ParametersFromJson | test/libsolidity/util/ContractABIUtils.cpp:54-100 | the expected parameters are every matching output's heads in order, then all tails, plus one error per unconvertible output |
| ContractAbiUtils.CollectOutputs | test/libsolidity/util/ContractABIUtils.cpp:69-96 | the outputs loop extends the collected lists by exactly the given outputs |
| ContractAbiUtils.AddOutput | test/libsolidity/util/ContractABIUtils.cpp:71-93 | the body of the outputs loop for one output |
| ContractAbiUtils.CollectAppend | test/libsolidity/util/ContractABIUtils.cpp:54-100 | collecting two runs of outputs concatenates their heads, tails and errors |
| ContractAbiUtils.ErrorsReportUnconvertible | test/libsolidity/util/ContractABIUtils.cpp:82-88 | there are as many errors as unconvertible outputs, and each error names such an output's type |
| ContractAbiUtils.FailedTypeNames | test/libsolidity/util/ContractABIUtils.cpp:82-88 | the types of the unconvertible outputs in output order, one per such output |
| ContractAbiUtils.ErrorsInOrder | test/libsolidity/util/ContractABIUtils.cpp:82-88 | the k-th error is the message for the k-th unconvertible output's type |
| ContractAbiUtils.HeadsBeforeTails | test/libsolidity/util/ContractABIUtils.cpp:90-99 | for two convertible outputs, both heads come first (each output's pointers, then its values), then both tails in output order |
| ContractAbiUtils.OtherFunctionsIgnored | test/libsolidity/util/ContractABIUtils.cpp:66-68 | when no function has the name, there are no parameters and no errors |
| ContractAbiUtils.NoMatchingOutputs | test/libsolidity/util/ContractABIUtils.cpp:66-68 | when no function has the name, no output is visited |

## Left out

- ProtoConverter's `unsigned` counters (`m_counter`, `m_varCounter`, `m_returnValue`) are unbounded naturals in the model. ConverterProperties.ConversionBounds shows that they stay below 684 within one conversion, so 32-bit wrap cannot occur. The 32-bit wrap of `fuzz + counter` in `getArrayLengthFromFuzz` is modelled.
- keccak256 is a function parameter, reduced modulo 2^256. Its output is not modelled.
- `toHex` of a `u256` is modelled as 64 lower-case hex digits, zero-padded. `fixedByteValueAsString` relies on this, and with the `0x` prefix it makes 66 characters.
- `boost::algorithm::to_lower_copy` of a decimal string is the identity and is not modelled.
- `Whiskers`, `ostringstream` and `Json::Value` are modelled as string concatenation and datatypes. The regular expressions are predicates written out on the name.
- The struct visitor and `structTypeAsString` do nothing in the source. Struct-typed variables and struct array bases are skipped, which the model reproduces.
- What the emitted Solidity program does when compiled and run is not modelled.
- Failure paths of the converter are preconditions of the model, not error results. Every caller rules them out:
  - The `solAssert` checks in `uintValueAsString`, `intValueAsString` and `fixedByteValueAsString`: callers pass only widths that satisfy them, so the widths are preconditions of the lemmas about these functions.
  - The `solUnimplemented` branch for `dataType::ARRAY` in `appendChecks` (protoToAbiV2.cpp:128-129) becomes `requires t != ArrayData` on AppendChecks, AddCheckedVarDef and VisitLeaf, both the functions and the methods. Arrays are only checked element by element and through `checkResizeOp`, which passes `dataType::VALUE`.
  - The `solAssert(false)` in `getValueByBaseType` for struct and unset base types (protoToAbiV2.cpp:360-362) becomes `requires IsValueBase(b)` on ProtoStatics.ValueByBaseType and ProtoStatics.BaseTypeAsString. Expand, ResizeInitArray, ProtoConverter.ResizeHelper and the lemmas about them require the same. `visit(ArrayType)` (protoToAbiV2.cpp:477-500) skips such arrays before expanding.
- ContractAbiUtils.ArraySizeOf: `arraySize` uses `stoi`, which would also accept leading spaces or signs and would throw on overflow. The model reads only names that match the array patterns, whose brackets hold digits, so it parses them as an unbounded natural. `stoi`'s overflow and its `size_t` cast are not modelled.
- The `Parameter` wrapper (empty bytes, empty text, default `FormatInfo`) is reduced to its `ABIType`.
- `ErrorReporter` is modelled as the returned list of error messages.
- Missing JSON fields: a missing `name` reads as None, and missing `outputs` or `components` as empty lists.
- The `parameterIndex` local of `parametersFromJson` is never read, and is not modelled.
- The `addressTypeParams` and `valueTypeParams` vectors that `parametersFromJson` declares outside its loops are locals of ContractAbiUtils.AddOutput in the model. They are always empty between outputs.
- ContractAbiUtils.HeadsBeforeTails states the two-output layout over outputs that are already converted; ContractAbiUtils.ParametersFromJson states it for any number of outputs.
- `YulUtilFunctions::suffixedVariableNameList` is not part of this model. It is modelled as `x_0, …, x_{n-1}`.
- `Contract.state_vars` and `TestFunction.local_vars` are single `VarDecl` fields of the fuzzer's protobuf messages, so a program has one state and one local declaration. The model follows this.
