# ConstShader instruction builder, modelled in Dafny

ConstShader is meant to assemble SPIR-V shader modules from declarations in C++, with no
textual shader compiler involved. The code that exists so far is the builder
skeleton in `constshader.h`. This project models that skeleton:

- the `PACK` byte-packing macro;
- the `parameter_direction` and `data_type` enumerations;
- `layout_location_chunk` and the `shader_chunk` variant;
- the class `cs::shader`. It is a vector of chunks with an identifier counter
  (`mNextId`, `GetNextId`, `SkipIds`), a word buffer of function-definition
  instructions (`mFunctionDefinitionInstructions`, `Push`), and the fluent
  `layout_location` call.

Modules, one per component of the header:

- `MachineWords` (machine_words.dfy): `uint8`, `uint16`, `uint32` and `size_t` as subsets of `int`, plus the division facts the proofs use.
- `BytePacking` (byte_packing.dfy): `PACK` and byte extraction by shift and mask.
- `SpirvInstruction` (spirv_instruction.dfy): the instruction header word. Section 2.3 of the SPIR-V specification puts the word count in the high 16 bits and the opcode in the low 16 bits. This module also has the encoding of one instruction and of a stream of instructions, and the decoding that inverts it.
- `ShaderChunks` (shader_chunks.dfy): the enumerations, `layout_location_chunk` and `shader_chunk`.
- `IdAllocator` (id_allocator.dfy): the counter steps of `mNextId++` and `mNextId += n` on a `uint32_t`, and the ids that successive calls hand out.
- `ConstShader` (shader.dfy): the class `Shader`, with fields `chunks`, `nextId` and `functionDefinitionInstructions` and one method per member function.
- `Wrappers` (wrappers.dfy): `Option`.

Modelling decisions:

- Shifts and bitwise ORs are written as multiplication by powers of two and addition. Every shifted field of `PACK` and of the header occupies its own bits and none overflows 32 bits, so the two forms are equal.
- `(uint8_t)c` is `c % 256`. Dafny's `%` never returns a negative value, which matches C's modular conversion to an unsigned type for negative arguments too.
- `mNextId` is a `uint32_t`, and the model keeps its wrap-around modulo 2^32. The claims that ids increase, are non-zero and are never reissued are lemmas that take a no-overflow precondition.
- The two-argument `Pack(count, opcode)` that `Push` calls is not defined in the header. It is modelled as the SPIR-V header word `count << 16 | opcode`. `Push` requires `arguments.size() + 1 <= 65535` so that the count fits its 16-bit field. The source checks nothing here, so the model has a precondition and no error path.
- `Push` is proved against a specification. Its buffer is always a whole number of well-formed instructions (`Valid()`). The instructions read back from the buffer (`Instructions()`) gain exactly the pushed instruction. The constructor establishes `Valid()` and every method keeps it.
- `layout_location_chunk` is a value, so it is a datatype. Its four-argument constructor is the datatype constructor. The copy and move constructors are `CopyChunk`; both have the same member initialisers.
- `spv::Op` is an opaque 16-bit opcode. Operand words are `uint32`; the conversion from the element type `T` of the `initializer_list` to `uint32_t` is not modelled.

## Model

| member | source | states |
|---|---|---|
| `BytePacking.Low8` | constshader.h:23-26 | the `(uint8_t)` cast yields a byte congruent to its argument modulo 256 |
| `BytePacking.Pack` | constshader.h:22-26 | shifting and masking each byte out of `PACK(c0,c1,c2,c3)` gives `c0 % 256` in bits 31-24, `c1 % 256` in 23-16, `c2 % 256` in 15-8 and `c3 % 256` in 7-0 |
| `BytePacking.PackOfBytes` | constshader.h:22-26 | every 32-bit word is the `PACK` of its own four bytes, most significant first, so `PACK` reaches every word |
| `BytePacking.PackIgnoresHighBits` | constshader.h:22-26 | arguments that agree modulo 256 pack to the same word: bits above the low byte are discarded |
| `BytePacking.PackInjective` | constshader.h:22-26 | distinct byte quadruples pack to distinct words |
| `SpirvInstruction.Header` | constshader.h:125 | the header word carries the word count in its high 16 bits and the opcode in its low 16 bits |
| `SpirvInstruction.HeaderOfFields` | constshader.h:125 | every word is the header of its own count and opcode fields |
| `SpirvInstruction.Encode` | constshader.h:125-129 | one instruction's encoding is one word more than its operand count: a header whose count is that length and whose opcode is the instruction's, then the operands in order |
| `SpirvInstruction.DecodeInstruction` | constshader.h:125-129 | reading the count from the first word succeeds exactly when the count is at least 1 and within the stream; the decoded instruction's encoding and the remaining words reassemble the input |
| `SpirvInstruction.DecodeEncode` | constshader.h:125-129 | decoding an encoded instruction followed by any words returns that instruction and those words |
| `SpirvInstruction.DecodeEncodeStream` | constshader.h:115 | a buffer of back-to-back encoded instructions decodes to exactly those instructions |
| `SpirvInstruction.EncodeDecodeStream` | constshader.h:115 | every buffer that decodes is the encoding of what it decodes to, and all its instructions fit the 16-bit count |
| `SpirvInstruction.EncodeStreamAppend` | constshader.h:125-129 | appending an instruction to the list appends its encoding to the words |
| `SpirvInstruction.DecodeStreamAppend` | constshader.h:125-129 | a well-formed buffer extended by one encoded instruction decodes to the old instructions followed by that one |
| `ShaderChunks.ParameterDirection.Code` | constshader.h:38-42 | `in` is 0 and `out` is 1; a value is at most 1 |
| `ShaderChunks.DirectionOfCode` | constshader.h:38-42 | exactly the values 0 and 1 name a direction, and the direction named has that value |
| `ShaderChunks.DirectionCodeRoundTrip` | constshader.h:38-42 | every direction is recovered from its value |
| `ShaderChunks.DataType.Code` | constshader.h:44-69 | the types `_bool` to `_mat4` are numbered 0 to 22 in declaration order |
| `ShaderChunks.DataTypeOfCode` | constshader.h:44-69 | exactly the values 0 to 22 name a type, and the type named has that value |
| `ShaderChunks.DataTypeCodeRoundTrip` | constshader.h:44-69 | every type is recovered from its value |
| `ShaderChunks.CopyChunk` | constshader.h:84-94 | the copy and move constructors preserve location, direction, type and name |
| `IdAllocator.Successor` | constshader.h:107 | `mNextId++` adds one, and wraps from 2^32 - 1 to 0 |
| `IdAllocator.Skip` | constshader.h:112 | `mNextId += n` adds n, and subtracts 2^32 once the sum reaches 2^32 |
| `IdAllocator.Issue` | constshader.h:105-108 | k successive `GetNextId` calls hand out k ids; it recurses on `Successor`, exactly the step in the postcondition of `Shader.GetNextId` |
| `IdAllocator.IssueAt` | constshader.h:105-108 | the i-th of the ids handed out from counter n is `(n + i) mod 2^32` |
| `IdAllocator.IssueConcat` | constshader.h:105-108 | handing out k ids and then m more is the same as handing out k + m ids |
| `IdAllocator.IssueAscending` | constshader.h:104-108 | if the counter does not overflow, successive ids are n, n+1, ..., strictly increasing and non-zero from the initial counter of 1 |
| `IdAllocator.SkipNeverIssues` | constshader.h:110-113 | after skipping s from counter n, the next id is n + s and no id below n + s is handed out (no overflow) |
| `ConstShader.Shader.Instructions` | constshader.h:115 | the instructions read from the buffer are all encodable, and their encoding is the buffer |
| `ConstShader.Shader.constructor` | constshader.h:100-104 | a new shader has no chunks, counter 1 and an empty, well-formed buffer |
| `ConstShader.Shader.GetNextId` | constshader.h:105-108 | returns the old counter and leaves it one larger (wrapping at 2^32); chunks and buffer unchanged |
| `ConstShader.Shader.SkipIds` | constshader.h:110-113 | the counter becomes old + n modulo 2^32 and nothing else changes |
| `ConstShader.Shader.Push` | constshader.h:122-130 | the buffer grows by exactly the argument count plus one words, the earlier words are kept, then comes the header for that count and `code`, then the arguments in order; the buffer stays well formed and its instruction list gains exactly `(code, arguments)`; chunks and counter unchanged |
| `ConstShader.Shader.LayoutLocation` | constshader.h:134-138 | appends exactly one location chunk holding the four arguments and returns the same shader; counter and buffer unchanged |

## Left out

- `Compile(vk::Device&)`: its body is a placeholder that returns an empty Vulkan shader module. Creating that module is a driver call outside this model.
- The variadic `Push(spv::Op, Args...)` template calls itself with the same arguments and has no base case, so any call would never return. It is not modelled.
- The Vulkan and SPIR-V header includes and the platform `#ifdef`s are external libraries. `spv::Op` is a 16-bit opcode here. Conversion of operands of type `T` to `uint32_t` is not modelled: operands are already words.
- `SPIR_V_GENERATORS_NUMBER` is defined but never used, so no module header is built.
- The example driver (main.cpp) prints to the console and calls `layout_binding`, `layout_builtin` and `var`, which the header does not define. `ConstShader.ExampleDriver` repeats only its `layout_location` calls, then draws identifiers and pushes two instructions; it is one illustrative run and calls members that are private in the source.
- The type registry, expression lowering, decorations, member offsets and section ordering have no code in the header, so they are not modelled.
- The C++ access levels (`GetNextId`, `SkipIds` and `Push` are private) and copying of a whole `shader` are not modelled.
- `ConstShader.Shader.Push`: its precondition (argument count plus one at most 65535) is not in the source. The header word is only meaningful when the count fits 16 bits; the header does not define `Pack`, so its behaviour for a count above 65535 is unknown.
