/**
 * cs::shader: a list of chunks (the std::vector<shader_chunk> the class
 * derives from), the identifier counter mNextId and the word buffer
 * mFunctionDefinitionInstructions.
 */
module ConstShader {
  import opened MachineWords
  import opened SpirvInstruction
  import opened ShaderChunks
  import opened IdAllocator

  class Shader {
    /** The elements of the std::vector<shader_chunk> base. */
    var chunks: seq<ShaderChunk>
    /** mNextId: the next identifier GetNextId hands out. */
    var nextId: uint32
    /** mFunctionDefinitionInstructions. */
    var functionDefinitionInstructions: seq<uint32>

    /** The word buffer is always a sequence of whole, well-formed instructions. */
    ghost predicate Valid()
      reads this
    {
      DecodeStream(functionDefinitionInstructions).Some?
    }

    /** The instructions pushed so far, in order, read back from the word buffer. */
    ghost function Instructions(): (insts: seq<Instruction>)
      reads this
      requires Valid()
      ensures AllEncodable(insts) && EncodeStream(insts) == functionDefinitionInstructions
    {
      EncodeDecodeStream(functionDefinitionInstructions);
      DecodeStream(functionDefinitionInstructions).value
    }

    /** cs::shader(): no chunks, mNextId = 1, no instructions. */
    constructor ()
      ensures Valid()
      ensures chunks == [] && nextId == FIRST_ID && functionDefinitionInstructions == []
      ensures Instructions() == []
    {
      chunks := [];
      nextId := FIRST_ID;
      functionDefinitionInstructions := [];
    }

    /** GetNextId: returns mNextId and post-increments it. */
    method GetNextId() returns (id: uint32)
      modifies this`nextId
      ensures id == old(nextId) && nextId == Successor(old(nextId))
      ensures nextId == id + 1 || (id == TWO_32 - 1 && nextId == 0)
      ensures chunks == old(chunks) && functionDefinitionInstructions == old(functionDefinitionInstructions)
    {
      id := nextId;
      nextId := Successor(nextId);
    }

    /** SkipIds: advances mNextId by numberToSkip without handing out any identifier. */
    method SkipIds(numberToSkip: uint32)
      modifies this`nextId
      ensures nextId == Skip(old(nextId), numberToSkip)
      ensures old(nextId) + numberToSkip < TWO_32 ==> nextId == old(nextId) + numberToSkip
      ensures chunks == old(chunks) && functionDefinitionInstructions == old(functionDefinitionInstructions)
    {
      nextId := Skip(nextId, numberToSkip);
    }

    /**
     * Push(code, arguments): appends the header Pack(arguments.size() + 1, code)
     * and then every argument word, in order.
     */
    method Push(code: Opcode, arguments: seq<uint32>)
      requires Valid()
      requires |arguments| + 1 <= MAX_WORD_COUNT
      modifies this`functionDefinitionInstructions
      ensures Valid()
      ensures |functionDefinitionInstructions| == |old(functionDefinitionInstructions)| + |arguments| + 1
      ensures functionDefinitionInstructions[..|old(functionDefinitionInstructions)|] == old(functionDefinitionInstructions)
      ensures functionDefinitionInstructions[|old(functionDefinitionInstructions)|] == Header(|arguments| + 1, code)
      ensures functionDefinitionInstructions[|old(functionDefinitionInstructions)| + 1..] == arguments
      ensures Instructions() == old(Instructions()) + [Instruction(code, arguments)]
      ensures chunks == old(chunks) && nextId == old(nextId)
    {
      ghost var before := functionDefinitionInstructions;
      functionDefinitionInstructions := functionDefinitionInstructions + [Header(|arguments| + 1, code)];
      for k := 0 to |arguments|
        invariant functionDefinitionInstructions == before + [Header(|arguments| + 1, code)] + arguments[..k]
      {
        functionDefinitionInstructions := functionDefinitionInstructions + [arguments[k]];
        assert arguments[..k + 1] == arguments[..k] + [arguments[k]];
      }
      assert arguments[..|arguments|] == arguments;
      assert functionDefinitionInstructions == before + Encode(Instruction(code, arguments));
      DecodeStreamAppend(before, Instruction(code, arguments));
    }

    /**
     * layout_location: appends one layout_location_chunk holding the four
     * arguments and returns this same shader, so that calls chain.
     */
    method LayoutLocation(location: size_t, direction: ParameterDirection, dataType: DataType, name: string)
      returns (self: Shader)
      modifies this`chunks
      ensures self == this
      ensures chunks == old(chunks) + [Location(LayoutLocationChunk(location, direction, dataType, name))]
      ensures nextId == old(nextId) && functionDefinitionInstructions == old(functionDefinitionInstructions)
    {
      chunks := chunks + [Location(CopyChunk(LayoutLocationChunk(location, direction, dataType, name)))];
      self := this;
    }
  }

  /**
   * The layout_location calls of the example driver, chained, and identifiers
   * drawn from a fresh shader: the first is 1 and they count up.
   */
  method ExampleDriver()
  {
    var shader := new Shader();
    var s := shader.LayoutLocation(0, In, Vec3, "inPos");
    s := s.LayoutLocation(1, In, Vec3, "inColor");
    s := s.LayoutLocation(0, Out, Vec3, "outColor");
    assert s == shader && |shader.chunks| == 3;
    assert shader.chunks[1] == Location(LayoutLocationChunk(1, In, Vec3, "inColor"));

    var a := shader.GetNextId();
    var b := shader.GetNextId();
    shader.SkipIds(2);
    var c := shader.GetNextId();
    assert a == 1 && b == 2 && c == 5;

    shader.Push(17, [a, b]);
    shader.Push(1, []);
    assert shader.Instructions() == [Instruction(17, [1, 2]), Instruction(1, [])];
    assert shader.functionDefinitionInstructions[0] == Header(3, 17);
  }
}
