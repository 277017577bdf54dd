/**
 * The instruction word format that shader::Push writes: a header word
 * holding the instruction's total word count in the high 16 bits and its
 * opcode in the low 16 bits (section 2.3, "Physical Layout of a SPIR-V
 * Module and Instruction", of the SPIR-V specification), followed by the
 * operand words verbatim. Decoding is the inverse against which encoding
 * is proved.
 */
module SpirvInstruction {
  import opened MachineWords
  import opened Wrappers

  /** spv::Op, taken as an opaque 16-bit opcode value. */
  type Opcode = uint16

  /** The largest word count the 16-bit count field can hold. */
  const MAX_WORD_COUNT: int := 0xFFFF

  /** The word count field of a header word (w >> 16). */
  function HeaderWordCount(w: uint32): uint16
  {
    w / TWO_16
  }

  /** The opcode field of a header word (w & 0xFFFF). */
  function HeaderOpcode(w: uint32): Opcode
  {
    w % TWO_16
  }

  /** Pack(wordCount, opcode): the header word (wordCount << 16) | opcode. */
  function Header(wordCount: uint16, opcode: Opcode): (w: uint32)
    ensures HeaderWordCount(w) == wordCount && HeaderOpcode(w) == opcode
  {
    DivModUnique(wordCount * TWO_16 + opcode, TWO_16, wordCount, opcode);
    wordCount * TWO_16 + opcode
  }

  /** Every word is the header of its own two fields, so Header is a bijection onto 32-bit words. */
  lemma HeaderOfFields(w: uint32)
    ensures Header(HeaderWordCount(w), HeaderOpcode(w)) == w
  {
  }

  /** One instruction as passed to Push: an opcode and its operand words. */
  datatype Instruction = Instruction(opcode: Opcode, operands: seq<uint32>)

  /** The word count 1 + |operands| fits the header's 16-bit count field. */
  predicate Encodable(inst: Instruction)
  {
    |inst.operands| + 1 <= MAX_WORD_COUNT
  }

  predicate AllEncodable(insts: seq<Instruction>)
  {
    forall k :: 0 <= k < |insts| ==> Encodable(insts[k])
  }

  /** The words Push appends for one instruction. */
  function Encode(inst: Instruction): (ws: seq<uint32>)
    requires Encodable(inst)
    ensures |ws| == |inst.operands| + 1
    ensures HeaderWordCount(ws[0]) == |ws| && HeaderOpcode(ws[0]) == inst.opcode
    ensures ws[1..] == inst.operands
  {
    [Header(|inst.operands| + 1, inst.opcode)] + inst.operands
  }

  /**
   * Reads one instruction off the front of a word stream: the header's count
   * says how many words belong to it. Fails on an empty stream, a zero count
   * or a count that runs past the end of the stream.
   */
  function DecodeInstruction(ws: seq<uint32>): (r: Option<(Instruction, seq<uint32>)>)
    ensures r.Some? <==> |ws| > 0 && 1 <= HeaderWordCount(ws[0]) <= |ws|
    ensures r.Some? ==> Encodable(r.value.0) && Encode(r.value.0) + r.value.1 == ws
    ensures r.Some? ==> |r.value.1| < |ws|
  {
    if |ws| == 0 then None
    else
      var n := HeaderWordCount(ws[0]);
      if n == 0 || n > |ws| then None
      else
        HeaderOfFields(ws[0]);
        assert ws == ws[..1] + ws[1..n] + ws[n..];
        Some((Instruction(HeaderOpcode(ws[0]), ws[1..n]), ws[n..]))
  }

  /** Decoding the encoding of an instruction gives back the instruction and leaves what follows it. */
  lemma DecodeEncode(inst: Instruction, rest: seq<uint32>)
    requires Encodable(inst)
    ensures DecodeInstruction(Encode(inst) + rest) == Some((inst, rest))
  {
    var ws := Encode(inst) + rest;
    var n := |inst.operands| + 1;
    assert ws[0] == Encode(inst)[0];
    assert ws[1..n] == inst.operands;
    assert ws[n..] == rest;
  }

  /** A sequence of instructions laid out back to back, as the buffer holds them. */
  function EncodeStream(insts: seq<Instruction>): (ws: seq<uint32>)
    requires AllEncodable(insts)
  {
    if |insts| == 0 then [] else Encode(insts[0]) + EncodeStream(insts[1..])
  }

  /** Splits a word stream into instructions; fails unless the headers partition the stream exactly. */
  function DecodeStream(ws: seq<uint32>): (r: Option<seq<Instruction>>)
    decreases |ws|
  {
    if |ws| == 0 then Some([])
    else
      match DecodeInstruction(ws)
      case None => None
      case Some((inst, rest)) =>
        match DecodeStream(rest)
        case None => None
        case Some(tail) => Some([inst] + tail)
  }

  /** Every instruction stream the encoder produces decodes back to exactly its instructions. */
  lemma {:induction false} DecodeEncodeStream(insts: seq<Instruction>)
    requires AllEncodable(insts)
    ensures DecodeStream(EncodeStream(insts)) == Some(insts)
  {
    if |insts| > 0 {
      var rest := EncodeStream(insts[1..]);
      DecodeEncode(insts[0], rest);
      DecodeEncodeStream(insts[1..]);
      assert [insts[0]] + insts[1..] == insts;
    }
  }

  /** Every stream that decodes is all encodable instructions and is the encoding of what it decodes to. */
  lemma {:induction false} EncodeDecodeStream(ws: seq<uint32>)
    requires DecodeStream(ws).Some?
    ensures AllEncodable(DecodeStream(ws).value)
    ensures EncodeStream(DecodeStream(ws).value) == ws
    decreases |ws|
  {
    if |ws| > 0 {
      var (inst, rest) := DecodeInstruction(ws).value;
      EncodeDecodeStream(rest);
      var tail := DecodeStream(rest).value;
      assert DecodeStream(ws).value == [inst] + tail;
      assert ([inst] + tail)[1..] == tail;
    }
  }

  /** Appending one instruction appends its encoding. */
  lemma {:induction false} EncodeStreamAppend(insts: seq<Instruction>, inst: Instruction)
    requires AllEncodable(insts) && Encodable(inst)
    ensures AllEncodable(insts + [inst])
    ensures EncodeStream(insts + [inst]) == EncodeStream(insts) + Encode(inst)
  {
    var all := insts + [inst];
    assert forall k :: 0 <= k < |all| ==> all[k] == if k < |insts| then insts[k] else inst;
    if |insts| > 0 {
      assert all[1..] == insts[1..] + [inst];
      EncodeStreamAppend(insts[1..], inst);
    } else {
      assert all[1..] == [];
    }
  }

  /** A well-formed stream extended by one encoded instruction decodes to the old instructions plus that one. */
  lemma DecodeStreamAppend(ws: seq<uint32>, inst: Instruction)
    requires DecodeStream(ws).Some? && Encodable(inst)
    ensures DecodeStream(ws + Encode(inst)) == Some(DecodeStream(ws).value + [inst])
  {
    var insts := DecodeStream(ws).value;
    EncodeDecodeStream(ws);
    EncodeStreamAppend(insts, inst);
    DecodeEncodeStream(insts + [inst]);
  }
}
