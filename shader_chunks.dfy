/**
 * The declarations a shader collects: the parameter_direction and data_type
 * enumerations, layout_location_chunk and the shader_chunk variant.
 */
module ShaderChunks {
  import opened MachineWords
  import opened Wrappers

  /** parameter_direction: in = 0, out = 1. */
  datatype ParameterDirection = In | Out
  {
    /** The enumerator's numeric value. */
    function Code(): (c: nat)
      ensures c <= 1
    {
      match this
      case In => 0
      case Out => 1
    }
  }

  /** The enumerator with numeric value c, if there is one. */
  function DirectionOfCode(c: int): (r: Option<ParameterDirection>)
    ensures r.Some? <==> 0 <= c <= 1
    ensures r.Some? ==> r.value.Code() == c
  {
    if c == 0 then Some(In) else if c == 1 then Some(Out) else None
  }

  /** Distinct enumerators have distinct values, so no value names two directions. */
  lemma DirectionCodeRoundTrip(d: ParameterDirection)
    ensures DirectionOfCode(d.Code()) == Some(d)
  {
  }

  /** data_type: the GLSL scalar, vector and matrix types, numbered 0 to 22 in declaration order. */
  datatype DataType =
    | Bool | Int | Uint | Float | Double
    | Bvec2 | Bvec3 | Bvec4
    | Ivec2 | Ivec3 | Ivec4
    | Uvec2 | Uvec3 | Uvec4
    | Vec2 | Vec3 | Vec4
    | Dvec2 | Dvec3 | Dvec4
    | Mat2 | Mat3 | Mat4
  {
    /** The enumerator's numeric value. */
    function Code(): (c: nat)
      ensures c <= 22
    {
      match this
      case Bool => 0
      case Int => 1
      case Uint => 2
      case Float => 3
      case Double => 4
      case Bvec2 => 5
      case Bvec3 => 6
      case Bvec4 => 7
      case Ivec2 => 8
      case Ivec3 => 9
      case Ivec4 => 10
      case Uvec2 => 11
      case Uvec3 => 12
      case Uvec4 => 13
      case Vec2 => 14
      case Vec3 => 15
      case Vec4 => 16
      case Dvec2 => 17
      case Dvec3 => 18
      case Dvec4 => 19
      case Mat2 => 20
      case Mat3 => 21
      case Mat4 => 22
    }
  }

  const DATA_TYPES: seq<DataType> :=
    [Bool, Int, Uint, Float, Double, Bvec2, Bvec3, Bvec4, Ivec2, Ivec3, Ivec4, Uvec2, Uvec3, Uvec4,
     Vec2, Vec3, Vec4, Dvec2, Dvec3, Dvec4, Mat2, Mat3, Mat4]

  /** The enumerator with numeric value c, if there is one. */
  function DataTypeOfCode(c: int): (r: Option<DataType>)
    ensures r.Some? <==> 0 <= c <= 22
    ensures r.Some? ==> r.value.Code() == c
  {
    if 0 <= c < |DATA_TYPES| then Some(DATA_TYPES[c]) else None
  }

  /** Every enumerator is recovered from its value. */
  lemma DataTypeCodeRoundTrip(t: DataType)
    ensures DataTypeOfCode(t.Code()) == Some(t)
  {
  }

  /**
   * layout_location_chunk: an interface variable bound to a numeric location.
   * The datatype constructor is the four-argument C++ constructor; its fields
   * are mLocation, mDirection, mType and mName.
   */
  datatype LayoutLocationChunk = LayoutLocationChunk(
    location: size_t,
    direction: ParameterDirection,
    dataType: DataType,
    name: string)

  /**
   * The copy and move constructors (which have the same member initialisers):
   * a chunk built field by field from obj.
   */
  function CopyChunk(obj: LayoutLocationChunk): (r: LayoutLocationChunk)
    ensures r == obj
  {
    LayoutLocationChunk(obj.location, obj.direction, obj.dataType, obj.name)
  }

  /** shader_chunk: std::variant<std::monostate, layout_location_chunk>. */
  datatype ShaderChunk = Monostate | Location(chunk: LayoutLocationChunk)
}
