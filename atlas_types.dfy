/** Value types shared by the texture-atlas registry, its definition-file
    parser and the per-pass sampler. */
module AtlasTypes {

  /** A possibly absent value; stands for a null/blank table pointer. */
  datatype Option<+T> = None | Some(value: T)

  /** The result of converting one field of a definition line to a float.
      The conversion itself is opaque: the model keeps the text it came from,
      so two parsed values are equal exactly when their fields are. */
  datatype ParsedReal = ParsedReal(text: string)

  function ParseReal(field: string): ParsedReal
  {
    ParsedReal(field)
  }

  /** One sub-texture placement inside an atlas texture. */
  datatype TextureAtlasRecord = TextureAtlasRecord(
    originalTextureName: string,
    atlasTextureName: string,
    posU: ParsedReal,
    posV: ParsedReal,
    width: ParsedReal,
    height: ParsedReal,
    indexInAtlas: nat)

  /** An atlas table: the records of one atlas, in file order. */
  type TextureAtlasTable = seq<TextureAtlasRecord>

  /** Texture addressing modes of the host engine; `Other` stands for every
      mode the sampler does not recognise. */
  datatype TextureAddressingMode = Wrap | Mirror | Clamp | Border | Other(code: int)

  /** The per-axis addressing modes of a texture unit. */
  datatype UVWAddressingMode = UVWAddressingMode(
    u: TextureAddressingMode,
    v: TextureAddressingMode,
    w: TextureAddressingMode)

  /** A texture unit of a pass, reduced to what the atlas sampler reads. */
  datatype TextureUnit = TextureUnit(
    textureName: string,
    is2D: bool,
    addressing: UVWAddressingMode)

  /** Where the atlas index sits among the vertex texture coordinates. */
  datatype IndexPositionMode = Relative | Absolute

  /** The largest number of atlas textures one pass can sample. */
  const TAS_MAX_TEXTURES: nat := 4

  /** Bound of the host's `unsigned short`. */
  const USHORT_LIMIT: nat := 0x1_0000
}
