/** The per-pass texture-atlas sampler: which texture units of a pass are
    sampled from an atlas, where the atlas index sits among the texture
    coordinates, which shader function applies each addressing mode, and
    the one-time upload of the atlas table to the vertex program. */
module AtlasSampler {
  import opened AtlasTypes
  import opened AtlasFactory

  // ---------------------------------------------------------------------
  // Addressing functions of the shader library

  const FUNC_ATLAS_WRAP: string := "SGX_Atlas_Wrap"
  const FUNC_ATLAS_MIRROR: string := "SGX_Atlas_Mirror"
  const FUNC_ATLAS_CLAMP: string := "SGX_Atlas_Clamp"
  const FUNC_ATLAS_BORDER: string := "SGX_Atlas_Border"

  /** The shader function named for an addressing function, or None. */
  function AddressingModeOfFunction(name: string): Option<TextureAddressingMode>
  {
    if name == FUNC_ATLAS_WRAP then Some(Wrap)
    else if name == FUNC_ATLAS_MIRROR then Some(Mirror)
    else if name == FUNC_ATLAS_CLAMP then Some(Clamp)
    else if name == FUNC_ATLAS_BORDER then Some(Border)
    else None
  }

  /** The shader function that applies an addressing mode to a texture
      coordinate; None for a mode the library has no function for. The
      four names differ: each one gives its mode back. */
  function GetAdressingFunctionName(mode: TextureAddressingMode): (name: Option<string>)
    ensures name.None? <==> mode.Other?
    ensures name.Some? ==> AddressingModeOfFunction(name.value) == Some(mode)
  {
    match mode
    case Wrap => Some(FUNC_ATLAS_WRAP)
    case Mirror => Some(FUNC_ATLAS_MIRROR)
    case Clamp => Some(FUNC_ATLAS_CLAMP)
    case Border => Some(FUNC_ATLAS_BORDER)
    case Other(_) => None
  }

  /** Two modes with the same addressing function are the same mode. */
  lemma AddressingFunctionNamesDistinct(m1: TextureAddressingMode, m2: TextureAddressingMode)
    requires GetAdressingFunctionName(m1).Some?
    requires GetAdressingFunctionName(m1) == GetAdressingFunctionName(m2)
    ensures m1 == m2
  {
    assert AddressingModeOfFunction(GetAdressingFunctionName(m1).value) == Some(m1);
    assert AddressingModeOfFunction(GetAdressingFunctionName(m2).value) == Some(m2);
  }

  // ---------------------------------------------------------------------
  // The pass scan

  /** What the scan of a pass has recorded: the first atlas unit, its
      table, the addressing modes written so far and whether a non-2D
      atlas unit aborted the scan. */
  datatype ScanState = ScanState(
    start: nat,
    table: Option<TextureAtlasTable>,
    modes: seq<UVWAddressingMode>,
    aborted: bool)
  {
    /** The number of atlas textures the pass samples. */
    function Count(): nat
    {
      if aborted then 0 else |modes|
    }
  }

  const INITIAL_SCAN: ScanState := ScanState(0, None, [], false)

  /** The scan loop from unit `i` on: an atlas unit that is not 2D aborts;
      the first atlas unit fixes the table and the start; each atlas unit
      records its addressing mode, up to TAS_MAX_TEXTURES of them; a unit
      without a table ends a run that has begun. */
  function ScanFrom(atlases: map<string, TextureAtlasTable>, pass: seq<TextureUnit>, i: nat, s: ScanState): (r: ScanState)
    requires i <= |pass|
    requires |s.modes| < TAS_MAX_TEXTURES
    ensures |s.modes| <= |r.modes| <= TAS_MAX_TEXTURES
    ensures r.modes[..|s.modes|] == s.modes
    ensures r.Count() <= TAS_MAX_TEXTURES
    decreases |pass| - i
  {
    if i == |pass| then s
    else
      var unit := pass[i];
      if unit.textureName in atlases then
        if !unit.is2D then s.(aborted := true)
        else
          var s1 := if s.table.None? then s.(table := Some(atlases[unit.textureName]), start := i) else s;
          var s2 := s1.(modes := s1.modes + [unit.addressing]);
          if |s2.modes| == TAS_MAX_TEXTURES then s2 else ScanFrom(atlases, pass, i + 1, s2)
      else if s.table.Some? then s
      else ScanFrom(atlases, pass, i + 1, s)
  }

  /** The scan of a whole pass; it never counts more than
      TAS_MAX_TEXTURES atlas textures. */
  function ScanPass(atlases: map<string, TextureAtlasTable>, pass: seq<TextureUnit>): (s: ScanState)
    ensures |s.modes| <= TAS_MAX_TEXTURES
    ensures s.Count() <= TAS_MAX_TEXTURES
  {
    ScanFrom(atlases, pass, 0, INITIAL_SCAN)
  }

  // A closed-form description of the scan, by the positions that delimit
  // the counted run.

  /** The first unit at or after `i` that has an atlas table, or |pass|. */
  function FirstAtlasUnit(atlases: map<string, TextureAtlasTable>, pass: seq<TextureUnit>, i: nat): (r: nat)
    requires i <= |pass|
    ensures i <= r <= |pass|
    ensures forall j :: i <= j < r ==> pass[j].textureName !in atlases
    ensures r < |pass| ==> pass[r].textureName in atlases
    decreases |pass| - i
  {
    if i == |pass| || pass[i].textureName in atlases then i
    else FirstAtlasUnit(atlases, pass, i + 1)
  }

  /** The first unit at or after `i` without an atlas table, or |pass|. */
  function AtlasRunEnd(atlases: map<string, TextureAtlasTable>, pass: seq<TextureUnit>, i: nat): (r: nat)
    requires i <= |pass|
    ensures i <= r <= |pass|
    ensures forall j :: i <= j < r ==> pass[j].textureName in atlases
    ensures r < |pass| ==> pass[r].textureName !in atlases
    decreases |pass| - i
  {
    if i == |pass| || pass[i].textureName !in atlases then i
    else AtlasRunEnd(atlases, pass, i + 1)
  }

  /** The first unit in [i, e) that is not 2D, or e. */
  function FirstNon2DUnit(pass: seq<TextureUnit>, i: nat, e: nat): (r: nat)
    requires i <= e <= |pass|
    ensures i <= r <= e
    ensures forall j :: i <= j < r ==> pass[j].is2D
    ensures r < e ==> !pass[r].is2D
    decreases e - i
  {
    if i == e || !pass[i].is2D then i else FirstNon2DUnit(pass, i + 1, e)
  }

  function Min(a: nat, b: nat): nat
  {
    if a < b then a else b
  }

  /** The addressing modes of some units, in order. */
  function Addressings(units: seq<TextureUnit>): (modes: seq<UVWAddressingMode>)
    ensures |modes| == |units|
    ensures forall j :: 0 <= j < |units| ==> modes[j] == units[j].addressing
  {
    seq(|units|, j requires 0 <= j < |units| => units[j].addressing)
  }

  /** One more unit adds its addressing mode at the end. */
  lemma AddressingsExtend(pass: seq<TextureUnit>, f: nat, i: nat)
    requires f <= i < |pass|
    ensures Addressings(pass[f..i + 1]) == Addressings(pass[f..i]) + [pass[i].addressing]
  {
  }

  /** The end of the units the scan may count: the atlas run from the
      first atlas unit, cut at TAS_MAX_TEXTURES units. */
  function CountedRunEnd(atlases: map<string, TextureAtlasTable>, pass: seq<TextureUnit>): (e: nat)
    ensures FirstAtlasUnit(atlases, pass, 0) <= e <= |pass|
  {
    var f := FirstAtlasUnit(atlases, pass, 0);
    if f == |pass| then f else Min(AtlasRunEnd(atlases, pass, f), f + TAS_MAX_TEXTURES)
  }

  /** The scan's outcome stated by positions: no atlas unit gives the
      initial state; otherwise the counted run is the atlas run from the
      first atlas unit, cut at TAS_MAX_TEXTURES units, and a non-2D unit
      inside it aborts the scan after the modes before it were written. */
  function ScanReference(atlases: map<string, TextureAtlasTable>, pass: seq<TextureUnit>): ScanState
  {
    var f := FirstAtlasUnit(atlases, pass, 0);
    if f == |pass| then INITIAL_SCAN
    else
      var e := CountedRunEnd(atlases, pass);
      var k := FirstNon2DUnit(pass, f, e);
      if k == f then ScanState(0, None, [], k < e)
      else ScanState(f, Some(atlases[pass[f].textureName]), Addressings(pass[f..k]), k < e)
  }

  lemma {:induction false} ScanSkipsUnitsWithoutTable(atlases: map<string, TextureAtlasTable>, pass: seq<TextureUnit>, i: nat)
    requires i <= |pass|
    ensures ScanFrom(atlases, pass, i, INITIAL_SCAN) ==
      ScanFrom(atlases, pass, FirstAtlasUnit(atlases, pass, i), INITIAL_SCAN)
    decreases |pass| - i
  {
    if i < |pass| && pass[i].textureName !in atlases {
      ScanSkipsUnitsWithoutTable(atlases, pass, i + 1);
    }
  }

  /** Where the counted run stops after 2D units only, the closed form
      holds the modes of the units before the stop. */
  lemma ReferenceStopsAt(atlases: map<string, TextureAtlasTable>, pass: seq<TextureUnit>, i: nat)
    requires FirstAtlasUnit(atlases, pass, 0) < i <= CountedRunEnd(atlases, pass)
    requires forall j :: FirstAtlasUnit(atlases, pass, 0) <= j < i ==> pass[j].is2D
    requires i == CountedRunEnd(atlases, pass) || !pass[i].is2D
    ensures var f := FirstAtlasUnit(atlases, pass, 0);
      ScanReference(atlases, pass) ==
        ScanState(f, Some(atlases[pass[f].textureName]), Addressings(pass[f..i]), i < CountedRunEnd(atlases, pass))
  {
    var f := FirstAtlasUnit(atlases, pass, 0);
    assert FirstNon2DUnit(pass, f, CountedRunEnd(atlases, pass)) == i;
  }

  lemma {:induction false} ScanWithinRun(atlases: map<string, TextureAtlasTable>, pass: seq<TextureUnit>,
                                         f: nat, e: nat, i: nat, s: ScanState)
    requires f == FirstAtlasUnit(atlases, pass, 0) && e == CountedRunEnd(atlases, pass)
    requires f < i <= e && i - f < TAS_MAX_TEXTURES
    requires forall j :: f <= j < i ==> pass[j].is2D
    requires s == ScanState(f, Some(atlases[pass[f].textureName]), Addressings(pass[f..i]), false)
    ensures ScanFrom(atlases, pass, i, s) == ScanReference(atlases, pass)
    decreases |pass| - i
  {
    var runEnd := AtlasRunEnd(atlases, pass, f);
    assert i <= runEnd;
    if i == |pass| {
      ReferenceStopsAt(atlases, pass, i);
    } else if pass[i].textureName !in atlases {
      assert runEnd == i;
      ReferenceStopsAt(atlases, pass, i);
    } else if !pass[i].is2D {
      ReferenceStopsAt(atlases, pass, i);
    } else {
      var s2 := ScanState(f, s.table, Addressings(pass[f..i + 1]), false);
      AddressingsExtend(pass, f, i);
      if i + 1 - f == TAS_MAX_TEXTURES {
        ReferenceStopsAt(atlases, pass, i + 1);
      } else {
        ScanWithinRun(atlases, pass, f, e, i + 1, s2);
      }
    }
  }

  /** The scan loop computes the closed-form outcome. */
  lemma ScanMatchesReference(atlases: map<string, TextureAtlasTable>, pass: seq<TextureUnit>)
    ensures ScanPass(atlases, pass) == ScanReference(atlases, pass)
  {
    var f := FirstAtlasUnit(atlases, pass, 0);
    ScanSkipsUnitsWithoutTable(atlases, pass, 0);
    if f < |pass| {
      var e := CountedRunEnd(atlases, pass);
      assert AtlasRunEnd(atlases, pass, f) > f;
      assert ScanPass(atlases, pass) == ScanFrom(atlases, pass, f, INITIAL_SCAN);
      if pass[f].is2D {
        // the first atlas unit opens the run with its own addressing mode
        assert INITIAL_SCAN.modes + [pass[f].addressing] == [pass[f].addressing];
        assert ScanFrom(atlases, pass, f, INITIAL_SCAN) ==
          ScanFrom(atlases, pass, f + 1, ScanState(f, Some(atlases[pass[f].textureName]), [pass[f].addressing], false));
        assert Addressings(pass[f..f + 1]) == [pass[f].addressing];
        ScanWithinRun(atlases, pass, f, e, f + 1,
          ScanState(f, Some(atlases[pass[f].textureName]), [pass[f].addressing], false));
      } else {
        assert FirstNon2DUnit(pass, f, e) == f;
      }
    }
  }

  /** The counted units are the run of atlas units that starts at the first
      unit with a table and ends at the first unit without one (or after
      TAS_MAX_TEXTURES units); all of them are 2D, their addressing modes
      are recorded in run order and the table is the first unit's. */
  lemma ScanCountsContiguousRun(atlases: map<string, TextureAtlasTable>, pass: seq<TextureUnit>)
    requires ScanPass(atlases, pass).Count() > 0
    ensures var s := ScanPass(atlases, pass);
      && s.start + s.Count() <= |pass|
      && (forall j :: 0 <= j < s.start ==> pass[j].textureName !in atlases)
      && pass[s.start].textureName in atlases
      && s.table == Some(atlases[pass[s.start].textureName])
      && (forall j :: s.start <= j < s.start + s.Count() ==>
            pass[j].textureName in atlases && pass[j].is2D)
      && (forall j :: 0 <= j < s.Count() ==> s.modes[j] == pass[s.start + j].addressing)
      && (s.Count() == TAS_MAX_TEXTURES || s.start + s.Count() == |pass| ||
          pass[s.start + s.Count()].textureName !in atlases)
  {
    ScanMatchesReference(atlases, pass);
  }

  /** The scan counts something exactly when some unit has a table and
      every unit of the counted run is 2D. */
  lemma ScanSucceedsIff(atlases: map<string, TextureAtlasTable>, pass: seq<TextureUnit>)
    ensures ScanPass(atlases, pass).Count() > 0 <==>
      && FirstAtlasUnit(atlases, pass, 0) < |pass|
      && forall j :: FirstAtlasUnit(atlases, pass, 0) <= j < CountedRunEnd(atlases, pass) ==> pass[j].is2D
  {
    ScanMatchesReference(atlases, pass);
  }

  /** A pass whose first atlas unit is not 2D records no table at all. */
  lemma ScanFirstAtlasUnitNot2D(atlases: map<string, TextureAtlasTable>, pass: seq<TextureUnit>)
    requires FirstAtlasUnit(atlases, pass, 0) < |pass|
    requires !pass[FirstAtlasUnit(atlases, pass, 0)].is2D
    ensures ScanPass(atlases, pass) == ScanState(0, None, [], true)
  {
    var f := FirstAtlasUnit(atlases, pass, 0);
    assert AtlasRunEnd(atlases, pass, f) > f;
    assert FirstNon2DUnit(pass, f, CountedRunEnd(atlases, pass)) == f;
    ScanMatchesReference(atlases, pass);
  }

  /** Units [atlas, atlas, plain, atlas] give a count of 2. */
  lemma ScanStopsAtFirstUnitWithoutTable(t: TextureAtlasTable, m: UVWAddressingMode)
    ensures var atlases := map["a" := t, "b" := t, "d" := t];
      var pass := [TextureUnit("a", true, m), TextureUnit("b", true, m),
                   TextureUnit("c", true, m), TextureUnit("d", true, m)];
      ScanPass(atlases, pass) == ScanState(0, Some(t), [m, m], false)
  {
    var atlases := map["a" := t, "b" := t, "d" := t];
    var pass := [TextureUnit("a", true, m), TextureUnit("b", true, m),
                 TextureUnit("c", true, m), TextureUnit("d", true, m)];
    assert "c" !in atlases;
    assert INITIAL_SCAN.modes + [m] == [m];
    assert ScanFrom(atlases, pass, 0, INITIAL_SCAN) == ScanFrom(atlases, pass, 1, ScanState(0, Some(t), [m], false));
    assert ScanFrom(atlases, pass, 1, ScanState(0, Some(t), [m], false)) ==
      ScanFrom(atlases, pass, 2, ScanState(0, Some(t), [m, m], false));
  }

  // ---------------------------------------------------------------------
  // Index position and table upload

  /** The texture-coordinate slot of the atlas index: the factory's offset,
      past the last texture unit's slot in relative mode. */
  function IndexTexcoordPosition(mode: IndexPositionMode, offset: nat, texCount: nat): int
  {
    offset + (if mode == Relative then texCount - 1 else 0)
  }

  /** In absolute mode the slot is the offset whatever the unit count; in
      relative mode a positive offset puts it past every unit's slot
      (0 .. texCount-1), and the factory's default offset 1 on the first
      free slot. */
  lemma IndexPositionFollowsUnits(mode: IndexPositionMode, offset: nat, texCount: nat)
    ensures mode == Absolute ==> IndexTexcoordPosition(mode, offset, texCount) == offset
    ensures mode == Relative ==> IndexTexcoordPosition(mode, offset, texCount) - offset == texCount - 1
    ensures mode == Relative && offset > 0 ==> IndexTexcoordPosition(mode, offset, texCount) >= texCount
    ensures mode == Relative && offset == 1 ==> IndexTexcoordPosition(mode, offset, texCount) == texCount
  {
  }

  /** The four floats a record contributes to the uploaded table. */
  function RecordQuad(r: TextureAtlasRecord): seq<ParsedReal>
  {
    [r.posU, r.posV, r.width, r.height]
  }

  /** A table flattened to consecutive (posU, posV, width, height) groups. */
  function FlattenTable(table: TextureAtlasTable): seq<ParsedReal>
    decreases |table|
  {
    if table == [] then [] else FlattenTable(table[..|table| - 1]) + RecordQuad(table[|table| - 1])
  }

  /** The flattened table holds four floats per record, record `i`'s at
      positions 4i .. 4i+3. */
  lemma {:induction false} FlattenTableAt(table: TextureAtlasTable, i: nat)
    requires i < |table|
    ensures |FlattenTable(table)| == 4 * |table|
    ensures FlattenTable(table)[4 * i .. 4 * i + 4] == RecordQuad(table[i])
    decreases |table|
  {
    var init := table[..|table| - 1];
    if i < |init| {
      FlattenTableAt(init, i);
      assert init[i] == table[i];
    } else {
      FlattenTableLength(init);
    }
  }

  lemma FlattenTablePrefixStep(table: TextureAtlasTable, i: nat)
    requires i < |table|
    ensures FlattenTable(table[..i + 1]) == FlattenTable(table[..i]) + RecordQuad(table[i])
  {
    assert table[..i + 1][..i] == table[..i];
  }

  /** Writing record `i`'s four floats after the first `i` records' extends
      the filled prefix by that record. */
  lemma FillRecordStep(table: TextureAtlasTable, i: nat, before: seq<ParsedReal>, after: seq<ParsedReal>)
    requires i < |table| && |before| == 4 * |table|
    requires before[..4 * i] == FlattenTable(table[..i])
    requires after == before[4 * i := table[i].posU][4 * i + 1 := table[i].posV]
                            [4 * i + 2 := table[i].width][4 * i + 3 := table[i].height]
    ensures after[..4 * (i + 1)] == FlattenTable(table[..i + 1])
  {
    FlattenTablePrefixStep(table, i);
    assert after[..4 * i] == before[..4 * i];
    assert after[..4 * (i + 1)] == after[..4 * i] + RecordQuad(table[i]);
  }

  lemma {:induction false} FlattenTableLength(table: TextureAtlasTable)
    ensures |FlattenTable(table)| == 4 * |table|
    decreases |table|
  {
    if table != [] {
      FlattenTableLength(table[..|table| - 1]);
    }
  }

  /** What the sampler passes to the vertex program's named constant: the
      flattened table and the number of 4-float entries in it. */
  datatype ConstantUpload = ConstantUpload(data: seq<ParsedReal>, float4Count: nat)

  /** A buffer whose first elements have been overwritten by `front`. */
  function Overwrite<T>(buffer: seq<T>, front: seq<T>): (r: seq<T>)
    requires |front| <= |buffer|
    ensures |r| == |buffer|
  {
    front + buffer[|front|..]
  }

  lemma OverwriteStep<T>(buffer: seq<T>, front: seq<T>, x: T)
    requires |front| < |buffer|
    ensures Overwrite(buffer, front)[|front| := x] == Overwrite(buffer, front + [x])
  {
    assert Overwrite(buffer, front)[|front| := x] == front + [x] + buffer[|front| + 1..];
  }

  // ---------------------------------------------------------------------
  // The sampler

  class TextureAtlasSampler {
    var atlasTexcoordPos: int
    var atlasTextureStart: nat
    var atlasTextureCount: nat
    var atlasTableData: Option<TextureAtlasTable>
    var textureAddressings: array<UVWAddressingMode>
    var isTableDataUpdated: bool

    ghost predicate Valid()
      reads this
    {
      textureAddressings.Length == TAS_MAX_TEXTURES && atlasTextureCount <= TAS_MAX_TEXTURES
    }

    /** A sampler with nothing counted and no table uploaded. */
    constructor ()
      ensures Valid() && fresh(textureAddressings)
      ensures atlasTexcoordPos == 0 && atlasTextureStart == 0 && atlasTextureCount == 0
      ensures atlasTableData.None? && !isTableDataUpdated
    {
      atlasTexcoordPos := 0;
      atlasTextureStart := 0;
      atlasTextureCount := 0;
      atlasTableData := None;
      textureAddressings := new UVWAddressingMode[TAS_MAX_TEXTURES];
      isTableDataUpdated := false;
    }

    /** Copies another sampler's index position, run and table; the
        addressing modes and the upload flag are not copied. */
    method CopyFrom(rhs: TextureAtlasSampler)
      requires Valid() && rhs.Valid()
      modifies this
      ensures Valid()
      ensures atlasTexcoordPos == rhs.atlasTexcoordPos && atlasTextureStart == rhs.atlasTextureStart
      ensures atlasTextureCount == rhs.atlasTextureCount && atlasTableData == rhs.atlasTableData
      ensures textureAddressings == old(textureAddressings) && isTableDataUpdated == old(isTableDataUpdated)
    {
      atlasTexcoordPos := rhs.atlasTexcoordPos;
      atlasTextureStart := rhs.atlasTextureStart;
      atlasTextureCount := rhs.atlasTextureCount;
      atlasTableData := rhs.atlasTableData;
    }

    /** Scans the texture units of a pass and records the run of atlas
        units the shader will sample and where the atlas index sits;
        reports whether any atlas texture is sampled. */
    method PreAddToRenderState(factory: TextureAtlasSamplerFactory, pass: seq<TextureUnit>)
      returns (r: bool)
      requires Valid()
      requires |pass| < USHORT_LIMIT
      modifies this`atlasTexcoordPos, this`atlasTextureStart, this`atlasTextureCount, this`atlasTableData
      modifies textureAddressings
      ensures Valid()
      ensures atlasTextureStart == ScanPass(factory.atlases, pass).start
      ensures atlasTableData == ScanPass(factory.atlases, pass).table
      ensures atlasTextureCount == ScanPass(factory.atlases, pass).Count()
      ensures textureAddressings[..] == Overwrite(old(textureAddressings[..]), ScanPass(factory.atlases, pass).modes)
      ensures atlasTexcoordPos ==
        IndexTexcoordPosition(factory.indexPositionMode, factory.indexPositionOffset, |pass|)
      ensures r == (atlasTextureCount != 0)
    {
      atlasTexcoordPos := 0;
      ScanTextureUnits(factory, pass);
      var texCount := |pass|;
      // the index follows the texture units' coordinates in relative mode
      atlasTexcoordPos := factory.indexPositionOffset;
      if factory.indexPositionMode == Relative {
        atlasTexcoordPos := atlasTexcoordPos + texCount - 1;
      }
      r := atlasTextureCount != 0;
    }

    /** The unit loop of the pass scan: clears the run and the table, then
        records the counted run and its addressing modes. */
    method ScanTextureUnits(factory: TextureAtlasSamplerFactory, pass: seq<TextureUnit>)
      requires Valid()
      modifies this`atlasTextureStart, this`atlasTextureCount, this`atlasTableData
      modifies textureAddressings
      ensures Valid()
      ensures atlasTextureStart == ScanPass(factory.atlases, pass).start
      ensures atlasTableData == ScanPass(factory.atlases, pass).table
      ensures atlasTextureCount == ScanPass(factory.atlases, pass).Count()
      ensures textureAddressings[..] == Overwrite(old(textureAddressings[..]), ScanPass(factory.atlases, pass).modes)
    {
      var start: nat, count: nat, tableData: Option<TextureAtlasTable> := 0, 0, None;
      ghost var atlases := factory.atlases;
      ghost var outcome := ScanPass(atlases, pass);
      ghost var state := INITIAL_SCAN;
      ghost var before := textureAddressings[..];
      var i := 0;
      while i < |pass|
        invariant 0 <= i <= |pass|
        invariant state == ScanState(start, tableData, state.modes, false)
        invariant count == |state.modes| < TAS_MAX_TEXTURES
        invariant ScanFrom(atlases, pass, i, state) == outcome
        invariant textureAddressings[..] == Overwrite(before, state.modes)
      {
        ghost var current := state;
        var unit := pass[i];
        var table := factory.GetTextureAtlasTable(unit.textureName);
        if table.Some? {
          // atlas textures must be 2D
          if !unit.is2D {
            count := 0;
            state := state.(aborted := true);
            break;
          }
          if tableData.None? {
            tableData := table;
            start := i;
            state := state.(table := Some(atlases[unit.textureName]), start := i);
          }
          OverwriteStep(before, state.modes, unit.addressing);
          textureAddressings[count] := unit.addressing;
          count := count + 1;
          state := state.(modes := state.modes + [unit.addressing]);
          if count == TAS_MAX_TEXTURES {
            // the shader samples at most TAS_MAX_TEXTURES atlas textures
            break;
          }
          assert ScanFrom(atlases, pass, i, current) == ScanFrom(atlases, pass, i + 1, state);
        } else if tableData.Some? {
          // only consecutive units are sampled from the atlas
          break;
        } else {
          assert ScanFrom(atlases, pass, i, current) == ScanFrom(atlases, pass, i + 1, state);
        }
        i := i + 1;
      }
      assert outcome == state;
      atlasTextureStart, atlasTextureCount, atlasTableData := start, count, tableData;
    }

    /** Uploads the atlas table to the vertex program the first time it is
        called, as consecutive (posU, posV, width, height) groups; every
        later call uploads nothing. */
    method UpdateGpuProgramsParams() returns (upload: Option<ConstantUpload>)
      requires Valid()
      requires !isTableDataUpdated ==> atlasTableData.Some?
      modifies this`isTableDataUpdated
      ensures isTableDataUpdated
      ensures old(isTableDataUpdated) ==> upload.None?
      ensures !old(isTableDataUpdated) ==>
        upload == Some(ConstantUpload(FlattenTable(atlasTableData.value), |atlasTableData.value|))
    {
      upload := None;
      if !isTableDataUpdated {
        isTableDataUpdated := true;
        var table := atlasTableData.value;
        var buffer := FillTableBuffer(table);
        upload := Some(ConstantUpload(buffer[..], |table|));
      }
    }

    /** The upload buffer of a table: four floats per record, in order. */
    static method FillTableBuffer(table: TextureAtlasTable) returns (buffer: array<ParsedReal>)
      ensures fresh(buffer)
      ensures buffer[..] == FlattenTable(table)
    {
      buffer := new ParsedReal[|table| * 4];
      for i := 0 to |table|
        invariant buffer[..4 * i] == FlattenTable(table[..i])
      {
        ghost var before := buffer[..];
        buffer[i * 4] := table[i].posU;
        buffer[i * 4 + 1] := table[i].posV;
        buffer[i * 4 + 2] := table[i].width;
        buffer[i * 4 + 3] := table[i].height;
        FillRecordStep(table, i, before, buffer[..]);
      }
      assert table[..|table|] == table && buffer[..] == buffer[..4 * |table|];
    }
  }
}
