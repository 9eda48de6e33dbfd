/** The process-wide registry of texture-atlas tables and the settings that
    place the atlas index among a vertex's texture coordinates. */
module AtlasFactory {
  import opened AtlasTypes
  import opened AtlasDefinition

  /** A table owned by a caller and reached through a pointer: the
      definition parser appends every record it accepts to it. */
  class TextureAtlasTableRef {
    var records: TextureAtlasTable

    constructor (records: TextureAtlasTable)
      ensures this.records == records
    {
      this.records := records;
    }
  }

  /** The entries of `m` whose keys are in `keys`. */
  function Restrict(m: map<string, TextureAtlasTable>, keys: set<string>): (r: map<string, TextureAtlasTable>)
    ensures r.Keys == m.Keys * keys
    ensures forall n :: n in r ==> r[n] == m[n]
  {
    map n | n in m.Keys * keys :: m[n]
  }

  /** Placing one more table extends the placed part of the definition. */
  lemma PlaceOneMore(base: map<string, TextureAtlasTable>, tables: map<string, TextureAtlasTable>,
                     placed: set<string>, name: string)
    requires name in tables
    ensures (base + Restrict(tables, placed))[name := tables[name]] == base + Restrict(tables, placed + {name})
  {
  }

  class TextureAtlasSamplerFactory {
    /** Atlas tables by the name of the atlas texture. */
    var atlases: map<string, TextureAtlasTable>
    var indexPositionMode: IndexPositionMode
    var indexPositionOffset: nat

    /** No registered table is empty, and the index offset is a positive
        `unsigned short`. */
    ghost predicate Valid()
      reads this
    {
      && (forall name :: name in atlases ==> atlases[name] != [])
      && 0 < indexPositionOffset < USHORT_LIMIT
    }

    /** An empty registry; atlas indexes relative to the texture units,
        one slot past them. */
    constructor ()
      ensures Valid()
      ensures atlases == map[]
      ensures indexPositionMode == Relative && indexPositionOffset == 1
    {
      atlases := map[];
      indexPositionMode := Relative;
      indexPositionOffset := 1;
    }

    /** The table registered for a texture; None (the blank table) when
        there is none. A registered table is never empty. */
    function GetTextureAtlasTable(textureName: string): (table: Option<TextureAtlasTable>)
      reads this
      ensures table.Some? <==> textureName in atlases
      ensures table.Some? ==> table.value == atlases[textureName]
      ensures Valid() && table.Some? ==> table.value != []
    {
      if textureName in atlases then Some(atlases[textureName]) else None
    }

    /** Registers a table for a texture unless one is registered already; a
        missing or empty table removes the texture's entry instead. */
    method SetTextureAtlasTable(textureName: string, atlasData: Option<TextureAtlasTable>)
      requires Valid()
      modifies this`atlases
      ensures Valid()
      ensures atlasData.None? || atlasData.value == [] ==>
        atlases == old(atlases) - {textureName} && GetTextureAtlasTable(textureName).None?
      ensures atlasData.Some? && atlasData.value != [] && textureName in old(atlases) ==>
        atlases == old(atlases)
      ensures atlasData.Some? && atlasData.value != [] && textureName !in old(atlases) ==>
        atlases == old(atlases)[textureName := atlasData.value]
    {
      if atlasData.None? || atlasData.value == [] {
        RemoveTextureAtlasTable(textureName);
      } else if textureName !in atlases {
        atlases := atlases[textureName := atlasData.value];
      }
    }

    /** Drops the texture's entry; its lookup then gives the blank table. */
    method RemoveTextureAtlasTable(textureName: string)
      requires Valid()
      modifies this`atlases
      ensures Valid()
      ensures atlases == old(atlases) - {textureName}
      ensures GetTextureAtlasTable(textureName).None?
    {
      atlases := atlases - {textureName};
    }

    /** Drops every entry; every lookup then gives the blank table. */
    method RemoveAllTextureAtlasTables()
      requires Valid()
      modifies this`atlases
      ensures Valid()
      ensures atlases == map[]
      ensures forall name :: GetTextureAtlasTable(name).None?
    {
      atlases := map[];
    }

    /** Sets where the atlas index sits; the offset must be positive. */
    method SetTableIndexPosition(mode: IndexPositionMode, offset: nat)
      requires Valid()
      requires 0 < offset < USHORT_LIMIT
      modifies this`indexPositionMode, this`indexPositionOffset
      ensures Valid()
      ensures indexPositionMode == mode && indexPositionOffset == offset
    {
      indexPositionMode := mode;
      indexPositionOffset := offset;
    }

    /** Reads a definition (one already-trimmed line per element) and
        registers the table of every atlas it names, replacing earlier
        tables of those names; the caller's table, when given, receives
        every accepted record in file order. Reports whether any line
        yielded a record. */
    method AddTextureAtlasDefinition(readable: bool, lines: seq<string>, textureAtlasTable: TextureAtlasTableRef?)
      returns (isSuccess: bool)
      requires Valid()
      modifies this`atlases, textureAtlasTable
      ensures Valid()
      ensures !readable ==> !isSuccess && atlases == old(atlases)
      ensures !readable && textureAtlasTable != null ==>
        textureAtlasTable.records == old(textureAtlasTable.records)
      ensures readable ==>
        isSuccess == exists k :: 0 <= k < |lines| && RecordFields(lines[k]).Some?
      ensures readable ==> atlases == old(atlases) + GroupByAtlas(ParseRecords(lines))
      ensures readable && textureAtlasTable != null ==>
        textureAtlasTable.records == old(textureAtlasTable.records) + ParseRecords(lines)
    {
      isSuccess := false;
      if readable {
        var tmpMap;
        isSuccess, tmpMap := ReadDefinitionLines(lines, textureAtlasTable);
        ParseNonEmptyIff(lines);
        GroupedTablesNumbered(lines);
        PlaceTables(tmpMap);
      }
    }

    /** The line loop of the definition parser: groups the records of the
        lines by atlas, numbering them within their atlas, and appends each
        to the caller's table when there is one. */
    static method ReadDefinitionLines(lines: seq<string>, textureAtlasTable: TextureAtlasTableRef?)
      returns (isSuccess: bool, tmpMap: map<string, TextureAtlasTable>)
      modifies textureAtlasTable
      ensures isSuccess == (ParseRecords(lines) != [])
      ensures tmpMap == GroupByAtlas(ParseRecords(lines))
      ensures textureAtlasTable != null ==>
        textureAtlasTable.records == old(textureAtlasTable.records) + ParseRecords(lines)
    {
      isSuccess := false;
      tmpMap := map[];
      var i := 0;
      while i < |lines|
        invariant 0 <= i <= |lines|
        invariant tmpMap == GroupByAtlas(ParseRecords(lines[..i]))
        invariant isSuccess == (ParseRecords(lines[..i]) != [])
        invariant textureAtlasTable != null ==>
          textureAtlasTable.records == old(textureAtlasTable.records) + ParseRecords(lines[..i])
      {
        ParseLineStep(lines, i, tmpMap);
        // a line with information and enough fields describes a record
        var fields := RecordFields(lines[i]);
        if fields.Some? {
          var strings := fields.value;
          var textureName := strings[1];
          // the atlas's table, opened empty for the atlas's first record
          var table := if textureName in tmpMap then tmpMap[textureName] else [];
          var newRecord := MakeRecord(strings, |table|);
          tmpMap := tmpMap[textureName := table + [newRecord]];
          if textureAtlasTable != null {
            textureAtlasTable.records := textureAtlasTable.records + [newRecord];
          }
          isSuccess := true;
        }
        i := i + 1;
      }
      assert lines[..i] == lines;
    }

    /** Places every table of a definition in the registry, replacing the
        table registered under the same name. */
    method PlaceTables(tmpMap: map<string, TextureAtlasTable>)
      requires Valid()
      requires forall name :: name in tmpMap ==> tmpMap[name] != []
      modifies this`atlases
      ensures Valid()
      ensures atlases == old(atlases) + tmpMap
    {
      var names := tmpMap.Keys;
      ghost var placed: set<string> := {};
      while names != {}
        invariant names !! placed && names + placed == tmpMap.Keys
        invariant atlases == old(atlases) + Restrict(tmpMap, placed)
        invariant Valid()
        decreases names
      {
        var name :| name in names;
        PlaceOneMore(old(atlases), tmpMap, placed, name);
        atlases := atlases[name := tmpMap[name]];
        names := names - {name};
        placed := placed + {name};
      }
      assert Restrict(tmpMap, placed) == tmpMap;
    }
  }
}
