# Texture-atlas sampler and keyboard snapshot

This project models two parts of a game engine.

The first is the texture-atlas sub-render state of the real-time shader system: `TextureAtlasSamplerFactory` and `TextureAtlasSampler` in `OgreShaderExTextureAtlasSampler.cpp`.

- The factory keeps a registry of atlas tables keyed by the name of the atlas texture. It sets where the atlas index sits among a vertex's texture coordinates. It also reads atlas definitions: one line per sub-texture, comma/tab separated, with `#` comments. The records of a definition are grouped by atlas and numbered within each atlas.
- The sampler scans the texture units of a pass and finds the run of atlas units it will sample. That run has at most four units, and they must be 2D textures. The sampler records their addressing modes and computes the texture-coordinate slot of the atlas index. It uploads the table to the vertex program once, as a flat array of (posU, posV, width, height) groups. It also maps each addressing mode to the shader function that applies it.

The second part is the keyboard snapshot `gkKeyboardDevice` in `gkKeyboard.h`. It holds one integer state per key code and answers "is this key down" with a range check and a bit test.

Modules:

- `AtlasTypes` holds the value types: records, tables, addressing modes, texture units and index-position modes.
- `AtlasDefinition` holds the definition format as pure functions: `find_first_not_of`, `StringUtil::split`, and the acceptance of a line. It defines the records a definition yields (`ParseRecords`) and their grouping by atlas (`GroupByAtlas`), and proves what the parser promises about them.
- `AtlasFactory` is the factory class. The registry is a `map` field that its methods reassign. The caller's optional output table is a nullable object that the parser appends to.
- `AtlasSampler` is the sampler class. The four-entry addressing buffer is an `array`. The pass scan is specified by a step function (`ScanFrom`) and by an independent closed-form description (`ScanReference`), and a lemma proves the two equal. The upload buffer is filled in a loop and specified by `FlattenTable`.
- `Keyboard` is the device class. Its key states are an `array<int>`.

The C++ `int` state of a key is tested with `& STATE_PRESSED`. The model computes this as the Euclidean parity `keys[key] % 2 == 1`. `Keyboard.LowBitIsParity` proves that this parity equals the bitwise test on the 32-bit two's-complement pattern, negative values included.

Where descriptions of this component and its code differ, the model follows the code:

- **Mixed tables in one run.** A pass whose atlas units point at different tables is sometimes described as ending the run at the first mismatch. The code only asserts that the tables are equal (`OgreShaderExTextureAtlasSampler.cpp:289`). In a release build it goes on counting, and the model does the same.
- **Re-upload.** The table is sometimes described as uploaded again after it changes. No code in the file clears `mIsTableDataUpdated` once it is set (line 241). So after the first upload, every later call uploads nothing.
- **Registry key.** The registry is sometimes described as looked up by source texture name. The definition parser keys it by field 1 of a line, the atlas texture name (`OgreShaderExTextureAtlasSampler.cpp:364`). The pass scan looks it up by the texture unit's own texture name.

## Model

| member | source | states |
|---|---|---|
| AtlasDefinition.FindFirstNotOf | trunk/Ogre-1.8/Components/RTShaderSystem/src/OgreShaderExTextureAtlasSampler.cpp:356 | The position found is the first character not in the set, and every earlier character is in it. None means every character is in the set. |
| AtlasDefinition.Split | trunk/Ogre-1.8/Components/RTShaderSystem/src/OgreShaderExTextureAtlasSampler.cpp:360 | Every token is non-empty and holds no delimiter. |
| AtlasDefinition.SplitKeepsEveryOtherCharacter | trunk/Ogre-1.8/Components/RTShaderSystem/src/OgreShaderExTextureAtlasSampler.cpp:360 | Concatenating the tokens gives the line with its delimiters removed, so no other character is lost, added or reordered. |
| AtlasDefinition.SplitJoinRoundTrip | trunk/Ogre-1.8/Components/RTShaderSystem/src/OgreShaderExTextureAtlasSampler.cpp:360 | Lay out non-empty, delimiter-free fields with any run of delimiters before, between and after them (each run between fields non-empty), then split the result: you get the same fields back. A run such as two tabs separates like one delimiter. |
| AtlasDefinition.DoubleTabSeparatesFields | trunk/Ogre-1.8/Components/RTShaderSystem/src/OgreShaderExTextureAtlasSampler.cpp:360-372 | Two fields separated by two tabs, as in the documented line format, split into exactly those two fields. |
| AtlasDefinition.RecordFields | trunk/Ogre-1.8/Components/RTShaderSystem/src/OgreShaderExTextureAtlasSampler.cpp:355-362 | An accepted line has more than 8 fields (fields 0 to 8 exist). |
| AtlasDefinition.RecordLineCharacterised | trunk/Ogre-1.8/Components/RTShaderSystem/src/OgreShaderExTextureAtlasSampler.cpp:355-362 | A line yields a record iff it has a first non-whitespace character, that character is not `#`, and the line splits into at least 9 fields. |
| AtlasDefinition.ParseRecords | trunk/Ogre-1.8/Components/RTShaderSystem/src/OgreShaderExTextureAtlasSampler.cpp:351-389 | A definition yields at most one record per line. |
| AtlasDefinition.ParseLineStep | trunk/Ogre-1.8/Components/RTShaderSystem/src/OgreShaderExTextureAtlasSampler.cpp:357-386 | A rejected line leaves the records and groups unchanged. An accepted line appends one record to its atlas's group, numbered by the group's current size. |
| AtlasDefinition.ParseIndexCountsEarlierRecords | trunk/Ogre-1.8/Components/RTShaderSystem/src/OgreShaderExTextureAtlasSampler.cpp:366-382 | Each record's index in its atlas equals the number of earlier records of the same atlas. |
| AtlasDefinition.NumberedByEarlierRunsFromZero | trunk/Ogre-1.8/Components/RTShaderSystem/src/OgreShaderExTextureAtlasSampler.cpp:366-382 | If each record is numbered by the earlier records of its atlas, then each atlas's records are numbered 0, 1, 2, … in order. |
| AtlasDefinition.IndicesRunFromZeroPerAtlas | trunk/Ogre-1.8/Components/RTShaderSystem/src/OgreShaderExTextureAtlasSampler.cpp:366-382 | The records a definition gives any one atlas carry indices 0, 1, 2, … in file order. |
| AtlasDefinition.GroupByAtlasHoldsRecordsOf | trunk/Ogre-1.8/Components/RTShaderSystem/src/OgreShaderExTextureAtlasSampler.cpp:364-384 | Grouping has an entry exactly for the atlas names that occur. Each entry is that atlas's records in order, and a name with no records has no entry. |
| AtlasDefinition.GroupedTablesNumbered | trunk/Ogre-1.8/Components/RTShaderSystem/src/OgreShaderExTextureAtlasSampler.cpp:364-384 | Every table a definition produces is non-empty, holds only records of its own atlas, and is numbered from 0. |
| AtlasDefinition.ParseNonEmptyIff | trunk/Ogre-1.8/Components/RTShaderSystem/src/OgreShaderExTextureAtlasSampler.cpp:386-388 | A definition yields some record iff some line is accepted. |
| AtlasDefinition.ParseFollowsFileOrder | trunk/Ogre-1.8/Components/RTShaderSystem/src/OgreShaderExTextureAtlasSampler.cpp:372-385 | Record k is built from the k-th accepted line: fields 0, 1, 4, 5, 7 and 8 go to names, offsets and size. There are as many records as accepted lines. |
| AtlasFactory.TextureAtlasSamplerFactory.constructor | trunk/Ogre-1.8/Components/RTShaderSystem/src/OgreShaderExTextureAtlasSampler.cpp:316-320 | A new factory has an empty registry, relative index positioning and offset 1. |
| AtlasFactory.TextureAtlasSamplerFactory.GetTextureAtlasTable | trunk/Ogre-1.8/Components/RTShaderSystem/src/OgreShaderExTextureAtlasSampler.cpp:428-437 | Returns the registered table, or the blank table (None) exactly when the name is absent. A registered table is never empty. |
| AtlasFactory.TextureAtlasSamplerFactory.SetTextureAtlasTable | trunk/Ogre-1.8/Components/RTShaderSystem/src/OgreShaderExTextureAtlasSampler.cpp:407-412 | A null or empty table removes the entry, and lookup then gives blank. A non-empty table is added only when the name is absent; an existing entry is kept. |
| AtlasFactory.TextureAtlasSamplerFactory.RemoveTextureAtlasTable | trunk/Ogre-1.8/Components/RTShaderSystem/src/OgreShaderExTextureAtlasSampler.cpp:415-418 | Only that name's entry is dropped, and its lookup gives blank. |
| AtlasFactory.TextureAtlasSamplerFactory.RemoveAllTextureAtlasTables | trunk/Ogre-1.8/Components/RTShaderSystem/src/OgreShaderExTextureAtlasSampler.cpp:421-424 | The registry is emptied, and every lookup gives blank. |
| AtlasFactory.TextureAtlasSamplerFactory.SetTableIndexPosition | trunk/Ogre-1.8/Components/RTShaderSystem/src/OgreShaderExTextureAtlasSampler.cpp:440-446 | Requires a positive `ushort` offset. Mode and offset become the given ones. |
| AtlasFactory.TextureAtlasSamplerFactory.AddTextureAtlasDefinition | trunk/Ogre-1.8/Components/RTShaderSystem/src/OgreShaderExTextureAtlasSampler.cpp:343-404 | Unreadable input: false, and nothing changes. Readable input: true iff some line is accepted. Each atlas named by the definition gets its new table; other entries are unchanged. The caller's table gets every accepted record in file order. |
| AtlasFactory.TextureAtlasSamplerFactory.ReadDefinitionLines | trunk/Ogre-1.8/Components/RTShaderSystem/src/OgreShaderExTextureAtlasSampler.cpp:351-391 | The line loop's per-atlas map is the grouping of the definition's records. Its flag says whether any record was made. The caller's table gets the records. |
| AtlasFactory.TextureAtlasSamplerFactory.PlaceTables | trunk/Ogre-1.8/Components/RTShaderSystem/src/OgreShaderExTextureAtlasSampler.cpp:394-400 | The new tables overwrite the registry's entries of the same names; every other entry is kept. |
| AtlasSampler.GetAdressingFunctionName | trunk/Ogre-1.8/Components/RTShaderSystem/src/OgreShaderExTextureAtlasSampler.cpp:212-222 | Wrap, mirror, clamp and border each have a shader function, and the name gives the mode back. Every other mode gives NULL. |
| AtlasSampler.AddressingFunctionNamesDistinct | trunk/Ogre-1.8/Components/RTShaderSystem/src/OgreShaderExTextureAtlasSampler.cpp:212-222 | Two modes with the same function name are the same mode. |
| AtlasSampler.ScanFrom | trunk/Ogre-1.8/Components/RTShaderSystem/src/OgreShaderExTextureAtlasSampler.cpp:268-302 | The scan never records more than TAS_MAX_TEXTURES modes, and the modes already recorded stay, unchanged and in order, at the front of the result. |
| AtlasSampler.ScanPass | trunk/Ogre-1.8/Components/RTShaderSystem/src/OgreShaderExTextureAtlasSampler.cpp:268-302 | A pass's atlas count is at most 4. |
| AtlasSampler.ScanMatchesReference | trunk/Ogre-1.8/Components/RTShaderSystem/src/OgreShaderExTextureAtlasSampler.cpp:268-302 | The scan loop's outcome equals the closed-form description. The counted run starts at the first atlas unit and ends at the first unit without a table or after 4 units. A non-2D unit in the run aborts with count 0. |
| AtlasSampler.ScanCountsContiguousRun | trunk/Ogre-1.8/Components/RTShaderSystem/src/OgreShaderExTextureAtlasSampler.cpp:268-302 | When something is counted: no unit before the start has a table. The table is the start unit's. The counted units are consecutive 2D atlas units, and their modes are recorded in run order. The run stops at 4 units, at the end of the pass, or at a unit without a table. |
| AtlasSampler.ScanSucceedsIff | trunk/Ogre-1.8/Components/RTShaderSystem/src/OgreShaderExTextureAtlasSampler.cpp:268-313 | The count is non-zero iff some unit has a table and every unit of the capped run is 2D. |
| AtlasSampler.ScanFirstAtlasUnitNot2D | trunk/Ogre-1.8/Components/RTShaderSystem/src/OgreShaderExTextureAtlasSampler.cpp:276-283 | A first atlas unit that is not 2D leaves no table, no start and count 0. |
| AtlasSampler.ScanStopsAtFirstUnitWithoutTable | trunk/Ogre-1.8/Components/RTShaderSystem/src/OgreShaderExTextureAtlasSampler.cpp:298-302 | Units atlas, atlas, plain, atlas give count 2, starting at unit 0. |
| AtlasSampler.IndexPositionFollowsUnits | trunk/Ogre-1.8/Components/RTShaderSystem/src/OgreShaderExTextureAtlasSampler.cpp:305-311 | In absolute mode the slot is the offset. In relative mode it is the offset plus texCount − 1: past every unit's slot when the offset is positive, and the first free slot for offset 1. |
| AtlasSampler.FlattenTableAt | trunk/Ogre-1.8/Components/RTShaderSystem/src/OgreShaderExTextureAtlasSampler.cpp:243-250 | The flattened table has 4·n floats. Positions 4i to 4i+3 hold record i's posU, posV, width and height. |
| AtlasSampler.TextureAtlasSampler.constructor | trunk/Ogre-1.8/Components/RTShaderSystem/src/OgreShaderExTextureAtlasSampler.cpp:56-61 | A new sampler has position, start and count 0, no table, and the upload still pending. |
| AtlasSampler.TextureAtlasSampler.CopyFrom | trunk/Ogre-1.8/Components/RTShaderSystem/src/OgreShaderExTextureAtlasSampler.cpp:226-234 | Copies position, start, count and table. The addressing modes and the upload flag stay as they were. |
| AtlasSampler.TextureAtlasSampler.PreAddToRenderState | trunk/Ogre-1.8/Components/RTShaderSystem/src/OgreShaderExTextureAtlasSampler.cpp:258-314 | Start, table and count are the scan's outcome. The addressing slots written before the scan stopped hold the run's modes in order, and the rest are untouched. After an abort on a non-2D unit the count is 0, but any slots already written and any table already taken stay set. The index slot is computed from the factory's mode and offset. The result is count ≠ 0. |
| AtlasSampler.TextureAtlasSampler.ScanTextureUnits | trunk/Ogre-1.8/Components/RTShaderSystem/src/OgreShaderExTextureAtlasSampler.cpp:260-303 | The unit loop leaves start, table, count and addressing slots equal to the scan's outcome. |
| AtlasSampler.TextureAtlasSampler.FillTableBuffer | trunk/Ogre-1.8/Components/RTShaderSystem/src/OgreShaderExTextureAtlasSampler.cpp:243-250 | The upload buffer has four floats per record, and its contents are the flattened table. |
| AtlasSampler.TextureAtlasSampler.UpdateGpuProgramsParams | trunk/Ogre-1.8/Components/RTShaderSystem/src/OgreShaderExTextureAtlasSampler.cpp:237-255 | The first call uploads the flattened table with its record count and sets the flag. Every later call uploads nothing. |
| Keyboard.LowBitIsParity | Core/Engine/gkKeyboard.h:72 | `(state & STATE_PRESSED) != 0` on a 32-bit int holds iff the state is odd. |
| Keyboard.KeyboardDevice.constructor | Core/Engine/gkKeyboard.h:60-66 | Every key state is 0, both flags are false and the key count is 0, so no key is down. |
| Keyboard.KeyboardDevice.IsKeyDown | Core/Engine/gkKeyboard.h:69-74 | Out of range (≤ KC_NONE or ≥ KC_MAX): never down. In range: down iff the pressed bit is set, so state 1 is down and states 0 and 2 are not. It is a function, so it changes nothing. |

## Left out

- Stream input: seeking, end-of-file and `getLine(true)` are not modelled. The definition is a readability flag plus the sequence of lines the stream would yield, already trimmed.
- Float conversion: `StringConverter::parseReal` and the `(float)` casts are not modelled. A parsed value is modelled as the text of its field (`ParsedReal`), so the model says which field feeds which coordinate but nothing about the numbers.
- `AtlasDefinition.Split`: modelled as Ogre's `StringUtil::split` with its defaults, which drop empty tokens between adjacent delimiters. The split itself is not part of this model's source.
- Shared-pointer identity: tables are values. The assert at `OgreShaderExTextureAtlasSampler.cpp:289` that all units of a run share one table is left out; the release behaviour (keep counting) is modelled. Likewise, the debug assert that an atlas unit is 2D (line 276) is modelled by its release behaviour: the count becomes 0 and the scan stops. The assert that the index offset is positive (line 442) is kept instead, as the requirement of `SetTableIndexPosition`.
- `AtlasFactory.TextureAtlasSamplerFactory.ReadDefinitionLines` and `PlaceTables`: these are the two loops of `addTexutreAtlasDefinition`, split out as helper methods to keep each proof small. The same holds for `AtlasSampler.TextureAtlasSampler.ScanTextureUnits`, which is the loop of `preAddToRenderState`. That loop works on locals and writes the start, count and table fields when it ends. The source writes those fields inside the loop; nothing can observe the difference. `AtlasSampler.TextureAtlasSampler.FillTableBuffer` is the buffer loop of `updateGpuProgramsParams`, split out the same way.
- `AtlasSampler.TextureAtlasSampler.PreAddToRenderState`: the index slot is computed as an unbounded integer, because the field `mAtlasTexcoordPos` is declared in a header that is not part of this model. The `unsigned short` unit count (line 267) is modelled by the requirement `|pass| < 0x1_0000`. So 16-bit wrap-around of the slot is not modelled: for example, offset 65535 in relative mode with two texture units gives 65536, which does not fit in 16 bits.
- `AtlasSampler.TextureAtlasSampler.UpdateGpuProgramsParams`: requires a table whenever the upload is still pending. The host calls this method only after `preAddToRenderState` returned true, and then a table is set. A first call with no table would dereference a null pointer (line 243); that case is excluded, not modelled.
- The host's render-state and pass objects are not modelled. A pass is the sequence of its texture units, each reduced to its texture name, whether it is 2D, and its addressing modes.
- Shader generation is not modelled: `resolveParameters`, `resolveDependencies`, `addFunctionInvocations` (lines 78-209), and the `Sampler` operand objects they build. They drive the external program-writer API.
- `setNamedConstant` is not modelled. The upload is returned as the buffer and the record count it would be given.
- Singleton plumbing and factory hooks are not modelled: the singleton (line 45), `getType`, `getExecutionOrder`, `createInstance`, `writeInstance` and `createInstanceImpl`. The getters `getTableIndexPositionMode` and `getTableIndexPositionOffset` are read as the fields they return.
- `Keyboard.KeyboardDevice.IsKeyDown`: the value of `KC_MAX` comes from `gkKeyCodes.h`, which is not part of this model. The model uses 256 as a stand-in, and no proof depends on it beyond `KC_NONE < KC_MAX`. Keys are integers, so the `gkScanCode` enumeration is not enforced.
