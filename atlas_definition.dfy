/** The texture-atlas definition format: line classification, field
    splitting and the records a stream of lines describes.

    A definition line reads
      <original texture> , <atlas texture> , <atlas idx> , <atlas type> ,
      <woffset> , <hoffset> , <depth offset> , <width> , <height>
    with `,` or tab between fields. Blank lines, lines whose first
    non-blank character is `#`, and lines with fewer than nine fields are
    skipped. */
module AtlasDefinition {
  import opened AtlasTypes

  /** Characters that do not make a line informative. */
  const WHITESPACE: string := " \t\r\n"

  /** Field separators of a definition line. */
  const DELIMITERS: string := ",\t"

  /** The number of fields a line needs to describe a record is more than this. */
  const LAST_FIELD: nat := 8

  // ---------------------------------------------------------------------
  // Character scanning and splitting

  /** Position of the first character of `line` that is not in `chars`;
      None when there is none. */
  function FindFirstNotOf(line: string, chars: string): (r: Option<nat>)
    ensures r.Some? ==> r.value < |line| && line[r.value] !in chars
    ensures r.Some? ==> forall j :: 0 <= j < r.value ==> line[j] in chars
    ensures r.None? ==> forall j :: 0 <= j < |line| ==> line[j] in chars
  {
    if line == [] then None
    else if line[0] !in chars then Some(0)
    else match FindFirstNotOf(line[1..], chars)
      case None => None
      case Some(k) => Some(k + 1)
  }

  /** Position of the first character of `s` that is in `delims`, or |s|. */
  function FindFirstOf(s: string, delims: string): (r: nat)
    ensures r <= |s|
    ensures forall j :: 0 <= j < r ==> s[j] !in delims
    ensures r < |s| ==> s[r] in delims
  {
    if s == [] || s[0] in delims then 0 else FindFirstOf(s[1..], delims) + 1
  }

  /** Splits `s` at every character of `delims`; runs of delimiters and
      delimiters at either end produce no empty token. */
  function Split(s: string, delims: string): (tokens: seq<string>)
    ensures forall i :: 0 <= i < |tokens| ==> tokens[i] != []
    ensures forall i, j :: 0 <= i < |tokens| && 0 <= j < |tokens[i]| ==> tokens[i][j] !in delims
    decreases |s|
  {
    if s == [] then []
    else
      var k := FindFirstOf(s, delims);
      if k == 0 then Split(s[1..], delims)
      else if k == |s| then [s]
      else [s[..k]] + Split(s[k + 1..], delims)
  }

  /** The tokens laid end to end. */
  function Concat(tokens: seq<string>): string
  {
    if tokens == [] then [] else tokens[0] + Concat(tokens[1..])
  }

  /** Every character of `s` is a delimiter (an empty `s` included). */
  predicate OnlyDelimiters(s: string, delims: string)
  {
    forall j :: 0 <= j < |s| ==> s[j] in delims
  }

  /** The tokens each followed by its separator: tokens[0] + seps[0] +
      tokens[1] + seps[1] + …, so the last separator trails the line. */
  function Join(tokens: seq<string>, seps: seq<string>): string
    requires |seps| == |tokens|
  {
    if tokens == [] then [] else tokens[0] + seps[0] + Join(tokens[1..], seps[1..])
  }

  /** `s` with every character of `delims` removed. */
  function Strip(s: string, delims: string): (r: string)
    ensures |r| <= |s|
  {
    if s == [] then []
    else (if s[0] in delims then [] else [s[0]]) + Strip(s[1..], delims)
  }

  lemma {:induction false} StripAppend(a: string, b: string, delims: string)
    ensures Strip(a + b, delims) == Strip(a, delims) + Strip(b, delims)
    decreases |a|
  {
    if a != [] {
      assert (a + b)[1..] == a[1..] + b;
      StripAppend(a[1..], b, delims);
    } else {
      assert a + b == b;
    }
  }

  lemma {:induction false} StripNoDelimiter(s: string, delims: string)
    requires forall j :: 0 <= j < |s| ==> s[j] !in delims
    ensures Strip(s, delims) == s
    decreases |s|
  {
    if s != [] {
      StripNoDelimiter(s[1..], delims);
      assert s == [s[0]] + s[1..];
    }
  }

  /** Splitting loses only the delimiters: the tokens, laid end to end,
      are `s` without its delimiters. */
  lemma {:induction false} SplitKeepsEveryOtherCharacter(s: string, delims: string)
    ensures Concat(Split(s, delims)) == Strip(s, delims)
    decreases |s|
  {
    if s != [] {
      var k := FindFirstOf(s, delims);
      if k == 0 {
        SplitKeepsEveryOtherCharacter(s[1..], delims);
      } else if k == |s| {
        StripNoDelimiter(s, delims);
        assert Concat([s]) == s + Concat([]);
      } else {
        var rest := s[k + 1..];
        SplitKeepsEveryOtherCharacter(rest, delims);
        assert s == s[..k] + ([s[k]] + rest);
        StripAppend(s[..k], [s[k]] + rest, delims);
        StripAppend([s[k]], rest, delims);
        StripNoDelimiter(s[..k], delims);
        assert Strip([s[k]], delims) == [];
        var ts := [s[..k]] + Split(rest, delims);
        assert ts[1..] == Split(rest, delims);
      }
    }
  }

  /** Delimiters in front of a line produce no token. */
  lemma {:induction false} SplitSkipsLeadingDelimiters(lead: string, s: string, delims: string)
    requires OnlyDelimiters(lead, delims)
    ensures Split(lead + s, delims) == Split(s, delims)
    decreases |lead|
  {
    if lead != [] {
      assert (lead + s)[0] == lead[0];
      assert FindFirstOf(lead + s, delims) == 0;
      assert (lead + s)[1..] == lead[1..] + s;
      SplitSkipsLeadingDelimiters(lead[1..], s, delims);
    } else {
      assert lead + s == s;
    }
  }

  /** Non-empty, delimiter-free tokens, each followed by a run of
      delimiters (only the last run may be empty), split back into the
      tokens. */
  lemma {:induction false} SplitJoinTokens(tokens: seq<string>, seps: seq<string>, delims: string)
    requires |seps| == |tokens|
    requires forall i :: 0 <= i < |tokens| ==> tokens[i] != []
    requires forall i, j :: 0 <= i < |tokens| && 0 <= j < |tokens[i]| ==> tokens[i][j] !in delims
    requires forall i :: 0 <= i < |seps| ==> OnlyDelimiters(seps[i], delims)
    requires forall i :: 0 <= i < |seps| - 1 ==> seps[i] != []
    ensures Split(Join(tokens, seps), delims) == tokens
    decreases |tokens|
  {
    if tokens != [] {
      var t, sep, rest := tokens[0], seps[0], Join(tokens[1..], seps[1..]);
      assert Join(tokens, seps) == t + (sep + rest);
      assert forall j :: 0 <= j < |t| ==> t[j] !in delims;
      SplitToken(t, sep + rest, delims);
      if sep != [] {
        assert (sep + rest)[1..] == sep[1..] + rest;
        SplitSkipsLeadingDelimiters(sep[1..], rest, delims);
        SplitJoinTokens(tokens[1..], seps[1..], delims);
      }
    }
  }

  /** Laying out non-empty, delimiter-free tokens with any run of
      delimiters before the first, between neighbours and after the last,
      and splitting again, gives the tokens back: a run of delimiters
      separates like a single one. */
  lemma SplitJoinRoundTrip(lead: string, tokens: seq<string>, seps: seq<string>, delims: string)
    requires |seps| == |tokens|
    requires OnlyDelimiters(lead, delims)
    requires forall i :: 0 <= i < |tokens| ==> tokens[i] != []
    requires forall i, j :: 0 <= i < |tokens| && 0 <= j < |tokens[i]| ==> tokens[i][j] !in delims
    requires forall i :: 0 <= i < |seps| ==> OnlyDelimiters(seps[i], delims)
    requires forall i :: 0 <= i < |seps| - 1 ==> seps[i] != []
    ensures Split(lead + Join(tokens, seps), delims) == tokens
  {
    SplitSkipsLeadingDelimiters(lead, Join(tokens, seps), delims);
    SplitJoinTokens(tokens, seps, delims);
  }

  /** A non-empty, delimiter-free token ends at the line's end or at the
      delimiter after it. */
  lemma SplitToken(t: string, after: string, delims: string)
    requires t != [] && forall j :: 0 <= j < |t| ==> t[j] !in delims
    requires after != [] ==> after[0] in delims
    ensures after == [] ==> Split(t + after, delims) == [t]
    ensures after != [] ==> Split(t + after, delims) == [t] + Split(after[1..], delims)
  {
    var line := t + after;
    assert forall j :: 0 <= j < |t| ==> line[j] == t[j];
    if after == [] {
      assert line == t;
      assert FindFirstOf(line, delims) == |t|;
    } else {
      assert line[|t|] == after[0];
      assert FindFirstOf(line, delims) == |t|;
      assert line[..|t|] == t;
      assert line[|t| + 1..] == after[1..];
    }
  }

  /** Fields separated by two tabs, as in the documented line format,
      split like fields separated by one delimiter. */
  lemma DoubleTabSeparatesFields()
    ensures Split("a\t\tb", DELIMITERS) == ["a", "b"]
  {
    SplitJoinRoundTrip([], ["a", "b"], ["\t\t", []], DELIMITERS);
    assert [] + Join(["a", "b"], ["\t\t", []]) == "a\t\tb";
  }

  // ---------------------------------------------------------------------
  // Lines and records

  /** A line carries information when its first non-whitespace character
      exists and is not `#`. */
  predicate IsInformationLine(line: string)
  {
    match FindFirstNotOf(line, WHITESPACE)
    case None => false
    case Some(p) => line[p] != '#'
  }

  /** The fields of a line that describes a record; None for a skipped line. */
  function RecordFields(line: string): (fields: Option<seq<string>>)
    ensures fields.Some? ==> |fields.value| > LAST_FIELD
  {
    if IsInformationLine(line) && |Split(line, DELIMITERS)| > LAST_FIELD
    then Some(Split(line, DELIMITERS))
    else None
  }

  /** A line yields a record exactly when some character of it is not
      whitespace, the first such character is not `#`, and the line splits
      into at least nine fields. */
  lemma RecordLineCharacterised(line: string)
    ensures RecordFields(line).Some? <==>
      (exists p :: 0 <= p < |line| && line[p] !in WHITESPACE && line[p] != '#' &&
         (forall j :: 0 <= j < p ==> line[j] in WHITESPACE)) &&
      |Split(line, DELIMITERS)| >= 9
  {
    var f := FindFirstNotOf(line, WHITESPACE);
    if f.Some? {
      forall p | 0 <= p < |line| && line[p] !in WHITESPACE && (forall j :: 0 <= j < p ==> line[j] in WHITESPACE)
        ensures p == f.value
      {
      }
    }
  }

  /** The record a line's fields describe, numbered `index` within its atlas. */
  function MakeRecord(fields: seq<string>, index: nat): TextureAtlasRecord
    requires |fields| > LAST_FIELD
  {
    TextureAtlasRecord(fields[0], fields[1],
      ParseReal(fields[4]), ParseReal(fields[5]), ParseReal(fields[7]), ParseReal(fields[8]),
      index)
  }

  /** The records of `recs` that belong to atlas `atlasName`, in order. */
  function RecordsOf(recs: TextureAtlasTable, atlasName: string): (r: TextureAtlasTable)
    ensures |r| <= |recs|
    ensures forall k :: 0 <= k < |r| ==> r[k].atlasTextureName == atlasName
  {
    if recs == [] then []
    else
      var last := recs[|recs| - 1];
      RecordsOf(recs[..|recs| - 1], atlasName) + (if last.atlasTextureName == atlasName then [last] else [])
  }

  /** Every atlas name some record of `recs` belongs to. */
  function AtlasNames(recs: TextureAtlasTable): set<string>
  {
    set k | 0 <= k < |recs| :: recs[k].atlasTextureName
  }

  /** The records a stream of definition lines describes, in file order;
      each is numbered by how many records of the same atlas precede it. */
  function ParseRecords(lines: seq<string>): (recs: TextureAtlasTable)
    ensures |recs| <= |lines|
    decreases |lines|
  {
    if lines == [] then []
    else
      var earlier := ParseRecords(lines[..|lines| - 1]);
      match RecordFields(lines[|lines| - 1])
      case None => earlier
      case Some(fields) => earlier + [MakeRecord(fields, |RecordsOf(earlier, fields[1])|)]
  }

  /** Reading one more line appends at most that line's record. */
  lemma ParseRecordsStep(lines: seq<string>, i: nat)
    requires i < |lines|
    ensures RecordFields(lines[i]).None? ==> ParseRecords(lines[..i + 1]) == ParseRecords(lines[..i])
    ensures RecordFields(lines[i]).Some? ==>
      var fields := RecordFields(lines[i]).value;
      ParseRecords(lines[..i + 1]) ==
        ParseRecords(lines[..i]) + [MakeRecord(fields, |RecordsOf(ParseRecords(lines[..i]), fields[1])|)]
  {
    assert lines[..i + 1][..i] == lines[..i];
  }

  /** The tables a definition describes, one per atlas named in it, built
      record by record: a record opens its atlas's table when it is the
      first of that atlas and is appended to it otherwise. */
  function GroupByAtlas(recs: TextureAtlasTable): (groups: map<string, TextureAtlasTable>)
    decreases |recs|
  {
    if recs == [] then map[]
    else
      var groups := GroupByAtlas(recs[..|recs| - 1]);
      var last := recs[|recs| - 1];
      var n := last.atlasTextureName;
      groups[n := (if n in groups then groups[n] else []) + [last]]
  }

  /** The fields of every record line, in file order (no numbering). */
  function AcceptedFields(lines: seq<string>): (fs: seq<seq<string>>)
    ensures forall k :: 0 <= k < |fs| ==> |fs[k]| > LAST_FIELD
    decreases |lines|
  {
    if lines == [] then []
    else
      AcceptedFields(lines[..|lines| - 1])
      + (match RecordFields(lines[|lines| - 1]) case None => [] case Some(f) => [f])
  }

  // ---------------------------------------------------------------------
  // Facts about the records of a definition

  /** Each record's index is the number of records of its atlas before it. */
  predicate NumberedByEarlierRecords(recs: TextureAtlasTable)
  {
    forall k :: 0 <= k < |recs| ==>
      recs[k].indexInAtlas == |RecordsOf(recs[..k], recs[k].atlasTextureName)|
  }

  /** The records of a table are numbered 0, 1, 2, ... in order. */
  predicate NumberedFromZero(table: TextureAtlasTable)
  {
    forall j :: 0 <= j < |table| ==> table[j].indexInAtlas == j
  }

  lemma {:induction false} RecordsOfAppend(recs: TextureAtlasTable, r: TextureAtlasRecord, n: string)
    ensures RecordsOf(recs + [r], n) ==
      RecordsOf(recs, n) + (if r.atlasTextureName == n then [r] else [])
  {
    assert (recs + [r])[..|recs|] == recs;
  }

  lemma AtlasNamesAppend(recs: TextureAtlasTable, r: TextureAtlasRecord)
    ensures AtlasNames(recs + [r]) == AtlasNames(recs) + {r.atlasTextureName}
  {
    var all := recs + [r];
    forall x | x in AtlasNames(all) ensures x in AtlasNames(recs) + {r.atlasTextureName} {
      var k :| 0 <= k < |all| && all[k].atlasTextureName == x;
      if k < |recs| { assert recs[k] == all[k]; }
    }
    forall x | x in AtlasNames(recs) ensures x in AtlasNames(all) {
      var k :| 0 <= k < |recs| && recs[k].atlasTextureName == x;
      assert all[k] == recs[k];
    }
    assert all[|recs|] == r;
  }

  /** The grouping has a table exactly for the atlases the records name,
      and that table holds that atlas's records in order. */
  lemma {:induction false} GroupByAtlasHoldsRecordsOf(recs: TextureAtlasTable, n: string)
    ensures n in GroupByAtlas(recs) <==> n in AtlasNames(recs)
    ensures n in GroupByAtlas(recs) ==> GroupByAtlas(recs)[n] == RecordsOf(recs, n)
    ensures n !in GroupByAtlas(recs) <==> RecordsOf(recs, n) == []
    decreases |recs|
  {
    if recs != [] {
      var init, last := recs[..|recs| - 1], recs[|recs| - 1];
      GroupByAtlasHoldsRecordsOf(init, n);
      assert recs == init + [last];
      AtlasNamesAppend(init, last);
      RecordsOfAppend(init, last, n);
    }
  }

  /** Appending a record changes the grouping only in that record's atlas,
      whose table grows by the record. */
  lemma GroupByAtlasAppend(recs: TextureAtlasTable, r: TextureAtlasRecord)
    ensures GroupByAtlas(recs + [r]) ==
      GroupByAtlas(recs)[r.atlasTextureName := RecordsOf(recs, r.atlasTextureName) + [r]]
  {
    assert (recs + [r])[..|recs|] == recs;
    GroupByAtlasHoldsRecordsOf(recs, r.atlasTextureName);
  }

  /** The parser's bookkeeping for one record: it takes the record's atlas
      table (empty for a new atlas), numbers the record by the table's size
      and appends it; the result is the grouping with the record added. */
  lemma GroupByAtlasStep(groups: map<string, TextureAtlasTable>, recs: TextureAtlasTable, r: TextureAtlasRecord)
    requires groups == GroupByAtlas(recs)
    ensures var n := r.atlasTextureName;
      var table := if n in groups then groups[n] else [];
      && table == RecordsOf(recs, n)
      && groups[n := table + [r]] == GroupByAtlas(recs + [r])
  {
    GroupByAtlasHoldsRecordsOf(recs, r.atlasTextureName);
    GroupByAtlasAppend(recs, r);
  }

  /** One line of the parser's loop: a record line's record is numbered by
      the size of its atlas's table so far (empty for a new atlas) and
      appended to it and to the records read so far. */
  lemma ParseLineStep(lines: seq<string>, i: nat, groups: map<string, TextureAtlasTable>)
    requires i < |lines|
    requires groups == GroupByAtlas(ParseRecords(lines[..i]))
    ensures RecordFields(lines[i]).None? ==> ParseRecords(lines[..i + 1]) == ParseRecords(lines[..i])
    ensures RecordFields(lines[i]).Some? ==>
      var fields := RecordFields(lines[i]).value;
      var table := if fields[1] in groups then groups[fields[1]] else [];
      var r := MakeRecord(fields, |table|);
      && ParseRecords(lines[..i + 1]) == ParseRecords(lines[..i]) + [r]
      && groups[fields[1] := table + [r]] == GroupByAtlas(ParseRecords(lines[..i + 1]))
  {
    ParseRecordsStep(lines, i);
    match RecordFields(lines[i]) {
      case None =>
      case Some(fields) =>
        var earlier := ParseRecords(lines[..i]);
        GroupByAtlasStep(groups, earlier, MakeRecord(fields, |RecordsOf(earlier, fields[1])|));
    }
  }

  /** Each record is numbered by how many records of the same atlas were
      accepted before it in the same stream. */
  lemma {:induction false} ParseIndexCountsEarlierRecords(lines: seq<string>)
    ensures NumberedByEarlierRecords(ParseRecords(lines))
    decreases |lines|
  {
    if lines != [] {
      var init := lines[..|lines| - 1];
      ParseIndexCountsEarlierRecords(init);
      var earlier := ParseRecords(init);
      var recs := ParseRecords(lines);
      match RecordFields(lines[|lines| - 1]) {
        case None =>
          assert recs == earlier;
        case Some(fields) =>
          var r := MakeRecord(fields, |RecordsOf(earlier, fields[1])|);
          assert recs == earlier + [r];
          forall k | 0 <= k < |recs|
            ensures recs[k].indexInAtlas == |RecordsOf(recs[..k], recs[k].atlasTextureName)|
          {
            if k < |earlier| {
              assert recs[..k] == earlier[..k];
              assert recs[k] == earlier[k];
            } else {
              assert recs[..k] == earlier;
            }
          }
      }
    }
  }

  /** When every record is numbered by the records of its atlas before it,
      each atlas's records are numbered 0, 1, 2, ... */
  lemma {:induction false} NumberedByEarlierRunsFromZero(recs: TextureAtlasTable, n: string)
    requires NumberedByEarlierRecords(recs)
    ensures NumberedFromZero(RecordsOf(recs, n))
    decreases |recs|
  {
    if recs != [] {
      var init, last := recs[..|recs| - 1], recs[|recs| - 1];
      assert NumberedByEarlierRecords(init) by {
        forall k | 0 <= k < |init|
          ensures init[k].indexInAtlas == |RecordsOf(init[..k], init[k].atlasTextureName)|
        {
          assert init[..k] == recs[..k];
          assert init[k] == recs[k];
        }
      }
      NumberedByEarlierRunsFromZero(init, n);
      assert recs[..|recs| - 1] == init;
      var before := RecordsOf(init, n);
      if last.atlasTextureName == n {
        var g := before + [last];
        assert RecordsOf(recs, n) == g;
        forall j | 0 <= j < |g| ensures g[j].indexInAtlas == j {
          if j < |before| { assert g[j] == before[j]; }
        }
      } else {
        assert RecordsOf(recs, n) == before;
      }
    }
  }

  /** Within each atlas the records of a definition are numbered 0, 1, 2, ... */
  lemma IndicesRunFromZeroPerAtlas(lines: seq<string>, n: string)
    ensures NumberedFromZero(RecordsOf(ParseRecords(lines), n))
  {
    ParseIndexCountsEarlierRecords(lines);
    NumberedByEarlierRunsFromZero(ParseRecords(lines), n);
  }

  /** The tables the grouping yields are never empty; each holds only its
      own atlas's records, numbered 0, 1, 2, ... in file order. */
  lemma GroupedTablesNumbered(lines: seq<string>)
    ensures forall n :: n in GroupByAtlas(ParseRecords(lines)) ==>
      && GroupByAtlas(ParseRecords(lines))[n] != []
      && (forall j :: 0 <= j < |GroupByAtlas(ParseRecords(lines))[n]| ==>
            GroupByAtlas(ParseRecords(lines))[n][j].atlasTextureName == n)
      && NumberedFromZero(GroupByAtlas(ParseRecords(lines))[n])
  {
    var recs := ParseRecords(lines);
    forall n | n in GroupByAtlas(recs)
      ensures GroupByAtlas(recs)[n] != []
      ensures NumberedFromZero(GroupByAtlas(recs)[n])
    {
      GroupByAtlasHoldsRecordsOf(recs, n);
      IndicesRunFromZeroPerAtlas(lines, n);
    }
  }

  /** The parse yields a record exactly when some line describes one. */
  lemma {:induction false} ParseNonEmptyIff(lines: seq<string>)
    ensures ParseRecords(lines) != [] <==>
      exists k :: 0 <= k < |lines| && RecordFields(lines[k]).Some?
    decreases |lines|
  {
    if lines != [] {
      var i := |lines| - 1;
      var init := lines[..i];
      ParseNonEmptyIff(init);
      ParseRecordsStep(lines, i);
      assert lines[..i + 1] == lines;
      assert forall k :: 0 <= k < i ==> init[k] == lines[k];
    }
  }


  /** Each record is built from the fields at the same position. */
  predicate BuiltFromFields(recs: TextureAtlasTable, fs: seq<seq<string>>)
  {
    && |recs| == |fs|
    && forall k :: 0 <= k < |recs| ==> |fs[k]| > LAST_FIELD && recs[k] == MakeRecord(fs[k], recs[k].indexInAtlas)
  }

  lemma BuiltFromFieldsAppend(recs: TextureAtlasTable, fs: seq<seq<string>>, f: seq<string>, index: nat)
    requires BuiltFromFields(recs, fs) && |f| > LAST_FIELD
    ensures BuiltFromFields(recs + [MakeRecord(f, index)], fs + [f])
  {
    var r := MakeRecord(f, index);
    forall k | 0 <= k < |recs| + 1
      ensures |(fs + [f])[k]| > LAST_FIELD && (recs + [r])[k] == MakeRecord((fs + [f])[k], (recs + [r])[k].indexInAtlas)
    {
      if k < |recs| {
        assert (recs + [r])[k] == recs[k] && (fs + [f])[k] == fs[k];
      }
    }
  }

  /** The parse holds one record per record line, in file order, built from
      that line's fields. */
  lemma {:induction false} ParseFollowsFileOrder(lines: seq<string>)
    ensures BuiltFromFields(ParseRecords(lines), AcceptedFields(lines))
    decreases |lines|
  {
    if lines != [] {
      var init := lines[..|lines| - 1];
      ParseFollowsFileOrder(init);
      var earlier := ParseRecords(init);
      match RecordFields(lines[|lines| - 1]) {
        case None =>
          assert ParseRecords(lines) == earlier && AcceptedFields(lines) == AcceptedFields(init);
        case Some(f) =>
          var index := |RecordsOf(earlier, f[1])|;
          BuiltFromFieldsAppend(earlier, AcceptedFields(init), f, index);
          assert ParseRecords(lines) == earlier + [MakeRecord(f, index)];
          assert AcceptedFields(lines) == AcceptedFields(init) + [f];
      }
    }
  }
}
