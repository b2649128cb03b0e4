# ssas2mondrian in Dafny

A model of `ssas2mondrian`, a command-line tool that reads an SQL Server
Analysis Services (SSAS) cube model and writes a Mondrian schema. The
tool walks databases, cubes, cube dimensions and measure groups. For each
selected cube it writes:

- one shared `<Dimension>` per cube dimension it can handle;
- one `<Cube>` per measure group, with a `<DimensionUsage>` for each of
  those dimensions, its stored measures, and the calculated members
  collected so far.

At the end it wraps every measure-group cube into a single
`<VirtualCube>`.

The model keeps the walk's structure and its state:

- **`Amo`** (`amo.dfy`): the part of the AMO object tree the tool reads,
  as plain datatypes. It also holds the parsed command-line options and
  the database and cube filters.
- **`Mondrian`** (`mondrian.dfy`): the schema written, as element records
  instead of XML text.
- **`Strings`** (`strings.dfy`): the .NET string operations the tool
  relies on: `IndexOf`, `Split`, `Contains` and ASCII `ToLower`.
- **`Taxonomy`** (`taxonomy.dfy`): `convertLevelType`, `convertDataType`
  and the aggregation-tag switch of `Main`, as pure functions.
- **`Resolver`** (`resolver.dfy`): `splitField` as functions.
  - `Resolve` gives the segments it returns.
  - `SchemaAfter` gives the value it leaves in the static `sschema` field.
  - `LastSchema` gives `sschema` after a run of calls, so "the last call
    that found a schema prefix wins" can be stated.
- **`Classifier`** (`classifier.dfy`): the dimension classification loop
  (`ignoredim`, `refdims`, `specialFK`), including the exceptions it
  swallows.
- **`Builder`** (`builder.dfy`): the specification of the whole walk.
  - It defines, as functions, what each dimension, hierarchy, level,
    measure group, cube and database contributes.
  - It also defines the walk's state `Acc`: `sschema`, `cms`, `Cubes`,
    `VCubeDims`, `VCubeMeas`, and the elements written so far.
- **`VirtualCubes`** (`virtualcube.dfy`): the two passes over `Cubes`
  that write the virtual cube.
- **`Converter`** (`converter.dfy`): the imperative walk itself.
  - The class `Converter` holds the fields the source updates in place.
  - Its methods follow the source's nested `foreach` loops, with loop
    invariants.
  - Each method's postcondition ties the new state to the `Builder`
    function for the same part of the walk.
  - `ConvertServer` runs the whole walk and returns exactly
    `Builder.Convert`.
- **`SchemaFacts`** and **`RunFacts`** (`schemafacts.dfy`, `runfacts.dfy`):
  what the source promises about the schema it writes, proved about those
  functions:
  - the shape of snowflaked and flat hierarchies;
  - level typing;
  - foreign keys;
  - skipped dimensions;
  - stored measures versus calculated members;
  - agreement between the virtual cube and the cubes written.

## Model

Every source path below is `ssas2mondrian/ssas2mondrian/Program.cs`.

| member | source | states |
|---|---|---|
| Strings.IndexOf | ssas2mondrian/ssas2mondrian/Program.cs:32 | `String.IndexOf(char)` is -1 or an index of the string |
| Strings.IndexOfFirst | ssas2mondrian/ssas2mondrian/Program.cs:32 | IndexOf is -1 exactly when the character is absent; otherwise it points at the character's first occurrence |
| Strings.Split | ssas2mondrian/ssas2mondrian/Program.cs:30 | `String.Split(char)` always yields at least one segment |
| Strings.SplitSegmentsFree | ssas2mondrian/ssas2mondrian/Program.cs:30 | no segment contains the separator |
| Strings.JoinSplit | ssas2mondrian/ssas2mondrian/Program.cs:30 | joining the segments with the separator gives the text back |
| Strings.SplitJoin | ssas2mondrian/ssas2mondrian/Program.cs:30 | splitting a join of separator-free segments gives the segments back |
| Strings.NotContainsByChar | ssas2mondrian/ssas2mondrian/Program.cs:49-80 | a text with no occurrence of a substring's k-th character does not contain that substring |
| Strings.ContainsChar | ssas2mondrian/ssas2mondrian/Program.cs:440 | `Contains` of a one-character string is membership of that character |
| Taxonomy.ConvertLevelType | ssas2mondrian/ssas2mondrian/Program.cs:43-85 | the level type is always one of the eight Mondrian time level types |
| Taxonomy.HalfYearNamesMentionYearOnly | ssas2mondrian/ssas2mondrian/Program.cs:47-52 | the two exact half-year names contain "Year" and none of the earlier substrings, so the exact tests must come first |
| Taxonomy.LevelTypeUndefinedIff | ssas2mondrian/ssas2mondrian/Program.cs:43-85 | the result is TimeUndefined exactly when the name mentions no time unit |
| Taxonomy.LevelTypePriority | ssas2mondrian/ssas2mondrian/Program.cs:53-82 | the substring tests win in the order Week, Day or Date, Month, Quarter, Year |
| Taxonomy.LevelTypeExamples | ssas2mondrian/ssas2mondrian/Program.cs:43-85 | the two half-year names map to their own types; DayOfWeek gives TimeWeeks; FiscalQuarter gives TimeQuarters; Regular gives TimeUndefined |
| Taxonomy.SwitchedTypesLackInt | ssas2mondrian/ssas2mondrian/Program.cs:89-104 | Currency, Double and WChar do not contain "int", so their switch cases are reachable |
| Taxonomy.DataTypeMapping | ssas2mondrian/ssas2mondrian/Program.cs:87-108 | any name containing "int" case-insensitively gives Integer; Currency and Double give Numeric; WChar gives String; anything else is returned unchanged |
| Taxonomy.TargetTypeNames | ssas2mondrian/ssas2mondrian/Program.cs:87-108 | of the three target names, only Integer contains "int" |
| Taxonomy.DataTypeIdempotent | ssas2mondrian/ssas2mondrian/Program.cs:87-108 | converting a data type twice is converting it once |
| Taxonomy.ToLowerIdempotent | ssas2mondrian/ssas2mondrian/Program.cs:471 | lower-casing twice is lower-casing once |
| Taxonomy.AggregationResult | ssas2mondrian/ssas2mondrian/Program.cs:470-489 | the tag is lower-cased; the five remapped tags give "distinct count", "sum" or "avg"; every other tag passes through lower-cased; the result is never a remapped tag |
| Taxonomy.AggregationIdempotent | ssas2mondrian/ssas2mondrian/Program.cs:470-489 | mapping an aggregation tag twice is mapping it once |
| Taxonomy.AggregationExamples | ssas2mondrian/ssas2mondrian/Program.cs:470-489 | Sum gives sum; DistinctCount gives "distinct count"; LastNonEmpty gives sum; AverageOfChildren gives avg; Max gives max |
| Resolver.SchemaPrefixSpec | ssas2mondrian/ssas2mondrian/Program.cs:31-36 | the schema prefix is the non-empty, '_'-free text of the table segment before its first '_' |
| Resolver.Resolve | ssas2mondrian/ssas2mondrian/Program.cs:28-40 | splitField returns as many segments as there are '.'-segments |
| Resolver.ResolveSegments | ssas2mondrian/ssas2mondrian/Program.cs:28-40 | every segment after the first is kept; with a schema prefix, the table segment is that prefix, '_' and the new first segment; without one, the first segment is unchanged |
| Resolver.ResolveRoundTrip | ssas2mondrian/ssas2mondrian/Program.cs:28-40 | putting the schema prefix back and joining with '.' rebuilds the input |
| Resolver.LastSchemaAppend | ssas2mondrian/ssas2mondrian/Program.cs:24-37 | running two batches of splitField calls is running their concatenation |
| Resolver.NoWriterKeepsSchema | ssas2mondrian/ssas2mondrian/Program.cs:33-37 | calls on keys without a schema prefix leave sschema unchanged |
| Resolver.LastWriterWins | ssas2mondrian/ssas2mondrian/Program.cs:24-37 | after a run of calls, sschema holds the prefix of the last key that had one |
| Classifier.IgnoredIff | ssas2mondrian/ssas2mondrian/Program.cs:264-265 | a cube dimension is ignored exactly when some link to it is data-mining, or many-to-many while boolM2M holds |
| Classifier.LinkStepExtends | ssas2mondrian/ssas2mondrian/Program.cs:253-261 | one link never changes an existing refdims or specialFK entry, and every dimension with a specialFK entry keeps both its refdims entries |
| Classifier.FirstWriterWins | ssas2mondrian/ssas2mondrian/Program.cs:244-267 | every entry made by a prefix of the links survives the whole loop |
| Classifier.FirstReferenceKept | ssas2mondrian/ssas2mondrian/Program.cs:253-261 | the first reference link that adds a dimension to refdims fixes that entry to its key column |
| Classifier.SpecialFKOrigin | ssas2mondrian/ssas2mondrian/Program.cs:255-259 | a specialFK entry comes from a reference link whose three lookups succeeded; it is the second segment of the intermediate key column |
| Converter.Converter.constructor | ssas2mondrian/ssas2mondrian/Program.cs:217-220 | a run starts with null sschema and cms, and with empty Cubes, VCubeDims and VCubeMeas |
| Converter.Converter.SplitField | ssas2mondrian/ssas2mondrian/Program.cs:28-40 | returns Resolve's segments and changes only sschema, to the prefix found or its old value |
| Converter.Converter.ReferenceLink | ssas2mondrian/ssas2mondrian/Program.cs:253-261 | the try block adds to refdims and specialFK up to the first failing Add or lookup |
| Converter.Converter.ClassifyLink | ssas2mondrian/ssas2mondrian/Program.cs:249-265 | one link: the reference try block, then the two ignoredim tests |
| Converter.Converter.ClassifyGroup | ssas2mondrian/ssas2mondrian/Program.cs:246-266 | the inner loop leaves the tables of the links seen so far |
| Converter.Converter.ClassifyLinks | ssas2mondrian/ssas2mondrian/Program.cs:244-267 | the classification loop gives Classify of every link in group order; sschema is left by the last splitField in it |
| Converter.Converter.WriteRelation | ssas2mondrian/ssas2mondrian/Program.cs:298-407 | a snowflake gets a join of tables "a" and "b" on the two referenced keys; otherwise one table; the schema is sschema after the two splitField calls |
| Converter.Converter.AttributeLevels | ssas2mondrian/ssas2mondrian/Program.cs:337-358 | for a dimension whose attributes all have a qualified key and a name column (line 344 throws otherwise), one level per attribute, with its key column, converted data type, and a level type only for Time dimensions |
| Converter.Converter.HierarchyLevels | ssas2mondrian/ssas2mondrian/Program.cs:409-423 | one level per hierarchy level; each key column passes through splitField in order |
| Converter.Converter.ConvertHierarchy | ssas2mondrian/ssas2mondrian/Program.cs:362-424 | one explicit hierarchy, snowflaked or flat like its dimension |
| Converter.Converter.ConvertHierarchies | ssas2mondrian/ssas2mondrian/Program.cs:362-425 | one Mondrian hierarchy per explicit hierarchy, in order |
| Converter.Converter.ConvertDimension | ssas2mondrian/ssas2mondrian/Program.cs:279-426 | the "Default" hierarchy followed by the explicit ones, with the dimension's foreign key |
| Converter.Converter.AddDimension | ssas2mondrian/ssas2mondrian/Program.cs:289-426 | records the foreign key under the dimension's header and appends the `<Dimension>` |
| Converter.Converter.WriteDimension | ssas2mondrian/ssas2mondrian/Program.cs:279-426 | extends fks and the written dimensions with one retained dimension |
| Converter.Converter.ConvertDimensions | ssas2mondrian/ssas2mondrian/Program.cs:269-427 | skips ignored dimensions; writes one `<Dimension>` per retained dimension, in cube order, with fks to match |
| Converter.Converter.ConvertUsages | ssas2mondrian/ssas2mondrian/Program.cs:451-464 | one usage per retained dimension, in order; each name is appended to the group's VCubeDims entry |
| Converter.Converter.ConvertMeasure | ssas2mondrian/ssas2mondrian/Program.cs:468-527 | a measure with an expression goes to cms only; otherwise it is stored and listed in VCubeMeas when its source has a column segment |
| Converter.Converter.NextMeasure | ssas2mondrian/ssas2mondrian/Program.cs:468-528 | one measure extends the group's stored measures, cms and VCubeMeas |
| Converter.Converter.ConvertMeasures | ssas2mondrian/ssas2mondrian/Program.cs:468-528 | the measure loop yields the stored measures in order; it appends the calculated members to cms and the stored names to VCubeMeas |
| Converter.Converter.ConvertMeasureGroup | ssas2mondrian/ssas2mondrian/Program.cs:432-540 | one measure group is Builder.GroupStep: a `<Cube>` with fact table, usages, stored measures and the cms so far |
| Converter.Converter.ConvertMeasureGroups | ssas2mondrian/ssas2mondrian/Program.cs:432-540 | the measure groups in order |
| Converter.Converter.ConvertCube | ssas2mondrian/ssas2mondrian/Program.cs:236-540 | one selected cube: classification, dimensions, then measure groups |
| Converter.Converter.ConvertCubes | ssas2mondrian/ssas2mondrian/Program.cs:231-541 | the cubes of a database that pass the /C filter, in order |
| Converter.Converter.ConvertDatabases | ssas2mondrian/ssas2mondrian/Program.cs:225-543 | the databases that pass the /D filter, in order |
| Converter.DimensionPass | ssas2mondrian/ssas2mondrian/Program.cs:551-561 | the first pass lists each cube's VCubeDims entry in Cubes order, skipping cubes without one |
| Converter.MeasurePass | ssas2mondrian/ssas2mondrian/Program.cs:563-573 | the second pass does the same with VCubeMeas |
| Converter.EmitVirtualCube | ssas2mondrian/ssas2mondrian/Program.cs:547-576 | the virtual cube is both passes, then the final cms |
| Converter.ConvertServer | ssas2mondrian/ssas2mondrian/Program.cs:200-576 | the whole walk returns exactly Builder.Convert |
| Converter.AccumulateConcat | ssas2mondrian/ssas2mondrian/Program.cs:454-462 | appending two batches of names to a key's list is appending their concatenation |
| VirtualCubes.DimensionEntriesOf | ssas2mondrian/ssas2mondrian/Program.cs:555-558 | one VirtualCubeDimension per listed name, in order, tagged with the cube |
| VirtualCubes.MeasureEntriesOf | ssas2mondrian/ssas2mondrian/Program.cs:567-570 | one VirtualCubeMeasure per listed name, in order, tagged with the cube |
| VirtualCubes.DimensionEntriesAreDimensions | ssas2mondrian/ssas2mondrian/Program.cs:551-561 | the first pass writes only dimension entries |
| VirtualCubes.MeasureEntriesAreMeasures | ssas2mondrian/ssas2mondrian/Program.cs:563-573 | the second pass writes only measure entries |
| VirtualCubes.DimensionsBeforeMeasures | ssas2mondrian/ssas2mondrian/Program.cs:547-576 | every VirtualCubeDimension precedes every VirtualCubeMeasure |
| VirtualCubes.DimensionEntryIff | ssas2mondrian/ssas2mondrian/Program.cs:551-561 | (c, n) is listed as a dimension exactly when c is in Cubes, has a VCubeDims entry, and that entry holds n |
| VirtualCubes.MeasureEntryIff | ssas2mondrian/ssas2mondrian/Program.cs:563-573 | (c, n) is listed as a measure exactly when c is in Cubes, has a VCubeMeas entry, and that entry holds n |
| Builder.Retained | ssas2mondrian/ssas2mondrian/Program.cs:269-276 | every dimension kept is a cube dimension that is not ignored |
| Builder.WellFormedPrefix | ssas2mondrian/ssas2mondrian/Program.cs:269-427 | a prefix of well-formed dimensions is well-formed |
| Builder.DimensionsOf | ssas2mondrian/ssas2mondrian/Program.cs:269-427 | one `<Dimension>` per retained dimension |
| Builder.ForeignKeys | ssas2mondrian/ssas2mondrian/Program.cs:289-292 | every retained dimension's header has an fks entry |
| SchemaFacts.RetainedIff | ssas2mondrian/ssas2mondrian/Program.cs:269-276 | a dimension is written exactly when it is a cube dimension whose name is not in ignoredim |
| SchemaFacts.AccumulateAppends | ssas2mondrian/ssas2mondrian/Program.cs:454-526 | accumulating appends the names, in order, to the key's list (created when absent) and touches no other key |
| SchemaFacts.StoredMeasureWritten | ssas2mondrian/ssas2mondrian/Program.cs:513-517 | every stored measure of a group is written to its cube |
| SchemaFacts.StoredMeasureOrigin | ssas2mondrian/ssas2mondrian/Program.cs:504-517 | every written `<Measure>` comes from a stored (non-calculated, two-segment) measure of the group |
| SchemaFacts.CalculatedMembersIff | ssas2mondrian/ssas2mondrian/Program.cs:496-511 | a calculated member is appended exactly for each measure with a non-empty expression |
| SchemaFacts.StoredNamesMatch | ssas2mondrian/ssas2mondrian/Program.cs:513-526 | VCubeMeas receives exactly the names of the written measures, in order |
| SchemaFacts.ExplicitHierarchyAt | ssas2mondrian/ssas2mondrian/Program.cs:362-425 | the i-th hierarchy is written with sschema as left by the hierarchies before it |
| SchemaFacts.ExplicitHierarchiesLength | ssas2mondrian/ssas2mondrian/Program.cs:362-425 | one Mondrian hierarchy per explicit hierarchy |
| SchemaFacts.DefaultHierarchyShape | ssas2mondrian/ssas2mondrian/Program.cs:298-358 | the "Default" hierarchy is snowflaked (primaryKeyTable "a", a join of "a" and "b", levels in table "b") exactly for a refdims dimension, and flat otherwise |
| SchemaFacts.ExplicitHierarchyShape | ssas2mondrian/ssas2mondrian/Program.cs:362-424 | an explicit hierarchy keeps its name and has the same snowflaked or flat shape |
| SchemaFacts.DimensionParts | ssas2mondrian/ssas2mondrian/Program.cs:279-426 | a dimension is its header, the Default hierarchy, then the explicit hierarchies, with sschema threaded through |
| SchemaFacts.DefaultLevelsTyped | ssas2mondrian/ssas2mondrian/Program.cs:346-349 | Default levels get a time level type in a Time dimension, and "Regular" otherwise |
| SchemaFacts.ExplicitLevelsTyped | ssas2mondrian/ssas2mondrian/Program.cs:413-416 | explicit hierarchy levels are typed the same way |
| SchemaFacts.ExplicitHierarchiesFacts | ssas2mondrian/ssas2mondrian/Program.cs:362-425 | every explicit hierarchy has its source's name, the dimension's shape, and typed levels |
| SchemaFacts.SnowflakeShape | ssas2mondrian/ssas2mondrian/Program.cs:298-425 | a dimension has \|hierarchies\|+1 hierarchies; the first is "Default", the rest are named after the source; all are snowflaked exactly when the dimension is in refdims |
| SchemaFacts.LevelTypesOfDimension | ssas2mondrian/ssas2mondrian/Program.cs:346-416 | every level of every hierarchy of a dimension is typed by the dimension's kind |
| SchemaFacts.DefaultTableSchema | ssas2mondrian/ssas2mondrian/Program.cs:279-334 | without /A the Default hierarchy's tables carry no schema; with /A they carry the prefix of the last of the first attribute's key, the base key and the granularity key (the last two only for a snowflake) that has one, or the sschema the dimension started with when none has one |
| SchemaFacts.ExplicitTableSchema | ssas2mondrian/ssas2mondrian/Program.cs:364-405 | the same for an explicit hierarchy, whose keys are its first level's key and, for a snowflake, the base and granularity keys; with no prefix among them the tables keep the sschema left before the hierarchy |
| SchemaFacts.DefaultTableSchemaInDimension | ssas2mondrian/ssas2mondrian/Program.cs:279-335 | the first hierarchy of a written dimension takes its schema from the last writer among its opening keys, else from the sschema the dimension started with |
| SchemaFacts.ExplicitTableSchemaInDimension | ssas2mondrian/ssas2mondrian/Program.cs:279-407 | hierarchy i > 0 of a written dimension takes its schema from the last writer among every key the dimension has split up to its tables, else from the sschema the dimension started with |
| SchemaFacts.TableSchemaLastWriter | ssas2mondrian/ssas2mondrian/Program.cs:279-407 | every hierarchy of a written dimension: no schema without /A; with /A, the last writer among every key split so far in the dimension, else the inherited sschema |
| SchemaFacts.LastWriterTables | ssas2mondrian/ssas2mondrian/Program.cs:24-37 | tables written with the sschema a run of splitField calls left carry the last writer's prefix, or the starting sschema when no call wrote one |
| SchemaFacts.SnowflakeBaseKeySchema | ssas2mondrian/ssas2mondrian/Program.cs:301-311 | a snowflake whose base key has a schema prefix and whose granularity key has none writes both tables of its Default join with the base key's schema |
| SchemaFacts.DimensionsOfAt | ssas2mondrian/ssas2mondrian/Program.cs:269-427 | the i-th `<Dimension>` of a cube is its i-th retained dimension, started with the sschema the dimensions before it left |
| SchemaFacts.ForeignKeysAt | ssas2mondrian/ssas2mondrian/Program.cs:289-292 | with distinct headers, each dimension's fks entry is its own foreign key |
| SchemaFacts.UsagesFollowDimensions | ssas2mondrian/ssas2mondrian/Program.cs:451-453 | a cube has one usage per retained dimension, in order, with that dimension's name, foreign key and header |
| SchemaFacts.ForeignKeyOrigin | ssas2mondrian/ssas2mondrian/Program.cs:279-290 | the foreign key is the specialFK entry (from a fully resolved reference link) when there is one; otherwise it is the second segment of the first attribute's key |
| RunFacts.AccumulateMember | ssas2mondrian/ssas2mondrian/Program.cs:454-462 | a name is under a key after accumulating exactly when it was there before, or it is one of the appended names for that key |
| RunFacts.GroupStepCube | ssas2mondrian/ssas2mondrian/Program.cs:432-540 | a measure group appends one `<Cube>` named after it (usages, stored measures, cms so far), its name to Cubes, and its dimensions and stored measures to VCubeDims and VCubeMeas |
| RunFacts.AddCubeDims | ssas2mondrian/ssas2mondrian/Program.cs:435-464 | writing a cube and its VCubeDims entry keeps VCubeDims in agreement with the cubes' usages |
| RunFacts.AddCubeMeasures | ssas2mondrian/ssas2mondrian/Program.cs:435-526 | writing a cube and its VCubeMeas entry keeps VCubeMeas in agreement with the cubes' measures |
| RunFacts.GroupStepCms | ssas2mondrian/ssas2mondrian/Program.cs:504-537 | cms only grows, and each cube carries the cms of its time |
| RunFacts.GroupsStepCoherent | ssas2mondrian/ssas2mondrian/Program.cs:432-540 | the measure-group loop keeps Cubes, VCubeDims, VCubeMeas and cms coherent with the cubes written |
| RunFacts.SharedDimensionsKeepCoherent | ssas2mondrian/ssas2mondrian/Program.cs:269-427 | writing dimensions keeps that agreement |
| RunFacts.CubeStepCoherent | ssas2mondrian/ssas2mondrian/Program.cs:236-540 | one cube keeps it |
| RunFacts.CubesStepCoherent | ssas2mondrian/ssas2mondrian/Program.cs:231-541 | the cube loop keeps it |
| RunFacts.DatabasesStepCoherent | ssas2mondrian/ssas2mondrian/Program.cs:225-543 | the database loop keeps it |
| RunFacts.VirtualCubeMatchesCubes | ssas2mondrian/ssas2mondrian/Program.cs:432-576 | the virtual cube lists (c, n) as a dimension exactly when a written cube c uses n, and as a measure exactly when cube c has measure n; every cube's calculated members prefix the virtual cube's |
| RunFacts.GroupsStepCubes | ssas2mondrian/ssas2mondrian/Program.cs:432-540 | the measure groups append one cube each, in order, named after the group, and their names to Cubes |
| RunFacts.GroupsStepCubeAt | ssas2mondrian/ssas2mondrian/Program.cs:432-540 | the k-th new cube is the k-th group's |
| RunFacts.GroupsStepTail | ssas2mondrian/ssas2mondrian/Program.cs:432-540 | the measure groups add only cubes whose usages are the retained dimensions' |
| RunFacts.GroupsStepDimsFrom | ssas2mondrian/ssas2mondrian/Program.cs:451-464 | the measure groups add to VCubeDims only names of retained dimensions |
| RunFacts.DimensionsOfHeaders | ssas2mondrian/ssas2mondrian/Program.cs:285 | each written dimension carries its source dimension's header |
| RunFacts.CubeStepSplits | ssas2mondrian/ssas2mondrian/Program.cs:236-540 | a cube is its dimensions followed by its measure groups |
| RunFacts.CubeDimensionAt | ssas2mondrian/ssas2mondrian/Program.cs:244-427 | the i-th element a cube writes is the `<Dimension>` of its i-th retained dimension, started with the sschema left by the classification loop and the dimensions before it |
| RunFacts.OmittedFrom | ssas2mondrian/ssas2mondrian/Program.cs:276-453 | a name absent from the retained dimensions appears in no new dimension and no new usage |
| RunFacts.ExcludedDimensionsOmitted | ssas2mondrian/ssas2mondrian/Program.cs:264-453 | an ignored dimension gets no `<Dimension>` and no `<DimensionUsage>` in any cube of its cube |
| RunFacts.ExcludedDimensionsUnlisted | ssas2mondrian/ssas2mondrian/Program.cs:264-464 | an ignored dimension gets no new VCubeDims entry |

## Left out

- The connection to the SSAS server and AMO enumeration (lines 201-215) are not modelled. The object tree is the `Amo` datatypes, and a run is given its databases as a parameter.
- The text of the `Console.WriteLine` output is not modelled: XML quoting, CDATA, `Environment.NewLine`, and the attributes that are constant in every element of a kind. The schema is a tree of `Mondrian` records.
- Command-line switch parsing and `outputhelp` (lines 110-126, 152-197) are not modelled. The parsed switches are the `Amo.Options` value; /S is used only by the connection.
- The pause at the end (`/P`, `Console.ReadKey`, line 578) is console I/O and is not modelled.
- `boolM2M` is the constant `true` (`Builder.BoolM2M`), because line 141 sets it and /M (line 169) only sets it to true again. `Classifier` keeps it as a parameter.
- Crash paths are preconditions (`DimensionWellFormed`, `GroupWellFormed`, `DistinctHeaders`, `CubeWellFormed`, `RunWellFormed`), not modelled failures. They cover:
  - `[1]` on a one-segment key column;
  - `Measures[0]` of an empty group;
  - a duplicate `fks.Add`;
  - the `ColumnBinding` cast at line 442;
  - a dimension with no attributes (line 279);
  - an attribute without a name column, whose `NameColumn.ToString()` at line 344 throws outside any try block;
  - a hierarchy with no levels (line 364);
  - a snowflake without its "XX" refdims entry (line 302) or its specialFK entry (line 305).
- Swallowed exceptions are `Option` values, with the effects the source keeps up to the throw. They cover the reference-link lookups (lines 253-261), `MeasureExpression` (lines 498-502), and the missing `VCubeDims`/`VCubeMeas` keys (lines 553-572).
- Null `sschema` and `cms` are the empty string and the empty sequence, which print the same.
- `ToLower` and `ToUpper` fold ASCII letters only; culture-specific case mappings are not modelled.
- Composite keys are not modelled: an attribute is seen through its first key column only, as the source does.
- The segments of the `NameColumn` split (line 344) are never used, so only its crash is modelled (as above). The counters `i2` and `i3` (lines 430, 466, 530-531) are never read, so they are left out.
- `dnames` and `d2` (lines 236-237, 286, 294) are one list of retained dimensions (`rs`), since they are filled together. The `dname` text is the `Mondrian.DimHeader` it is built from.
- Builder.DimensionsOf: states only the count of dimensions; their contents are stated by SchemaFacts.DimensionsOfAt (element i is DimensionOf its i-th retained dimension), RunFacts.CubeDimensionAt (the same within a cube's output) and, for each of them, SchemaFacts.SnowflakeShape, LevelTypesOfDimension and TableSchemaLastWriter.
- Builder.ForeignKeys: states only which headers have an entry; the entries' values are stated by SchemaFacts.ForeignKeysAt.
