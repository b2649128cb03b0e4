/// The schema the converter writes, as functions of the AMO tree, the
/// options and the value of `sschema` when each element is written
/// (Program.cs:224-540). The walk is a fold over databases, cubes and
/// measure groups whose state is `Acc`: the process-wide `sschema` and
/// `cms`, the run's `Cubes`, `VCubeDims` and `VCubeMeas`, and the elements
/// written so far. Converter.Converter is the imperative walk and is proved
/// to follow these functions.
module Builder {
  import opened Strings
  import opened Taxonomy
  import opened Resolver
  import opened Amo
  import opened Classifier
  import M = Mondrian
  import VirtualCubes

  /** boolM2M starts true (Program.cs:141) and the /M switch sets it to true
      again (line 169): a many-to-many link always excludes its dimension. */
  const BoolM2M := true

  predicate IsTime(d: CubeDimension) {
    d.dimensionType == "Time"
  }

  /** The `dname` text of line 285: visibility, one of the two Mondrian
      dimension types, and the name. */
  function Header(d: CubeDimension): M.DimHeader {
    M.DimHeader(d.visible, if IsTime(d) then M.TimeDimension else M.StandardDimension, d.name)
  }

  /** Lines 346-349 and 413-416: only a time dimension's levels get a time level type. */
  function LevelTypeOf(d: CubeDimension, attributeType: string): string {
    if IsTime(d) then ConvertLevelType(attributeType) else "Regular"
  }

  /** A key column text with a column segment after the table segment:
      splitting it on '.' gives at least two segments. */
  predicate Qualified(key: string) {
    |Split(key, '.')| >= 2
  }

  /** A dimension that some reference link named (line 300). */
  predicate Snowflaked(d: CubeDimension, cl: Classification) {
    d.name in cl.refdims
  }

  predicate HierarchyWellFormed(h: Hierarchy) {
    && |h.levels| > 0
    && forall i :: 0 <= i < |h.levels| ==> Qualified(h.levels[i].source.keyColumn)
  }

  predicate HierarchiesWellFormed(hs: seq<Hierarchy>) {
    forall i :: 0 <= i < |hs| ==> HierarchyWellFormed(hs[i])
  }

  /** What the dimension loop needs to run without an exception: a first
      attribute (line 279), a column segment in every key it indexes with
      [1], a name column on every attribute (its ToString() at line 344
      is outside any try block), a first level in every hierarchy
      (line 364), and, for a snowflake, the "XX" and specialFK entries it
      reads at lines 302-305. */
  predicate DimensionWellFormed(d: CubeDimension, cl: Classification) {
    && |d.attributes| > 0
    && (forall i :: 0 <= i < |d.attributes| ==> Qualified(d.attributes[i].keyColumn))
    && (forall i :: 0 <= i < |d.attributes| ==> d.attributes[i].nameColumn.Some?)
    && HierarchiesWellFormed(d.hierarchies)
    && (Snowflaked(d, cl) ==>
          && d.name + "XX" in cl.refdims && d.name in cl.specialFK
          && Qualified(cl.refdims[d.name]) && Qualified(cl.refdims[d.name + "XX"]))
  }

  /** The two referenced key columns a snowflake passes to splitField. */
  function SnowKeys(d: CubeDimension, cl: Classification): seq<string>
    requires DimensionWellFormed(d, cl)
  {
    if Snowflaked(d, cl) then [cl.refdims[d.name], cl.refdims[d.name + "XX"]] else []
  }

  /** The schema attribute of a <Table>: written only with /A. */
  function TableSchema(opts: Options, schema: string): Option<string> {
    if opts.includeSchema then Some(schema) else None
  }

  /** A hierarchy's relation (lines 300-332, 369-406): for a snowflake, the
      join of the table of the dimension's first attribute (alias "a") with
      the referenced table (alias "b"); otherwise the table `flatTable`. */
  function RelationOf(d: CubeDimension, cl: Classification, flatTable: string, opts: Options, schema: string): M.Relation
    requires DimensionWellFormed(d, cl)
  {
    if Snowflaked(d, cl) then
      var ms := Resolve(cl.refdims[d.name]);
      var ks := Resolve(cl.refdims[d.name + "XX"]);
      M.Join("a", ks[1], "b", ms[1],
             M.TableRef(Resolve(d.attributes[0].keyColumn)[0], TableSchema(opts, schema), Some("a")),
             M.TableRef(ks[0], TableSchema(opts, schema), Some("b")))
    else
      M.Table(M.TableRef(flatTable, TableSchema(opts, schema), None))
  }

  function PrimaryKeyOf(d: CubeDimension, cl: Classification, flatKey: string): string
    requires DimensionWellFormed(d, cl)
  {
    if Snowflaked(d, cl) then cl.specialFK[d.name] else flatKey
  }

  function PrimaryKeyTable(d: CubeDimension, cl: Classification): Option<string> {
    if Snowflaked(d, cl) then Some("a") else None
  }

  /** The `table="b"` of a snowflake's levels (line 351). */
  function LevelTable(d: CubeDimension, cl: Classification): Option<string> {
    if Snowflaked(d, cl) then Some("b") else None
  }

  /** A level of the default hierarchy (lines 338-357): the attribute's key
      column is split with String.Split, not splitField. */
  function AttributeLevel(d: CubeDimension, cl: Classification, a: Attribute): M.Level
    requires Qualified(a.keyColumn)
  {
    M.Level(a.name, a.hierarchyVisible, LevelTable(d, cl), Split(a.keyColumn, '.')[1],
            ConvertDataType(a.keyDataType), LevelTypeOf(d, a.attributeType))
  }

  function DefaultLevels(d: CubeDimension, cl: Classification): seq<M.Level>
    requires DimensionWellFormed(d, cl)
  {
    seq(|d.attributes|, i requires 0 <= i < |d.attributes| => AttributeLevel(d, cl, d.attributes[i]))
  }

  /** The "Default" hierarchy built from the dimension's attributes
      (lines 298-358), written when sschema holds `schema`. */
  function DefaultHierarchy(d: CubeDimension, cl: Classification, opts: Options, schema: string): M.Hierarchy
    requires DimensionWellFormed(d, cl)
  {
    var myspl := Resolve(d.attributes[0].keyColumn);
    M.Hierarchy("Default", true, None, PrimaryKeyOf(d, cl, myspl[1]), PrimaryKeyTable(d, cl),
                RelationOf(d, cl, myspl[0], opts, schema), DefaultLevels(d, cl))
  }

  /** A level of an explicit hierarchy (lines 409-421): its visibility is the
      hierarchy's, and its key column goes through splitField. */
  function HierarchyLevel(d: CubeDimension, cl: Classification, h: Hierarchy, l: Level): M.Level
    requires Qualified(l.source.keyColumn)
  {
    M.Level(l.name, h.visible, LevelTable(d, cl), Resolve(l.source.keyColumn)[1],
            ConvertDataType(l.source.keyDataType), LevelTypeOf(d, l.source.attributeType))
  }

  function ExplicitLevels(d: CubeDimension, cl: Classification, h: Hierarchy): seq<M.Level>
    requires HierarchyWellFormed(h)
  {
    seq(|h.levels|, i requires 0 <= i < |h.levels| => HierarchyLevel(d, cl, h, h.levels[i]))
  }

  /** The keys an explicit hierarchy passes to splitField before its tables
      are written (lines 364, 374-375). */
  function OpeningKeys(d: CubeDimension, cl: Classification, h: Hierarchy): seq<string>
    requires DimensionWellFormed(d, cl) && HierarchyWellFormed(h)
  {
    [h.levels[0].source.keyColumn] + SnowKeys(d, cl)
  }

  function LevelKeys(h: Hierarchy): seq<string> {
    seq(|h.levels|, i requires 0 <= i < |h.levels| => h.levels[i].source.keyColumn)
  }

  /** All keys an explicit hierarchy passes to splitField, in call order. */
  function HierarchyKeys(d: CubeDimension, cl: Classification, h: Hierarchy): seq<string>
    requires DimensionWellFormed(d, cl) && HierarchyWellFormed(h)
  {
    OpeningKeys(d, cl, h) + LevelKeys(h)
  }

  /** An explicit hierarchy (lines 362-424), started when sschema holds `schema`. */
  function ExplicitHierarchy(d: CubeDimension, cl: Classification, h: Hierarchy, opts: Options, schema: string): M.Hierarchy
    requires DimensionWellFormed(d, cl) && HierarchyWellFormed(h)
  {
    var mysplit := Resolve(h.levels[0].source.keyColumn);
    M.Hierarchy(h.name, h.visible, if opts.allMember then Some(h.allMemberName) else None,
                PrimaryKeyOf(d, cl, mysplit[1]), PrimaryKeyTable(d, cl),
                RelationOf(d, cl, mysplit[0], opts, LastSchema(OpeningKeys(d, cl, h), schema)),
                ExplicitLevels(d, cl, h))
  }

  function HierarchiesKeys(d: CubeDimension, cl: Classification, hs: seq<Hierarchy>): seq<string>
    requires DimensionWellFormed(d, cl) && HierarchiesWellFormed(hs)
  {
    if hs == [] then []
    else HierarchiesKeys(d, cl, hs[..|hs| - 1]) + HierarchyKeys(d, cl, hs[|hs| - 1])
  }

  /** The explicit hierarchies in order, each started with the sschema the
      previous ones left. */
  function ExplicitHierarchies(d: CubeDimension, cl: Classification, hs: seq<Hierarchy>, opts: Options, schema: string): seq<M.Hierarchy>
    requires DimensionWellFormed(d, cl) && HierarchiesWellFormed(hs)
  {
    if hs == [] then []
    else
      var pre := hs[..|hs| - 1];
      ExplicitHierarchies(d, cl, pre, opts, schema)
        + [ExplicitHierarchy(d, cl, hs[|hs| - 1], opts, LastSchema(HierarchiesKeys(d, cl, pre), schema))]
  }

  /** The keys the default hierarchy passes to splitField (lines 279, 301-302). */
  function HeadKeys(d: CubeDimension, cl: Classification): seq<string>
    requires DimensionWellFormed(d, cl)
  {
    [d.attributes[0].keyColumn] + SnowKeys(d, cl)
  }

  /** All keys a dimension passes to splitField, in call order. */
  function DimensionKeys(d: CubeDimension, cl: Classification): seq<string>
    requires DimensionWellFormed(d, cl)
  {
    HeadKeys(d, cl) + HierarchiesKeys(d, cl, d.hierarchies)
  }

  /** One <Dimension> (lines 279-426), started when sschema holds `schema`. */
  function DimensionOf(d: CubeDimension, cl: Classification, opts: Options, schema: string): M.Dimension
    requires DimensionWellFormed(d, cl)
  {
    var s := LastSchema(HeadKeys(d, cl), schema);
    M.Dimension(Header(d), [DefaultHierarchy(d, cl, opts, s)] + ExplicitHierarchies(d, cl, d.hierarchies, opts, s))
  }

  /** The foreign key of the dimension's usages (lines 289-290). */
  function ForeignKey(d: CubeDimension, cl: Classification): string
    requires DimensionWellFormed(d, cl)
  {
    if d.name in cl.specialFK then cl.specialFK[d.name] else Resolve(d.attributes[0].keyColumn)[1]
  }

  /** The cube dimensions the loop does not skip at line 276, in order. */
  function Retained(ds: seq<CubeDimension>, ignored: seq<string>): (r: seq<CubeDimension>)
    ensures forall i :: 0 <= i < |r| ==> r[i] in ds && r[i].name !in ignored
  {
    if ds == [] then []
    else
      var last := ds[|ds| - 1];
      Retained(ds[..|ds| - 1], ignored) + if last.name in ignored then [] else [last]
  }

  predicate AllWellFormed(rs: seq<CubeDimension>, cl: Classification) {
    forall i :: 0 <= i < |rs| ==> DimensionWellFormed(rs[i], cl)
  }

  lemma WellFormedPrefix(rs: seq<CubeDimension>, cl: Classification, n: nat)
    requires AllWellFormed(rs, cl) && n <= |rs|
    ensures AllWellFormed(rs[..n], cl)
  {
    forall i | 0 <= i < n ensures DimensionWellFormed(rs[..n][i], cl) {
      assert rs[..n][i] == rs[i];
    }
  }

  function DimensionsKeys(rs: seq<CubeDimension>, cl: Classification): seq<string>
    requires AllWellFormed(rs, cl)
  {
    if rs == [] then []
    else DimensionsKeys(rs[..|rs| - 1], cl) + DimensionKeys(rs[|rs| - 1], cl)
  }

  /** The shared dimensions of a cube in order, each started with the
      sschema the previous ones left. */
  function DimensionsOf(rs: seq<CubeDimension>, cl: Classification, opts: Options, schema: string): (r: seq<M.Dimension>)
    requires AllWellFormed(rs, cl)
    ensures |r| == |rs|
  {
    if rs == [] then []
    else
      var pre, last := rs[..|rs| - 1], rs[|rs| - 1];
      WellFormedPrefix(rs, cl, |rs| - 1);
      DimensionsOf(pre, cl, opts, schema) + [DimensionOf(last, cl, opts, LastSchema(DimensionsKeys(pre, cl), schema))]
  }

  /** The `fks` dictionary of line 292, keyed by the dimension's `dname`. */
  function ForeignKeys(rs: seq<CubeDimension>, cl: Classification): (fks: map<M.DimHeader, string>)
    requires AllWellFormed(rs, cl)
    ensures forall i :: 0 <= i < |rs| ==> Header(rs[i]) in fks
  {
    if rs == [] then map[]
    else
      var pre, last := rs[..|rs| - 1], rs[|rs| - 1];
      WellFormedPrefix(rs, cl, |rs| - 1);
      var fks := ForeignKeys(pre, cl);
      assert forall i :: 0 <= i < |rs| - 1 ==> Header(rs[i]) in fks by {
        forall i | 0 <= i < |rs| - 1 ensures Header(rs[i]) in fks {
          assert rs[i] == pre[i];
        }
      }
      fks[Header(last) := ForeignKey(last, cl)]
  }

  /** The `d2` list: the names of the retained dimensions. */
  function Names(rs: seq<CubeDimension>): seq<string> {
    seq(|rs|, i requires 0 <= i < |rs| => rs[i].name)
  }

  /** The <DimensionUsage> elements of every cube (lines 452-464). */
  function Usages(rs: seq<CubeDimension>, fks: map<M.DimHeader, string>): seq<M.DimensionUsage>
    requires forall i :: 0 <= i < |rs| ==> Header(rs[i]) in fks
  {
    seq(|rs|, i requires 0 <= i < |rs| => M.DimensionUsage(rs[i].name, fks[Header(rs[i])], Header(rs[i])))
  }

  function SharedDimensions(dims: seq<M.Dimension>): seq<M.Item> {
    seq(|dims|, i requires 0 <= i < |dims| => M.SharedDimension(dims[i]))
  }

  /** What a measure group needs to run without an exception: a first
      measure (line 434), which must be bound to a column when /A is given
      and its source text holds '_' (the cast at line 442). */
  predicate GroupWellFormed(g: MeasureGroup, opts: Options) {
    && |g.measures| > 0
    && (opts.includeSchema && '_' in BindingText(g.measures[0].source) ==> g.measures[0].source.ColumnBinding?)
  }

  /** sschema when the fact <Table> is written (lines 434-443): splitField
      on the first measure's source, then, with /A and a '_' anywhere in
      that source, the text of its table id before the first '_'. */
  function FactSchema(g: MeasureGroup, opts: Options, schema: string): string
    requires GroupWellFormed(g, opts)
  {
    var text := BindingText(g.measures[0].source);
    if opts.includeSchema && '_' in text then Split(g.measures[0].source.tableId, '_')[0]
    else SchemaAfter(text, schema)
  }

  function FactTable(g: MeasureGroup, opts: Options, schema: string): M.TableRef
    requires GroupWellFormed(g, opts)
  {
    M.TableRef(Resolve(BindingText(g.measures[0].source))[0], TableSchema(opts, FactSchema(g, opts, schema)), None)
  }

  /** Lines 496-502: a non-empty measure expression (one that could be read) makes a calculated member. */
  predicate IsCalculated(m: Measure) {
    m.expression.Some? && |m.expression.value| > 0
  }

  /** Line 513: otherwise a source with a column segment makes a stored measure. */
  predicate IsStored(m: Measure) {
    !IsCalculated(m) && |Resolve(BindingText(m.source))| > 1
  }

  function StoredMeasure(m: Measure): M.Measure
    requires IsStored(m)
  {
    M.Measure(m.name, Resolve(BindingText(m.source))[1], m.formatString, ConvertAggregation(m.aggregateFunction))
  }

  function CalculatedMember(m: Measure): M.CalculatedMember
    requires IsCalculated(m)
  {
    M.CalculatedMember(m.name, m.visible, m.expression.value, m.formatString)
  }

  /** The <Measure> elements of a measure group, in order. */
  function StoredMeasures(ms: seq<Measure>): seq<M.Measure> {
    if ms == [] then []
    else
      var m := ms[|ms| - 1];
      StoredMeasures(ms[..|ms| - 1]) + if IsStored(m) then [StoredMeasure(m)] else []
  }

  /** The names added to VCubeMeas for a measure group, in order. */
  function StoredNames(ms: seq<Measure>): seq<string> {
    if ms == [] then []
    else
      var m := ms[|ms| - 1];
      StoredNames(ms[..|ms| - 1]) + if IsStored(m) then [m.name] else []
  }

  /** The calculated members a measure group appends to cms, in order. */
  function CalculatedMembers(ms: seq<Measure>): seq<M.CalculatedMember> {
    if ms == [] then []
    else
      var m := ms[|ms| - 1];
      CalculatedMembers(ms[..|ms| - 1]) + if IsCalculated(m) then [CalculatedMember(m)] else []
  }

  /** The source texts a measure group passes to splitField in its measure loop. */
  function MeasureKeys(ms: seq<Measure>): seq<string> {
    seq(|ms|, i requires 0 <= i < |ms| => BindingText(ms[i].source))
  }

  /** Appending `x` to the list under `key`, creating the list when the key
      is absent (lines 454-462 and 518-526). */
  function Append(m: map<string, seq<string>>, key: string, x: string): map<string, seq<string>> {
    m[key := (if key in m then m[key] else []) + [x]]
  }

  /** Appending `xs` one by one to the list under `key`. */
  function Accumulate(m: map<string, seq<string>>, key: string, xs: seq<string>): map<string, seq<string>> {
    if xs == [] then m
    else Append(Accumulate(m, key, xs[..|xs| - 1]), key, xs[|xs| - 1])
  }

  /** The state of the walk: sschema, cms, Cubes, VCubeDims, VCubeMeas, and
      the <Dimension> and <Cube> elements written so far. */
  datatype Acc = Acc(
    sschema: string,
    cms: seq<M.CalculatedMember>,
    cubes: seq<string>,
    vcubeDims: map<string, seq<string>>,
    vcubeMeas: map<string, seq<string>>,
    items: seq<M.Item>)

  /** sschema and cms start null, which print as the empty text. */
  const Start := Acc("", [], [], map[], map[], [])

  /** One measure group (lines 432-540): a <Cube> with its fact table, a
      usage of every retained dimension, its stored measures and every
      calculated member collected so far. */
  function GroupStep(acc: Acc, g: MeasureGroup, rs: seq<CubeDimension>, fks: map<M.DimHeader, string>, opts: Options): Acc
    requires GroupWellFormed(g, opts)
    requires forall i :: 0 <= i < |rs| ==> Header(rs[i]) in fks
  {
    var cms := acc.cms + CalculatedMembers(g.measures);
    var cube := M.Cube(g.name, FactTable(g, opts, acc.sschema), Usages(rs, fks), StoredMeasures(g.measures), cms);
    Acc(LastSchema(MeasureKeys(g.measures), FactSchema(g, opts, acc.sschema)),
        cms,
        acc.cubes + [g.name],
        Accumulate(acc.vcubeDims, g.name, Names(rs)),
        Accumulate(acc.vcubeMeas, g.name, StoredNames(g.measures)),
        acc.items + [M.PhysicalCube(cube)])
  }

  predicate GroupsWellFormed(gs: seq<MeasureGroup>, opts: Options) {
    forall i :: 0 <= i < |gs| ==> GroupWellFormed(gs[i], opts)
  }

  function GroupsStep(acc: Acc, gs: seq<MeasureGroup>, rs: seq<CubeDimension>, fks: map<M.DimHeader, string>, opts: Options): Acc
    requires GroupsWellFormed(gs, opts)
    requires forall i :: 0 <= i < |rs| ==> Header(rs[i]) in fks
  {
    if gs == [] then acc
    else GroupStep(GroupsStep(acc, gs[..|gs| - 1], rs, fks, opts), gs[|gs| - 1], rs, fks, opts)
  }

  /** No two retained dimensions share a `dname` (fks.Add at line 292 throws otherwise). */
  predicate DistinctHeaders(rs: seq<CubeDimension>) {
    forall i, j :: 0 <= i < j < |rs| ==> Header(rs[i]) != Header(rs[j])
  }

  function CubeClassification(c: Cube): Classification {
    Classify(AllLinks(c.measureGroups), BoolM2M)
  }

  function CubeDimensions(c: Cube): seq<CubeDimension> {
    Retained(c.dimensions, CubeClassification(c).ignored)
  }

  predicate CubeWellFormed(c: Cube, opts: Options) {
    && GroupsWellFormed(c.measureGroups, opts)
    && AllWellFormed(CubeDimensions(c), CubeClassification(c))
    && DistinctHeaders(CubeDimensions(c))
  }

  /** One selected cube (lines 236-540): classify its links, write its
      retained dimensions, then one <Cube> per measure group. */
  function CubeStep(acc: Acc, c: Cube, opts: Options): Acc
    requires CubeWellFormed(c, opts)
  {
    var scan := ScanLinks(AllLinks(c.measureGroups), BoolM2M);
    var cl := scan.cl;
    var rs := CubeDimensions(c);
    var s := LastSchema(scan.splits, acc.sschema);
    var dims := DimensionsOf(rs, cl, opts, s);
    GroupsStep(acc.(sschema := LastSchema(DimensionsKeys(rs, cl), s), items := acc.items + SharedDimensions(dims)),
               c.measureGroups, rs, ForeignKeys(rs, cl), opts)
  }

  predicate CubesWellFormed(cs: seq<Cube>, opts: Options) {
    forall j :: 0 <= j < |cs| && Selected(opts.cube, cs[j].name) ==> CubeWellFormed(cs[j], opts)
  }

  /** The cube loop of one database (line 231): unselected cubes are skipped. */
  function CubesStep(acc: Acc, cs: seq<Cube>, opts: Options): Acc
    requires CubesWellFormed(cs, opts)
  {
    if cs == [] then acc
    else
      var prev := CubesStep(acc, cs[..|cs| - 1], opts);
      var c := cs[|cs| - 1];
      if Selected(opts.cube, c.name) then CubeStep(prev, c, opts) else prev
  }

  predicate RunWellFormed(dbs: seq<Database>, opts: Options) {
    forall i :: 0 <= i < |dbs| && Selected(opts.database, dbs[i].name) ==> CubesWellFormed(dbs[i].cubes, opts)
  }

  /** The database loop (line 225): unselected databases are skipped. */
  function DatabasesStep(acc: Acc, dbs: seq<Database>, opts: Options): Acc
    requires RunWellFormed(dbs, opts)
  {
    if dbs == [] then acc
    else
      var prev := DatabasesStep(acc, dbs[..|dbs| - 1], opts);
      var db := dbs[|dbs| - 1];
      if Selected(opts.database, db.name) then CubesStep(prev, db.cubes, opts) else prev
  }

  /** The whole <Schema>: every element written by the walk, then the virtual cube. */
  function Convert(dbs: seq<Database>, opts: Options): M.Schema
    requires RunWellFormed(dbs, opts)
  {
    var acc := DatabasesStep(Start, dbs, opts);
    var name := SchemaName(opts);
    M.Schema(name, acc.items, VirtualCubes.VirtualCubeOf(name, acc.cubes, acc.vcubeDims, acc.vcubeMeas, acc.cms))
  }
}
