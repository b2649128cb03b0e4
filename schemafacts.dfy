/// Properties of the schema the walk in Builder writes: which dimensions
/// appear, the shape of snowflake hierarchies, the foreign keys of
/// dimension usages, the split of measures into stored measures and
/// calculated members, and how the accumulators behave.
module SchemaFacts {
  import opened Strings
  import opened Taxonomy
  import opened Resolver
  import opened Amo
  import opened Classifier
  import opened Builder
  import M = Mondrian

  /** A cube dimension survives the skip at line 276 exactly when it is not ignored. */
  lemma {:induction false} RetainedIff(ds: seq<CubeDimension>, ignored: seq<string>, d: CubeDimension)
    ensures d in Retained(ds, ignored) <==> d in ds && d.name !in ignored
    decreases |ds|
  {
    if ds != [] {
      var pre, last := ds[..|ds| - 1], ds[|ds| - 1];
      RetainedIff(pre, ignored, d);
      assert ds == pre + [last];
    }
  }

  /** Appending one by one is appending the whole list, and only `key` changes. */
  lemma {:induction false} AccumulateAppends(m: map<string, seq<string>>, key: string, xs: seq<string>)
    ensures Accumulate(m, key, xs) ==
      if xs == [] then m else m[key := (if key in m then m[key] else []) + xs]
    decreases |xs|
  {
    if xs != [] {
      var pre, last := xs[..|xs| - 1], xs[|xs| - 1];
      AccumulateAppends(m, key, pre);
      assert xs == pre + [last];
      if pre == [] {
        assert xs == [last];
      } else {
        assert (if key in m then m[key] else []) + pre + [last] == (if key in m then m[key] else []) + xs;
      }
    }
  }

  /** Every stored measure of the group is written as a <Measure>. */
  lemma {:induction false} StoredMeasureWritten(ms: seq<Measure>, i: nat)
    requires i < |ms| && IsStored(ms[i])
    ensures StoredMeasure(ms[i]) in StoredMeasures(ms)
    decreases |ms|
  {
    if i < |ms| - 1 {
      var pre := ms[..|ms| - 1];
      assert pre[i] == ms[i];
      StoredMeasureWritten(pre, i);
      assert StoredMeasures(pre) <= StoredMeasures(ms);
    }
  }

  /** Every <Measure> written comes from a stored measure of the group. */
  lemma {:induction false} StoredMeasureOrigin(ms: seq<Measure>, x: M.Measure)
    requires x in StoredMeasures(ms)
    ensures exists i :: 0 <= i < |ms| && IsStored(ms[i]) && StoredMeasure(ms[i]) == x
    decreases |ms|
  {
    var pre, last := ms[..|ms| - 1], ms[|ms| - 1];
    if x in StoredMeasures(pre) {
      StoredMeasureOrigin(pre, x);
      var i :| 0 <= i < |pre| && IsStored(pre[i]) && StoredMeasure(pre[i]) == x;
      assert ms[i] == pre[i];
    } else {
      assert ms[|ms| - 1] == last;
    }
  }

  /** A measure becomes a calculated member exactly when it has a non-empty expression. */
  lemma {:induction false} CalculatedMembersIff(ms: seq<Measure>, x: M.CalculatedMember)
    ensures x in CalculatedMembers(ms) <==> exists i :: 0 <= i < |ms| && IsCalculated(ms[i]) && CalculatedMember(ms[i]) == x
    decreases |ms|
  {
    if ms != [] {
      var pre, last := ms[..|ms| - 1], ms[|ms| - 1];
      CalculatedMembersIff(pre, x);
      if exists i :: 0 <= i < |ms| && IsCalculated(ms[i]) && CalculatedMember(ms[i]) == x {
        var i :| 0 <= i < |ms| && IsCalculated(ms[i]) && CalculatedMember(ms[i]) == x;
        if i < |pre| {
          assert pre[i] == ms[i];
        }
      }
      if exists i :: 0 <= i < |pre| && IsCalculated(pre[i]) && CalculatedMember(pre[i]) == x {
        var i :| 0 <= i < |pre| && IsCalculated(pre[i]) && CalculatedMember(pre[i]) == x;
        assert ms[i] == pre[i];
      }
    }
  }

  /** VCubeMeas receives the names of exactly the <Measure> elements written, in order. */
  lemma {:induction false} StoredNamesMatch(ms: seq<Measure>)
    ensures |StoredNames(ms)| == |StoredMeasures(ms)|
    ensures forall i :: 0 <= i < |StoredNames(ms)| ==> StoredNames(ms)[i] == StoredMeasures(ms)[i].name
    decreases |ms|
  {
    if ms != [] {
      StoredNamesMatch(ms[..|ms| - 1]);
    }
  }

  /** The i-th explicit hierarchy is built from the i-th source hierarchy,
      started with the sschema the hierarchies before it left. */
  lemma {:induction false} ExplicitHierarchyAt(d: CubeDimension, cl: Classification, hs: seq<Hierarchy>, opts: Options, schema: string, i: nat)
    requires DimensionWellFormed(d, cl) && HierarchiesWellFormed(hs) && i < |hs|
    ensures i < |ExplicitHierarchies(d, cl, hs, opts, schema)|
    ensures ExplicitHierarchies(d, cl, hs, opts, schema)[i] ==
      ExplicitHierarchy(d, cl, hs[i], opts, LastSchema(HierarchiesKeys(d, cl, hs[..i]), schema))
    decreases |hs|
  {
    var pre := hs[..|hs| - 1];
    ExplicitHierarchiesLength(d, cl, pre, opts, schema);
    if i < |pre| {
      ExplicitHierarchyAt(d, cl, pre, opts, schema, i);
      assert hs[..i] == pre[..i];
      assert hs[i] == pre[i];
    } else {
      assert hs[..i] == pre;
    }
  }

  lemma {:induction false} ExplicitHierarchiesLength(d: CubeDimension, cl: Classification, hs: seq<Hierarchy>, opts: Options, schema: string)
    requires DimensionWellFormed(d, cl) && HierarchiesWellFormed(hs)
    ensures |ExplicitHierarchies(d, cl, hs, opts, schema)| == |hs|
    decreases |hs|
  {
    if hs != [] {
      ExplicitHierarchiesLength(d, cl, hs[..|hs| - 1], opts, schema);
    }
  }

  /** The join of lines 305-319: the intermediate table (alias "a", from the
      first attribute's key) joined on its granularity column to the
      referenced table (alias "b") on the referenced key column; the primary
      key is the special foreign key, on table "a"; every level reads table "b". */
  predicate SnowflakeHierarchy(h: M.Hierarchy, d: CubeDimension, cl: Classification)
    requires DimensionWellFormed(d, cl) && Snowflaked(d, cl)
  {
    var ms := Resolve(cl.refdims[d.name]);
    var ks := Resolve(cl.refdims[d.name + "XX"]);
    && h.primaryKey == cl.specialFK[d.name]
    && h.primaryKeyTable == Some("a")
    && h.relation.Join?
    && h.relation.leftAlias == "a" && h.relation.leftKey == ks[1]
    && h.relation.rightAlias == "b" && h.relation.rightKey == ms[1]
    && h.relation.left.name == Resolve(d.attributes[0].keyColumn)[0] && h.relation.left.alias == Some("a")
    && h.relation.right.name == ks[0] && h.relation.right.alias == Some("b")
    && forall l <- h.levels :: l.table == Some("b")
  }

  /** A plain dimension: one unaliased table, no primaryKeyTable, levels without a table. */
  predicate FlatHierarchy(h: M.Hierarchy) {
    && h.primaryKeyTable.None?
    && h.relation.Table?
    && h.relation.table.alias.None?
    && forall l <- h.levels :: l.table.None?
  }

  /** The shape every hierarchy of the dimension has. */
  predicate HierarchyShape(h: M.Hierarchy, d: CubeDimension, cl: Classification)
    requires DimensionWellFormed(d, cl)
  {
    if Snowflaked(d, cl) then SnowflakeHierarchy(h, d, cl) else FlatHierarchy(h)
  }

  lemma DefaultHierarchyShape(d: CubeDimension, cl: Classification, opts: Options, schema: string)
    requires DimensionWellFormed(d, cl)
    ensures HierarchyShape(DefaultHierarchy(d, cl, opts, schema), d, cl)
  {
    var ls := DefaultLevels(d, cl);
    assert forall l <- ls :: l.table == LevelTable(d, cl) by {
      forall l | l in ls ensures l.table == LevelTable(d, cl) {
        var i :| 0 <= i < |ls| && ls[i] == l;
      }
    }
  }

  lemma ExplicitHierarchyShape(d: CubeDimension, cl: Classification, h: Hierarchy, opts: Options, schema: string)
    requires DimensionWellFormed(d, cl) && HierarchyWellFormed(h)
    ensures HierarchyShape(ExplicitHierarchy(d, cl, h, opts, schema), d, cl)
    ensures ExplicitHierarchy(d, cl, h, opts, schema).name == h.name
  {
    var ls := ExplicitLevels(d, cl, h);
    assert forall l <- ls :: l.table == LevelTable(d, cl) by {
      forall l | l in ls ensures l.table == LevelTable(d, cl) {
        var i :| 0 <= i < |ls| && ls[i] == l;
      }
    }
  }

  lemma DimensionParts(d: CubeDimension, cl: Classification, opts: Options, schema: string)
    requires DimensionWellFormed(d, cl)
    ensures var hs := DimensionOf(d, cl, opts, schema).hierarchies;
      var s := LastSchema(HeadKeys(d, cl), schema);
      && |hs| == |d.hierarchies| + 1
      && hs[0] == DefaultHierarchy(d, cl, opts, s)
      && hs[1..] == ExplicitHierarchies(d, cl, d.hierarchies, opts, s)
  {
    ExplicitHierarchiesLength(d, cl, d.hierarchies, opts, LastSchema(HeadKeys(d, cl), schema));
  }

  /** Levels of a time dimension carry a Mondrian time level type; all
      other levels are "Regular" (lines 346-349, 413-416). */
  predicate LevelsTyped(h: M.Hierarchy, d: CubeDimension) {
    forall l <- h.levels :: if IsTime(d) then l.levelType in TimeLevelTypes else l.levelType == "Regular"
  }

  lemma DefaultLevelsTyped(d: CubeDimension, cl: Classification, opts: Options, schema: string)
    requires DimensionWellFormed(d, cl)
    ensures LevelsTyped(DefaultHierarchy(d, cl, opts, schema), d)
  {
    var ls := DefaultLevels(d, cl);
    forall l | l in ls
      ensures if IsTime(d) then l.levelType in TimeLevelTypes else l.levelType == "Regular"
    {
      var j :| 0 <= j < |ls| && ls[j] == l;
    }
  }

  lemma ExplicitLevelsTyped(d: CubeDimension, cl: Classification, h: Hierarchy, opts: Options, schema: string)
    requires DimensionWellFormed(d, cl) && HierarchyWellFormed(h)
    ensures LevelsTyped(ExplicitHierarchy(d, cl, h, opts, schema), d)
  {
    var ls := ExplicitLevels(d, cl, h);
    forall l | l in ls
      ensures if IsTime(d) then l.levelType in TimeLevelTypes else l.levelType == "Regular"
    {
      var j :| 0 <= j < |ls| && ls[j] == l;
    }
  }

  /** One written hierarchy per source hierarchy, in order: each keeps its
      source's name, has the dimension's shape and typed levels. */
  lemma {:induction false} ExplicitHierarchiesFacts(d: CubeDimension, cl: Classification, hs: seq<Hierarchy>, opts: Options, schema: string)
    requires DimensionWellFormed(d, cl) && HierarchiesWellFormed(hs)
    ensures var r := ExplicitHierarchies(d, cl, hs, opts, schema);
      && |r| == |hs|
      && forall k :: 0 <= k < |r| ==>
           r[k].name == hs[k].name && HierarchyShape(r[k], d, cl) && LevelsTyped(r[k], d)
    decreases |hs|
  {
    if hs != [] {
      var pre, last := hs[..|hs| - 1], hs[|hs| - 1];
      var t := LastSchema(HierarchiesKeys(d, cl, pre), schema);
      ExplicitHierarchiesFacts(d, cl, pre, opts, schema);
      ExplicitHierarchyShape(d, cl, last, opts, t);
      ExplicitLevelsTyped(d, cl, last, opts, t);
    }
  }

  /** A dimension is written as the "Default" hierarchy followed by one
      hierarchy per source hierarchy, with the source's name, all
      snowflaked or all flat. */
  lemma SnowflakeShape(d: CubeDimension, cl: Classification, opts: Options, schema: string)
    requires DimensionWellFormed(d, cl)
    ensures var dim := DimensionOf(d, cl, opts, schema);
      && dim.header == Header(d)
      && |dim.hierarchies| == |d.hierarchies| + 1
      && dim.hierarchies[0].name == "Default"
      && (forall k :: 1 <= k < |dim.hierarchies| ==> dim.hierarchies[k].name == d.hierarchies[k - 1].name)
      && (forall k :: 0 <= k < |dim.hierarchies| ==> HierarchyShape(dim.hierarchies[k], d, cl))
  {
    var s := LastSchema(HeadKeys(d, cl), schema);
    var hs := DimensionOf(d, cl, opts, schema).hierarchies;
    DimensionParts(d, cl, opts, schema);
    DefaultHierarchyShape(d, cl, opts, s);
    ExplicitHierarchiesFacts(d, cl, d.hierarchies, opts, s);
    forall k | 1 <= k < |hs|
      ensures hs[k].name == d.hierarchies[k - 1].name && HierarchyShape(hs[k], d, cl)
    {
      assert hs[k] == hs[1..][k - 1];
    }
  }

  /** Every level of every hierarchy of a written dimension is typed by the dimension's kind. */
  lemma LevelTypesOfDimension(d: CubeDimension, cl: Classification, opts: Options, schema: string)
    requires DimensionWellFormed(d, cl)
    ensures forall h <- DimensionOf(d, cl, opts, schema).hierarchies :: LevelsTyped(h, d)
  {
    var s := LastSchema(HeadKeys(d, cl), schema);
    var hs := DimensionOf(d, cl, opts, schema).hierarchies;
    DimensionParts(d, cl, opts, schema);
    DefaultLevelsTyped(d, cl, opts, s);
    ExplicitHierarchiesFacts(d, cl, d.hierarchies, opts, s);
    forall h | h in hs ensures LevelsTyped(h, d) {
      var k :| 0 <= k < |hs| && hs[k] == h;
      if k > 0 {
        assert hs[k] == hs[1..][k - 1];
      }
    }
  }

  /** Every table of the hierarchy's relation carries the schema attribute `sch`. */
  predicate TablesCarry(h: M.Hierarchy, sch: Option<string>) {
    match h.relation
    case Table(t) => t.schema == sch
    case Join(_, _, _, _, left, right) => left.schema == sch && right.schema == sch
  }

  /** keys[k] is the last of `keys` that has a schema prefix. */
  predicate LastWriterAt(keys: seq<string>, k: int) {
    0 <= k < |keys| && HasSchemaPrefix(keys[k]) && forall j :: k < j < |keys| ==> !HasSchemaPrefix(keys[j])
  }

  /** The schema attribute on a hierarchy's tables after splitField has run
      over `keys`, starting from sschema = `schema`: none without /A; with
      /A, the prefix of the last key that had one, or `schema` itself when
      no key had one (sschema is a shared field written only at line 36). */
  predicate SchemaFromLastWriter(h: M.Hierarchy, opts: Options, keys: seq<string>, schema: string) {
    && (!opts.includeSchema ==> TablesCarry(h, None))
    && (opts.includeSchema ==>
          && (forall k :: 0 <= k < |keys| && LastWriterAt(keys, k) ==> TablesCarry(h, Some(SchemaPrefix(keys[k]))))
          && ((forall k :: 0 <= k < |keys| ==> !HasSchemaPrefix(keys[k])) ==> TablesCarry(h, Some(schema))))
  }

  /** Tables written with sschema as the calls over `keys` left it have the
      last writer's schema. */
  lemma LastWriterTables(h: M.Hierarchy, opts: Options, keys: seq<string>, schema: string)
    requires TablesCarry(h, TableSchema(opts, LastSchema(keys, schema)))
    ensures SchemaFromLastWriter(h, opts, keys, schema)
  {
    if opts.includeSchema {
      forall k | LastWriterAt(keys, k)
        ensures TablesCarry(h, Some(SchemaPrefix(keys[k])))
      {
        LastWriterWins(keys, schema, k);
      }
      if forall k :: 0 <= k < |keys| ==> !HasSchemaPrefix(keys[k]) {
        NoWriterKeepsSchema(keys, schema);
      }
    }
  }

  /** The "Default" hierarchy's tables (lines 308-334) take their schema from
      the last of the first attribute's key (line 279) and, for a snowflake,
      the base and granularity keys (lines 301-302) that has a prefix. */
  lemma DefaultTableSchema(d: CubeDimension, cl: Classification, opts: Options, schema: string)
    requires DimensionWellFormed(d, cl)
    ensures SchemaFromLastWriter(DefaultHierarchy(d, cl, opts, LastSchema(HeadKeys(d, cl), schema)),
                                 opts, HeadKeys(d, cl), schema)
  {
    LastWriterTables(DefaultHierarchy(d, cl, opts, LastSchema(HeadKeys(d, cl), schema)), opts, HeadKeys(d, cl), schema);
  }

  /** An explicit hierarchy's tables (lines 379-405) take their schema from
      the last of its first level's key (line 364) and, for a snowflake, the
      base and granularity keys (lines 374-375) that has a prefix. */
  lemma ExplicitTableSchema(d: CubeDimension, cl: Classification, h: Hierarchy, opts: Options, schema: string)
    requires DimensionWellFormed(d, cl) && HierarchyWellFormed(h)
    ensures SchemaFromLastWriter(ExplicitHierarchy(d, cl, h, opts, schema), opts, OpeningKeys(d, cl, h), schema)
  {
    LastWriterTables(ExplicitHierarchy(d, cl, h, opts, schema), opts, OpeningKeys(d, cl, h), schema);
  }

  /** The keys a dimension has passed to splitField when the tables of its
      i-th hierarchy are written: the default hierarchy's for i = 0; for
      i > 0, those, every key of the explicit hierarchies before, and the
      opening keys of the (i-1)-th explicit hierarchy. */
  function KeysBefore(d: CubeDimension, cl: Classification, i: nat): seq<string>
    requires DimensionWellFormed(d, cl) && i < |d.hierarchies| + 1
  {
    if i == 0 then HeadKeys(d, cl)
    else HeadKeys(d, cl) + HierarchiesKeys(d, cl, d.hierarchies[..i - 1]) + OpeningKeys(d, cl, d.hierarchies[i - 1])
  }

  lemma DefaultTableSchemaInDimension(d: CubeDimension, cl: Classification, opts: Options, schema: string)
    requires DimensionWellFormed(d, cl)
    ensures 0 < |DimensionOf(d, cl, opts, schema).hierarchies|
    ensures SchemaFromLastWriter(DimensionOf(d, cl, opts, schema).hierarchies[0], opts, HeadKeys(d, cl), schema)
  {
    DimensionParts(d, cl, opts, schema);
    DefaultTableSchema(d, cl, opts, schema);
  }

  lemma ExplicitTableSchemaInDimension(d: CubeDimension, cl: Classification, opts: Options, schema: string, i: nat)
    requires DimensionWellFormed(d, cl)
    requires 0 < i < |d.hierarchies| + 1
    ensures i < |DimensionOf(d, cl, opts, schema).hierarchies|
    ensures SchemaFromLastWriter(DimensionOf(d, cl, opts, schema).hierarchies[i], opts, KeysBefore(d, cl, i), schema)
  {
    var s := LastSchema(HeadKeys(d, cl), schema);
    var hs := DimensionOf(d, cl, opts, schema).hierarchies;
    DimensionParts(d, cl, opts, schema);
    var h := d.hierarchies[i - 1];
    var before := HierarchiesKeys(d, cl, d.hierarchies[..i - 1]);
    var t := LastSchema(before, s);
    ExplicitHierarchyAt(d, cl, d.hierarchies, opts, s, i - 1);
    assert hs[i] == hs[1..][i - 1];
    LastSchemaAppend(HeadKeys(d, cl), before, schema);
    LastSchemaAppend(HeadKeys(d, cl) + before, OpeningKeys(d, cl, h), schema);
    LastWriterTables(hs[i], opts, KeysBefore(d, cl, i), schema);
  }

  /** The schema attribute of every hierarchy's tables comes from the last
      writer of the shared sschema field among all the keys the dimension
      has split so far, or is the sschema the dimension started with. */
  lemma TableSchemaLastWriter(d: CubeDimension, cl: Classification, opts: Options, schema: string, i: nat)
    requires DimensionWellFormed(d, cl)
    requires i < |d.hierarchies| + 1
    ensures i < |DimensionOf(d, cl, opts, schema).hierarchies|
    ensures SchemaFromLastWriter(DimensionOf(d, cl, opts, schema).hierarchies[i], opts, KeysBefore(d, cl, i), schema)
  {
    if i == 0 {
      DefaultTableSchemaInDimension(d, cl, opts, schema);
    } else {
      ExplicitTableSchemaInDimension(d, cl, opts, schema, i);
    }
  }

  /** A snowflake whose base key (line 301) has a schema prefix and whose
      granularity key (line 302) has none writes both tables of its
      "Default" join with the base key's schema (lines 310-311). */
  lemma SnowflakeBaseKeySchema(d: CubeDimension, cl: Classification, opts: Options, schema: string)
    requires DimensionWellFormed(d, cl) && Snowflaked(d, cl) && opts.includeSchema
    requires HasSchemaPrefix(cl.refdims[d.name]) && !HasSchemaPrefix(cl.refdims[d.name + "XX"])
    ensures 0 < |DimensionOf(d, cl, opts, schema).hierarchies|
    ensures var h := DimensionOf(d, cl, opts, schema).hierarchies[0];
      && h.relation.Join?
      && h.relation.left.schema == Some(SchemaPrefix(cl.refdims[d.name]))
      && h.relation.right.schema == Some(SchemaPrefix(cl.refdims[d.name]))
  {
    DimensionParts(d, cl, opts, schema);
    DefaultHierarchyShape(d, cl, opts, LastSchema(HeadKeys(d, cl), schema));
    DefaultTableSchemaInDimension(d, cl, opts, schema);
    assert LastWriterAt(HeadKeys(d, cl), 1);
  }

  /** The i-th <Dimension> of a cube is its i-th retained dimension, written
      with the sschema the dimensions before it left. */
  lemma {:induction false} DimensionsOfAt(rs: seq<CubeDimension>, cl: Classification, opts: Options, schema: string, i: nat)
    requires AllWellFormed(rs, cl) && i < |rs|
    ensures AllWellFormed(rs[..i], cl)
    ensures DimensionsOf(rs, cl, opts, schema)[i] == DimensionOf(rs[i], cl, opts, LastSchema(DimensionsKeys(rs[..i], cl), schema))
    decreases |rs|
  {
    var pre := rs[..|rs| - 1];
    WellFormedPrefix(rs, cl, |rs| - 1);
    WellFormedPrefix(rs, cl, i);
    if i < |pre| {
      DimensionsOfAt(pre, cl, opts, schema, i);
      assert pre[..i] == rs[..i];
      assert pre[i] == rs[i];
    } else {
      assert rs[..i] == pre;
    }
  }

  /** With distinct `dname`s, the fks dictionary maps each retained
      dimension to its own foreign key. */
  lemma {:induction false} ForeignKeysAt(rs: seq<CubeDimension>, cl: Classification, i: nat)
    requires AllWellFormed(rs, cl) && DistinctHeaders(rs) && i < |rs|
    ensures ForeignKeys(rs, cl)[Header(rs[i])] == ForeignKey(rs[i], cl)
    decreases |rs|
  {
    var pre, last := rs[..|rs| - 1], rs[|rs| - 1];
    WellFormedPrefix(rs, cl, |rs| - 1);
    var fks := ForeignKeys(pre, cl);
    assert ForeignKeys(rs, cl) == fks[Header(last) := ForeignKey(last, cl)];
    if i < |pre| {
      assert DistinctHeaders(pre) by {
        forall j, k | 0 <= j < k < |pre| ensures Header(pre[j]) != Header(pre[k]) {
          assert pre[j] == rs[j] && pre[k] == rs[k];
        }
      }
      ForeignKeysAt(pre, cl, i);
      assert pre[i] == rs[i];
      assert Header(rs[i]) != Header(last);
    }
  }

  /** The usages of every cube: one per retained dimension, in order, each
      with the dimension's foreign key (line 453). */
  lemma UsagesFollowDimensions(rs: seq<CubeDimension>, cl: Classification)
    requires AllWellFormed(rs, cl) && DistinctHeaders(rs)
    ensures var us := Usages(rs, ForeignKeys(rs, cl));
      && |us| == |rs|
      && forall i :: 0 <= i < |rs| ==> us[i] == M.DimensionUsage(rs[i].name, ForeignKey(rs[i], cl), Header(rs[i]))
  {
    forall i | 0 <= i < |rs| ensures ForeignKeys(rs, cl)[Header(rs[i])] == ForeignKey(rs[i], cl) {
      ForeignKeysAt(rs, cl, i);
    }
  }

  /** A retained dimension's foreign key is the column of its special
      foreign key, taken from a reference link whose lookups all
      succeeded, when it has one, and the column of its first attribute's
      key otherwise (lines 289-290). */
  lemma ForeignKeyOrigin(links: seq<Link>, d: CubeDimension)
    requires DimensionWellFormed(d, Classify(links, BoolM2M))
    ensures var cl := Classify(links, BoolM2M);
      && (d.name in cl.specialFK ==>
            exists k :: 0 <= k < |links| && SuppliesSpecialFK(links[k], d.name, ForeignKey(d, cl)))
      && (d.name !in cl.specialFK ==> ForeignKey(d, cl) == Resolve(d.attributes[0].keyColumn)[1])
  {
    var cl := Classify(links, BoolM2M);
    if d.name in cl.specialFK {
      SpecialFKOrigin(links, BoolM2M, d.name);
    }
  }
}
