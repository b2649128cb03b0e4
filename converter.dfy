/// The converter's walk as the program runs it (Program.cs:20-40, 217-576):
/// the static `sschema`, Main's `cms`, `Cubes`, `VCubeDims` and
/// `VCubeMeas`, and the elements written so far are the fields of one
/// Converter object, and every loop of Main is a method whose loop
/// invariants tie the object's state to the fold that Builder defines.
module Converter {
  import opened Strings
  import opened Taxonomy
  import opened Resolver
  import opened Amo
  import opened Classifier
  import opened Builder
  import M = Mondrian
  import VirtualCubes

  /** A prefix one element longer is the shorter prefix and that element. */
  lemma PrefixSnoc<T>(s: seq<T>, i: nat)
    requires i < |s|
    ensures s[..i + 1] == s[..i] + [s[i]]
  {
  }

  /** Appending one element after two parts. */
  lemma AppendAssoc<T>(a: seq<T>, b: seq<T>, x: T)
    ensures a + (b + [x]) == a + b + [x]
  {
  }

  /** The same, after a fixed first part. */
  lemma AppendPrefixSnoc<T>(a: seq<T>, s: seq<T>, i: nat)
    requires i < |s|
    ensures a + s[..i + 1] == a + s[..i] + [s[i]]
  {
    PrefixSnoc(s, i);
    assert a + (s[..i] + [s[i]]) == a + s[..i] + [s[i]];
  }

  /** One more splitField call on the next key. */
  lemma LastSchemaStep(keys: seq<string>, j: nat, schema: string)
    requires j < |keys|
    ensures LastSchema(keys[..j + 1], schema) == SchemaAfter(keys[j], LastSchema(keys[..j], schema))
  {
    assert keys[..j + 1][..j] == keys[..j];
  }

  /** Retained keeps the order of the dimensions, so the dimensions retained
      from a prefix are a prefix of those retained from the whole. */
  lemma {:induction false} RetainedPrefix(ds: seq<CubeDimension>, ignored: seq<string>, i: nat)
    requires i <= |ds|
    ensures Retained(ds[..i], ignored) <= Retained(ds, ignored)
    decreases |ds|
  {
    if i < |ds| {
      var pre := ds[..|ds| - 1];
      assert ds[..i] == pre[..i];
      RetainedPrefix(pre, ignored, i);
    } else {
      assert ds[..i] == ds;
    }
  }

  /** Scanning one more link is one more LinkStep. */
  lemma ScanLinksSnoc(links: seq<Link>, link: Link)
    ensures var prev := ScanLinks(links, BoolM2M);
      var step := LinkStep(prev.cl, link, BoolM2M);
      ScanLinks(links + [link], BoolM2M) == Scan(step.cl, prev.splits + step.splits)
  {
    assert (links + [link])[..|links|] == links;
  }

  lemma LastSchemaOne(key: string, schema: string)
    ensures LastSchema([key], schema) == SchemaAfter(key, schema)
  {
    assert [key][..0] == [];
  }

  lemma LastSchemaPair(first: string, second: string, schema: string)
    ensures LastSchema([first, second], schema) == SchemaAfter(second, SchemaAfter(first, schema))
  {
    assert [first, second][..1] == [first];
    LastSchemaOne(first, schema);
  }

  /** The explicit hierarchies and their keys grow by one hierarchy at a time. */
  lemma HierarchiesSnoc(d: CubeDimension, cl: Classification, hs: seq<Hierarchy>, k: nat, opts: Options, schema: string)
    requires DimensionWellFormed(d, cl) && HierarchiesWellFormed(hs) && k < |hs|
    ensures var pre := hs[..k];
      && ExplicitHierarchies(d, cl, hs[..k + 1], opts, schema)
           == ExplicitHierarchies(d, cl, pre, opts, schema)
              + [ExplicitHierarchy(d, cl, hs[k], opts, LastSchema(HierarchiesKeys(d, cl, pre), schema))]
      && LastSchema(HierarchiesKeys(d, cl, hs[..k + 1]), schema)
           == LastSchema(HierarchyKeys(d, cl, hs[k]), LastSchema(HierarchiesKeys(d, cl, pre), schema))
  {
    assert hs[..k + 1][..k] == hs[..k];
    LastSchemaAppend(HierarchiesKeys(d, cl, hs[..k]), HierarchyKeys(d, cl, hs[k]), schema);
  }

  /** The retained dimensions' outputs grow by one dimension at a time. */
  lemma DimensionsSnoc(rs: seq<CubeDimension>, d: CubeDimension, cl: Classification, opts: Options, schema: string)
    requires AllWellFormed(rs + [d], cl)
    ensures AllWellFormed(rs, cl) && DimensionWellFormed(d, cl)
    ensures var s := LastSchema(DimensionsKeys(rs, cl), schema);
      && DimensionsOf(rs + [d], cl, opts, schema) == DimensionsOf(rs, cl, opts, schema) + [DimensionOf(d, cl, opts, s)]
      && LastSchema(DimensionsKeys(rs + [d], cl), schema) == LastSchema(DimensionKeys(d, cl), s)
      && ForeignKeys(rs + [d], cl) == ForeignKeys(rs, cl)[Header(d) := ForeignKey(d, cl)]
  {
    assert (rs + [d])[..|rs|] == rs;
    assert (rs + [d])[|rs|] == d;
    WellFormedPrefix(rs + [d], cl, |rs|);
    LastSchemaAppend(DimensionsKeys(rs, cl), DimensionKeys(d, cl), schema);
  }

  /** Writing one more dimension extends the written items by it. */
  lemma ItemsSnoc(written: seq<M.Item>, rs: seq<CubeDimension>, d: CubeDimension, cl: Classification,
                  opts: Options, schema: string)
    requires AllWellFormed(rs + [d], cl) && AllWellFormed(rs, cl)
    ensures written + SharedDimensions(DimensionsOf(rs + [d], cl, opts, schema))
      == written + SharedDimensions(DimensionsOf(rs, cl, opts, schema))
         + [M.SharedDimension(DimensionOf(d, cl, opts, LastSchema(DimensionsKeys(rs, cl), schema)))]
  {
    DimensionsSnoc(rs, d, cl, opts, schema);
    var dims := DimensionsOf(rs, cl, opts, schema);
    var dim := DimensionOf(d, cl, opts, LastSchema(DimensionsKeys(rs, cl), schema));
    SharedDimensionsSnoc(dims, dim);
    AppendAssoc(written, SharedDimensions(dims), M.SharedDimension(dim));
  }

  lemma SharedDimensionsSnoc(dims: seq<M.Dimension>, dim: M.Dimension)
    ensures SharedDimensions(dims + [dim]) == SharedDimensions(dims) + [M.SharedDimension(dim)]
  {
  }

  /** The dimensions retained from one more cube dimension. */
  lemma RetainedSnoc(ds: seq<CubeDimension>, ignored: seq<string>, i: nat)
    requires i < |ds|
    ensures Retained(ds[..i + 1], ignored)
      == Retained(ds[..i], ignored) + if ds[i].name in ignored then [] else [ds[i]]
  {
    assert ds[..i + 1][..i] == ds[..i];
  }

  /** The dimensions retained from one more cube dimension: none when it is
      ignored, otherwise that dimension, which is well formed. */
  lemma RetainedStep(ds: seq<CubeDimension>, cl: Classification, i: nat)
    requires i < |ds| && AllWellFormed(Retained(ds, cl.ignored), cl)
    ensures var rs := Retained(ds[..i], cl.ignored);
      && (ds[i].name in cl.ignored ==> Retained(ds[..i + 1], cl.ignored) == rs)
      && (ds[i].name !in cl.ignored ==>
            Retained(ds[..i + 1], cl.ignored) == rs + [ds[i]] && AllWellFormed(rs + [ds[i]], cl))
  {
    RetainedSnoc(ds, cl.ignored, i);
    var rs := Retained(ds[..i], cl.ignored);
    if ds[i].name in cl.ignored {
      assert rs + [] == rs;
    } else {
      RetainedPrefix(ds, cl.ignored, i + 1);
      PrefixWellFormed(rs + [ds[i]], Retained(ds, cl.ignored), cl);
    }
  }

  /** A prefix of well-formed dimensions is well formed. */
  lemma PrefixWellFormed(p: seq<CubeDimension>, r: seq<CubeDimension>, cl: Classification)
    requires p <= r && AllWellFormed(r, cl)
    ensures AllWellFormed(p, cl)
  {
    forall k | 0 <= k < |p|
      ensures DimensionWellFormed(p[k], cl)
    {
      assert p[k] == r[k];
    }
  }

  /** Appending one more item to the list under `key`. */
  lemma AccumulateSnoc(m: map<string, seq<string>>, key: string, xs: seq<string>, x: string)
    ensures var m' := Accumulate(m, key, xs);
      Accumulate(m, key, xs + [x]) == Append(m', key, x)
  {
    assert (xs + [x])[..|xs|] == xs;
  }

  /** The measure folds grow by one measure at a time. */
  lemma MeasuresSnoc(ms: seq<Measure>, m: Measure, schema: string)
    ensures StoredMeasures(ms + [m]) == StoredMeasures(ms) + if IsStored(m) then [StoredMeasure(m)] else []
    ensures StoredNames(ms + [m]) == StoredNames(ms) + if IsStored(m) then [m.name] else []
    ensures CalculatedMembers(ms + [m]) == CalculatedMembers(ms) + if IsCalculated(m) then [CalculatedMember(m)] else []
    ensures LastSchema(MeasureKeys(ms + [m]), schema) == SchemaAfter(BindingText(m.source), LastSchema(MeasureKeys(ms), schema))
  {
    assert (ms + [m])[..|ms|] == ms;
    assert MeasureKeys(ms + [m]) == MeasureKeys(ms) + [BindingText(m.source)];
    LastSchemaAppend(MeasureKeys(ms), [BindingText(m.source)], schema);
    LastSchemaOne(BindingText(m.source), LastSchema(MeasureKeys(ms), schema));
  }

  /** Appending `xs` and then `ys` is appending `xs + ys`. */
  lemma {:induction false} AccumulateConcat(m: map<string, seq<string>>, key: string, xs: seq<string>, ys: seq<string>)
    ensures Accumulate(Accumulate(m, key, xs), key, ys) == Accumulate(m, key, xs + ys)
    decreases |ys|
  {
    if ys == [] {
      assert xs + ys == xs;
    } else {
      var pre := ys[..|ys| - 1];
      AccumulateConcat(m, key, xs, pre);
      assert (xs + ys)[..|xs + ys| - 1] == xs + pre;
    }
  }

  class Converter {
    var sschema: string
    var cms: seq<M.CalculatedMember>
    var cubes: seq<string>
    var vcubeDims: map<string, seq<string>>
    var vcubeMeas: map<string, seq<string>>
    var items: seq<M.Item>

    /** The walk's state as the value Builder's functions fold over. */
    function State(): Acc
      reads this
    {
      Acc(sschema, cms, cubes, vcubeDims, vcubeMeas, items)
    }

    /** A run starts with sschema and cms null and the three collections empty. */
    constructor()
      ensures State() == Start
    {
      sschema := "";
      cms := [];
      cubes := [];
      vcubeDims := map[];
      vcubeMeas := map[];
      items := [];
    }

    /** splitField (Program.cs:28-40): the '.'-segments of `s`; a schema
        prefix before the first '_' of the table segment is cut off and
        stored in sschema. */
    method SplitField(s: string) returns (parts: seq<string>)
      modifies this
      ensures parts == Resolve(s)
      ensures State() == old(State()).(sschema := SchemaAfter(s, old(sschema)))
    {
      var mysplit := Split(s, '.');
      var i9 := IndexOf(mysplit[0], '_');
      if i9 > 0 {
        mysplit := mysplit[0 := mysplit[0][i9 + 1..]];
        sschema := Split(Split(s, '.')[0], '_')[0];
      }
      parts := mysplit;
    }

    /** The try block of Program.cs:253-261 for one reference link: each
        Add that finds its key present, and each lookup that fails, ends
        the block, keeping what was added before. */
    method ReferenceLink(c: Classification, link: Link) returns (c': Classification)
      requires link.kind.Reference?
      modifies this
      ensures var r := ReferenceStep(c, link.dimension, link.kind);
        c' == r.cl && State() == old(State()).(sschema := LastSchema(r.splits, old(sschema)))
    {
      var name, kind := link.dimension, link.kind;
      c' := c;
      if kind.baseKey.None? || name in c'.refdims {
        return;
      }
      c' := c'.(refdims := c'.refdims[name := kind.baseKey.value]);
      if kind.granularityKey.None? || name + "XX" in c'.refdims {
        return;
      }
      c' := c'.(refdims := c'.refdims[name + "XX" := kind.granularityKey.value]);
      if kind.intermediateKey.None? {
        return;
      }
      var temps := SplitField(kind.intermediateKey.value);
      LastSchemaOne(kind.intermediateKey.value, old(sschema));
      if |temps| < 2 || name in c'.specialFK {
        return;
      }
      c' := c'.(specialFK := c'.specialFK[name := temps[1]]);
    }

    /** One pass of the inner classification loop (Program.cs:249-265): the
        try block for a reference link, then the two ignoredim checks. */
    method ClassifyLink(c: Classification, link: Link) returns (c': Classification)
      modifies this
      ensures var r := LinkStep(c, link, BoolM2M);
        c' == r.cl && State() == old(State()).(sschema := LastSchema(r.splits, old(sschema)))
    {
      c' := c;
      if link.kind.Reference? {
        c' := ReferenceLink(c', link);
      }
      if BoolM2M && link.kind.ManyToMany? {
        c' := c'.(ignored := c'.ignored + [link.cubeDimension]);
      }
      if link.kind.DataMining? {
        c' := c'.(ignored := c'.ignored + [link.cubeDimension]);
      }
    }

    /** The inner classification loop (Program.cs:246-266) over the links
        of one measure group, after the links `done` of the groups before it;
        `schema` is sschema before the whole loop. */
    method ClassifyGroup(cl: Classification, links: seq<Link>, ghost done: seq<Link>, ghost schema: string)
      returns (cl': Classification)
      requires var scan := ScanLinks(done, BoolM2M);
        cl == scan.cl && sschema == LastSchema(scan.splits, schema)
      modifies this
      ensures var scan := ScanLinks(done + links, BoolM2M);
        cl' == scan.cl && State() == old(State()).(sschema := LastSchema(scan.splits, schema))
    {
      cl' := cl;
      assert done + links[..0] == done;
      for j := 0 to |links|
        invariant var scan := ScanLinks(done + links[..j], BoolM2M);
          cl' == scan.cl && State() == old(State()).(sschema := LastSchema(scan.splits, schema))
      {
        ghost var prev := ScanLinks(done + links[..j], BoolM2M);
        cl' := ClassifyLink(cl', links[j]);
        ScanLinksSnoc(done + links[..j], links[j]);
        AppendPrefixSnoc(done, links, j);
        LastSchemaAppend(prev.splits, LinkStep(prev.cl, links[j], BoolM2M).splits, schema);
      }
      assert links[..|links|] == links;
    }

    /** The classification loop (Program.cs:244-267) over every link of
        every measure group of a cube. */
    method ClassifyLinks(groups: seq<MeasureGroup>) returns (cl: Classification)
      modifies this
      ensures var scan := ScanLinks(AllLinks(groups), BoolM2M);
        cl == scan.cl && State() == old(State()).(sschema := LastSchema(scan.splits, old(sschema)))
    {
      cl := Empty;
      for i := 0 to |groups|
        invariant var scan := ScanLinks(AllLinks(groups[..i]), BoolM2M);
          cl == scan.cl && State() == old(State()).(sschema := LastSchema(scan.splits, old(sschema)))
      {
        assert AllLinks(groups[..i + 1]) == AllLinks(groups[..i]) + groups[i].links by {
          assert groups[..i + 1][..i] == groups[..i];
        }
        cl := ClassifyGroup(cl, groups[i].links, AllLinks(groups[..i]), old(sschema));
      }
      assert groups[..|groups|] == groups;
    }

    /** The relation of a hierarchy (Program.cs:300-332 and 369-406): for a
        snowflake, splitField on both referenced key columns and a join of
        the first attribute's table with the referenced table; otherwise
        the table `flatTable`. The schema attribute is sschema as it stands
        after those calls. */
    method WriteRelation(d: CubeDimension, cl: Classification, aTable: string, flatTable: string, opts: Options)
      returns (rel: M.Relation)
      requires DimensionWellFormed(d, cl) && aTable == Resolve(d.attributes[0].keyColumn)[0]
      modifies this
      ensures var s := LastSchema(SnowKeys(d, cl), old(sschema));
        rel == RelationOf(d, cl, flatTable, opts, s) && State() == old(State()).(sschema := s)
    {
      if d.name in cl.refdims {
        var ms := SplitField(cl.refdims[d.name]);
        var ks := SplitField(cl.refdims[d.name + "XX"]);
        LastSchemaPair(cl.refdims[d.name], cl.refdims[d.name + "XX"], old(sschema));
        var schema := if opts.includeSchema then Some(sschema) else None;
        rel := M.Join("a", ks[1], "b", ms[1], M.TableRef(aTable, schema, Some("a")), M.TableRef(ks[0], schema, Some("b")));
      } else {
        var schema := if opts.includeSchema then Some(sschema) else None;
        rel := M.Table(M.TableRef(flatTable, schema, None));
      }
    }

    /** The levels of the default hierarchy (Program.cs:338-357), one per
        attribute, the key column split with String.Split. */
    static method AttributeLevels(d: CubeDimension, cl: Classification) returns (levels: seq<M.Level>)
      requires DimensionWellFormed(d, cl)
      ensures levels == DefaultLevels(d, cl)
    {
      levels := [];
      for i := 0 to |d.attributes|
        invariant levels == DefaultLevels(d, cl)[..i]
      {
        var a := d.attributes[i];
        var mysplit := Split(a.keyColumn, '.');
        var ss1 := ConvertDataType(a.keyDataType);
        var splitNameColumn := Split(a.nameColumn.value, '.');  // computed and never used; throws without a name column
        var ss2 := "Regular";
        if d.dimensionType == "Time" {
          ss2 := ConvertLevelType(a.attributeType);
        }
        var table := if d.name in cl.refdims then Some("b") else None;
        levels := levels + [M.Level(a.name, a.hierarchyVisible, table, mysplit[1], ss1, ss2)];
      }
    }

    /** The level loop of an explicit hierarchy (Program.cs:409-421): each
        level's key column goes through splitField. */
    method HierarchyLevels(d: CubeDimension, cl: Classification, h: Hierarchy) returns (levels: seq<M.Level>)
      requires HierarchyWellFormed(h)
      modifies this
      ensures levels == ExplicitLevels(d, cl, h)
      ensures State() == old(State()).(sschema := LastSchema(LevelKeys(h), old(sschema)))
    {
      levels := [];
      ghost var all := ExplicitLevels(d, cl, h);
      ghost var keys := LevelKeys(h);
      for j := 0 to |h.levels|
        invariant levels == all[..j]
        invariant State() == old(State()).(sschema := LastSchema(keys[..j], old(sschema)))
      {
        var l := h.levels[j];
        var ksplit := SplitField(l.source.keyColumn);
        LastSchemaStep(keys, j, old(sschema));
        var leveltype := "Regular";
        if d.dimensionType == "Time" {
          leveltype := ConvertLevelType(l.source.attributeType);
        }
        var dt1 := ConvertDataType(l.source.keyDataType);
        var table := if d.name in cl.refdims then Some("b") else None;
        var level := M.Level(l.name, h.visible, table, ksplit[1], dt1, leveltype);
        assert level == all[j];
        PrefixSnoc(all, j);
        levels := levels + [level];
      }
      assert keys[..|h.levels|] == keys && all[..|h.levels|] == all;
    }

    /** One explicit hierarchy (Program.cs:362-424): splitField on its first
        level's key column, the relation, then its levels. */
    method ConvertHierarchy(d: CubeDimension, cl: Classification, h: Hierarchy, aTable: string, opts: Options)
      returns (mh: M.Hierarchy)
      requires DimensionWellFormed(d, cl) && HierarchyWellFormed(h)
      requires aTable == Resolve(d.attributes[0].keyColumn)[0]
      modifies this
      ensures mh == ExplicitHierarchy(d, cl, h, opts, old(sschema))
      ensures State() == old(State()).(sschema := LastSchema(HierarchyKeys(d, cl, h), old(sschema)))
    {
      var mysplit := SplitField(h.levels[0].source.keyColumn);
      LastSchemaOne(h.levels[0].source.keyColumn, old(sschema));
      var allmember := if opts.allMember then Some(h.allMemberName) else None;
      var pk := if d.name in cl.refdims then cl.specialFK[d.name] else mysplit[1];
      var rel := WriteRelation(d, cl, aTable, mysplit[0], opts);
      LastSchemaAppend([h.levels[0].source.keyColumn], SnowKeys(d, cl), old(sschema));
      var levels := HierarchyLevels(d, cl, h);
      LastSchemaAppend(OpeningKeys(d, cl, h), LevelKeys(h), old(sschema));
      mh := M.Hierarchy(h.name, h.visible, allmember, pk, PrimaryKeyTable(d, cl), rel, levels);
    }

    /** The explicit hierarchies of a dimension in order (Program.cs:362-425). */
    method ConvertHierarchies(d: CubeDimension, cl: Classification, aTable: string, opts: Options)
      returns (hs: seq<M.Hierarchy>)
      requires DimensionWellFormed(d, cl) && aTable == Resolve(d.attributes[0].keyColumn)[0]
      modifies this
      ensures hs == ExplicitHierarchies(d, cl, d.hierarchies, opts, old(sschema))
      ensures State() == old(State()).(sschema := LastSchema(HierarchiesKeys(d, cl, d.hierarchies), old(sschema)))
    {
      hs := [];
      for k := 0 to |d.hierarchies|
        invariant hs == ExplicitHierarchies(d, cl, d.hierarchies[..k], opts, old(sschema))
        invariant sschema == LastSchema(HierarchiesKeys(d, cl, d.hierarchies[..k]), old(sschema))
        invariant cms == old(cms) && cubes == old(cubes) && items == old(items)
        invariant vcubeDims == old(vcubeDims) && vcubeMeas == old(vcubeMeas)
      {
        HierarchiesSnoc(d, cl, d.hierarchies, k, opts, old(sschema));
        var h := ConvertHierarchy(d, cl, d.hierarchies[k], aTable, opts);
        hs := hs + [h];
      }
      assert d.hierarchies[..|d.hierarchies|] == d.hierarchies;
    }

    /** One <Dimension> (Program.cs:279-426): splitField on the first
        attribute's key column, the foreign key of its usages, the default
        hierarchy, then the explicit hierarchies. */
    method ConvertDimension(d: CubeDimension, cl: Classification, opts: Options)
      returns (dim: M.Dimension, fk: string)
      requires DimensionWellFormed(d, cl)
      modifies this
      ensures dim == DimensionOf(d, cl, opts, old(sschema)) && fk == ForeignKey(d, cl)
      ensures State() == old(State()).(sschema := LastSchema(DimensionKeys(d, cl), old(sschema)))
    {
      var myspl := SplitField(d.attributes[0].keyColumn);
      LastSchemaOne(d.attributes[0].keyColumn, old(sschema));
      fk := myspl[1];
      if d.name in cl.specialFK {
        fk := cl.specialFK[d.name];
      }
      var pk := if d.name in cl.refdims then cl.specialFK[d.name] else myspl[1];
      var rel := WriteRelation(d, cl, myspl[0], myspl[0], opts);
      LastSchemaAppend([d.attributes[0].keyColumn], SnowKeys(d, cl), old(sschema));
      var levels := AttributeLevels(d, cl);
      var default := M.Hierarchy("Default", true, None, pk, PrimaryKeyTable(d, cl), rel, levels);
      ghost var s := sschema;
      var hs := ConvertHierarchies(d, cl, myspl[0], opts);
      LastSchemaAppend(HeadKeys(d, cl), HierarchiesKeys(d, cl, d.hierarchies), old(sschema));
      dim := M.Dimension(Header(d), [default] + hs);
    }

    /** The body of the dimension loop for a retained dimension `d`, after
        the retained dimensions `rs` (Program.cs:279-426): the <Dimension>
        is written and its `dname` gets its foreign key in `fks`. */
    method WriteDimension(d: CubeDimension, cl: Classification, opts: Options, fks: map<M.DimHeader, string>,
                          ghost rs: seq<CubeDimension>, ghost schema: string, ghost written: seq<M.Item>)
      returns (fks': map<M.DimHeader, string>)
      requires AllWellFormed(rs + [d], cl)
      requires AllWellFormed(rs, cl) && fks == ForeignKeys(rs, cl)
      requires sschema == LastSchema(DimensionsKeys(rs, cl), schema)
      requires items == written + SharedDimensions(DimensionsOf(rs, cl, opts, schema))
      modifies this
      ensures fks' == ForeignKeys(rs + [d], cl)
      ensures State() == old(State()).(
        sschema := LastSchema(DimensionsKeys(rs + [d], cl), schema),
        items := written + SharedDimensions(DimensionsOf(rs + [d], cl, opts, schema)))
    {
      DimensionsSnoc(rs, d, cl, opts, schema);
      ItemsSnoc(written, rs, d, cl, opts, schema);
      fks' := AddDimension(d, cl, opts, fks);
    }

    /** A retained dimension's <Dimension> is written and its `dname` gets
        its foreign key (Program.cs:289-426). */
    method AddDimension(d: CubeDimension, cl: Classification, opts: Options, fks: map<M.DimHeader, string>)
      returns (fks': map<M.DimHeader, string>)
      requires DimensionWellFormed(d, cl)
      modifies this
      ensures fks' == fks[Header(d) := ForeignKey(d, cl)]
      ensures State() == old(State()).(
        sschema := LastSchema(DimensionKeys(d, cl), old(sschema)),
        items := old(items) + [M.SharedDimension(DimensionOf(d, cl, opts, old(sschema)))])
    {
      var dim, fk := ConvertDimension(d, cl, opts);
      fks' := fks[Header(d) := fk];
      items := items + [M.SharedDimension(dim)];
    }

    /** The dimension loop of a cube (Program.cs:269-427): dimensions named
        in ignoredim are skipped; each other one is written and its `dname`
        gets its foreign key. `rs` is the list of retained dimensions, which
        carries both `dnames` (their headers) and `d2` (their names). */
    method ConvertDimensions(ds: seq<CubeDimension>, cl: Classification, opts: Options)
      returns (rs: seq<CubeDimension>, fks: map<M.DimHeader, string>)
      requires AllWellFormed(Retained(ds, cl.ignored), cl)
      modifies this
      ensures rs == Retained(ds, cl.ignored) && fks == ForeignKeys(rs, cl)
      ensures State() == old(State()).(
        sschema := LastSchema(DimensionsKeys(rs, cl), old(sschema)),
        items := old(items) + SharedDimensions(DimensionsOf(rs, cl, opts, old(sschema))))
    {
      rs := [];
      fks := map[];
      for i := 0 to |ds|
        invariant rs == Retained(ds[..i], cl.ignored) && AllWellFormed(rs, cl)
        invariant fks == ForeignKeys(rs, cl)
        invariant State() == old(State()).(
          sschema := LastSchema(DimensionsKeys(rs, cl), old(sschema)),
          items := old(items) + SharedDimensions(DimensionsOf(rs, cl, opts, old(sschema))))
      {
        var d := ds[i];
        RetainedStep(ds, cl, i);
        if d.name in cl.ignored {
          continue;
        }
        fks := WriteDimension(d, cl, opts, fks, rs, old(sschema), old(items));
        rs := rs + [d];
      }
      assert ds[..|ds|] == ds;
    }

    /** The usage loop of a measure group (Program.cs:451-464): a
        <DimensionUsage> per retained dimension, each name also appended to
        the group's VCubeDims list, which is created on the first append. */
    method ConvertUsages(group: string, rs: seq<CubeDimension>, fks: map<M.DimHeader, string>)
      returns (usages: seq<M.DimensionUsage>)
      requires forall i :: 0 <= i < |rs| ==> Header(rs[i]) in fks
      modifies this
      ensures usages == Usages(rs, fks)
      ensures State() == old(State()).(vcubeDims := Accumulate(old(vcubeDims), group, Names(rs)))
    {
      usages := [];
      ghost var all := Usages(rs, fks);
      ghost var names := Names(rs);
      for ii := 0 to |rs|
        invariant usages == all[..ii]
        invariant State() == old(State()).(vcubeDims := Accumulate(old(vcubeDims), group, names[..ii]))
      {
        var d := rs[ii];
        PrefixSnoc(all, ii);
        usages := usages + [M.DimensionUsage(d.name, fks[Header(d)], Header(d))];
        AccumulateSnoc(old(vcubeDims), group, names[..ii], d.name);
        PrefixSnoc(names, ii);
        if group !in vcubeDims {
          vcubeDims := vcubeDims[group := [d.name]];
        } else {
          vcubeDims := vcubeDims[group := vcubeDims[group] + [d.name]];
        }
      }
      assert names[..|rs|] == names && all[..|rs|] == all;
    }

    /** One pass of the measure loop (Program.cs:468-527): splitField on the
        measure's source; a measure with an expression is appended to cms
        as a calculated member; otherwise a source with a column segment
        makes a <Measure> whose name is appended to the group's VCubeMeas list. */
    method ConvertMeasure(group: string, m: Measure) returns (stored: seq<M.Measure>)
      modifies this
      ensures stored == if IsStored(m) then [StoredMeasure(m)] else []
      ensures sschema == SchemaAfter(BindingText(m.source), old(sschema))
      ensures cms == old(cms) + if IsCalculated(m) then [CalculatedMember(m)] else []
      ensures vcubeMeas == if IsStored(m) then Append(old(vcubeMeas), group, m.name) else old(vcubeMeas)
      ensures cubes == old(cubes) && vcubeDims == old(vcubeDims) && items == old(items)
    {
      var mtl := ConvertAggregation(m.aggregateFunction);
      var mn := SplitField(BindingText(m.source));
      var isl := false;
      if m.expression.Some? && |m.expression.value| > 0 {
        isl := true;
      }
      stored := [];
      if isl {
        cms := cms + [M.CalculatedMember(m.name, m.visible, m.expression.value, m.formatString)];
      } else if |mn| > 1 {
        stored := [M.Measure(m.name, mn[1], m.formatString, mtl)];
        if group !in vcubeMeas {
          assert [] + [m.name] == [m.name];
          vcubeMeas := vcubeMeas[group := [m.name]];
        } else {
          vcubeMeas := vcubeMeas[group := vcubeMeas[group] + [m.name]];
        }
      }
    }

    /** ConvertMeasure for the measure after `done`, stated against the
        measure loop's folds; `schema`, `calculated` and `vmeas` are sschema,
        cms and VCubeMeas before the loop. */
    method NextMeasure(group: string, m: Measure, measures: seq<M.Measure>, ghost done: seq<Measure>,
                       ghost schema: string, ghost calculated: seq<M.CalculatedMember>,
                       ghost vmeas: map<string, seq<string>>)
      returns (measures': seq<M.Measure>)
      requires measures == StoredMeasures(done)
      requires sschema == LastSchema(MeasureKeys(done), schema)
      requires cms == calculated + CalculatedMembers(done)
      requires vcubeMeas == Accumulate(vmeas, group, StoredNames(done))
      modifies this
      ensures measures' == StoredMeasures(done + [m])
      ensures State() == old(State()).(
        sschema := LastSchema(MeasureKeys(done + [m]), schema),
        cms := calculated + CalculatedMembers(done + [m]),
        vcubeMeas := Accumulate(vmeas, group, StoredNames(done + [m])))
    {
      MeasuresSnoc(done, m, schema);
      if IsStored(m) {
        AccumulateSnoc(vmeas, group, StoredNames(done), m.name);
      } else {
        assert StoredNames(done + [m]) == StoredNames(done);
      }
      var stored := ConvertMeasure(group, m);
      measures' := measures + stored;
    }

    /** The measure loop of a measure group (Program.cs:468-528). */
    method ConvertMeasures(group: string, ms: seq<Measure>) returns (measures: seq<M.Measure>)
      modifies this
      ensures measures == StoredMeasures(ms)
      ensures State() == old(State()).(
        sschema := LastSchema(MeasureKeys(ms), old(sschema)),
        cms := old(cms) + CalculatedMembers(ms),
        vcubeMeas := Accumulate(old(vcubeMeas), group, StoredNames(ms)))
    {
      measures := [];
      ghost var done: seq<Measure> := [];
      for i3 := 0 to |ms|
        invariant done == ms[..i3]
        invariant measures == StoredMeasures(done)
        invariant State() == old(State()).(
          sschema := LastSchema(MeasureKeys(done), old(sschema)),
          cms := old(cms) + CalculatedMembers(done),
          vcubeMeas := Accumulate(old(vcubeMeas), group, StoredNames(done)))
      {
        measures := NextMeasure(group, ms[i3], measures, done, old(sschema), old(cms), old(vcubeMeas));
        PrefixSnoc(ms, i3);
        done := done + [ms[i3]];
      }
      assert done == ms;
    }

    /** One measure group (Program.cs:432-540): splitField on its first
        measure's source, its name appended to Cubes, the fact table (with
        /A, a '_' anywhere in that source sets sschema from the binding's
        table id), the usages, the measures, then the <Cube> with every
        calculated member collected so far. */
    method ConvertMeasureGroup(g: MeasureGroup, rs: seq<CubeDimension>, fks: map<M.DimHeader, string>, opts: Options)
      requires GroupWellFormed(g, opts)
      requires forall i :: 0 <= i < |rs| ==> Header(rs[i]) in fks
      modifies this
      ensures State() == GroupStep(old(State()), g, rs, fks, opts)
    {
      var source := BindingText(g.measures[0].source);
      var mysplit := SplitField(source);
      cubes := cubes + [g.name];
      var fact: M.TableRef;
      if opts.includeSchema {
        ContainsChar(source, '_');
        if Contains(source, "_") {
          sschema := Split(g.measures[0].source.tableId, '_')[0];
        }
        fact := M.TableRef(mysplit[0], Some(sschema), None);
      } else {
        fact := M.TableRef(mysplit[0], None, None);
      }
      var usages := ConvertUsages(g.name, rs, fks);
      var measures := ConvertMeasures(g.name, g.measures);
      items := items + [M.PhysicalCube(M.Cube(g.name, fact, usages, measures, cms))];
    }

    /** The measure-group loop of a cube (Program.cs:432-540). */
    method ConvertMeasureGroups(gs: seq<MeasureGroup>, rs: seq<CubeDimension>, fks: map<M.DimHeader, string>, opts: Options)
      requires GroupsWellFormed(gs, opts)
      requires forall i :: 0 <= i < |rs| ==> Header(rs[i]) in fks
      modifies this
      ensures State() == GroupsStep(old(State()), gs, rs, fks, opts)
    {
      for i2 := 0 to |gs|
        invariant State() == GroupsStep(old(State()), gs[..i2], rs, fks, opts)
      {
        assert gs[..i2 + 1][..i2] == gs[..i2];
        ConvertMeasureGroup(gs[i2], rs, fks, opts);
      }
      assert gs[..|gs|] == gs;
    }

    /** One selected cube (Program.cs:236-540): classification, dimensions,
        then one <Cube> per measure group. */
    method ConvertCube(c: Cube, opts: Options)
      requires CubeWellFormed(c, opts)
      modifies this
      ensures State() == CubeStep(old(State()), c, opts)
    {
      var cl := ClassifyLinks(c.measureGroups);
      var rs, fks := ConvertDimensions(c.dimensions, cl, opts);
      ConvertMeasureGroups(c.measureGroups, rs, fks, opts);
    }

    /** The cube loop of a selected database (Program.cs:231-541). */
    method ConvertCubes(cs: seq<Cube>, opts: Options)
      requires CubesWellFormed(cs, opts)
      modifies this
      ensures State() == CubesStep(old(State()), cs, opts)
    {
      for j := 0 to |cs|
        invariant State() == CubesStep(old(State()), cs[..j], opts)
      {
        assert cs[..j + 1][..j] == cs[..j];
        if Selected(opts.cube, cs[j].name) {
          ConvertCube(cs[j], opts);
        }
      }
      assert cs[..|cs|] == cs;
    }

    /** The database loop (Program.cs:225-543). */
    method ConvertDatabases(dbs: seq<Database>, opts: Options)
      requires RunWellFormed(dbs, opts)
      modifies this
      ensures State() == DatabasesStep(old(State()), dbs, opts)
    {
      for i := 0 to |dbs|
        invariant State() == DatabasesStep(old(State()), dbs[..i], opts)
      {
        assert dbs[..i + 1][..i] == dbs[..i];
        if Selected(opts.database, dbs[i].name) {
          ConvertCubes(dbs[i].cubes, opts);
        }
      }
      assert dbs[..|dbs|] == dbs;
    }
  }

  /** The first pass over Cubes (Program.cs:551-561): each measure group's
      accumulated dimension names, a group without an entry skipped (the
      KeyNotFoundException is swallowed). */
  method DimensionPass(cubes: seq<string>, vdims: map<string, seq<string>>) returns (entries: seq<M.VirtualEntry>)
    ensures entries == VirtualCubes.DimensionEntries(cubes, vdims)
  {
    entries := [];
    for i := 0 to |cubes|
      invariant entries == VirtualCubes.DimensionEntries(cubes[..i], vdims)
    {
      var cube := cubes[i];
      assert cubes[..i + 1][..i] == cubes[..i];
      if cube in vdims {
        var vcds := vdims[cube];
        ghost var added: seq<M.VirtualEntry> := [];
        for j := 0 to |vcds|
          invariant added == VirtualCubes.DimensionEntriesOf(cube, vcds[..j])
          invariant entries == VirtualCubes.DimensionEntries(cubes[..i], vdims) + added
        {
          assert vcds[..j + 1][..j] == vcds[..j];
          AppendAssoc(VirtualCubes.DimensionEntries(cubes[..i], vdims), added, M.VirtualCubeDimension(cube, vcds[j]));
          added := added + [M.VirtualCubeDimension(cube, vcds[j])];
          entries := entries + [M.VirtualCubeDimension(cube, vcds[j])];
        }
        assert vcds[..|vcds|] == vcds;
      } else {
        assert VirtualCubes.DimensionEntries(cubes[..i], vdims) + [] == entries;
      }
    }
    assert cubes[..|cubes|] == cubes;
  }

  /** The second pass over Cubes (Program.cs:563-573): each measure group's
      accumulated stored measure names, a group without an entry skipped. */
  method MeasurePass(cubes: seq<string>, vmeas: map<string, seq<string>>) returns (entries: seq<M.VirtualEntry>)
    ensures entries == VirtualCubes.MeasureEntries(cubes, vmeas)
  {
    entries := [];
    for i := 0 to |cubes|
      invariant entries == VirtualCubes.MeasureEntries(cubes[..i], vmeas)
    {
      var cube := cubes[i];
      assert cubes[..i + 1][..i] == cubes[..i];
      if cube in vmeas {
        var vcms := vmeas[cube];
        ghost var added: seq<M.VirtualEntry> := [];
        for j := 0 to |vcms|
          invariant added == VirtualCubes.MeasureEntriesOf(cube, vcms[..j])
          invariant entries == VirtualCubes.MeasureEntries(cubes[..i], vmeas) + added
        {
          assert vcms[..j + 1][..j] == vcms[..j];
          AppendAssoc(VirtualCubes.MeasureEntries(cubes[..i], vmeas), added, M.VirtualCubeMeasure(cube, vcms[j]));
          added := added + [M.VirtualCubeMeasure(cube, vcms[j])];
          entries := entries + [M.VirtualCubeMeasure(cube, vcms[j])];
        }
        assert vcms[..|vcms|] == vcms;
      } else {
        assert VirtualCubes.MeasureEntries(cubes[..i], vmeas) + [] == entries;
      }
    }
    assert cubes[..|cubes|] == cubes;
  }

  /** The <VirtualCube> (Program.cs:547-576): both passes, then every
      calculated member collected over the run. */
  method EmitVirtualCube(name: string, cubes: seq<string>, vdims: map<string, seq<string>>,
                         vmeas: map<string, seq<string>>, cms: seq<M.CalculatedMember>)
    returns (vc: M.VirtualCube)
    ensures vc == VirtualCubes.VirtualCubeOf(name, cubes, vdims, vmeas, cms)
  {
    var dimensionEntries := DimensionPass(cubes, vdims);
    var measureEntries := MeasurePass(cubes, vmeas);
    vc := M.VirtualCube(name, dimensionEntries + measureEntries, cms);
  }

  /** The whole run (Program.cs:217-578): a fresh state, the database walk,
      then the virtual cube built from what the walk collected. */
  method ConvertServer(dbs: seq<Database>, opts: Options) returns (schema: M.Schema)
    requires RunWellFormed(dbs, opts)
    ensures schema == Convert(dbs, opts)
  {
    var name := SchemaName(opts);
    var walk := new Converter();
    walk.ConvertDatabases(dbs, opts);
    var vc := EmitVirtualCube(name, walk.cubes, walk.vcubeDims, walk.vcubeMeas, walk.cms);
    schema := M.Schema(name, walk.items, vc);
  }
}
