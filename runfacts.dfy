/// Properties of the whole walk (Program.cs:225-576): which <Cube> elements
/// the measure groups add, that skipped dimensions are left out, and that
/// the virtual cube written at the end agrees with the physical cubes:
/// it lists a (cube, dimension) or (cube, measure) pair exactly when a
/// written cube of that name has that usage or measure, and every cube's
/// calculated members are a prefix of the virtual cube's.
module RunFacts {
  import opened Resolver
  import opened Amo
  import opened Classifier
  import opened Builder
  import opened SchemaFacts
  import M = Mondrian
  import V = VirtualCubes

  /** A written <Cube> named `cube` has a <DimensionUsage> of `n`. */
  predicate UsedBy(items: seq<M.Item>, cube: string, n: string) {
    exists k, j :: 0 <= k < |items| && items[k].PhysicalCube? && items[k].cube.name == cube
      && 0 <= j < |items[k].cube.usages| && items[k].cube.usages[j].source == n
  }

  /** A written <Cube> named `cube` has a <Measure> named `n`. */
  predicate MeasuredBy(items: seq<M.Item>, cube: string, n: string) {
    exists k, j :: 0 <= k < |items| && items[k].PhysicalCube? && items[k].cube.name == cube
      && 0 <= j < |items[k].cube.measures| && items[k].cube.measures[j].name == n
  }

  /** Cubes and VCubeDims agree with the <Cube> elements written so far. */
  predicate DimsAgree(acc: Acc) {
    && (forall key, n :: key in acc.vcubeDims && n in acc.vcubeDims[key] ==>
          key in acc.cubes && UsedBy(acc.items, key, n))
    && (forall k, j :: 0 <= k < |acc.items| && acc.items[k].PhysicalCube? && 0 <= j < |acc.items[k].cube.usages| ==>
          DimListed(acc, acc.items[k].cube.name, acc.items[k].cube.usages[j].source))
  }

  /** The virtual cube's accumulators list dimension `n` for cube `c`. */
  predicate DimListed(acc: Acc, c: string, n: string) {
    c in acc.cubes && c in acc.vcubeDims && n in acc.vcubeDims[c]
  }

  /** The virtual cube's accumulators list measure `n` for cube `c`. */
  predicate MeasureListed(acc: Acc, c: string, n: string) {
    c in acc.cubes && c in acc.vcubeMeas && n in acc.vcubeMeas[c]
  }

  /** Cubes and VCubeMeas agree with the <Cube> elements written so far. */
  predicate MeasuresAgree(acc: Acc) {
    && (forall key, n :: key in acc.vcubeMeas && n in acc.vcubeMeas[key] ==>
          key in acc.cubes && MeasuredBy(acc.items, key, n))
    && (forall k, j :: 0 <= k < |acc.items| && acc.items[k].PhysicalCube? && 0 <= j < |acc.items[k].cube.measures| ==>
          MeasureListed(acc, acc.items[k].cube.name, acc.items[k].cube.measures[j].name))
  }

  /** Every written <Cube> carries a prefix of the cms collected so far. */
  predicate CmsPrefix(acc: Acc) {
    forall k :: 0 <= k < |acc.items| && acc.items[k].PhysicalCube? ==> acc.items[k].cube.calculatedMembers <= acc.cms
  }

  predicate Coherent(acc: Acc) {
    DimsAgree(acc) && MeasuresAgree(acc) && CmsPrefix(acc)
  }

  /** An entry of an accumulated list was there before or is one of the appended names. */
  lemma AccumulateMember(m: map<string, seq<string>>, key: string, xs: seq<string>, k: string, n: string)
    ensures k in Accumulate(m, key, xs) && n in Accumulate(m, key, xs)[k] <==>
      (k in m && n in m[k]) || (k == key && n in xs)
  {
    AccumulateAppends(m, key, xs);
  }

  /** The <Cube> one measure group writes (lines 432-540). */
  lemma GroupStepCube(acc: Acc, g: MeasureGroup, rs: seq<CubeDimension>, fks: map<M.DimHeader, string>, opts: Options)
    requires GroupWellFormed(g, opts)
    requires forall i :: 0 <= i < |rs| ==> Header(rs[i]) in fks
    ensures var r := GroupStep(acc, g, rs, fks, opts);
      && r.cms == acc.cms + CalculatedMembers(g.measures)
      && r.cubes == acc.cubes + [g.name]
      && |r.items| == |acc.items| + 1 && r.items[..|acc.items|] == acc.items
      && r.items[|acc.items|].PhysicalCube?
      && r.items[|acc.items|].cube.name == g.name
      && r.items[|acc.items|].cube.usages == Usages(rs, fks)
      && r.items[|acc.items|].cube.measures == StoredMeasures(g.measures)
      && r.items[|acc.items|].cube.calculatedMembers == r.cms
      && r.vcubeDims == Accumulate(acc.vcubeDims, g.name, Names(rs))
      && r.vcubeMeas == Accumulate(acc.vcubeMeas, g.name, StoredNames(g.measures))
  {
  }

  /** Writing one <Cube> whose usages are `names`, and appending `names` to
      its VCubeDims entry, keeps Cubes and VCubeDims in agreement. */
  lemma AddCubeDims(acc: Acc, r: Acc, cube: M.Cube, names: seq<string>)
    requires DimsAgree(acc)
    requires r.cubes == acc.cubes + [cube.name] && r.items == acc.items + [M.PhysicalCube(cube)]
    requires |names| == |cube.usages| && forall i :: 0 <= i < |names| ==> cube.usages[i].source == names[i]
    requires r.vcubeDims == Accumulate(acc.vcubeDims, cube.name, names)
    ensures DimsAgree(r)
  {
    var top := |acc.items|;
    forall key, n | key in r.vcubeDims && n in r.vcubeDims[key]
      ensures key in r.cubes && UsedBy(r.items, key, n)
    {
      AccumulateMember(acc.vcubeDims, cube.name, names, key, n);
      if key in acc.vcubeDims && n in acc.vcubeDims[key] {
        var k, j :| 0 <= k < top && acc.items[k].PhysicalCube? && acc.items[k].cube.name == key
          && 0 <= j < |acc.items[k].cube.usages| && acc.items[k].cube.usages[j].source == n;
        assert r.items[k] == acc.items[k];
        assert key in acc.cubes;
        assert r.items[k].PhysicalCube? && r.items[k].cube.name == key
          && 0 <= j < |r.items[k].cube.usages| && r.items[k].cube.usages[j].source == n;
      } else {
        var j :| 0 <= j < |names| && names[j] == n;
        assert key == cube.name && r.cubes[|acc.cubes|] == key;
        assert r.items[top].PhysicalCube? && r.items[top].cube.name == key
          && 0 <= j < |r.items[top].cube.usages| && r.items[top].cube.usages[j].source == n;
      }
    }
    forall k, j | 0 <= k < |r.items| && r.items[k].PhysicalCube? && 0 <= j < |r.items[k].cube.usages|
      ensures DimListed(r, r.items[k].cube.name, r.items[k].cube.usages[j].source)
    {
      var c := r.items[k].cube;
      if k < top {
        assert acc.items[k] == r.items[k];
        assert DimListed(acc, c.name, c.usages[j].source);
      } else {
        assert c == cube && r.cubes[|acc.cubes|] == c.name;
        assert names[j] == c.usages[j].source;
      }
      AccumulateMember(acc.vcubeDims, cube.name, names, c.name, c.usages[j].source);
    }
  }

  /** Writing one <Cube> whose measures are named `names`, and appending
      `names` to its VCubeMeas entry, keeps Cubes and VCubeMeas in agreement. */
  lemma AddCubeMeasures(acc: Acc, r: Acc, cube: M.Cube, names: seq<string>)
    requires MeasuresAgree(acc)
    requires r.cubes == acc.cubes + [cube.name] && r.items == acc.items + [M.PhysicalCube(cube)]
    requires |names| == |cube.measures| && forall i :: 0 <= i < |names| ==> cube.measures[i].name == names[i]
    requires r.vcubeMeas == Accumulate(acc.vcubeMeas, cube.name, names)
    ensures MeasuresAgree(r)
  {
    var top := |acc.items|;
    forall key, n | key in r.vcubeMeas && n in r.vcubeMeas[key]
      ensures key in r.cubes && MeasuredBy(r.items, key, n)
    {
      AccumulateMember(acc.vcubeMeas, cube.name, names, key, n);
      if key in acc.vcubeMeas && n in acc.vcubeMeas[key] {
        var k, j :| 0 <= k < top && acc.items[k].PhysicalCube? && acc.items[k].cube.name == key
          && 0 <= j < |acc.items[k].cube.measures| && acc.items[k].cube.measures[j].name == n;
        assert r.items[k] == acc.items[k];
        assert key in acc.cubes;
        assert r.items[k].PhysicalCube? && r.items[k].cube.name == key
          && 0 <= j < |r.items[k].cube.measures| && r.items[k].cube.measures[j].name == n;
      } else {
        var j :| 0 <= j < |names| && names[j] == n;
        assert key == cube.name && r.cubes[|acc.cubes|] == key;
        assert r.items[top].PhysicalCube? && r.items[top].cube.name == key
          && 0 <= j < |r.items[top].cube.measures| && r.items[top].cube.measures[j].name == n;
      }
    }
    forall k, j | 0 <= k < |r.items| && r.items[k].PhysicalCube? && 0 <= j < |r.items[k].cube.measures|
      ensures MeasureListed(r, r.items[k].cube.name, r.items[k].cube.measures[j].name)
    {
      var c := r.items[k].cube;
      if k < top {
        assert acc.items[k] == r.items[k];
        assert MeasureListed(acc, c.name, c.measures[j].name);
      } else {
        assert c == cube && r.cubes[|acc.cubes|] == c.name;
        assert names[j] == c.measures[j].name;
      }
      AccumulateMember(acc.vcubeMeas, cube.name, names, c.name, c.measures[j].name);
    }
  }

  lemma GroupStepCms(acc: Acc, g: MeasureGroup, rs: seq<CubeDimension>, fks: map<M.DimHeader, string>, opts: Options)
    requires GroupWellFormed(g, opts)
    requires forall i :: 0 <= i < |rs| ==> Header(rs[i]) in fks
    requires CmsPrefix(acc)
    ensures CmsPrefix(GroupStep(acc, g, rs, fks, opts))
  {
    var r := GroupStep(acc, g, rs, fks, opts);
    GroupStepCube(acc, g, rs, fks, opts);
    forall k | 0 <= k < |r.items| && r.items[k].PhysicalCube?
      ensures r.items[k].cube.calculatedMembers <= r.cms
    {
      if k < |acc.items| {
        assert acc.items[k] == r.items[k];
      }
    }
  }

  /** The measure groups of a cube keep the state coherent. */
  lemma {:induction false} GroupsStepCoherent(acc: Acc, gs: seq<MeasureGroup>, rs: seq<CubeDimension>, fks: map<M.DimHeader, string>, opts: Options)
    requires GroupsWellFormed(gs, opts)
    requires forall i :: 0 <= i < |rs| ==> Header(rs[i]) in fks
    requires Coherent(acc)
    ensures Coherent(GroupsStep(acc, gs, rs, fks, opts))
    ensures acc.cms <= GroupsStep(acc, gs, rs, fks, opts).cms
    decreases |gs|
  {
    if gs != [] {
      var pre := gs[..|gs| - 1];
      var prev := GroupsStep(acc, pre, rs, fks, opts);
      var g := gs[|gs| - 1];
      var r := GroupStep(prev, g, rs, fks, opts);
      GroupsStepCoherent(acc, pre, rs, fks, opts);
      GroupStepCube(prev, g, rs, fks, opts);
      var cube := r.items[|prev.items|].cube;
      assert r.items == prev.items + [M.PhysicalCube(cube)];
      StoredNamesMatch(g.measures);
      AddCubeDims(prev, r, cube, Names(rs));
      AddCubeMeasures(prev, r, cube, StoredNames(g.measures));
      GroupStepCms(prev, g, rs, fks, opts);
    }
  }

  /** Writing <Dimension> elements (and moving sschema) keeps the state coherent. */
  lemma SharedDimensionsKeepCoherent(acc: Acc, more: seq<M.Item>, schema: string)
    requires Coherent(acc)
    requires forall k :: 0 <= k < |more| ==> more[k].SharedDimension?
    ensures Coherent(acc.(sschema := schema, items := acc.items + more))
  {
    var a := acc.(sschema := schema, items := acc.items + more);
    forall k | 0 <= k < |a.items|
      ensures a.items[k].PhysicalCube? ==> k < |acc.items| && a.items[k] == acc.items[k]
    {
      if k >= |acc.items| {
        assert a.items[k] == more[k - |acc.items|];
      }
    }
    forall key, n | key in a.vcubeDims && n in a.vcubeDims[key] ensures UsedBy(a.items, key, n) {
      var k, j :| 0 <= k < |acc.items| && acc.items[k].PhysicalCube? && acc.items[k].cube.name == key
        && 0 <= j < |acc.items[k].cube.usages| && acc.items[k].cube.usages[j].source == n;
      assert a.items[k] == acc.items[k];
    }
    forall k, j | 0 <= k < |a.items| && a.items[k].PhysicalCube? && 0 <= j < |a.items[k].cube.usages|
      ensures DimListed(a, a.items[k].cube.name, a.items[k].cube.usages[j].source)
    {
      assert a.items[k] == acc.items[k];
    }
    forall key, n | key in a.vcubeMeas && n in a.vcubeMeas[key] ensures MeasuredBy(a.items, key, n) {
      var k, j :| 0 <= k < |acc.items| && acc.items[k].PhysicalCube? && acc.items[k].cube.name == key
        && 0 <= j < |acc.items[k].cube.measures| && acc.items[k].cube.measures[j].name == n;
      assert a.items[k] == acc.items[k];
    }
    forall k, j | 0 <= k < |a.items| && a.items[k].PhysicalCube? && 0 <= j < |a.items[k].cube.measures|
      ensures MeasureListed(a, a.items[k].cube.name, a.items[k].cube.measures[j].name)
    {
      assert a.items[k] == acc.items[k];
    }
    forall k | 0 <= k < |a.items| && a.items[k].PhysicalCube? ensures a.items[k].cube.calculatedMembers <= a.cms {
      assert a.items[k] == acc.items[k];
    }
  }

  /** One cube keeps the state coherent, and cms only grows. */
  lemma CubeStepCoherent(acc: Acc, c: Cube, opts: Options)
    requires CubeWellFormed(c, opts) && Coherent(acc)
    ensures Coherent(CubeStep(acc, c, opts))
    ensures acc.cms <= CubeStep(acc, c, opts).cms
  {
    var scan := ScanLinks(AllLinks(c.measureGroups), BoolM2M);
    var cl := scan.cl;
    var rs := CubeDimensions(c);
    var s := LastSchema(scan.splits, acc.sschema);
    var dims := DimensionsOf(rs, cl, opts, s);
    var a := acc.(sschema := LastSchema(DimensionsKeys(rs, cl), s), items := acc.items + SharedDimensions(dims));
    SharedDimensionsKeepCoherent(acc, SharedDimensions(dims), LastSchema(DimensionsKeys(rs, cl), s));
    GroupsStepCoherent(a, c.measureGroups, rs, ForeignKeys(rs, cl), opts);
  }

  lemma {:induction false} CubesStepCoherent(acc: Acc, cs: seq<Cube>, opts: Options)
    requires CubesWellFormed(cs, opts) && Coherent(acc)
    ensures Coherent(CubesStep(acc, cs, opts))
    ensures acc.cms <= CubesStep(acc, cs, opts).cms
    decreases |cs|
  {
    if cs != [] {
      var pre := cs[..|cs| - 1];
      CubesStepCoherent(acc, pre, opts);
      if Selected(opts.cube, cs[|cs| - 1].name) {
        CubeStepCoherent(CubesStep(acc, pre, opts), cs[|cs| - 1], opts);
      }
    }
  }

  lemma {:induction false} DatabasesStepCoherent(acc: Acc, dbs: seq<Database>, opts: Options)
    requires RunWellFormed(dbs, opts) && Coherent(acc)
    ensures Coherent(DatabasesStep(acc, dbs, opts))
    ensures acc.cms <= DatabasesStep(acc, dbs, opts).cms
    decreases |dbs|
  {
    if dbs != [] {
      var pre := dbs[..|dbs| - 1];
      DatabasesStepCoherent(acc, pre, opts);
      if Selected(opts.database, dbs[|dbs| - 1].name) {
        CubesStepCoherent(DatabasesStep(acc, pre, opts), dbs[|dbs| - 1].cubes, opts);
      }
    }
  }

  /** The virtual cube lists (c, n) as a dimension exactly when a written
      <Cube> named c uses dimension n, and as a measure exactly when a
      written <Cube> named c has measure n; every written <Cube> carries a
      prefix of the virtual cube's calculated members. */
  lemma VirtualCubeMatchesCubes(dbs: seq<Database>, opts: Options, c: string, n: string)
    requires RunWellFormed(dbs, opts)
    ensures var sc := Convert(dbs, opts);
      && (M.VirtualCubeDimension(c, n) in sc.virtualCube.entries <==> UsedBy(sc.items, c, n))
      && (M.VirtualCubeMeasure(c, n) in sc.virtualCube.entries <==> MeasuredBy(sc.items, c, n))
      && (forall k :: 0 <= k < |sc.items| && sc.items[k].PhysicalCube? ==>
            sc.items[k].cube.calculatedMembers <= sc.virtualCube.calculatedMembers)
  {
    var acc := DatabasesStep(Start, dbs, opts);
    DatabasesStepCoherent(Start, dbs, opts);
    var ds, ms := V.DimensionEntries(acc.cubes, acc.vcubeDims), V.MeasureEntries(acc.cubes, acc.vcubeMeas);
    V.DimensionEntryIff(acc.cubes, acc.vcubeDims, c, n);
    V.MeasureEntryIff(acc.cubes, acc.vcubeMeas, c, n);
    V.DimensionEntriesAreDimensions(acc.cubes, acc.vcubeDims);
    V.MeasureEntriesAreMeasures(acc.cubes, acc.vcubeMeas);
    assert M.VirtualCubeDimension(c, n) in ds + ms <==> M.VirtualCubeDimension(c, n) in ds;
    assert M.VirtualCubeMeasure(c, n) in ds + ms <==> M.VirtualCubeMeasure(c, n) in ms;
    if UsedBy(acc.items, c, n) {
      var k, j :| 0 <= k < |acc.items| && acc.items[k].PhysicalCube? && acc.items[k].cube.name == c
        && 0 <= j < |acc.items[k].cube.usages| && acc.items[k].cube.usages[j].source == n;
    }
    if MeasuredBy(acc.items, c, n) {
      var k, j :| 0 <= k < |acc.items| && acc.items[k].PhysicalCube? && acc.items[k].cube.name == c
        && 0 <= j < |acc.items[k].cube.measures| && acc.items[k].cube.measures[j].name == n;
    }
  }

  /** The measure groups of a cube write one <Cube> each, in order, named
      after the group, with a usage of every retained dimension and the
      group's stored measures; Cubes gets the group names in the same order. */
  lemma {:induction false} GroupsStepCubes(acc: Acc, gs: seq<MeasureGroup>, rs: seq<CubeDimension>, fks: map<M.DimHeader, string>, opts: Options)
    requires GroupsWellFormed(gs, opts)
    requires forall i :: 0 <= i < |rs| ==> Header(rs[i]) in fks
    ensures var r := GroupsStep(acc, gs, rs, fks, opts);
      && |r.items| == |acc.items| + |gs| && r.items[..|acc.items|] == acc.items
      && |r.cubes| == |acc.cubes| + |gs| && r.cubes[..|acc.cubes|] == acc.cubes
      && forall k :: 0 <= k < |gs| ==>
           && r.cubes[|acc.cubes| + k] == gs[k].name
           && r.items[|acc.items| + k].PhysicalCube?
           && r.items[|acc.items| + k].cube.name == gs[k].name
           && r.items[|acc.items| + k].cube.usages == Usages(rs, fks)
           && r.items[|acc.items| + k].cube.measures == StoredMeasures(gs[k].measures)
    decreases |gs|
  {
    if gs != [] {
      var pre, g := gs[..|gs| - 1], gs[|gs| - 1];
      var prev := GroupsStep(acc, pre, rs, fks, opts);
      GroupsStepCubes(acc, pre, rs, fks, opts);
      GroupStepCube(prev, g, rs, fks, opts);
      var r := GroupStep(prev, g, rs, fks, opts);
      assert r.items[..|acc.items|] == prev.items[..|acc.items|];
      assert r.cubes[..|acc.cubes|] == prev.cubes[..|acc.cubes|];
      forall k | 0 <= k < |gs|
        ensures && r.cubes[|acc.cubes| + k] == gs[k].name
                && r.items[|acc.items| + k].PhysicalCube?
                && r.items[|acc.items| + k].cube.name == gs[k].name
                && r.items[|acc.items| + k].cube.usages == Usages(rs, fks)
                && r.items[|acc.items| + k].cube.measures == StoredMeasures(gs[k].measures)
      {
        if k < |pre| {
          assert gs[k] == pre[k];
          assert r.items[|acc.items| + k] == prev.items[|acc.items| + k];
          assert r.cubes[|acc.cubes| + k] == prev.cubes[|acc.cubes| + k];
        }
      }
    }
  }

  /** The <Cube> written for the k-th measure group. */
  lemma GroupsStepCubeAt(acc: Acc, gs: seq<MeasureGroup>, rs: seq<CubeDimension>, fks: map<M.DimHeader, string>, opts: Options, k: nat)
    requires GroupsWellFormed(gs, opts)
    requires forall i :: 0 <= i < |rs| ==> Header(rs[i]) in fks
    requires k < |gs|
    ensures var r := GroupsStep(acc, gs, rs, fks, opts);
      && |acc.items| + k < |r.items|
      && r.items[|acc.items| + k].PhysicalCube?
      && r.items[|acc.items| + k].cube.name == gs[k].name
      && r.items[|acc.items| + k].cube.usages == Usages(rs, fks)
      && r.items[|acc.items| + k].cube.measures == StoredMeasures(gs[k].measures)
  {
    GroupsStepCubes(acc, gs, rs, fks, opts);
  }

  /** Everything the measure groups write after `a.items` is a <Cube>
      with a usage of every retained dimension. */
  lemma GroupsStepTail(a: Acc, gs: seq<MeasureGroup>, rs: seq<CubeDimension>, fks: map<M.DimHeader, string>, opts: Options)
    requires GroupsWellFormed(gs, opts)
    requires forall i :: 0 <= i < |rs| ==> Header(rs[i]) in fks
    ensures var r := GroupsStep(a, gs, rs, fks, opts);
      && |a.items| <= |r.items| && r.items[..|a.items|] == a.items
      && forall k :: |a.items| <= k < |r.items| ==> r.items[k].PhysicalCube? && r.items[k].cube.usages == Usages(rs, fks)
  {
    var r := GroupsStep(a, gs, rs, fks, opts);
    assert |r.items| == |a.items| + |gs| && r.items[..|a.items|] == a.items by {
      GroupsStepCubes(a, gs, rs, fks, opts);
    }
    forall k | |a.items| <= k < |r.items|
      ensures r.items[k].PhysicalCube? && r.items[k].cube.usages == Usages(rs, fks)
    {
      GroupsStepCubeAt(a, gs, rs, fks, opts, k - |a.items|);
    }
  }

  /** VCubeDims entries written by the measure groups of a cube name
      retained dimensions only. */
  lemma {:induction false} GroupsStepDimsFrom(acc: Acc, gs: seq<MeasureGroup>, rs: seq<CubeDimension>, fks: map<M.DimHeader, string>,
                                              opts: Options, key: string, n: string)
    requires GroupsWellFormed(gs, opts)
    requires forall i :: 0 <= i < |rs| ==> Header(rs[i]) in fks
    ensures var r := GroupsStep(acc, gs, rs, fks, opts);
      key in r.vcubeDims && n in r.vcubeDims[key] ==>
        (key in acc.vcubeDims && n in acc.vcubeDims[key]) || n in Names(rs)
    decreases |gs|
  {
    if gs != [] {
      var pre, g := gs[..|gs| - 1], gs[|gs| - 1];
      var prev := GroupsStep(acc, pre, rs, fks, opts);
      GroupsStepDimsFrom(acc, pre, rs, fks, opts, key, n);
      GroupStepCube(prev, g, rs, fks, opts);
      AccumulateMember(prev.vcubeDims, g.name, Names(rs), key, n);
    }
  }

  /** The headers of the <Dimension> elements of a cube follow its retained dimensions. */
  lemma {:induction false} DimensionsOfHeaders(rs: seq<CubeDimension>, cl: Classification, opts: Options, schema: string)
    requires AllWellFormed(rs, cl)
    ensures forall i :: 0 <= i < |rs| ==> DimensionsOf(rs, cl, opts, schema)[i].header == Header(rs[i])
    decreases |rs|
  {
    if rs != [] {
      var pre := rs[..|rs| - 1];
      WellFormedPrefix(rs, cl, |rs| - 1);
      DimensionsOfHeaders(pre, cl, opts, schema);
      forall i | 0 <= i < |rs| - 1 ensures DimensionsOf(rs, cl, opts, schema)[i].header == Header(rs[i]) {
        assert rs[i] == pre[i];
      }
    }
  }

  /** The state after a cube's <Dimension> elements, before its measure groups. */
  function AfterDimensions(acc: Acc, c: Cube, opts: Options): Acc
    requires CubeWellFormed(c, opts)
  {
    var cl := CubeClassification(c);
    var rs := CubeDimensions(c);
    var s := LastSchema(ScanLinks(AllLinks(c.measureGroups), BoolM2M).splits, acc.sschema);
    acc.(sschema := LastSchema(DimensionsKeys(rs, cl), s), items := acc.items + SharedDimensions(DimensionsOf(rs, cl, opts, s)))
  }

  /** A cube writes its retained dimensions, then runs its measure groups. */
  lemma CubeStepSplits(acc: Acc, c: Cube, opts: Options)
    requires CubeWellFormed(c, opts)
    ensures CubeStep(acc, c, opts) ==
      GroupsStep(AfterDimensions(acc, c, opts), c.measureGroups, CubeDimensions(c),
                 ForeignKeys(CubeDimensions(c), CubeClassification(c)), opts)
  {
  }

  /** The i-th element a cube writes is the <Dimension> of its i-th
      retained dimension, started with the sschema left by the
      classification loop's splitField calls and the dimensions before it. */
  lemma CubeDimensionAt(acc: Acc, c: Cube, opts: Options, i: nat)
    requires CubeWellFormed(c, opts) && i < |CubeDimensions(c)|
    ensures var rs := CubeDimensions(c);
      var scan := ScanLinks(AllLinks(c.measureGroups), BoolM2M);
      var r := CubeStep(acc, c, opts);
      && AllWellFormed(rs[..i], scan.cl)
      && |acc.items| + i < |r.items|
      && r.items[|acc.items| + i] ==
           M.SharedDimension(DimensionOf(rs[i], scan.cl, opts, LastSchema(scan.splits + DimensionsKeys(rs[..i], scan.cl), acc.sschema)))
  {
    var rs := CubeDimensions(c);
    var scan := ScanLinks(AllLinks(c.measureGroups), BoolM2M);
    var s := LastSchema(scan.splits, acc.sschema);
    var cl := scan.cl;
    var dims := DimensionsOf(rs, cl, opts, s);
    var r := CubeStep(acc, c, opts);
    assert cl == CubeClassification(c);
    CubeStepKeepsDimensions(acc, c, opts);
    ItemAfter(r.items, acc.items, dims, i);
    assert r.items[|acc.items| + i] == M.SharedDimension(dims[i]);
    DimensionsOfAt(rs, cl, opts, s, i);
    var schema := LastSchema(scan.splits + DimensionsKeys(rs[..i], cl), acc.sschema);
    assert schema == LastSchema(DimensionsKeys(rs[..i], cl), s) by {
      LastSchemaAppend(scan.splits, DimensionsKeys(rs[..i], cl), acc.sschema);
    }
    assert dims[i] == DimensionOf(rs[i], cl, opts, schema);
  }

  /** The measure groups of a cube only append after its <Dimension> elements. */
  lemma CubeStepKeepsDimensions(acc: Acc, c: Cube, opts: Options)
    requires CubeWellFormed(c, opts)
    ensures var a := AfterDimensions(acc, c, opts);
      var r := CubeStep(acc, c, opts);
      && a.items == acc.items + SharedDimensions(DimensionsOf(CubeDimensions(c), CubeClassification(c), opts,
                                                             LastSchema(ScanLinks(AllLinks(c.measureGroups), BoolM2M).splits, acc.sschema)))
      && |a.items| <= |r.items| && r.items[..|a.items|] == a.items
  {
    var a := AfterDimensions(acc, c, opts);
    CubeStepSplits(acc, c, opts);
    GroupsStepTail(a, c.measureGroups, CubeDimensions(c), ForeignKeys(CubeDimensions(c), CubeClassification(c)), opts);
  }

  /** Sequence core of CubeDimensionAt. */
  lemma ItemAfter(items: seq<M.Item>, base: seq<M.Item>, dims: seq<M.Dimension>, i: nat)
    requires |base + SharedDimensions(dims)| <= |items| && items[..|base + SharedDimensions(dims)|] == base + SharedDimensions(dims)
    requires i < |dims|
    ensures |base| + i < |items| && items[|base| + i] == M.SharedDimension(dims[i])
  {
    var k := |base| + i;
    assert items[k] == items[..|base + SharedDimensions(dims)|][k];
  }

  /** Sequence core of ExcludedDimensionsOmitted: a run of <Dimension>
      elements and <Cube> elements built from dimensions other than `n`
      mention no `n`. */
  lemma OmittedFrom(acc: Acc, a: Acc, r: Acc, rs: seq<CubeDimension>, dims: seq<M.Dimension>,
                    us: seq<M.DimensionUsage>, n: string)
    requires a.items == acc.items + SharedDimensions(dims)
    requires |dims| == |rs| && forall i :: 0 <= i < |rs| ==> dims[i].header.name == rs[i].name
    requires forall i :: 0 <= i < |rs| ==> rs[i].name != n
    requires |us| == |rs| && forall j :: 0 <= j < |us| ==> us[j].source == rs[j].name
    requires |a.items| <= |r.items| && r.items[..|a.items|] == a.items
    requires forall k :: |a.items| <= k < |r.items| ==> r.items[k].PhysicalCube? && r.items[k].cube.usages == us
    ensures |acc.items| <= |r.items| && r.items[..|acc.items|] == acc.items
    ensures forall k :: |acc.items| <= k < |r.items| && r.items[k].SharedDimension? ==>
      r.items[k].dimension.header.name != n
    ensures forall k, j :: |acc.items| <= k < |r.items| && r.items[k].PhysicalCube? && 0 <= j < |r.items[k].cube.usages| ==>
      r.items[k].cube.usages[j].source != n
  {
    assert r.items[..|acc.items|] == r.items[..|a.items|][..|acc.items|];
    forall k | |acc.items| <= k < |a.items|
      ensures r.items[k] == M.SharedDimension(dims[k - |acc.items|])
    {
      assert r.items[k] == r.items[..|a.items|][k];
    }
  }

  /** A dimension the classification skips (lines 264-265, 276) gets no
      <Dimension> and no <DimensionUsage> in any <Cube> written for the cube. */
  lemma ExcludedDimensionsOmitted(acc: Acc, c: Cube, opts: Options, n: string)
    requires CubeWellFormed(c, opts)
    requires n in CubeClassification(c).ignored
    ensures var r := CubeStep(acc, c, opts);
      && |acc.items| <= |r.items| && r.items[..|acc.items|] == acc.items
      && (forall k :: |acc.items| <= k < |r.items| && r.items[k].SharedDimension? ==>
            r.items[k].dimension.header.name != n)
      && (forall k, j :: |acc.items| <= k < |r.items| && r.items[k].PhysicalCube? && 0 <= j < |r.items[k].cube.usages| ==>
            r.items[k].cube.usages[j].source != n)
  {
    var cl := CubeClassification(c);
    var rs := CubeDimensions(c);
    var fks := ForeignKeys(rs, cl);
    var a := AfterDimensions(acc, c, opts);
    var s := LastSchema(ScanLinks(AllLinks(c.measureGroups), BoolM2M).splits, acc.sschema);
    var dims := DimensionsOf(rs, cl, opts, s);
    var r := CubeStep(acc, c, opts);
    CubeStepSplits(acc, c, opts);
    DimensionsOfHeaders(rs, cl, opts, s);
    GroupsStepTail(a, c.measureGroups, rs, fks, opts);
    OmittedFrom(acc, a, r, rs, dims, Usages(rs, fks), n);
  }

  /** Nor does a skipped dimension get a new VCubeDims entry (lines 452-464). */
  lemma ExcludedDimensionsUnlisted(acc: Acc, c: Cube, opts: Options, n: string)
    requires CubeWellFormed(c, opts)
    requires n in CubeClassification(c).ignored
    ensures var r := CubeStep(acc, c, opts);
      forall key :: key in r.vcubeDims && n in r.vcubeDims[key] ==> key in acc.vcubeDims && n in acc.vcubeDims[key]
  {
    var rs := CubeDimensions(c);
    var fks := ForeignKeys(rs, CubeClassification(c));
    var a := AfterDimensions(acc, c, opts);
    var r := CubeStep(acc, c, opts);
    CubeStepSplits(acc, c, opts);
    assert n !in Names(rs);
    forall key | key in r.vcubeDims && n in r.vcubeDims[key] ensures key in acc.vcubeDims && n in acc.vcubeDims[key] {
      GroupsStepDimsFrom(a, c.measureGroups, rs, fks, opts, key, n);
    }
  }
}
