/// The single virtual cube written after all cubes (Program.cs:547-576):
/// for every measure group in visit order its accumulated dimensions, then,
/// in a second pass, its accumulated stored measures; a measure group with
/// no accumulator entry (KeyNotFoundException, swallowed) contributes
/// nothing. The imperative two-pass loop is Converter.EmitVirtualCube.
module VirtualCubes {
  import M = Mondrian

  /** The entries one measure group contributes in the first pass. */
  function DimensionEntriesOf(cube: string, names: seq<string>): (r: seq<M.VirtualEntry>)
    ensures |r| == |names|
    ensures forall i :: 0 <= i < |r| ==> r[i] == M.VirtualCubeDimension(cube, names[i])
  {
    if names == [] then []
    else DimensionEntriesOf(cube, names[..|names| - 1]) + [M.VirtualCubeDimension(cube, names[|names| - 1])]
  }

  /** The entries one measure group contributes in the second pass. */
  function MeasureEntriesOf(cube: string, names: seq<string>): (r: seq<M.VirtualEntry>)
    ensures |r| == |names|
    ensures forall i :: 0 <= i < |r| ==> r[i] == M.VirtualCubeMeasure(cube, names[i])
  {
    if names == [] then []
    else MeasureEntriesOf(cube, names[..|names| - 1]) + [M.VirtualCubeMeasure(cube, names[|names| - 1])]
  }

  /** First pass (lines 551-561): missing keys are skipped. */
  function DimensionEntries(cubes: seq<string>, vdims: map<string, seq<string>>): seq<M.VirtualEntry> {
    if cubes == [] then []
    else
      var c := cubes[|cubes| - 1];
      DimensionEntries(cubes[..|cubes| - 1], vdims) + (if c in vdims then DimensionEntriesOf(c, vdims[c]) else [])
  }

  /** Second pass (lines 563-573): missing keys are skipped. */
  function MeasureEntries(cubes: seq<string>, vmeas: map<string, seq<string>>): seq<M.VirtualEntry> {
    if cubes == [] then []
    else
      var c := cubes[|cubes| - 1];
      MeasureEntries(cubes[..|cubes| - 1], vmeas) + (if c in vmeas then MeasureEntriesOf(c, vmeas[c]) else [])
  }

  /** <VirtualCube> with both passes and, after them, every calculated
      member collected over the run (line 575). */
  function VirtualCubeOf(name: string, cubes: seq<string>, vdims: map<string, seq<string>>,
                         vmeas: map<string, seq<string>>, cms: seq<M.CalculatedMember>): M.VirtualCube
  {
    M.VirtualCube(name, DimensionEntries(cubes, vdims) + MeasureEntries(cubes, vmeas), cms)
  }

  /** The first pass yields only dimension entries. */
  lemma {:induction false} DimensionEntriesAreDimensions(cubes: seq<string>, vdims: map<string, seq<string>>)
    ensures forall e <- DimensionEntries(cubes, vdims) :: e.VirtualCubeDimension?
    decreases |cubes|
  {
    if cubes != [] {
      DimensionEntriesAreDimensions(cubes[..|cubes| - 1], vdims);
    }
  }

  /** The second pass yields only measure entries. */
  lemma {:induction false} MeasureEntriesAreMeasures(cubes: seq<string>, vmeas: map<string, seq<string>>)
    ensures forall e <- MeasureEntries(cubes, vmeas) :: e.VirtualCubeMeasure?
    decreases |cubes|
  {
    if cubes != [] {
      MeasureEntriesAreMeasures(cubes[..|cubes| - 1], vmeas);
    }
  }

  /** Every VirtualCubeDimension precedes every VirtualCubeMeasure. */
  lemma DimensionsBeforeMeasures(name: string, cubes: seq<string>, vdims: map<string, seq<string>>,
                                 vmeas: map<string, seq<string>>, cms: seq<M.CalculatedMember>)
    ensures var es := VirtualCubeOf(name, cubes, vdims, vmeas, cms).entries;
      forall i, j :: 0 <= i < j < |es| && es[j].VirtualCubeDimension? ==> es[i].VirtualCubeDimension?
  {
    var ds, ms := DimensionEntries(cubes, vdims), MeasureEntries(cubes, vmeas);
    DimensionEntriesAreDimensions(cubes, vdims);
    MeasureEntriesAreMeasures(cubes, vmeas);
    var es := ds + ms;
    forall i, j | 0 <= i < j < |es|
      ensures es[j].VirtualCubeDimension? ==> es[i].VirtualCubeDimension?
    {
      if i < |ds| {
        assert ds[i] in ds;
      } else {
        assert ms[j - |ds|] in ms;
      }
    }
  }

  /** A (cube, dimension) pair is listed exactly when the cube was visited and
      its accumulator entry holds the dimension. */
  lemma {:induction false} DimensionEntryIff(cubes: seq<string>, vdims: map<string, seq<string>>, c: string, n: string)
    ensures M.VirtualCubeDimension(c, n) in DimensionEntries(cubes, vdims) <==>
      c in cubes && c in vdims && n in vdims[c]
    decreases |cubes|
  {
    if cubes != [] {
      var pre, last := cubes[..|cubes| - 1], cubes[|cubes| - 1];
      DimensionEntryIff(pre, vdims, c, n);
      assert cubes == pre + [last];
      if last in vdims {
        var own := DimensionEntriesOf(last, vdims[last]);
        if M.VirtualCubeDimension(c, n) in own {
          var i :| 0 <= i < |own| && own[i] == M.VirtualCubeDimension(c, n);
          assert vdims[last][i] == n;
        }
        if c == last && n in vdims[c] {
          var i :| 0 <= i < |vdims[c]| && vdims[c][i] == n;
          assert own[i] == M.VirtualCubeDimension(c, n);
        }
      }
    }
  }

  /** A (cube, measure) pair is listed exactly when the cube was visited and
      its accumulator entry holds the measure. */
  lemma {:induction false} MeasureEntryIff(cubes: seq<string>, vmeas: map<string, seq<string>>, c: string, n: string)
    ensures M.VirtualCubeMeasure(c, n) in MeasureEntries(cubes, vmeas) <==>
      c in cubes && c in vmeas && n in vmeas[c]
    decreases |cubes|
  {
    if cubes != [] {
      var pre, last := cubes[..|cubes| - 1], cubes[|cubes| - 1];
      MeasureEntryIff(pre, vmeas, c, n);
      assert cubes == pre + [last];
      if last in vmeas {
        var own := MeasureEntriesOf(last, vmeas[last]);
        if M.VirtualCubeMeasure(c, n) in own {
          var i :| 0 <= i < |own| && own[i] == M.VirtualCubeMeasure(c, n);
          assert vmeas[last][i] == n;
        }
        if c == last && n in vmeas[c] {
          var i :| 0 <= i < |vmeas[c]| && vmeas[c][i] == n;
          assert own[i] == M.VirtualCubeMeasure(c, n);
        }
      }
    }
  }
}
