/// The dimension classification loop of Program.cs:244-267 as functions:
/// which cube dimensions to skip (`ignoredim`), which dimensions are
/// reached through a reference link and with which key columns
/// (`refdims`, also keyed by the name with "XX" appended), and the foreign
/// key Mondrian needs for those snowflakes (`specialFK`). The imperative
/// loop is Converter.ClassifyLinks.
module Classifier {
  import opened Strings
  import opened Resolver
  import opened Amo

  datatype Classification = Classification(
    ignored: seq<string>,
    refdims: map<string, string>,
    specialFK: map<string, string>)

  /** The tables after a run of links, and the keys handed to splitField on
      the way (Program.cs:257), in call order. */
  datatype Scan = Scan(cl: Classification, splits: seq<string>)

  const Empty := Classification([], map[], map[])

  /** The links of the measure groups, group by group, in order. */
  function AllLinks(groups: seq<MeasureGroup>): seq<Link> {
    if groups == [] then []
    else AllLinks(groups[..|groups| - 1]) + groups[|groups| - 1].links
  }

  /** The try block of Program.cs:253-261 for a reference link to `name`.
      Each Hashtable.Add throws on a key already present and each provider
      lookup may throw; the exception is swallowed, and whatever was added
      before it stays. */
  function ReferenceStep(c: Classification, name: string, kind: LinkKind): Scan
    requires kind.Reference?
  {
    if kind.baseKey.None? || name in c.refdims then Scan(c, [])
    else
      var c1 := c.(refdims := c.refdims[name := kind.baseKey.value]);
      if kind.granularityKey.None? || name + "XX" in c1.refdims then Scan(c1, [])
      else
        var c2 := c1.(refdims := c1.refdims[name + "XX" := kind.granularityKey.value]);
        if kind.intermediateKey.None? then Scan(c2, [])
        else
          var temps := Resolve(kind.intermediateKey.value);
          if |temps| < 2 || name in c2.specialFK then Scan(c2, [kind.intermediateKey.value])
          else Scan(c2.(specialFK := c2.specialFK[name := temps[1]]), [kind.intermediateKey.value])
  }

  /** Lines 264-265: the link makes its cube dimension unusable. */
  predicate Excludes(link: Link, boolM2M: bool) {
    link.kind.DataMining? || (boolM2M && link.kind.ManyToMany?)
  }

  /** One pass of the inner loop body (Program.cs:249-265). */
  function LinkStep(c: Classification, link: Link, boolM2M: bool): Scan {
    var r := if link.kind.Reference? then ReferenceStep(c, link.dimension, link.kind) else Scan(c, []);
    var ignored := r.cl.ignored + if Excludes(link, boolM2M) then [link.cubeDimension] else [];
    Scan(r.cl.(ignored := ignored), r.splits)
  }

  function ScanLinks(links: seq<Link>, boolM2M: bool): Scan {
    if links == [] then Scan(Empty, [])
    else
      var prev := ScanLinks(links[..|links| - 1], boolM2M);
      var step := LinkStep(prev.cl, links[|links| - 1], boolM2M);
      Scan(step.cl, prev.splits + step.splits)
  }

  function Classify(links: seq<Link>, boolM2M: bool): Classification {
    ScanLinks(links, boolM2M).cl
  }

  /** A cube dimension is skipped exactly when some link to it is a
      data-mining link, or a many-to-many link while boolM2M holds. */
  lemma {:induction false} IgnoredIff(links: seq<Link>, boolM2M: bool, n: string)
    ensures n in Classify(links, boolM2M).ignored <==>
      exists k :: 0 <= k < |links| && links[k].cubeDimension == n && Excludes(links[k], boolM2M)
    decreases |links|
  {
    if links != [] {
      var pre, last := links[..|links| - 1], links[|links| - 1];
      IgnoredIff(pre, boolM2M, n);
      var prev := ScanLinks(pre, boolM2M).cl;
      assert last.kind.Reference? ==>
        ReferenceStep(prev, last.dimension, last.kind).cl.ignored == prev.ignored;
      if exists k :: 0 <= k < |links| && links[k].cubeDimension == n && Excludes(links[k], boolM2M) {
        var k :| 0 <= k < |links| && links[k].cubeDimension == n && Excludes(links[k], boolM2M);
        if k < |links| - 1 {
          assert pre[k] == links[k];
        }
      }
      if exists k :: 0 <= k < |pre| && pre[k].cubeDimension == n && Excludes(pre[k], boolM2M) {
        var k :| 0 <= k < |pre| && pre[k].cubeDimension == n && Excludes(pre[k], boolM2M);
        assert links[k] == pre[k];
      }
    }
  }

  /** Once a table has an entry, no later link changes it. */
  predicate Extends(c: Classification, c': Classification) {
    && (forall k :: k in c.refdims ==> k in c'.refdims && c'.refdims[k] == c.refdims[k])
    && (forall k :: k in c.specialFK ==> k in c'.specialFK && c'.specialFK[k] == c.specialFK[k])
  }

  /** Every special foreign key belongs to a dimension with both refdims entries. */
  predicate Consistent(c: Classification) {
    forall n :: n in c.specialFK ==> n in c.refdims && n + "XX" in c.refdims
  }

  lemma LinkStepExtends(c: Classification, link: Link, boolM2M: bool)
    requires Consistent(c)
    ensures Extends(c, LinkStep(c, link, boolM2M).cl)
    ensures Consistent(LinkStep(c, link, boolM2M).cl)
  {
  }

  /** The entries present after a prefix of the links are there, unchanged,
      after all of them: a duplicate Add throws, so the first link to a
      dimension decides its entries. */
  lemma {:induction false} FirstWriterWins(links: seq<Link>, boolM2M: bool, j: nat)
    requires j <= |links|
    ensures Extends(Classify(links[..j], boolM2M), Classify(links, boolM2M))
    ensures Consistent(Classify(links, boolM2M))
    decreases |links|
  {
    if links == [] {
      assert links[..j] == links;
    } else {
      var pre := links[..|links| - 1];
      var prev := ScanLinks(pre, boolM2M).cl;
      if j == |links| {
        assert links[..j] == links;
        FirstWriterWins(pre, boolM2M, |pre|);
      } else {
        assert links[..j] == pre[..j];
        FirstWriterWins(pre, boolM2M, j);
      }
      LinkStepExtends(prev, links[|links| - 1], boolM2M);
    }
  }

  /** The first reference link that names a dimension not yet in refdims
      fixes its refdims entry to that link's key column for good. */
  lemma FirstReferenceKept(links: seq<Link>, boolM2M: bool, k: nat)
    requires k < |links| && links[k].kind.Reference? && links[k].kind.baseKey.Some?
    requires links[k].dimension !in Classify(links[..k], boolM2M).refdims
    ensures links[k].dimension in Classify(links, boolM2M).refdims
    ensures Classify(links, boolM2M).refdims[links[k].dimension] == links[k].kind.baseKey.value
  {
    assert links[..k + 1][..k] == links[..k];
    FirstWriterWins(links, boolM2M, k + 1);
  }

  /** The reference link to `n` whose three lookups succeeded and whose
      intermediate key column splits into `fk` as its second segment. */
  predicate SuppliesSpecialFK(link: Link, n: string, fk: string) {
    && link.dimension == n
    && link.kind.Reference?
    && link.kind.baseKey.Some? && link.kind.granularityKey.Some? && link.kind.intermediateKey.Some?
    && |Resolve(link.kind.intermediateKey.value)| >= 2
    && fk == Resolve(link.kind.intermediateKey.value)[1]
  }

  /** A dimension gets a special foreign key only through a reference link
      whose three lookups all succeeded. */
  lemma {:induction false} SpecialFKOrigin(links: seq<Link>, boolM2M: bool, n: string)
    requires n in Classify(links, boolM2M).specialFK
    ensures exists k :: 0 <= k < |links| && SuppliesSpecialFK(links[k], n, Classify(links, boolM2M).specialFK[n])
    decreases |links|
  {
    var pre, last := links[..|links| - 1], links[|links| - 1];
    var prev := Classify(pre, boolM2M);
    var fk := Classify(links, boolM2M).specialFK[n];
    FirstWriterWins(pre, boolM2M, |pre|);
    assert pre[..|pre|] == pre;
    if n in prev.specialFK {
      SpecialFKOrigin(pre, boolM2M, n);
      LinkStepExtends(prev, last, boolM2M);
      var k :| 0 <= k < |pre| && SuppliesSpecialFK(pre[k], n, prev.specialFK[n]);
      assert links[k] == pre[k];
    } else {
      assert Classify(links, boolM2M) == LinkStep(prev, last, boolM2M).cl;
      assert last.kind.Reference?;
      var r := ReferenceStep(prev, last.dimension, last.kind);
      assert r.cl.specialFK == Classify(links, boolM2M).specialFK;
      assert SuppliesSpecialFK(links[|links| - 1], n, fk);
    }
  }
}
