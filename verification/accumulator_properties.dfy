/** What reading documents does to the Accumulator's state, stated against reference
    definitions of what the documents contain. */
module AccumulatorProperties {
  import opened Wrappers
  import opened OrderedMaps
  import opened Xml
  import opened CloverFile
  import CloverMetrics
  import opened AccumulatorModel

  // ---------------------------------------------------------------------------
  // Reference definitions: what a document contributes to one file name and line number

  /** For a file name `f` and line number `n`: is some named file element called `f`, does
      some such element carry a counted line `n`, does every such element carry one (true
      when there is none), and the sum of those lines' counts. */
  datatype Share = Share(named: bool, mentioned: bool, every: bool, total: int)

  const NoShare := Share(false, false, true, 0)

  function Plus(a: Share, b: Share): Share {
    Share(a.named || b.named, a.mentioned || b.mentioned, a.every && b.every, a.total + b.total)
  }

  function ItemShare(e: Elem, f: string, n: int): Share
    decreases e, 1, 0
  {
    if e.name == "package" then ItemsShare(e, 0, f, n)
    else if e.name == "file" && NameOf(e) == Some(f) then
      Share(true, MentionsLine(e.children, n), MentionsLine(e.children, n), LineTotal(e.children, n))
    else NoShare
  }

  function ItemsShare(parent: Elem, i: nat, f: string, n: int): Share
    requires i <= |parent.children|
    decreases parent, 0, |parent.children| - i
  {
    if i == |parent.children| then NoShare
    else Plus(ItemShare(parent.children[i], f, n), ItemsShare(parent, i + 1, f, n))
  }

  function ProjectShare(p: Elem, f: string, n: int): Share {
    if p.name == "project" then ItemsShare(p, 0, f, n) else NoShare
  }

  function ProjectsShare(doc: Elem, i: nat, f: string, n: int): Share
    requires i <= |doc.children|
    decreases |doc.children| - i
  {
    if i == |doc.children| then NoShare
    else Plus(ProjectShare(doc.children[i], f, n), ProjectsShare(doc, i + 1, f, n))
  }

  function DocShare(doc: Elem, f: string, n: int): Share {
    if doc.name == "coverage" then ProjectsShare(doc, 0, f, n) else NoShare
  }

  function DocsShare(docs: seq<Elem>, f: string, n: int): Share {
    if docs == [] then NoShare else Plus(DocShare(docs[0], f, n), DocsShare(docs[1..], f, n))
  }

  /** The first metrics element met, reading packages depth first. */
  function ItemMetrics(e: Elem): Option<Metrics>
    decreases e, 1, 0
  {
    if e.name == "package" then ItemsMetrics(e, 0)
    else if e.name == "metrics" then Some(CloverMetrics.FromXml(e))
    else None
  }

  function ItemsMetrics(parent: Elem, i: nat): Option<Metrics>
    requires i <= |parent.children|
    decreases parent, 0, |parent.children| - i
  {
    if i == |parent.children| then None
    else OrElse(ItemMetrics(parent.children[i]), ItemsMetrics(parent, i + 1))
  }

  function ProjectsMetrics(doc: Elem, i: nat): Option<Metrics>
    requires i <= |doc.children|
    decreases |doc.children| - i
  {
    if i == |doc.children| then None
    else
      var p := doc.children[i];
      OrElse(if p.name == "project" then ItemsMetrics(p, 0) else None, ProjectsMetrics(doc, i + 1))
  }

  /** The first of two optional values that is present. */
  function OrElse<T>(a: Option<T>, b: Option<T>): Option<T> {
    if a.Some? then a else b
  }

  // ---------------------------------------------------------------------------
  // The relations one parse step establishes

  /** Reading content with share `c` into `s` gave `r`: without the lock, named files and
      mentioned lines appear and counts add; with it, nothing appears and only the counts of
      lines already present grow. */
  predicate Accumulates(s: AccState, r: AccState, f: string, n: int, c: Share) {
    && (f in r.files.values <==> f in s.files.values || (!s.lockLines && c.named))
    && (n in LinesOf(r, f).values <==> n in LinesOf(s, f).values || (!s.lockLines && c.mentioned))
    && CountAt(LinesOf(r, f), n)
       == CountAt(LinesOf(s, f), n) + (if s.lockLines && n !in LinesOf(s, f).values then 0 else c.total)
  }

  /** Every mode: files appear only from named file elements and only while unlocked; in
      exclusive mode the lines of a file already present never gain a number. */
  predicate FilesGrowLinesShrink(s: AccState, r: AccState, f: string, n: int, c: Share) {
    && (f in r.files.values <==> f in s.files.values || (!s.lockLines && c.named))
    && (s.mode == Exclusive && f in s.files.values && n in LinesOf(r, f).values ==> n in LinesOf(s, f).values)
  }

  /** The mode, the lock and the empty flag are not changed while a document is read. */
  predicate SameFlags(s: AccState, r: AccState) {
    r.mode == s.mode && r.lockLines == s.lockLines && r.empty == s.empty
  }

  lemma AccumulatesTrans(s: AccState, m: AccState, r: AccState, f: string, n: int, c1: Share, c2: Share)
    requires Accumulates(s, m, f, n, c1) && Accumulates(m, r, f, n, c2) && m.lockLines == s.lockLines
    ensures Accumulates(s, r, f, n, Plus(c1, c2))
  {
  }

  // ---------------------------------------------------------------------------
  // One file element

  lemma FileStepAccumulates(s: AccState, e: Elem, pkg: Option<string>, f: string, n: int)
    requires s.mode != Exclusive && e.name == "file"
    ensures Accumulates(s, ParseFile(s, e, pkg), f, n, ItemShare(e, f, n))
  {
    if NameOf(e) == Some(f) {
      var parsed := FileFromXml(e, pkg);
      FromXmlFacts(e, pkg, n);
      if f in s.files.values {
        MergeLines(s.files.values[f], parsed.file, s.mode, s.lockLines, n);
      }
    }
  }

  lemma FileStepFiles(s: AccState, e: Elem, pkg: Option<string>, f: string, n: int)
    requires e.name == "file"
    ensures FilesGrowLinesShrink(s, ParseFile(s, e, pkg), f, n, ItemShare(e, f, n))
  {
    if NameOf(e) == Some(f) && f in s.files.values {
      MergeLines(s.files.values[f], FileFromXml(e, pkg).file, s.mode, s.lockLines, n);
    }
  }

  // ---------------------------------------------------------------------------
  // Items, by mutual induction over the element tree

  lemma {:induction false} ItemFlags(s: AccState, e: Elem, pkg: Option<string>)
    ensures SameFlags(s, ParseItem(s, e, pkg))
    decreases e, 1, 0
  {
    if e.name == "package" {
      var s' := if NameOf(e).Some? then s else s.(log := s.log + [PackageWithoutName]);
      ItemsFlags(s', e, NameOf(e), 0);
    }
  }

  lemma {:induction false} ItemsFlags(s: AccState, parent: Elem, pkg: Option<string>, i: nat)
    requires i <= |parent.children|
    ensures SameFlags(s, ParseItems(s, parent, pkg, i))
    decreases parent, 0, |parent.children| - i
  {
    if i < |parent.children| {
      ItemFlags(s, parent.children[i], pkg);
      ItemsFlags(ParseItem(s, parent.children[i], pkg), parent, pkg, i + 1);
    }
  }

  lemma {:induction false} ItemAccumulates(s: AccState, e: Elem, pkg: Option<string>, f: string, n: int)
    requires s.mode != Exclusive
    ensures Accumulates(s, ParseItem(s, e, pkg), f, n, ItemShare(e, f, n))
    decreases e, 1, 0
  {
    if e.name == "package" {
      var s' := if NameOf(e).Some? then s else s.(log := s.log + [PackageWithoutName]);
      ItemsAccumulate(s', e, NameOf(e), 0, f, n);
    } else if e.name == "file" {
      FileStepAccumulates(s, e, pkg, f, n);
    }
  }

  lemma {:induction false} ItemsAccumulate(s: AccState, parent: Elem, pkg: Option<string>, i: nat, f: string, n: int)
    requires s.mode != Exclusive && i <= |parent.children|
    ensures Accumulates(s, ParseItems(s, parent, pkg, i), f, n, ItemsShare(parent, i, f, n))
    decreases parent, 0, |parent.children| - i
  {
    if i < |parent.children| {
      var c := parent.children[i];
      var m := ParseItem(s, c, pkg);
      var r := ParseItems(m, parent, pkg, i + 1);
      assert r == ParseItems(s, parent, pkg, i);
      assert m.lockLines == s.lockLines && m.mode == s.mode by { ItemFlags(s, c, pkg); }
      assert Accumulates(s, m, f, n, ItemShare(c, f, n)) by { ItemAccumulates(s, c, pkg, f, n); }
      assert Accumulates(m, r, f, n, ItemsShare(parent, i + 1, f, n)) by { ItemsAccumulate(m, parent, pkg, i + 1, f, n); }
      AccumulatesTrans(s, m, r, f, n, ItemShare(c, f, n), ItemsShare(parent, i + 1, f, n));
    }
  }

  lemma {:induction false} ItemFiles(s: AccState, e: Elem, pkg: Option<string>, f: string, n: int)
    ensures FilesGrowLinesShrink(s, ParseItem(s, e, pkg), f, n, ItemShare(e, f, n))
    decreases e, 1, 0
  {
    if e.name == "package" {
      var s' := if NameOf(e).Some? then s else s.(log := s.log + [PackageWithoutName]);
      ItemsFiles(s', e, NameOf(e), 0, f, n);
    } else if e.name == "file" {
      FileStepFiles(s, e, pkg, f, n);
    }
  }

  lemma {:induction false} ItemsFiles(s: AccState, parent: Elem, pkg: Option<string>, i: nat, f: string, n: int)
    requires i <= |parent.children|
    ensures FilesGrowLinesShrink(s, ParseItems(s, parent, pkg, i), f, n, ItemsShare(parent, i, f, n))
    decreases parent, 0, |parent.children| - i
  {
    if i < |parent.children| {
      var c := parent.children[i];
      var m := ParseItem(s, c, pkg);
      ItemFiles(s, c, pkg, f, n);
      ItemFlags(s, c, pkg);
      ItemsFiles(m, parent, pkg, i + 1, f, n);
    }
  }

  lemma {:induction false} ItemMetricsFirst(s: AccState, e: Elem, pkg: Option<string>)
    ensures ParseItem(s, e, pkg).metrics == OrElse(s.metrics, ItemMetrics(e))
    decreases e, 1, 0
  {
    if e.name == "package" {
      var s' := if NameOf(e).Some? then s else s.(log := s.log + [PackageWithoutName]);
      ItemsMetricsFirst(s', e, NameOf(e), 0);
    }
  }

  lemma {:induction false} ItemsMetricsFirst(s: AccState, parent: Elem, pkg: Option<string>, i: nat)
    requires i <= |parent.children|
    ensures ParseItems(s, parent, pkg, i).metrics == OrElse(s.metrics, ItemsMetrics(parent, i))
    decreases parent, 0, |parent.children| - i
  {
    if i < |parent.children| {
      ItemMetricsFirst(s, parent.children[i], pkg);
      ItemsMetricsFirst(ParseItem(s, parent.children[i], pkg), parent, pkg, i + 1);
    }
  }

  // ---------------------------------------------------------------------------
  // Projects

  lemma {:induction false} ProjectsFlags(s: AccState, doc: Elem, i: nat)
    requires i <= |doc.children|
    ensures SameFlags(s, ParseProjects(s, doc, i))
    decreases |doc.children| - i
  {
    if i < |doc.children| {
      var p := doc.children[i];
      if p.name == "project" { ItemsFlags(s, p, None, 0); }
      ProjectsFlags(ParseProject(s, p), doc, i + 1);
    }
  }

  lemma {:induction false} ProjectsAccumulate(s: AccState, doc: Elem, i: nat, f: string, n: int)
    requires s.mode != Exclusive && i <= |doc.children|
    ensures Accumulates(s, ParseProjects(s, doc, i), f, n, ProjectsShare(doc, i, f, n))
    decreases |doc.children| - i
  {
    if i < |doc.children| {
      var p := doc.children[i];
      var m := ParseProject(s, p);
      var r := ParseProjects(m, doc, i + 1);
      assert r == ParseProjects(s, doc, i);
      assert m.lockLines == s.lockLines && m.mode == s.mode by {
        if p.name == "project" { ItemsFlags(s, p, None, 0); }
      }
      assert Accumulates(s, m, f, n, ProjectShare(p, f, n)) by {
        if p.name == "project" { ItemsAccumulate(s, p, None, 0, f, n); }
      }
      assert Accumulates(m, r, f, n, ProjectsShare(doc, i + 1, f, n)) by { ProjectsAccumulate(m, doc, i + 1, f, n); }
      AccumulatesTrans(s, m, r, f, n, ProjectShare(p, f, n), ProjectsShare(doc, i + 1, f, n));
    }
  }

  lemma {:induction false} ProjectsFiles(s: AccState, doc: Elem, i: nat, f: string, n: int)
    requires i <= |doc.children|
    ensures FilesGrowLinesShrink(s, ParseProjects(s, doc, i), f, n, ProjectsShare(doc, i, f, n))
    decreases |doc.children| - i
  {
    if i < |doc.children| {
      var p := doc.children[i];
      if p.name == "project" {
        ItemsFiles(s, p, None, 0, f, n);
        ItemsFlags(s, p, None, 0);
      }
      ProjectsFiles(ParseProject(s, p), doc, i + 1, f, n);
    }
  }

  lemma {:induction false} ProjectsMetricsFirst(s: AccState, doc: Elem, i: nat)
    requires i <= |doc.children|
    ensures ParseProjects(s, doc, i).metrics == OrElse(s.metrics, ProjectsMetrics(doc, i))
    decreases |doc.children| - i
  {
    if i < |doc.children| {
      var p := doc.children[i];
      if p.name == "project" { ItemsMetricsFirst(s, p, None, 0); }
      ProjectsMetricsFirst(ParseProject(s, p), doc, i + 1);
    }
  }

  // ---------------------------------------------------------------------------
  // One document (parseXml)

  /** A root other than `coverage` changes neither files, lock, empty flag nor metrics. */
  lemma NonCoverageChangesNothing(s: AccState, doc: Elem)
    requires doc.name != "coverage"
    ensures ParseXml(s, doc) == s.(log := s.log + [Unexpected(doc.name)])
  {
  }

  /** An accepted document keeps the mode, clears the empty flag, locks lines in additive
      mode (and only there, or when they were locked already), and keeps the first metrics. */
  lemma {:induction false} ParseXmlFlags(s: AccState, doc: Elem)
    requires doc.name == "coverage"
    ensures ParseXml(s, doc).mode == s.mode
    ensures !ParseXml(s, doc).empty
    ensures ParseXml(s, doc).lockLines == (s.lockLines || s.mode == Additive)
    ensures ParseXml(s, doc).metrics == OrElse(s.metrics, ProjectsMetrics(doc, 0))
  {
    ProjectsFlags(s, doc, 0);
    ProjectsMetricsFirst(s, doc, 0);
  }

  /** Inclusive and additive modes: a document adds its named files and their lines (unless
      locked) and adds its counts to every line it keeps. */
  lemma {:induction false} ParseXmlAccumulates(s: AccState, doc: Elem, f: string, n: int)
    requires s.mode != Exclusive
    ensures Accumulates(s, ParseXml(s, doc), f, n, DocShare(doc, f, n))
  {
    if doc.name == "coverage" {
      ProjectsAccumulate(s, doc, 0, f, n);
      ProjectsFlags(s, doc, 0);
    }
  }

  /** Exclusive mode after the first document: the file names are exactly those from before
      the document, and no file already present gains a line number. */
  lemma {:induction false} ParseXmlExclusive(s: AccState, doc: Elem, f: string, n: int)
    requires s.mode == Exclusive && !s.empty
    ensures f in ParseXml(s, doc).files.values <==> f in s.files.values
    ensures f in s.files.values && n in LinesOf(ParseXml(s, doc), f).values ==> n in LinesOf(s, f).values
  {
    if doc.name == "coverage" {
      ProjectsFiles(s, doc, 0, f, n);
      ProjectsFlags(s, doc, 0);
    }
  }

  /** Every mode: a document can only add the files it names, and only while unlocked. */
  lemma {:induction false} ParseXmlFiles(s: AccState, doc: Elem, f: string, n: int)
    ensures f in ParseXml(s, doc).files.values ==> f in s.files.values || (!s.lockLines && DocShare(doc, f, n).named)
    ensures f in s.files.values && s.mode != Exclusive ==> f in ParseXml(s, doc).files.values
  {
    if doc.name == "coverage" {
      ProjectsFiles(s, doc, 0, f, n);
      ProjectsFlags(s, doc, 0);
    }
  }

  // ---------------------------------------------------------------------------
  // A run over many documents (parseAll)

  /** parseAll reads the documents strictly in order: one more document is one more parseXml. */
  lemma {:induction false} ParseAllAppend(s: AccState, docs: seq<Elem>, d: Elem)
    ensures ParseAll(s, docs + [d]) == ParseXml(ParseAll(s, docs), d)
    decreases |docs|
  {
    if docs != [] {
      assert (docs + [d])[1..] == docs[1..] + [d];
      ParseAllAppend(ParseXml(s, docs[0]), docs[1..], d);
    }
  }

  lemma {:induction false} ParseAllMode(s: AccState, docs: seq<Elem>)
    ensures ParseAll(s, docs).mode == s.mode
    ensures s.lockLines ==> ParseAll(s, docs).lockLines
    decreases |docs|
  {
    if docs != [] {
      if docs[0].name == "coverage" { ParseXmlFlags(s, docs[0]); }
      ParseAllMode(ParseXml(s, docs[0]), docs[1..]);
    }
  }

  /** Inclusive mode over a whole run: the files and line numbers are the union over all
      documents, and each line's count is the sum over all documents. */
  lemma {:induction false} InclusiveUnion(s: AccState, docs: seq<Elem>, f: string, n: int)
    requires s.mode == Inclusive && !s.lockLines
    ensures Accumulates(s, ParseAll(s, docs), f, n, DocsShare(docs, f, n))
    decreases |docs|
  {
    if docs != [] {
      var m := ParseXml(s, docs[0]);
      ParseXmlAccumulates(s, docs[0], f, n);
      if docs[0].name == "coverage" { ParseXmlFlags(s, docs[0]); }
      InclusiveUnion(m, docs[1..], f, n);
      AccumulatesTrans(s, m, ParseAll(m, docs[1..]), f, n, DocShare(docs[0], f, n), DocsShare(docs[1..], f, n));
    }
  }

  /** Additive mode, once lines are locked: later documents add no file and no line number;
      each present line's count grows by what the documents record for it. */
  lemma {:induction false} AdditiveLocked(s: AccState, docs: seq<Elem>, f: string, n: int)
    requires s.mode == Additive && s.lockLines
    ensures f in ParseAll(s, docs).files.values <==> f in s.files.values
    ensures n in LinesOf(ParseAll(s, docs), f).values <==> n in LinesOf(s, f).values
    ensures n in LinesOf(s, f).values ==>
              CountAt(LinesOf(ParseAll(s, docs), f), n) == CountAt(LinesOf(s, f), n) + DocsShare(docs, f, n).total
    decreases |docs|
  {
    if docs != [] {
      var m := ParseXml(s, docs[0]);
      ParseXmlAccumulates(s, docs[0], f, n);
      if docs[0].name == "coverage" { ParseXmlFlags(s, docs[0]); }
      AdditiveLocked(m, docs[1..], f, n);
    }
  }

  /** Additive mode: after the first accepted document, lines are locked for good. */
  lemma AdditiveLocksAfterFirst(s: AccState, docs: seq<Elem>, k: nat)
    requires s.mode == Additive && k < |docs| && docs[k].name == "coverage"
    ensures ParseAll(s, docs).lockLines
  {
    var before := ParseAll(s, docs[..k]);
    ParseAllSplit(s, docs, k);
    ParseXmlFlags(before, docs[k]);
    ParseAllMode(s, docs[..k]);
    ParseAllMode(ParseXml(before, docs[k]), docs[k + 1..]);
  }

  lemma {:induction false} ParseAllSplit(s: AccState, docs: seq<Elem>, k: nat)
    requires k < |docs|
    ensures ParseAll(s, docs) == ParseAll(ParseXml(ParseAll(s, docs[..k]), docs[k]), docs[k + 1..])
    decreases k
  {
    if k > 0 {
      ParseAllSplit(ParseXml(s, docs[0]), docs[1..], k - 1);
      assert docs[1..][..k - 1] == docs[1..k];
      assert docs[..k][1..] == docs[1..k];
      assert docs[1..][k - 1] == docs[k];
      assert docs[1..][k..] == docs[k + 1..];
    } else {
      assert docs[..0] == [];
      assert docs[1..] == docs[k + 1..];
    }
  }

  /** Exclusive mode past the first document: the set of file names never changes again. */
  lemma {:induction false} ExclusiveKeepsFiles(s: AccState, docs: seq<Elem>, f: string)
    requires s.mode == Exclusive && !s.empty
    ensures f in ParseAll(s, docs).files.values <==> f in s.files.values
    decreases |docs|
  {
    if docs != [] {
      var m := ParseXml(s, docs[0]);
      ParseXmlExclusive(s, docs[0], f, 0);
      if docs[0].name == "coverage" { ParseXmlFlags(s, docs[0]); }
      ExclusiveKeepsFiles(m, docs[1..], f);
    }
  }

  /** Only the first metrics element of a run is kept. */
  lemma MetricsFirstWins(s: AccState, doc: Elem)
    requires s.metrics.Some?
    ensures ParseXml(s, doc).metrics == s.metrics
  {
    if doc.name == "coverage" { ParseXmlFlags(s, doc); }
  }
}
