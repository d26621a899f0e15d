/** What Document's parse and build promise: build lays out exactly the sorted items under
    the package grouping rules, and parseSet computes the same files and metrics as the
    Accumulator in inclusive mode, as long as no file is called `metrics`. That name is
    shared between the files and the project metrics, and the two collision cases are
    stated as they behave. */
module DocumentProperties {
  import opened Wrappers
  import opened OrderedMaps
  import opened Xml
  import opened CloverFile
  import CloverMetrics
  import KeySort
  import AccumulatorModel
  import opened PackageGrouping
  import opened DocumentModel

  type AccState = AccumulatorModel.AccState

  // ---------------------------------------------------------------------------
  // build

  /** build writes one entry per item in ascending key order, each file as a file element
      under its own name and the metrics as a metrics element, and groups them as toXml does. */
  lemma BuildFacts(items: OMap<string, Item>)
    ensures var sorted := KeySort.KSort(items); var es := ItemEntries(sorted);
      && KeySort.Ascending(sorted.keys)
      && (forall k :: k in sorted.keys <==> k in items.keys)
      && |es| == |items.keys|
      && (forall i :: 0 <= i < |es| ==> es[i] == EntryOf(sorted.keys[i], items.values[sorted.keys[i]]))
      && Grouped(es, Group(es))
  {
    var sorted := KeySort.KSort(items);
    SizeIsKeyCount(items);
    SizeIsKeyCount(sorted);
    GroupGrouped(ItemEntries(sorted));
  }

  // ---------------------------------------------------------------------------
  // The name collision on `metrics`

  /** A file called `metrics` met after the project metrics is merged into the metrics
      entry, which has no merge method: the parse stops. */
  lemma FileAfterMetricsFails(d: DocState, e: Elem, pkg: Option<string>)
    requires e.name == "file" && AccumulatorModel.NameOf(e) == Some(MetricsKey)
    requires MetricsKey in d.items.values && d.items.values[MetricsKey].MetricsItem?
    ensures DocumentModel.ParseItem(d, e, pkg) == Failure(MergeIntoMetrics(MetricsKey))
  {
  }

  /** Project metrics met while the key is taken, by earlier metrics or by a file called
      `metrics`, change nothing. */
  lemma MetricsAfterKeyTakenIgnored(d: DocState, e: Elem, pkg: Option<string>)
    requires e.name == "metrics" && MetricsKey in d.items.values
    ensures DocumentModel.ParseItem(d, e, pkg) == Success(d)
  {
  }

  // ---------------------------------------------------------------------------
  // Agreement with the Accumulator

  /** No file element anywhere in the tree is named `metrics`. */
  predicate NoMetricsFile(e: Elem)
    decreases e
  {
    && !(e.name == "file" && AccumulatorModel.NameOf(e) == Some(MetricsKey))
    && forall i :: 0 <= i < |e.children| ==> NoMetricsFile(e.children[i])
  }

  /** The files of an items map, under their names. */
  function FilesOf(values: map<string, Item>): map<string, FileState> {
    map k | k in values && values[k].FileItem? :: values[k].file
  }

  /** The metrics of an items map: the item under `metrics`, when it holds metrics. */
  function MetricsOf(values: map<string, Item>): Option<CloverMetrics.Metrics> {
    if MetricsKey in values && values[MetricsKey].MetricsItem? then Some(values[MetricsKey].metrics) else None
  }

  /** A files map and metrics hold the same as an items map: the same files in the same
      order, and the same metrics; the items map holds nothing else. */
  ghost predicate Mirrors(files: OMap<string, FileState>, metrics: Option<CloverMetrics.Metrics>, items: OMap<string, Item>) {
    && (forall f :: f in items.values && f != MetricsKey ==> items.values[f].FileItem?)
    && (MetricsKey in items.values ==> items.values[MetricsKey].MetricsItem?)
    && files.values == FilesOf(items.values)
    && metrics == MetricsOf(items.values)
    && files.keys == KeepIn(items.keys, FilesOf(items.values).Keys)
  }

  /** An accumulator in inclusive, unlocked mode holds what an items map holds. */
  ghost predicate Agrees(a: AccState, d: DocState) {
    a.mode == Inclusive && !a.lockLines && Mirrors(a.files, a.metrics, d.items)
  }

  /** KeepIn only looks at the elements of the sequence. */
  lemma {:induction false} KeepInSame(s: seq<string>, p: set<string>, q: set<string>)
    requires forall x :: x in s ==> (x in p <==> x in q)
    ensures KeepIn(s, p) == KeepIn(s, q)
  {
    if s != [] {
      assert forall x :: x in s[1..] ==> x in s;
      KeepInSame(s[1..], p, q);
    }
  }

  /** A new key appended to the order is kept exactly when it is in the new set. */
  lemma KeepInAppendNew(s: seq<string>, p: set<string>, q: set<string>, k: string)
    requires k !in s && forall x :: x in s ==> (x in p <==> x in q)
    ensures KeepIn(s + [k], q) == KeepIn(s, p) + (if k in q then [k] else [])
  {
    KeepInAppend(s, [k], q);
    KeepInSame(s, p, q);
    assert [k][1..] == [];
  }

  lemma FilesOfPut(values: map<string, Item>, name: string, f: FileState)
    ensures FilesOf(values[name := FileItem(f)]) == FilesOf(values)[name := f]
  {
  }

  lemma FilesOfPutMetrics(values: map<string, Item>, m: CloverMetrics.Metrics)
    requires MetricsKey !in values
    ensures FilesOf(values[MetricsKey := MetricsItem(m)]) == FilesOf(values)
  {
  }

  /** Storing a file under a name, other than `metrics`, that neither side holds yet keeps
      them mirrored: both append the name to their order. */
  lemma PutNewFileMirrors(files: OMap<string, FileState>, metrics: Option<CloverMetrics.Metrics>, items: OMap<string, Item>, name: string, f: FileState)
    requires Mirrors(files, metrics, items) && name != MetricsKey && name !in files.values
    ensures Mirrors(Put(files, name, f), metrics, Put(items, name, FileItem(f)))
  {
    var values := items.values[name := FileItem(f)];
    assert name !in items.values;
    FilesOfPut(items.values, name, f);
    assert MetricsOf(values) == metrics;
    KeepInAppendNew(items.keys, FilesOf(items.values).Keys, FilesOf(values).Keys, name);
    assert KeepIn(items.keys + [name], FilesOf(values).Keys) == files.keys + [name];
  }

  /** Replacing the file held under a name on both sides keeps them mirrored: neither order
      changes. */
  lemma PutHeldFileMirrors(files: OMap<string, FileState>, metrics: Option<CloverMetrics.Metrics>, items: OMap<string, Item>, name: string, f: FileState)
    requires Mirrors(files, metrics, items) && name in files.values
    ensures Mirrors(Put(files, name, f), metrics, Put(items, name, FileItem(f)))
  {
    var values := items.values[name := FileItem(f)];
    assert name != MetricsKey;
    FilesOfPut(items.values, name, f);
    assert FilesOf(values).Keys == FilesOf(items.values).Keys;
  }

  /** One file element: both sides merge into or add the same file under the same name. */
  lemma FileAgrees(a: AccState, d: DocState, e: Elem, pkg: Option<string>)
    requires Agrees(a, d) && e.name == "file" && AccumulatorModel.NameOf(e) != Some(MetricsKey)
    ensures DocumentModel.ParseItem(d, e, pkg).Success?
    ensures Agrees(AccumulatorModel.ParseItem(a, e, pkg), DocumentModel.ParseItem(d, e, pkg).value)
  {
    if AccumulatorModel.NameOf(e).Some? {
      var name := AccumulatorModel.NameOf(e).value;
      var parsed := FileFromXml(e, pkg);
      var f := if name in a.files.values then MergeState(a.files.values[name], parsed.file, Inclusive, false)
               else parsed.file;
      assert AccumulatorModel.ParseItem(a, e, pkg) == a.(files := Put(a.files, name, f), log := a.log + parsed.log);
      assert DocumentModel.ParseItem(d, e, pkg) == Success(DocState(Put(d.items, name, FileItem(f)), d.log + parsed.log));
      if name in a.files.values {
        PutHeldFileMirrors(a.files, a.metrics, d.items, name, f);
      } else {
        PutNewFileMirrors(a.files, a.metrics, d.items, name, f);
      }
    }
  }

  /** Storing the first metrics on both sides keeps them mirrored: the items map appends the
      key `metrics`, which holds no file. */
  lemma PutMetricsMirrors(files: OMap<string, FileState>, items: OMap<string, Item>, m: CloverMetrics.Metrics)
    requires Mirrors(files, None, items)
    ensures Mirrors(files, Some(m), Put(items, MetricsKey, MetricsItem(m)))
  {
    var values := items.values[MetricsKey := MetricsItem(m)];
    assert MetricsKey !in items.values;
    FilesOfPutMetrics(items.values, m);
    assert MetricsOf(values) == Some(m);
    KeepInAppendNew(items.keys, FilesOf(items.values).Keys, FilesOf(values).Keys, MetricsKey);
    assert KeepIn(items.keys + [MetricsKey], FilesOf(values).Keys) == files.keys;
  }

  /** One metrics element: both sides keep the first metrics. */
  lemma MetricsAgrees(a: AccState, d: DocState, e: Elem, pkg: Option<string>)
    requires Agrees(a, d) && e.name == "metrics"
    ensures DocumentModel.ParseItem(d, e, pkg).Success?
    ensures Agrees(AccumulatorModel.ParseItem(a, e, pkg), DocumentModel.ParseItem(d, e, pkg).value)
  {
    var m := CloverMetrics.FromXml(e);
    if a.metrics.None? {
      assert AccumulatorModel.ParseItem(a, e, pkg) == a.(metrics := Some(m));
      assert DocumentModel.ParseItem(d, e, pkg) == Success(d.(items := Put(d.items, MetricsKey, MetricsItem(m))));
      PutMetricsMirrors(a.files, d.items, m);
    } else {
      assert AccumulatorModel.ParseItem(a, e, pkg) == a;
      assert DocumentModel.ParseItem(d, e, pkg) == Success(d);
    }
  }

  lemma {:induction false} ItemAgrees(a: AccState, d: DocState, e: Elem, pkg: Option<string>)
    requires Agrees(a, d) && NoMetricsFile(e)
    ensures DocumentModel.ParseItem(d, e, pkg).Success?
    ensures Agrees(AccumulatorModel.ParseItem(a, e, pkg), DocumentModel.ParseItem(d, e, pkg).value)
    decreases e, 1, 0
  {
    if e.name == "package" {
      var name := AccumulatorModel.NameOf(e);
      var a' := if name.Some? then a else a.(log := a.log + [AccumulatorModel.PackageWithoutName]);
      var d' := if name.Some? then d else d.(log := d.log + [AccumulatorModel.PackageWithoutName]);
      ItemsAgree(a', d', e, name, 0);
    } else if e.name == "file" {
      FileAgrees(a, d, e, pkg);
    } else if e.name == "metrics" {
      MetricsAgrees(a, d, e, pkg);
    }
  }

  lemma {:induction false} ItemsAgree(a: AccState, d: DocState, parent: Elem, pkg: Option<string>, i: nat)
    requires Agrees(a, d) && NoMetricsFile(parent) && i <= |parent.children|
    ensures DocumentModel.ParseItems(d, parent, pkg, i).Success?
    ensures Agrees(AccumulatorModel.ParseItems(a, parent, pkg, i), DocumentModel.ParseItems(d, parent, pkg, i).value)
    decreases parent, 0, |parent.children| - i
  {
    if i < |parent.children| {
      var e := parent.children[i];
      ItemAgrees(a, d, e, pkg);
      ItemsAgree(AccumulatorModel.ParseItem(a, e, pkg), DocumentModel.ParseItem(d, e, pkg).value, parent, pkg, i + 1);
    }
  }

  lemma {:induction false} ProjectsAgree(a: AccState, d: DocState, doc: Elem, i: nat)
    requires Agrees(a, d) && NoMetricsFile(doc) && i <= |doc.children|
    ensures DocumentModel.ParseProjects(d, doc, i).Success?
    ensures Agrees(AccumulatorModel.ParseProjects(a, doc, i), DocumentModel.ParseProjects(d, doc, i).value)
    decreases |doc.children| - i
  {
    if i < |doc.children| {
      var p := doc.children[i];
      if p.name != "project" {
        ProjectsAgree(a.(log := a.log + [AccumulatorModel.Unexpected(p.name)]),
                      d.(log := d.log + [Unknown(p.name)]), doc, i + 1);
      } else {
        ItemsAgree(a, d, p, None, 0);
        ProjectsAgree(AccumulatorModel.ParseItems(a, p, None, 0), DocumentModel.ParseItems(d, p, None, 0).value, doc, i + 1);
      }
    }
  }

  lemma {:induction false} DocsAgree(a: AccState, d: DocState, docs: seq<Elem>)
    requires Agrees(a, d) && forall i :: 0 <= i < |docs| ==> NoMetricsFile(docs[i])
    ensures DocumentModel.ParseDocs(d, docs).Success?
    ensures Agrees(AccumulatorModel.ParseAll(a, docs), DocumentModel.ParseDocs(d, docs).value)
    decreases |docs|
  {
    if docs != [] {
      var doc := docs[0];
      var a' := AccumulatorModel.ParseXml(a, doc);
      if doc.name == "coverage" {
        ProjectsAgree(a, d, doc, 0);
      }
      assert Agrees(a', DocumentModel.ParseDocument(d, doc).value);
      DocsAgree(a', DocumentModel.ParseDocument(d, doc).value, docs[1..]);
    }
  }

  /** A new inclusive Accumulator and the empty items map agree. */
  lemma InitialAgrees()
    ensures Agrees(AccumulatorModel.Initial(Inclusive), Start())
  {
    var items: OMap<string, Item> := Empty();
    assert FilesOf(items.values) == map[];
    assert KeepIn(items.keys, {}) == [];
  }

  /** parseSet and an inclusive Accumulator read the same documents into the same files,
      merged the same way and listed in the same order, and keep the same first metrics,
      when no file is named `metrics`. Their warnings differ in wording. */
  lemma ParseSetAgrees(docs: seq<Elem>)
    requires forall i :: 0 <= i < |docs| ==> NoMetricsFile(docs[i])
    ensures DocumentModel.ParseSet(docs).Success?
    ensures Agrees(AccumulatorModel.ParseAll(AccumulatorModel.Initial(Inclusive), docs), DocumentModel.ParseSet(docs).value)
  {
    InitialAgrees();
    DocsAgree(AccumulatorModel.Initial(Inclusive), Start(), docs);
  }
}
