/** Accumulator: the parsing context that walks documents in order and merges their files
    under one merge mode, then writes the merged project out. */
module CloverAccumulator {
  import opened Wrappers
  import opened OrderedMaps
  import opened Xml
  import opened CloverFile
  import CloverMetrics
  import KeySort
  import opened AccumulatorModel
  import opened PackageGrouping

  /** The entries of a files map, in its iteration order. */
  function FileEntries(files: OMap<string, FileState>): (es: seq<Entry>)
    ensures |es| == |files.keys|
    ensures forall i :: 0 <= i < |es| ==> es[i] == FileEntry(FileOut(files.keys[i], files.values[files.keys[i]]))
  {
    seq(|files.keys|, i requires 0 <= i < |files.keys| => FileEntry(FileOut(files.keys[i], files.values[files.keys[i]])))
  }

  /** The children of the project element toXml writes for a state whose files are sorted. */
  function ProjectOf(s: AccState): seq<ProjectItem> {
    Group(FileEntries(s.files)) + (if s.metrics.Some? then [ProjectMetrics(s.metrics.value)] else [])
  }

  /** The project written out lists every file exactly where the grouping rules put it, in
      ascending name order, and ends with the stored metrics. */
  lemma ProjectFacts(s: AccState)
    requires KeySort.Ascending(s.files.keys)
    ensures var es := FileEntries(s.files);
      && Grouped(es, Group(es))
      && (forall i, j :: 0 <= i < j < |es| ==> KeySort.Less(es[i].out.name, es[j].out.name))
      && (s.metrics.Some? <==> |ProjectOf(s)| > 0 && ProjectOf(s)[|ProjectOf(s)| - 1].ProjectMetrics?)
  {
    var es := FileEntries(s.files);
    GroupGrouped(es);
    var g := Group(es);
    if |g| > 0 && s.metrics.None? {
      assert ProjectOf(s) == g;
      assert !g[|g| - 1].ProjectMetrics? by {
        NoMetricsFromFiles(es);
      }
    }
  }

  /** Grouping only file entries yields no metrics child. */
  lemma {:induction false} NoMetricsFromFiles(es: seq<Entry>)
    requires forall i :: 0 <= i < |es| ==> es[i].FileEntry?
    ensures forall j :: 0 <= j < |Group(es)| ==> !Group(es)[j].ProjectMetrics?
  {
    if es != [] {
      var n := |es| - 1;
      NoMetricsFromFiles(es[..n]);
      var items := Group(es[..n]);
      var f := es[n].out;
      if f.file.packageName.Some? && PackageIndex(items, f.file.packageName.value).Some? {
        var k := PackageIndex(items, f.file.packageName.value).value;
        assert Group(es) == items[k := Package(f.file.packageName.value, items[k].files + [f])];
      }
    }
  }

  class Accumulator {
    const mergeMode: MergeMode
    var lockLines: bool
    var empty: bool
    /** Each file's classes, lines and package name, under its name, in insertion order. */
    var files: OMap<string, FileState>
    var metrics: Option<Metrics>
    /** The warnings logged so far. */
    var log: seq<string>

    /** The fields as one value. */
    ghost function Abs(): AccState
      reads this
    {
      AccState(mergeMode, lockLines, empty, files, metrics, log)
    }

    /** Accumulator::__construct */
    constructor (mode: MergeMode)
      ensures Abs() == Initial(mode)
    {
      mergeMode := mode;
      lockLines := false;
      empty := true;
      files := Empty();
      metrics := None;
      log := [];
    }

    /** Accumulator::getFileCount: the number of files accumulated. */
    function FileCount(): (n: nat)
      reads this
      ensures n == |files.values|
    {
      SizeIsKeyCount(files);
      |files.keys|
    }

    /** Accumulator::parseAll */
    method ParseAll(docs: seq<Elem>)
      modifies this
      ensures Abs() == AccumulatorModel.ParseAll(old(Abs()), docs)
    {
      for i := 0 to |docs|
        invariant AccumulatorModel.ParseAll(Abs(), docs[i..]) == AccumulatorModel.ParseAll(old(Abs()), docs)
      {
        assert docs[i..][1..] == docs[i + 1..];
        ParseXml(docs[i]);
      }
    }

    /** Accumulator::parseXml */
    method ParseXml(doc: Elem)
      modifies this
      ensures Abs() == AccumulatorModel.ParseXml(old(Abs()), doc)
    {
      var preexisting := files.values.Keys;
      if doc.name != "coverage" {
        log := log + [Unexpected(doc.name)];
        return;
      }
      for i := 0 to |doc.children|
        invariant AccumulatorModel.ParseProjects(Abs(), doc, i) == AccumulatorModel.ParseProjects(old(Abs()), doc, 0)
      {
        ParseProject(doc.children[i]);
      }
      if mergeMode == Additive {
        lockLines := true;
      } else if mergeMode == Exclusive && !empty {
        files := Restrict(files, preexisting);
      }
      empty := false;
    }

    /** Accumulator::parseProject */
    method ParseProject(e: Elem)
      modifies this
      ensures Abs() == AccumulatorModel.ParseProject(old(Abs()), e)
    {
      if e.name != "project" {
        log := log + [Unexpected(e.name)];
        return;
      }
      ParseItems(e, None);
    }

    /** Accumulator::parseItems over the children of `parent`. */
    method ParseItems(parent: Elem, pkg: Option<string>)
      modifies this
      ensures Abs() == AccumulatorModel.ParseItems(old(Abs()), parent, pkg, 0)
      decreases parent, 0, |parent.children|
    {
      for i := 0 to |parent.children|
        invariant AccumulatorModel.ParseItems(Abs(), parent, pkg, i) == AccumulatorModel.ParseItems(old(Abs()), parent, pkg, 0)
      {
        ParseItem(parent.children[i], pkg);
      }
    }

    /** Accumulator::parseItem */
    method ParseItem(e: Elem, pkg: Option<string>)
      modifies this
      ensures Abs() == AccumulatorModel.ParseItem(old(Abs()), e, pkg)
      decreases e, 1, 0
    {
      if e.name == "package" {
        if !HasAttributes(e, ["name"]) {
          log := log + [PackageWithoutName];
        }
        ParseItems(e, NameOf(e));
      } else if e.name == "file" {
        ParseFile(e, pkg);
      } else if e.name == "metrics" {
        var m := CloverMetrics.FromXml(e);
        if metrics.None? {
          metrics := Some(m);
        }
      } else {
        log := log + [Unexpected(e.name)];
      }
    }

    /** Accumulator::parseFile: the file is read with File::fromXML and its warnings logged;
        a held name absorbs it with File::merge, a new one stores it unless lines are locked. */
    method ParseFile(e: Elem, pkg: Option<string>)
      modifies this
      ensures Abs() == AccumulatorModel.ParseFile(old(Abs()), e, pkg)
    {
      if !HasAttributes(e, ["name"]) {
        log := log + [FileWithoutName];
        return;
      }
      assert "name" in ["name"];
      var name := e.attributes.values["name"];
      assert NameOf(e) == Some(name);
      var file, fileLog := File.FromXml(e, pkg);
      var parsed := file.State();
      assert FileFromXml(e, pkg) == Parse(parsed, fileLog);
      log := log + fileLog;
      if name in files.values {
        files := Put(files, name, MergeState(files.values[name], parsed, mergeMode, lockLines));
      } else if !lockLines {
        files := Put(files, name, parsed);
      }
    }

    /** Accumulator::toXml: the files are put in ascending name order in place, then grouped
        under package elements, and the stored metrics close the project. */
    method ToXml() returns (project: seq<ProjectItem>)
      modifies this
      ensures Abs() == old(Abs()).(files := KeySort.KSort(old(Abs()).files))
      ensures project == ProjectOf(Abs())
    {
      files := KeySort.KSort(files);
      project := GroupFiles(files);
      if metrics.Some? {
        project := project + [ProjectMetrics(metrics.value)];
      }
    }
  }

  /** The grouping loop of Accumulator::toXml: a file without a package name becomes a child
      of the project, a file with one joins the package element opened by the first file of
      that package. */
  method GroupFiles(files: OMap<string, FileState>) returns (project: seq<ProjectItem>)
    ensures project == Group(FileEntries(files))
  {
    ghost var es := FileEntries(files);
    var packages: map<string, nat> := map[];
    project := [];
    for i := 0 to |files.keys|
      invariant project == Group(es[..i])
      invariant IndexAgrees(project, packages)
    {
      var out := FileOut(files.keys[i], files.values[files.keys[i]]);
      assert es[..i + 1][..i] == es[..i] && es[..i + 1][i] == FileEntry(out);
      project, packages := PlaceEntry(project, packages, FileEntry(out));
    }
    assert es[..|files.keys|] == es;
  }
}
