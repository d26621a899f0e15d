/** Document: the static functions that read a set of coverage documents into one map of
    items and write a map of items out as a project. The items map, which the source passes
    by reference and updates in place, is threaded through as a value together with the log. */
module CloverDocument {
  import opened Wrappers
  import opened OrderedMaps
  import opened Xml
  import opened CloverFile
  import CloverMetrics
  import KeySort
  import AccumulatorModel
  import opened PackageGrouping
  import opened DocumentModel

  /** Document::parseSet: the documents are reduced, in order, over an initially empty map. */
  method ParseSet(docs: seq<Elem>) returns (r: Result<DocState, Fault>)
    ensures r == DocumentModel.ParseSet(docs)
  {
    var s := Start();
    for i := 0 to |docs|
      invariant ParseDocs(s, docs[i..]) == DocumentModel.ParseSet(docs)
    {
      var doc := docs[i];
      assert docs[i..][1..] == docs[i + 1..];
      if doc.name == "coverage" {
        ghost var s0 := s;
        for j := 0 to |doc.children|
          invariant ParseProjects(s, doc, j) == ParseProjects(s0, doc, 0)
        {
          var project := doc.children[j];
          if project.name != "project" {
            s := s.(log := s.log + [Unknown(project.name)]);
          } else {
            var t := ParseItems(s, project, None);
            if t.Failure? {
              return t;
            }
            s := t.value;
          }
        }
      }
    }
    r := Success(s);
  }

  /** Document::parseItems over the children of `parent`, new files taking the package name
      `pkg`. */
  method ParseItems(s: DocState, parent: Elem, pkg: Option<string>) returns (r: Result<DocState, Fault>)
    ensures r == DocumentModel.ParseItems(s, parent, pkg, 0)
    decreases parent
  {
    var t := s;
    for i := 0 to |parent.children|
      invariant DocumentModel.ParseItems(t, parent, pkg, i) == DocumentModel.ParseItems(s, parent, pkg, 0)
    {
      var e := parent.children[i];
      if e.name == "package" {
        if !HasAttributes(e, ["name"]) {
          t := t.(log := t.log + [AccumulatorModel.PackageWithoutName]);
        }
        var inner := ParseItems(t, e, AccumulatorModel.NameOf(e));
        if inner.Failure? {
          return inner;
        }
        t := inner.value;
      } else if e.name == "file" {
        if !HasAttributes(e, ["name"]) {
          t := t.(log := t.log + [AccumulatorModel.FileWithoutName]);
        } else {
          assert "name" in ["name"];
          var name := e.attributes.values["name"];
          assert AccumulatorModel.NameOf(e) == Some(name);
          var file, fileLog := File.FromXml(e, pkg);
          var parsed := file.State();
          assert FileFromXml(e, pkg) == Parse(parsed, fileLog);
          if name in t.items.values {
            if t.items.values[name].MetricsItem? {
              return Failure(MergeIntoMetrics(name));
            }
            var merged := MergeState(t.items.values[name].file, parsed, Inclusive, false);
            t := DocState(Put(t.items, name, FileItem(merged)), t.log + fileLog);
          } else {
            t := DocState(Put(t.items, name, FileItem(parsed)), t.log + fileLog);
          }
        }
      } else if e.name == "metrics" {
        var m := CloverMetrics.FromXml(e);
        if MetricsKey !in t.items.values {
          t := t.(items := Put(t.items, MetricsKey, MetricsItem(m)));
        }
      } else {
        t := t.(log := t.log + [Unknown(e.name)]);
      }
    }
    r := Success(t);
  }

  /** Document::build: the items are put in ascending key order, then walked in that order;
      files are grouped under package elements as in toXml, and the metrics entry is written
      where its key falls. */
  method Build(items: OMap<string, Item>) returns (sorted: OMap<string, Item>, project: seq<ProjectItem>)
    ensures sorted == KeySort.KSort(items)
    ensures project == Group(ItemEntries(sorted))
  {
    sorted := KeySort.KSort(items);
    ghost var es := ItemEntries(sorted);
    var packages: map<string, nat> := map[];
    project := [];
    for i := 0 to |sorted.keys|
      invariant project == Group(es[..i])
      invariant IndexAgrees(project, packages)
    {
      var name := sorted.keys[i];
      var entry := match sorted.values[name]
        case FileItem(f) => FileEntry(FileOut(name, f))
        case MetricsItem(m) => MetricsEntry(m);
      assert es[..i + 1][..i] == es[..i] && es[..i + 1][i] == entry;
      project, packages := PlaceEntry(project, packages, entry);
    }
    assert es[..|sorted.keys|] == es;
  }
}
